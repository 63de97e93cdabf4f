/**
 * Whitespace trimming as `String.prototype.trim` does it: the characters removed
 * at both ends are ECMAScript's WhiteSpace (tab, vertical tab, form feed, space,
 * no-break space, byte order mark and the Unicode space separators) and
 * LineTerminator (line feed, carriage return, line and paragraph separators).
 */
module Text {

  const Whitespace: set<char> := {
    '\t', '\U{000B}', '\U{000C}', ' ', '\U{00A0}', '\U{FEFF}',
    '\U{1680}', '\U{2000}', '\U{2001}', '\U{2002}', '\U{2003}', '\U{2004}', '\U{2005}',
    '\U{2006}', '\U{2007}', '\U{2008}', '\U{2009}', '\U{200A}', '\U{202F}', '\U{205F}', '\U{3000}',
    '\n', '\r', '\U{2028}', '\U{2029}'
  }

  predicate IsSpace(c: char) {
    c in Whitespace
  }

  /** Every character of `s` at an index in [lo, hi) is whitespace. */
  predicate SpaceBetween(s: string, lo: int, hi: int)
    requires 0 <= lo && hi <= |s|
  {
    forall i :: lo <= i < hi ==> IsSpace(s[i])
  }

  /** The end of the run of whitespace that starts at index `i`. */
  function SpaceRunEnd(s: string, i: nat): (n: nat)
    requires i <= |s|
    ensures i <= n <= |s| && SpaceBetween(s, i, n)
    ensures n == |s| || !IsSpace(s[n])
    decreases |s| - i
  {
    if i < |s| && IsSpace(s[i]) then SpaceRunEnd(s, i + 1) else i
  }

  /** The start of the run of whitespace that ends at index `j`, scanning no lower than `lo`. */
  function SpaceRunStart(s: string, lo: nat, j: nat): (m: nat)
    requires lo <= j <= |s|
    ensures lo <= m <= j && SpaceBetween(s, m, j)
    ensures m == lo || !IsSpace(s[m - 1])
    decreases j
  {
    if lo < j && IsSpace(s[j - 1]) then SpaceRunStart(s, lo, j - 1) else j
  }

  /**
   * `s.trim()`: what is left once all whitespace at either end is gone. It is
   * empty exactly when `s` is all whitespace, which is what makes the trimmed
   * input falsy in the submit guard.
   */
  function Trim(s: string): (r: string)
    ensures r == [] || (!IsSpace(r[0]) && !IsSpace(r[|r| - 1]))
    ensures r == [] <==> SpaceBetween(s, 0, |s|)
  {
    var lo := SpaceRunEnd(s, 0);
    var hi := SpaceRunStart(s, lo, |s|);
    assert hi == lo ==> SpaceBetween(s, 0, |s|) by {
      if hi == lo {
        // no non-space character after the leading run, so it spans all of `s`
        assert lo == |s|;
      }
    }
    s[lo..hi]
  }

  /** The trimmed text is a slice of `s` flanked by whitespace only. */
  lemma TrimSlice(s: string)
    ensures var r, lo := Trim(s), SpaceRunEnd(s, 0);
      lo + |r| <= |s| && r == s[lo..lo + |r|] && SpaceBetween(s, 0, lo) && SpaceBetween(s, lo + |r|, |s|)
  {
  }

  /** A text with no whitespace at either end is its own trim. */
  lemma TrimOfTrimmed(s: string)
    requires s == [] || (!IsSpace(s[0]) && !IsSpace(s[|s| - 1]))
    ensures Trim(s) == s
  {
    assert SpaceRunEnd(s, 0) == 0;
    assert SpaceRunStart(s, 0, |s|) == |s|;
  }

  /** Trimming an already trimmed text changes nothing. */
  lemma TrimIdempotent(s: string)
    ensures Trim(Trim(s)) == Trim(s)
  {
    TrimOfTrimmed(Trim(s));
  }
}
