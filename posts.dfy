/**
 * The post record and the pure list transforms the board applies to its
 * newest-first list of posts: prepend on create, an in-place map on commit-edit,
 * a filter on delete, a first-match search on begin-edit, and rendering.
 */
module Posts {
  import opened Wrappers
  import opened Media

  /**
   * A post as stored: `id` is the creation timestamp in milliseconds, `fileType`
   * the recognised kind of its attachment (none when there is no attachment or
   * its type was not recognised), `fileUrl` the object URL of the attachment.
   */
  datatype Post = Post(id: int, text: string, fileType: Option<MediaKind>, fileUrl: Option<string>)

  /** The record built by submit when no edit is in progress. */
  function NewPost(id: int, text: string, file: Option<File>, url: string): (p: Post)
    ensures p.id == id && p.text == text
    ensures p.fileUrl.Some? <==> file.Some?
    ensures p.fileUrl.Some? ==> p.fileUrl.value == url
    ensures p.fileType.Some? ==> file.Some? && p.fileType == Classify(file.value.mimeType)
    ensures file.Some? ==> p.fileType == Classify(file.value.mimeType)
  {
    Post(id, text, AttachmentKind(file), if file.Some? then Some(url) else None)
  }

  /** The spread `{...post, text, fileType, fileUrl}` applied to an edited post. */
  function Revise(post: Post, text: string, file: Option<File>, url: string): (r: Post)
    ensures r.id == post.id && r.text == text
    ensures file.None? ==> r.fileType == post.fileType && r.fileUrl == post.fileUrl
    ensures file.Some? ==> r.fileType == Classify(file.value.mimeType) && r.fileUrl == Some(url)
  {
    post.(text := text,
          fileType := if file.Some? then AttachmentKind(file) else post.fileType,
          fileUrl := if file.Some? then Some(url) else post.fileUrl)
  }

  /**
   * Commit of an edit: every post carrying `id` gets the new text and, when a
   * file is attached, the new attachment; every other post stays as it was.
   */
  function CommitEdit(posts: seq<Post>, id: int, text: string, file: Option<File>, url: string): (r: seq<Post>)
    ensures |r| == |posts|
    ensures forall i :: 0 <= i < |posts| && posts[i].id != id ==> r[i] == posts[i]
    ensures forall i :: 0 <= i < |posts| && posts[i].id == id ==>
      r[i].id == id && r[i].text == text &&
      (file.None? ==> r[i].fileType == posts[i].fileType && r[i].fileUrl == posts[i].fileUrl) &&
      (file.Some? ==> r[i].fileType == Classify(file.value.mimeType) && r[i].fileUrl == Some(url))
  {
    if posts == [] then []
    else
      [if posts[0].id == id then Revise(posts[0], text, file, url) else posts[0]]
      + CommitEdit(posts[1..], id, text, file, url)
  }

  /** The posts whose id differs from `id`, in their original order. */
  function Remove(posts: seq<Post>, id: int): (r: seq<Post>)
    ensures |r| <= |posts|
    ensures forall i :: 0 <= i < |r| ==> r[i].id != id
  {
    if posts == [] then []
    else if posts[0].id == id then Remove(posts[1..], id)
    else [posts[0]] + Remove(posts[1..], id)
  }

  /** `posts.find`: the first post carrying `id`, if any. */
  function Find(posts: seq<Post>, id: int): (r: Option<Post>)
    ensures r.None? <==> forall i :: 0 <= i < |posts| ==> posts[i].id != id
    ensures r.Some? ==> exists i :: 0 <= i < |posts| && posts[i] == r.value && IsFirst(posts, id, i)
  {
    if posts == [] then None
    else if posts[0].id == id then (assert IsFirst(posts, id, 0); Some(posts[0]))
    else
      var r := Find(posts[1..], id);
      if r.Some? then FirstInTail(posts, id, r.value); r else r
  }

  /** A first match in the tail, behind a head that does not match, is a first match of the whole list. */
  lemma FirstInTail(posts: seq<Post>, id: int, p: Post)
    requires posts != [] && posts[0].id != id
    requires exists j :: 0 <= j < |posts| - 1 && posts[1..][j] == p && IsFirst(posts[1..], id, j)
    ensures exists i :: 0 <= i < |posts| && posts[i] == p && IsFirst(posts, id, i)
  {
    var j :| 0 <= j < |posts| - 1 && posts[1..][j] == p && IsFirst(posts[1..], id, j);
    assert IsFirst(posts, id, j + 1);
  }

  /** Index `i` holds the first post carrying `id`. */
  ghost predicate IsFirst(posts: seq<Post>, id: int, i: int) {
    0 <= i < |posts| && posts[i].id == id && forall j :: 0 <= j < i ==> posts[j].id != id
  }

  /**
   * `renderMedia`: nothing unless the post has both a kind and a non-empty URL
   * (an empty string is falsy), otherwise the element of that kind showing it.
   */
  function RenderMedia(post: Post): (r: Option<MediaElement>)
    ensures r.Some? <==> post.fileType.Some? && post.fileUrl.Some? && post.fileUrl.value != ""
    ensures r.Some? ==> r.value.kind == post.fileType.value && r.value.src == post.fileUrl.value
  {
    match (post.fileType, post.fileUrl)
    case (Some(kind), Some(url)) => if url == "" then None else Some(MediaElement(kind, url))
    case _ => None
  }

  /** No two posts of the list share an id. */
  predicate UniqueIds(posts: seq<Post>) {
    forall i, j :: 0 <= i < j < |posts| ==> posts[i].id != posts[j].id
  }

  /** `a` is `b` with some elements left out, the rest kept in order. */
  predicate IsSubsequence<T(==)>(a: seq<T>, b: seq<T>)
    decreases |b|
  {
    a == [] || (b != [] && if a[0] == b[0] then IsSubsequence(a[1..], b[1..]) else IsSubsequence(a, b[1..]))
  }

  // ---------------------------------------------------------------- delete

  /** A post survives delete exactly when it was on the list and carries another id. */
  lemma {:induction false} RemoveMembers(posts: seq<Post>, id: int, p: Post)
    ensures p in Remove(posts, id) <==> p in posts && p.id != id
  {
    if posts != [] {
      RemoveMembers(posts[1..], id, p);
      assert posts == [posts[0]] + posts[1..];
    }
  }

  /** Delete changes the list exactly when some post carries the id. */
  lemma {:induction false} RemoveUnchangedIff(posts: seq<Post>, id: int)
    ensures Remove(posts, id) == posts <==> forall i :: 0 <= i < |posts| ==> posts[i].id != id
  {
    if posts != [] {
      RemoveUnchangedIff(posts[1..], id);
      if posts[0].id != id {
        assert forall i :: 1 <= i < |posts| ==> posts[i] == posts[1..][i - 1];
      }
    }
  }

  /** Deleting the same id twice is deleting it once. */
  lemma RemoveIdempotent(posts: seq<Post>, id: int)
    ensures Remove(Remove(posts, id), id) == Remove(posts, id)
  {
    RemoveUnchangedIff(Remove(posts, id), id);
  }

  /** Delete keeps the surviving posts in their original relative order. */
  lemma {:induction false} RemoveIsSubsequence(posts: seq<Post>, id: int)
    ensures IsSubsequence(Remove(posts, id), posts)
  {
    if posts != [] {
      RemoveIsSubsequence(posts[1..], id);
      var tail := Remove(posts[1..], id);
      if posts[0].id == id {
        SubsequenceOfTail(tail, posts);
      } else {
        assert ([posts[0]] + tail)[1..] == tail;
      }
    }
  }

  /** A subsequence of the tail of `b` is a subsequence of `b`. */
  lemma {:induction false} SubsequenceOfTail(a: seq<Post>, b: seq<Post>)
    requires b != [] && IsSubsequence(a, b[1..])
    ensures IsSubsequence(a, b)
    decreases |b|, 0
  {
    if a != [] && a[0] == b[0] {
      SubsequenceDropHead(a, b[1..]);
    }
  }

  /** Dropping the first element of a subsequence leaves a subsequence. */
  lemma {:induction false} SubsequenceDropHead(a: seq<Post>, b: seq<Post>)
    requires a != [] && IsSubsequence(a, b)
    ensures IsSubsequence(a[1..], b)
    decreases |b|, 1
  {
    if a[0] != b[0] {
      SubsequenceDropHead(a, b[1..]);
    }
    if a[1..] != [] {
      SubsequenceOfTail(a[1..], b);
    }
  }

  /** Delete drops every copy of the posts carrying the id and keeps every copy of the others. */
  lemma {:induction false} RemoveCounts(posts: seq<Post>, id: int, p: Post)
    ensures multiset(Remove(posts, id))[p] == if p.id == id then 0 else multiset(posts)[p]
  {
    if posts != [] {
      RemoveCounts(posts[1..], id, p);
      assert posts == [posts[0]] + posts[1..];
    }
  }

  /** Delete works piecewise over a concatenation. */
  lemma {:induction false} RemoveAppend(a: seq<Post>, b: seq<Post>, id: int)
    ensures Remove(a + b, id) == Remove(a, id) + Remove(b, id)
  {
    if a != [] {
      RemoveAppend(a[1..], b, id);
      assert (a + b)[1..] == a[1..] + b;
    } else {
      assert a + b == b;
    }
  }

  /** With unique ids, deleting the id of the post at `k` removes that one post and nothing else. */
  lemma {:induction false} RemoveUnique(posts: seq<Post>, k: int)
    requires UniqueIds(posts) && 0 <= k < |posts|
    ensures Remove(posts, posts[k].id) == posts[..k] + posts[k + 1..]
  {
    var id := posts[k].id;
    var before, after := posts[..k], posts[k + 1..];
    NoMatch(before, id);
    NoMatch(after, id);
    assert posts == before + ([posts[k]] + after);
    RemoveBetween(before, posts[k], after);
  }

  /** Delete keeps a list none of whose posts carries the id. */
  lemma NoMatch(posts: seq<Post>, id: int)
    requires forall p :: p in posts ==> p.id != id
    ensures Remove(posts, id) == posts
  {
    RemoveUnchangedIff(posts, id);
  }

  /** Deleting the id of a post flanked by posts with other ids removes just that post. */
  lemma {:induction false} RemoveBetween(before: seq<Post>, p: Post, after: seq<Post>)
    requires Remove(before, p.id) == before && Remove(after, p.id) == after
    ensures Remove(before + ([p] + after), p.id) == before + after
  {
    RemoveAppend(before, [p] + after, p.id);
    RemoveAppend([p], after, p.id);
    assert Remove([p], p.id) == [];
  }

  /** Delete keeps ids unique. */
  lemma {:induction false} RemoveKeepsUnique(posts: seq<Post>, id: int)
    requires UniqueIds(posts)
    ensures UniqueIds(Remove(posts, id))
  {
    if posts != [] {
      RemoveKeepsUnique(posts[1..], id);
      var tail := Remove(posts[1..], id);
      if posts[0].id != id {
        forall q | q in tail ensures q.id != posts[0].id {
          RemoveMembers(posts[1..], id, q);
        }
        var r := [posts[0]] + tail;
        forall i, j | 0 <= i < j < |r| ensures r[i].id != r[j].id {
          if i == 0 { assert r[j] == tail[j - 1] && r[j] in tail; }
          else { assert r[i] == tail[i - 1] && r[j] == tail[j - 1]; }
        }
      }
    }
  }

  /** After a delete, beginning an edit of the deleted id finds nothing. */
  lemma FindAfterRemove(posts: seq<Post>, id: int)
    ensures Find(Remove(posts, id), id) == None
  {
  }

  // ---------------------------------------------------------------- edit

  /** Committing an edit for an id no post carries leaves the list as it was. */
  lemma CommitEditNoMatch(posts: seq<Post>, id: int, text: string, file: Option<File>, url: string)
    requires forall i :: 0 <= i < |posts| ==> posts[i].id != id
    ensures CommitEdit(posts, id, text, file, url) == posts
  {
  }

  /** Commit-edit renames no post, so ids stay unique. */
  lemma CommitEditKeepsUnique(posts: seq<Post>, id: int, text: string, file: Option<File>, url: string)
    requires UniqueIds(posts)
    ensures UniqueIds(CommitEdit(posts, id, text, file, url))
  {
    var r := CommitEdit(posts, id, text, file, url);
    assert forall i :: 0 <= i < |posts| ==> r[i].id == posts[i].id;
  }

  /**
   * The post found when the edit began is, after the commit, the first match
   * of the new list with its text and attachment revised.
   */
  lemma {:induction false} FindAfterCommitEdit(posts: seq<Post>, id: int, text: string, file: Option<File>, url: string)
    requires Find(posts, id).Some?
    ensures Find(CommitEdit(posts, id, text, file, url), id) == Some(Revise(Find(posts, id).value, text, file, url))
  {
    var r := CommitEdit(posts, id, text, file, url);
    if posts[0].id != id {
      FindAfterCommitEdit(posts[1..], id, text, file, url);
      assert r[1..] == CommitEdit(posts[1..], id, text, file, url);
    }
  }

  // ---------------------------------------------------------------- create

  /** A post just prepended is what a search for its id finds. */
  lemma FindPrepended(posts: seq<Post>, p: Post)
    ensures Find([p] + posts, p.id) == Some(p)
  {
  }

  /** Prepending a post with a fresh id keeps ids unique. */
  lemma PrependFreshKeepsUnique(posts: seq<Post>, p: Post)
    requires UniqueIds(posts)
    requires forall i :: 0 <= i < |posts| ==> posts[i].id != p.id
    ensures UniqueIds([p] + posts)
  {
    var r := [p] + posts;
    assert forall i :: 1 <= i < |r| ==> r[i] == posts[i - 1];
  }

  // ---------------------------------------------------------------- render

  /**
   * A created post renders an element of the kind its attachment was previewed
   * as. The preview and the post each get their own object URL: the post shows
   * media exactly when the preview did, and of the same kind, at the post's URL.
   */
  lemma RenderNewPostIsPreview(id: int, text: string, file: Option<File>, postUrl: string, previewUrl: string)
    requires postUrl != "" && previewUrl != ""
    ensures RenderMedia(NewPost(id, text, file, postUrl)).Some? <==> Preview(file, previewUrl).Some?
    ensures RenderMedia(NewPost(id, text, file, postUrl)).Some? ==>
      RenderMedia(NewPost(id, text, file, postUrl)).value == MediaElement(Preview(file, previewUrl).value.kind, postUrl)
  {
  }

  /** An edit without an attachment renders the same media as before. */
  lemma RenderRevisedWithoutFile(post: Post, text: string, url: string)
    ensures RenderMedia(Revise(post, text, None, url)) == RenderMedia(post)
  {
  }
}
