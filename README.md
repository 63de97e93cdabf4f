# Forum post board, modelled in Dafny

This project models the post board of a small browser forum (`site/src/pages/Forum.jsx`).
The board keeps a newest-first list of posts. Each post has an id (its creation
timestamp), a text, an optional media kind (image, video or audio) and an optional
object URL for its attachment. The board also holds a single edit cursor, the value of
the text area, the file selected in the media input, and an attachment preview.
Four handlers act on this state:

- submit (`createPost`) prepends a new post, or commits an edit in progress, and then
  clears the cursor, the inputs and the preview;
- begin-edit (`handleEdit`) loads a post's text into the text area and sets the cursor;
- delete (`handleDelete`) filters out the posts that carry an id;
- the media input's change handler (`handlMediaChange`) previews the selected file.

Media are classified by the prefix of the file's declared MIME type, and `renderMedia`
decides what each post shows. The list is written to local storage after every change.

Files and modules:

- `wrappers.dfy`, module `Wrappers`: `Option`, which stands in for JavaScript's `null`.
- `text.dfy`, module `Text`: `Trim`, modelled on `String.prototype.trim`. It removes
  ECMAScript's WhiteSpace and LineTerminator characters at both ends.
- `media.dfy`, module `Media`: media kinds, files seen through their declared type,
  `Classify` (the `startsWith` chain) and `Preview` (what the change handler shows).
- `posts.dfy`, module `Posts`: the `Post` record and the pure list transforms inside the
  handlers, with lemmas about them:
  - prepend (`[newPost, ...posts]`);
  - `CommitEdit` (the `posts.map` with object spread);
  - `Remove` (`posts.filter`);
  - `Find` (`posts.find`);
  - `RenderMedia`.
- `forum.dfy`, module `Board`: class `Forum`. It has the component's state as fields
  and the handlers as methods. Each method's `ensures` ties the new state to the list
  functions above. `Walkthrough` is a client. It posts a text, edits it and deletes it. From the
  class contracts alone it proves that the board ends empty and idle.

Environment values are parameters:

- `now` is the value of `Date.now()`;
- `url` is the object URL that `URL.createObjectURL` returns;
- `saved` is the list found in local storage when the page mounts.

The typed text (`inputText`) and the selected file (`fileSelected`) are fields that the
user, that is the caller, assigns. The field `stored` stands for the local-storage entry
`"posts"`. The invariant `Valid()` says that it always equals `posts`.

Consequences of the code that the model states:

- A commit edits every post whose id equals the cursor, not only the first; delete
  removes every post with the id.
- Delete removes exactly one post when exactly one post carries the id. With unique ids
  this holds for every id on the list (`Posts.RemoveUnique`). Uniqueness is not assumed
  anywhere else, since ids come from the clock.
- Deleting the post under edit does not clear the cursor. The next submit then goes
  down the edit path and matches nothing. The typed text is discarded and no post is
  created (`Posts.CommitEditNoMatch`, `Board.Forum.CreatePost`).

## Model

| member | source | states |
|---|---|---|
| `Text.Trim` | site/src/pages/Forum.jsx:48 | the trimmed text is empty or begins and ends with a non-whitespace character, and it is empty exactly when the input is all whitespace (the falsy case of the submit guard) |
| `Text.TrimSlice` | site/src/pages/Forum.jsx:48 | the trimmed text is a contiguous slice of the input with only whitespace before and after it |
| `Text.TrimOfTrimmed` | site/src/pages/Forum.jsx:48 | a text with no whitespace at either end is returned unchanged |
| `Text.TrimIdempotent` | site/src/pages/Forum.jsx:48 | trimming twice is trimming once |
| `Media.Classify` | site/src/pages/Forum.jsx:52-58 | the kind is image, video or audio exactly when the type starts with "image/", "video/" or "audio/" respectively, and there is no kind exactly when none of the three prefixes applies |
| `Media.ClassifyExamples` | site/src/pages/Forum.jsx:56-58 | "image/png" is an image; "application/pdf" has no kind |
| `Media.AttachmentKind` | site/src/pages/Forum.jsx:52-58 | no kind without a file; with a file, no kind exactly when its type has none of the three prefixes, and otherwise the classified kind |
| `Media.Preview` | site/src/pages/Forum.jsx:26-45 | the preview exists exactly when a file is selected and its type is recognised; it then has the classified kind and shows the minted URL |
| `Posts.NewPost` | site/src/pages/Forum.jsx:52-80 | the new post has id `now` and the given text, the classified kind of its file (none without a file), and a URL exactly when a file is given, namely the minted one |
| `Posts.Revise` | site/src/pages/Forum.jsx:64-69 | the revised post keeps its id and takes the new text; without a file it keeps its kind and URL, with a file it takes the file's classified kind (possibly none) and the new URL |
| `Posts.CommitEdit` | site/src/pages/Forum.jsx:60-72 | same length, and order kept; posts with another id are unchanged; each post with the edited id keeps its id and gets the new text (even an empty one), keeps its media when no file is attached, and otherwise gets the file's classified kind (possibly none) and the new URL |
| `Posts.CommitEditNoMatch` | site/src/pages/Forum.jsx:61-71 | committing an edit for an id no post carries leaves the list unchanged |
| `Posts.CommitEditKeepsUnique` | site/src/pages/Forum.jsx:61-71 | a commit renames no post, so unique ids stay unique |
| `Posts.Find` | site/src/pages/Forum.jsx:89 | the search fails exactly when no post carries the id; otherwise it returns the post at the first index carrying it |
| `Posts.FindAfterCommitEdit` | site/src/pages/Forum.jsx:60-72 | after a commit, the first post with the edited id is the post found when the edit began, revised with the new text and attachment |
| `Posts.FindPrepended` | site/src/pages/Forum.jsx:81 | a search for the id of a just-prepended post finds that post |
| `Posts.PrependFreshKeepsUnique` | site/src/pages/Forum.jsx:75-81 | prepending a post whose id is fresh keeps ids unique |
| `Posts.Remove` | site/src/pages/Forum.jsx:96-99 | the result is no longer than the list, and no post in it carries the deleted id |
| `Posts.RemoveMembers` | site/src/pages/Forum.jsx:97 | a post is in the result exactly when it is in the list and carries another id |
| `Posts.RemoveCounts` | site/src/pages/Forum.jsx:97 | every copy of a post with another id survives, and no copy of a post with the deleted id does |
| `Posts.RemoveIsSubsequence` | site/src/pages/Forum.jsx:97 | the surviving posts keep their original relative order |
| `Posts.RemoveUnchangedIff` | site/src/pages/Forum.jsx:96-99 | delete leaves the list unchanged exactly when no post carries the id |
| `Posts.RemoveIdempotent` | site/src/pages/Forum.jsx:96-99 | deleting an id twice is deleting it once |
| `Posts.RemoveAppend` | site/src/pages/Forum.jsx:97 | delete works piecewise over a concatenation of lists |
| `Posts.RemoveUnique` | site/src/pages/Forum.jsx:96-99 | with unique ids, deleting the id of the post at index k removes exactly that post |
| `Posts.RemoveKeepsUnique` | site/src/pages/Forum.jsx:97 | delete keeps unique ids unique |
| `Posts.FindAfterRemove` | site/src/pages/Forum.jsx:89-97 | after a delete, beginning an edit of the deleted id finds nothing |
| `Posts.RenderMedia` | site/src/pages/Forum.jsx:101-112 | an element is rendered exactly when the post has a media kind and a non-empty URL; it has that kind and shows that URL |
| `Posts.RenderNewPostIsPreview` | site/src/pages/Forum.jsx:101-112 | a newly created post renders an element of the kind it was previewed as, at its own URL, exactly when the preview showed one; preview and post get separate non-empty object URLs |
| `Posts.RenderRevisedWithoutFile` | site/src/pages/Forum.jsx:64-69 | an edit without an attachment renders the same media as before |
| `Board.Forum.constructor` | site/src/pages/Forum.jsx:5-18 | on mount, the stored list (if any) becomes the list, and the cursor, inputs and preview start empty; storage equals the list |
| `Board.Forum.HandleMediaChange` | site/src/pages/Forum.jsx:26-45 | with no file selected the preview is cleared; otherwise it is the classified preview of the selected file; nothing else changes |
| `Board.Forum.CreatePost` | site/src/pages/Forum.jsx:47-86 | with the cursor idle, blank text and no file, nothing changes; otherwise the cursor, both inputs and the preview are cleared, and the list becomes the new post (fresh id, trimmed text, classified kind, URL only with a file) prepended to the old list, or, while editing, the commit of the edit; storage equals the list |
| `Board.Forum.HandleEdit` | site/src/pages/Forum.jsx:88-94 | if some post carries the id, the text area takes the text of the first such post and the cursor is set to the id; otherwise nothing changes; the list is never modified |
| `Board.Forum.HandleDelete` | site/src/pages/Forum.jsx:96-99 | the list becomes the filtered list and storage follows it; the cursor and inputs are untouched |

## Left out

- Markup, CSS, the button label and the list display are presentation only. This covers
  lines 113-155, including whether a post's text paragraph is shown.
- The Enter-key handler (lines 20-25) only calls `createPost`. This model has no keyboard
  events.
- React's hook scheduling is left out. `useState` updates are applied at once as field
  assignments. The closure over `posts` and `editId` reads the current state, which is
  what sequential events see.
- The `useEffect` load and save (lines 10-18) is reduced to the `saved` constructor
  parameter and the `stored` field. JSON encoding and decoding are not modelled, so
  neither a corrupted stored value nor the save-then-reload round trip is covered. On
  mount, React first writes the empty list and then the loaded one. Only the final state
  is kept here.
- `Date.now()` and `URL.createObjectURL` are parameters. Id collisions are neither
  assumed away nor ruled out. The object URLs that are minted but never released (also in
  the preview, for unrecognised types) are not tracked.
- Ids are mathematical integers. JavaScript numbers are doubles, but `Date.now()` values
  are integers well inside their exact range, and `===` on them is integer equality.
- `renderMedia` falls through to `undefined` for a `fileType` string other than the
  three kinds. That can only happen with data from storage, which the `MediaKind` type
  rules out here.
- `Text.Trim` covers the ECMAScript whitespace set listed in `text.dfy`. Strings are
  sequences of Unicode scalar values, not UTF-16 code units.
- `site/src/components/AuthContext.jsx` (the username session) is not part of this model.
  It only sets and removes one local-storage key and one state value.
