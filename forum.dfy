/**
 * The post board component: its state and the event handlers that change it.
 * React's deferred state updates are modelled as direct field assignments, and
 * the environment supplies what the browser would: the typed text and the
 * selected file (fields the user sets), the clock reading and the object URL
 * minted for a file (method parameters).
 */
module Board {
  import opened Wrappers
  import opened Text
  import opened Media
  import opened Posts

  class Forum {
    /** The board's posts, newest first. */
    var posts: seq<Post>
    /** The edit cursor: the id of the post being edited, if any. */
    var editId: Option<int>
    /** The current value of the text area. */
    var inputText: string
    /** The file of the media input, if one is selected. */
    var fileSelected: Option<File>
    /** The attachment preview shown under the inputs. */
    var preview: Option<MediaElement>
    /** The list last written to local storage under the key "posts". */
    var stored: seq<Post>

    /** Every change of the list is written through to storage. */
    ghost predicate Valid()
      reads this
    {
      stored == posts
    }

    /**
     * Mounting the page: the stored list, when there is one, becomes the board's
     * list; the inputs, the cursor and the preview start empty.
     */
    constructor (saved: Option<seq<Post>>)
      ensures Valid()
      ensures posts == (if saved.Some? then saved.value else [])
      ensures editId == None && inputText == "" && fileSelected == None && preview == None
    {
      posts := if saved.Some? then saved.value else [];
      stored := posts;
      editId := None;
      inputText := "";
      fileSelected := None;
      preview := None;
    }

    /** The media input changed: preview the selected file, or clear the preview. */
    method HandleMediaChange(url: string)
      requires Valid()
      modifies this`preview
      ensures Valid()
      ensures preview == Preview(fileSelected, url)
    {
      match fileSelected
      case None =>
        preview := None;
      case Some(file) =>
        var media := None;
        if "image/" <= file.mimeType {
          media := Some(MediaElement(Image, url));
        } else if "video/" <= file.mimeType {
          media := Some(MediaElement(Video, url));
        } else if "audio/" <= file.mimeType {
          media := Some(MediaElement(Audio, url));
        }
        preview := media;
    }

    /**
     * Submit. With the cursor idle and nothing to post (all-whitespace text and
     * no file) nothing happens. Otherwise an idle cursor prepends a new post with
     * the fresh id `now`, and a set cursor commits the edit to every post with
     * that id; either way the cursor, both inputs and the preview are cleared.
     */
    method CreatePost(now: int, url: string)
      requires Valid()
      modifies this`posts, this`stored, this`editId, this`inputText, this`fileSelected, this`preview
      ensures Valid()
      ensures var text := Trim(old(inputText));
        if text == [] && old(fileSelected).None? && old(editId).None? then
          posts == old(posts) && editId == old(editId) &&
          inputText == old(inputText) && fileSelected == old(fileSelected) && preview == old(preview)
        else
          editId == None && inputText == "" && fileSelected == None && preview == None &&
          match old(editId)
          case None => posts == [NewPost(now, text, old(fileSelected), url)] + old(posts)
          case Some(id) => posts == CommitEdit(old(posts), id, text, old(fileSelected), url)
    {
      var postText := Trim(inputText);
      var file := fileSelected;
      if postText == [] && file.None? && editId.None? {
        return;
      }
      match editId {
        case Some(id) =>
          posts := CommitEdit(posts, id, postText, file, url);
          editId := None;
        case None =>
          posts := [NewPost(now, postText, file, url)] + posts;
      }
      stored := posts;
      inputText := "";
      fileSelected := None;
      preview := None;
    }

    /**
     * Begin an edit: when some post carries `postId`, the text area takes the
     * text of the first such post and the cursor is set to `postId`; otherwise
     * nothing changes. The list is never touched.
     */
    method HandleEdit(postId: int)
      requires Valid()
      modifies this`inputText, this`editId
      ensures Valid()
      ensures match Find(posts, postId)
        case Some(post) => inputText == post.text && editId == Some(postId)
        case None => inputText == old(inputText) && editId == old(editId)
    {
      var post := Find(posts, postId);
      if post.Some? {
        inputText := post.value.text;
        editId := Some(postId);
      }
    }

    /** Delete every post carrying `postId`; the cursor is left alone. */
    method HandleDelete(postId: int)
      requires Valid()
      modifies this`posts, this`stored
      ensures Valid()
      ensures posts == Remove(old(posts), postId)
    {
      posts := Remove(posts, postId);
      stored := posts;
    }
  }

  /** "hello" and "hello world" need no trimming, and the first is not blank. */
  lemma HelloTexts()
    ensures Trim("hello") == "hello" != [] && Trim("hello world") == "hello world"
  {
    var hello, helloWorld := "hello", "hello world";
    assert !IsSpace(hello[0]) && !IsSpace(hello[4]) && !IsSpace(helloWorld[10]);
    TrimOfTrimmed(hello);
    TrimOfTrimmed(helloWorld);
  }

  /**
   * A walk-through: post a text, edit it, delete it. For any two texts that need
   * no trimming, the first not blank, the board ends empty and idle again.
   */
  method Walkthrough(now: int, url: string, first: string, second: string)
    requires Trim(first) == first != [] && Trim(second) == second
  {
    var board := new Forum(None);
    board.inputText := first;
    board.CreatePost(now, url);
    var p := Post(now, first, None, None);
    assert board.posts == [p];
    board.HandleEdit(now);
    assert board.editId == Some(now) && board.inputText == first;
    board.inputText := second;
    board.CreatePost(now + 1, url);
    assert board.posts == [p.(text := second)];
    board.HandleDelete(now);
    assert board.posts == [] && board.editId == None;
  }

  /** The walk-through with the texts "hello" and "hello world". */
  method HelloWalkthrough(now: int, url: string)
  {
    HelloTexts();
    Walkthrough(now, url, "hello", "hello world");
  }
}
