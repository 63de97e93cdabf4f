/**
 * Attachments and their classification by declared MIME type. A file is known
 * to the page only through its declared `type` string; the object URL the
 * browser mints for it is supplied by the caller.
 */
module Media {
  import opened Wrappers

  /** The three recognised kinds, stored on a post as "image", "video" or "audio". */
  datatype MediaKind = Image | Video | Audio

  /** A selected file, seen through its declared MIME type. */
  datatype File = File(mimeType: string)

  /** An `<img>`, `<video>` or `<audio>` element showing the media at `src`. */
  datatype MediaElement = MediaElement(kind: MediaKind, src: string)

  /**
   * The `startsWith` chain shared by the preview and by submit: the prefix
   * "image/", "video/" or "audio/" names the kind; any other type has none.
   */
  function Classify(mimeType: string): (k: Option<MediaKind>)
    ensures k == Some(Image) <==> "image/" <= mimeType
    ensures k == Some(Video) <==> "video/" <= mimeType
    ensures k == Some(Audio) <==> "audio/" <= mimeType
    ensures k == None <==> !("image/" <= mimeType || "video/" <= mimeType || "audio/" <= mimeType)
  {
    // The three prefixes differ in their first letter, so at most one applies.
    assert "image/"[0] == 'i' && "video/"[0] == 'v' && "audio/"[0] == 'a';
    if "image/" <= mimeType then Some(Image)
    else if "video/" <= mimeType then Some(Video)
    else if "audio/" <= mimeType then Some(Audio)
    else None
  }

  /** The kind submit records for an optional attachment: none without a file. */
  function AttachmentKind(file: Option<File>): (k: Option<MediaKind>)
    ensures file.None? ==> k.None?
    ensures file.Some? ==> (k.None? <==> !("image/" <= file.value.mimeType ||
                                            "video/" <= file.value.mimeType ||
                                            "audio/" <= file.value.mimeType))
    ensures k.Some? ==> file.Some? && k == Classify(file.value.mimeType)
  {
    match file
    case None => None
    case Some(f) => Classify(f.mimeType)
  }

  /**
   * What the media input's change handler shows: nothing when no file is
   * selected or its type is not recognised, otherwise an element of the
   * classified kind whose source is the freshly minted object URL.
   */
  function Preview(file: Option<File>, url: string): (r: Option<MediaElement>)
    ensures r.Some? <==> file.Some? && Classify(file.value.mimeType).Some?
    ensures r.Some? ==> Some(r.value.kind) == Classify(file.value.mimeType) && r.value.src == url
  {
    match file
    case None => None
    case Some(f) =>
      match Classify(f.mimeType)
      case None => None
      case Some(kind) => Some(MediaElement(kind, url))
  }

  /** Two classification examples: a PNG image, and a PDF that has no media kind. */
  lemma ClassifyExamples()
    ensures Classify("image/png") == Some(Image)
    ensures Classify("application/pdf") == None
  {
    assert "application/pdf"[1] != "audio/"[1];
  }
}
