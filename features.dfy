/**
 * The frontend's string helpers: classifying an attachment URL by its
 * extension, and rewriting a Cloudinary URL so that it serves a resized image.
 */
module Features {
  import opened Options
  import opened Text

  /* ---------- fileFormat ---------- */

  /** `s.split(".").pop()`: the text after the last ".", or all of `s` when it has none. */
  function LastSegment(s: string): (r: string)
    ensures |r| <= |s| && r == s[|s| - |r|..]
    ensures forall i :: 0 <= i < |r| ==> r[i] != '.'
    ensures |r| < |s| ==> s[|s| - |r| - 1] == '.'
  {
    if s == [] then []
    else if s[|s| - 1] == '.' then []
    else LastSegment(s[..|s| - 1]) + [s[|s| - 1]]
  }

  const VideoExtensions: seq<string> := ["mp4", "webm", "ogg", "mov", "avi"]
  const AudioExtensions: seq<string> := ["mp3", "wav", "m4a", "aac"]
  const ImageExtensions: seq<string> := ["png", "jpg", "jpeg", "gif", "webp", "svg"]

  /** The kind of an attachment, given its lower-cased extension. */
  function Classify(ext: string): (r: string)
    ensures r in ["video", "audio", "image", "file"]
    ensures r == "video" <==> ext in VideoExtensions
    ensures r == "audio" <==> ext in AudioExtensions
    ensures r == "image" <==> ext in ImageExtensions
  {
    if ext in VideoExtensions then "video"
    else if ext in AudioExtensions then "audio"
    else if ext in ImageExtensions then "image"
    else "file"
  }

  /** `fileFormat(url)`: the kind named by the lower-cased last segment. */
  function FileFormat(url: string): (r: string)
    ensures r in ["video", "audio", "image", "file"]
    ensures r == Classify(ToLower(LastSegment(url)))
  {
    Classify(ToLower(LastSegment(url)))
  }

  /** The last segment of a lower-cased string is the lower-cased last segment. */
  lemma {:induction false} LastSegmentToLower(s: string)
    ensures LastSegment(ToLower(s)) == ToLower(LastSegment(s))
  {
    if s != [] {
      var init := s[..|s| - 1];
      var c := s[|s| - 1];
      ToLowerSnoc(init, c);
      assert s == init + [c];
      if c != '.' {
        LastSegmentToLower(init);
        ToLowerSnoc(LastSegment(init), c);
      }
    }
  }

  lemma ToLowerSnoc(s: string, c: char)
    ensures ToLower(s + [c]) == ToLower(s) + [LowerChar(c)]
  {
    ToLowerAppend(s, [c]);
  }

  /** Urls that differ only in letter case are classified alike ("a.PNG" and "a.png"). */
  lemma FileFormatIgnoresCase(a: string, b: string)
    requires ToLower(a) == ToLower(b)
    ensures FileFormat(a) == FileFormat(b)
  {
    LastSegmentToLower(a);
    LastSegmentToLower(b);
  }

  /** A name with an extension is classified by that extension alone. */
  lemma {:induction false} FileFormatOfExtension(name: string, ext: string)
    requires forall i :: 0 <= i < |ext| ==> ext[i] != '.'
    ensures FileFormat(name + "." + ext) == Classify(ToLower(ext))
  {
    LastSegmentOfSuffix(name + ".", ext);
  }

  lemma {:induction false} LastSegmentOfSuffix(prefix: string, ext: string)
    requires prefix != [] && prefix[|prefix| - 1] == '.'
    requires forall i :: 0 <= i < |ext| ==> ext[i] != '.'
    ensures LastSegment(prefix + ext) == ext
  {
    if ext == [] {
      assert prefix + ext == prefix;
    } else {
      var init := ext[..|ext| - 1];
      assert (prefix + ext)[..|prefix + ext| - 1] == prefix + init;
      LastSegmentOfSuffix(prefix, init);
      assert init + [ext[|ext| - 1]] == ext;
    }
  }

  /** The default argument `url = ""` and a url ending in "." have no extension and count as files. */
  lemma NoExtensionIsFile(url: string)
    requires url == [] || url[|url| - 1] == '.'
    ensures FileFormat(url) == "file"
  {
    assert LastSegment(url) == [];
    assert ToLower([]) == [];
    assert forall e :: e in VideoExtensions + AudioExtensions + ImageExtensions ==> |e| >= 3;
  }

  /* ---------- transformImage ---------- */

  const Upload: string := "upload/"

  /** The path segment `dpr_auto/w_{width}/` placed after "upload/". */
  function Resize(width: nat): string {
    "dpr_auto/w_" + NatToString(width) + "/"
  }

  /**
   * `transformImage(url, width)`: an empty url stays empty; otherwise the
   * first "upload/" becomes "upload/dpr_auto/w_{width}/" (a string pattern in
   * `replace` matches once); a url without "upload/" is returned as it is.
   */
  function TransformImage(url: string, width: nat): (r: string)
    ensures url == "" ==> r == ""
    ensures IndexOf(url, Upload).None? ==> r == url
    ensures IndexOf(url, Upload).Some? ==>
              var j := IndexOf(url, Upload).value;
              r == url[..j + |Upload|] + Resize(width) + url[j + |Upload|..]
    ensures |r| == |url| || |r| == |url| + |Resize(width)|
  {
    if url == "" then ""
    else match IndexOf(url, Upload)
      case None => url
      case Some(j) => url[..j] + Upload + Resize(width) + url[j + |Upload|..]
  }

  /** The width used when none is given. */
  const DefaultWidth: nat := 100

  /**
   * `transformImage(url, width)` with its defaults: a missing url is "" and
   * a missing width is 100, as when an avatar is shown with `transformImage(avatar)`.
   */
  function TransformImageWithDefaults(url: Option<string>, width: Option<nat>): (r: string)
    ensures url.None? ==> r == ""
    ensures url.Some? && width.None? ==> r == TransformImage(url.value, DefaultWidth)
    ensures url.Some? && width.Some? ==> r == TransformImage(url.value, width.value)
  {
    TransformImage(url.GetOr(""), width.GetOr(DefaultWidth))
  }

  /** Without a width, the resize segment asks for 100 pixels. */
  lemma DefaultResizeSegment()
    ensures Resize(DefaultWidth) == "dpr_auto/w_100/"
  {
    assert NatToString(100) == "100";
  }

  /** Taking the inserted segment back out gives the original url. */
  lemma TransformImageRemovable(url: string, width: nat)
    requires IndexOf(url, Upload).Some?
    ensures var j := IndexOf(url, Upload).value + |Upload|;
            var r := TransformImage(url, width);
            r[..j] + r[j + |Resize(width)|..] == url
  {
    var j := IndexOf(url, Upload).value + |Upload|;
    var r := TransformImage(url, width);
    assert r[..j] == url[..j];
    assert r[j + |Resize(width)|..] == url[j..];
  }

  /** The rewritten url's first "upload/" is where the original's was: only that one was rewritten. */
  lemma TransformImageKeepsFirstUpload(url: string, width: nat)
    requires IndexOf(url, Upload).Some?
    ensures IndexOf(TransformImage(url, width), Upload) == IndexOf(url, Upload)
  {
    var j := IndexOf(url, Upload).value;
    InsertionKeepsFirstOccurrence(url, Upload, j, Resize(width));
  }

  lemma InsertionKeepsFirstOccurrence(s: string, t: string, j: nat, ins: string)
    requires IndexOf(s, t) == Some(j)
    ensures IndexOf(s[..j + |t|] + ins + s[j + |t|..], t) == Some(j)
  {
    var r := s[..j + |t|] + ins + s[j + |t|..];
    var prefix := s[..j + |t|];
    assert r[..j + |t|] == prefix;
    assert OccursAt(r, t, j) by {
      assert r[j..j + |t|] == prefix[j..];
    }
    forall k | 0 <= k < j
      ensures !OccursAt(r, t, k)
    {
      assert !OccursAt(s, t, k);
      assert r[k..k + |t|] == prefix[k..k + |t|] == s[k..k + |t|];
    }
  }
}
