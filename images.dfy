/** Abstract images, the suffix-based choice of decoder, image loading and
    resampling. */
module Images {
  import opened Outcomes
  import opened Geometry

  /** An image is known only by its bounds and where it came from: decoded
      from a file (an opaque id), or resampled from another image. */
  datatype Image =
    | Decoded(id: nat, bounds: Rectangle)
    | Resampled(source: Image, bounds: Rectangle)

  // ----- Format dispatch ----------------------------------------------------

  /** The decoder `LoadImage` picks for a path. */
  datatype Format = Jpeg | Png | NoDecoder

  /** `strings.HasSuffix`: an exact, case-sensitive match of the path's end. */
  predicate HasSuffix(s: string, suffix: string) {
    |suffix| <= |s| && s[|s| - |suffix|..] == suffix
  }

  /** `LoadImage`'s dispatch: ".jpeg" is checked before ".png". No path ends
      in both, so a path has a decoder exactly when it ends in one of them. */
  function FormatOf(path: string): (f: Format)
    ensures f == Jpeg <==> HasSuffix(path, ".jpeg")
    ensures f == Png <==> HasSuffix(path, ".png")
    ensures f == NoDecoder <==> !HasSuffix(path, ".jpeg") && !HasSuffix(path, ".png")
  {
    assert HasSuffix(path, ".png") ==> path[|path| - 2] == 'n';
    if HasSuffix(path, ".jpeg") then Jpeg
    else if HasSuffix(path, ".png") then Png
    else NoDecoder
  }

  /** Dispatch depends on the extension alone, whatever the stem; ".jpg" and
      upper-case extensions have no decoder. */
  lemma FormatOfExtension(stem: string)
    ensures FormatOf(stem + ".jpeg") == Jpeg
    ensures FormatOf(stem + ".png") == Png
    ensures FormatOf(stem + ".jpg") == NoDecoder
    ensures FormatOf(stem + ".PNG") == NoDecoder
    ensures FormatOf(stem + ".JPEG") == NoDecoder
  {
    assert (stem + ".jpeg")[|stem + ".jpeg"| - 5..] == ".jpeg";
    var png := stem + ".png";
    assert png[|png| - 4..] == ".png" && png[|png| - 4] == '.';
    var jpg := stem + ".jpg";
    assert jpg[|jpg| - 3] == 'j';
    var upper := stem + ".PNG";
    assert upper[|upper| - 1] == 'G';
    var jpeg := stem + ".JPEG";
    assert jpeg[|jpeg| - 1] == 'G';
  }

  // ----- Loading ------------------------------------------------------------

  /** What each decoder makes of a file's bytes (None: it reports an error). */
  datatype Decodings = Decodings(asJpeg: Option<Image>, asPng: Option<Image>)

  /** The files that can be opened, by path. */
  datatype Storage = Storage(files: map<string, Decodings>) {
    /** Decoders produce images of non-negative width and height. */
    ghost predicate Valid() {
      forall p | p in files ::
        (files[p].asJpeg.Some? ==> files[p].asJpeg.value.bounds.WellFormed()) &&
        (files[p].asPng.Some? ==> files[p].asPng.value.bounds.WellFormed())
    }
  }

  /** `LoadImage`: open the file, then decode it with the decoder the suffix
      selects. A file with any other suffix yields no image and no error. */
  function LoadImage(st: Storage, path: string): (r: Result<Option<Image>>)
    ensures r.Err? && r.error.OpenFailed? <==> path !in st.files
    ensures r.Err? ==> r.error == OpenFailed(path) || r.error == DecodeFailed(path, FormatOf(path) == Jpeg)
    ensures r == Ok(None) <==> path in st.files && FormatOf(path) == NoDecoder
    ensures r.Ok? && r.value.Some? ==> FormatOf(path) != NoDecoder
    ensures path in st.files && FormatOf(path) == Jpeg ==>
      r == (if st.files[path].asJpeg.Some? then Ok(Some(st.files[path].asJpeg.value)) else Err(DecodeFailed(path, true)))
    ensures path in st.files && FormatOf(path) == Png ==>
      r == (if st.files[path].asPng.Some? then Ok(Some(st.files[path].asPng.value)) else Err(DecodeFailed(path, false)))
    ensures r.Ok? && r.value.Some? && st.Valid() ==> r.value.value.bounds.WellFormed()
  {
    if path !in st.files then Err(OpenFailed(path))
    else
      var file := st.files[path];
      match FormatOf(path)
      case Jpeg =>
        if file.asJpeg.Some? then Ok(Some(file.asJpeg.value)) else Err(DecodeFailed(path, true))
      case Png =>
        if file.asPng.Some? then Ok(Some(file.asPng.value)) else Err(DecodeFailed(path, false))
      case NoDecoder => Ok(None)
  }

  /** A file that opens and has a decoder yields an image or a decode error,
      never the nil image. */
  lemma LoadImageDecodesKnownFormats(st: Storage, path: string)
    requires path in st.files && FormatOf(path) != NoDecoder
    ensures LoadImage(st, path).Ok? ==> LoadImage(st, path).value.Some?
    ensures LoadImage(st, path).Err? <==>
      (if FormatOf(path) == Jpeg then st.files[path].asJpeg.None? else st.files[path].asPng.None?)
  {
  }

  // ----- Resampling ---------------------------------------------------------

  /** `a * num / den`, truncated; 0 when `den` is 0. */
  function Scale(a: int, num: nat, den: int): int {
    if den <= 0 then 0 else a * num / den
  }

  /** `resize.Resize(width, height, img, ...)`: a new image of the requested
      size anchored at the origin. A zero dimension is derived from the other
      one so as to keep the aspect ratio; when both are zero the size is kept. */
  function Resize(width: nat, height: nat, img: Image): (r: Image)
    requires img.bounds.WellFormed()
    ensures r.Resampled? && r.source == img
    ensures r.bounds.min == Origin && r.bounds.WellFormed()
    ensures width > 0 ==> r.bounds.Dx() == width
    ensures height > 0 ==> r.bounds.Dy() == height
    ensures width == 0 && height == 0 ==> r.bounds.Dx() == img.bounds.Dx() && r.bounds.Dy() == img.bounds.Dy()
  {
    var b := img.bounds;
    var w := if width > 0 then width else if height > 0 then Scale(b.Dx(), height, b.Dy()) else b.Dx();
    var h := if height > 0 then height else if width > 0 then Scale(b.Dy(), width, b.Dx()) else b.Dy();
    assert w >= 0 && h >= 0;
    Resampled(img, Rectangle(Origin, Point(w, h)))
  }
}
