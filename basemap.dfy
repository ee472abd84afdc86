/** The canvas, the base-map builder and the highlight applicator. */
module BaseMap {
  import opened Outcomes
  import opened Geometry
  import opened Coords
  import opened Images
  import opened Markers

  /** One `draw.Draw(dst, rect, src, image.Point{0, 0}, draw.Over)`. */
  datatype DrawOp = DrawOp(src: Image, rect: Rectangle)

  /** An RGBA image under construction: its bounds and what was drawn onto
      it, oldest first. */
  class Canvas {
    const bounds: Rectangle
    var draws: seq<DrawOp>

    /** `image.NewRGBA(r)`: a blank image with bounds `r`. */
    constructor (r: Rectangle)
      ensures bounds == r && draws == []
    {
      bounds := r;
      draws := [];
    }

    /** `draw.Draw(this, r, src, image.Point{0, 0}, draw.Over)`. */
    method Draw(r: Rectangle, src: Image)
      modifies this
      ensures draws == old(draws) + [DrawOp(src, r)]
    {
      draws := draws + [DrawOp(src, r)];
    }
  }

  // ----- Loading the layers -------------------------------------------------

  /** Why a layer stops the build, if it does: a load error, or a nil image
      (unsupported suffix) that the builder then dereferences. */
  function LayerFailure(st: Storage, path: string): (f: Option<Error>)
    ensures f.None? <==> LoadImage(st, path).Ok? && LoadImage(st, path).value.Some?
    ensures f.Some? && LoadImage(st, path).Err? ==> f.value == LoadImage(st, path).error
    ensures f.Some? && LoadImage(st, path).Ok? ==> f.value == NilLayer(path) && FormatOf(path) == NoDecoder
  {
    match LoadImage(st, path)
    case Err(e) => Some(e)
    case Ok(None) => Some(NilLayer(path))
    case Ok(Some(_)) => None
  }

  /** The layers loaded one after the other, stopping at the first failure. */
  function LoadLayers(st: Storage, layers: seq<string>): (r: Result<seq<Image>>)
    decreases |layers|
    ensures r.Ok? ==> |r.value| == |layers|
    ensures r.Ok? ==> forall i :: 0 <= i < |layers| ==> LoadImage(st, layers[i]) == Ok(Some(r.value[i]))
  {
    if layers == [] then Ok([])
    else
      var front, last := layers[..|layers| - 1], layers[|layers| - 1];
      match LoadLayers(st, front)
      case Err(e) => Err(e)
      case Ok(imgs) =>
        match LoadImage(st, last)
        case Err(e) => Err(e)
        case Ok(None) => Err(NilLayer(last))
        case Ok(Some(img)) =>
          assert forall i :: 0 <= i < |front| ==> layers[i] == front[i];
          Ok(imgs + [img])
  }

  /** Loading one more layer: the extended list fails with that layer's
      failure, or gains that layer's image at its end. */
  lemma LoadLayersStep(st: Storage, layers: seq<string>, i: nat)
    requires i < |layers|
    requires LoadLayers(st, layers[..i]).Ok?
    ensures LoadLayers(st, layers[..i + 1]) ==
      match LoadImage(st, layers[i])
      case Err(e) => Err(e)
      case Ok(None) => Err(NilLayer(layers[i]))
      case Ok(Some(img)) => Ok(LoadLayers(st, layers[..i]).value + [img])
  {
    assert layers[..i + 1][..i] == layers[..i];
  }

  /** Layer `k` is the first layer that fails. */
  predicate FailsFirstAt(st: Storage, layers: seq<string>, k: nat) {
    k < |layers| &&
    (forall j :: 0 <= j < k ==> LayerFailure(st, layers[j]).None?) &&
    LayerFailure(st, layers[k]).Some?
  }

  /** A failure among the first `n` layers is the failure of the whole list. */
  lemma {:induction false} LoadLayersKeepsEarlyFailure(st: Storage, layers: seq<string>, n: nat)
    requires n <= |layers|
    requires LoadLayers(st, layers[..n]).Err?
    ensures LoadLayers(st, layers) == LoadLayers(st, layers[..n])
    decreases |layers|
  {
    if n < |layers| {
      var front := layers[..|layers| - 1];
      assert front[..n] == layers[..n];
      LoadLayersKeepsEarlyFailure(st, front, n);
    } else {
      assert layers[..n] == layers;
    }
  }

  /** The list fails with the failure of its first failing layer. */
  lemma {:induction false} LoadLayersFirstFailure(st: Storage, layers: seq<string>, k: nat)
    requires FailsFirstAt(st, layers, k)
    ensures LoadLayers(st, layers) == Err(LayerFailure(st, layers[k]).value)
  {
    var prefix := layers[..k + 1];
    LoadLayersSucceeds(st, layers[..k]);
    assert prefix[..k] == layers[..k];
    LoadLayersKeepsEarlyFailure(st, layers, k + 1);
  }

  /** A list whose every layer loads to an image loads as a whole. */
  lemma {:induction false} LoadLayersSucceeds(st: Storage, layers: seq<string>)
    requires forall j :: 0 <= j < |layers| ==> LayerFailure(st, layers[j]).None?
    ensures LoadLayers(st, layers).Ok?
    decreases |layers|
  {
    if layers != [] {
      LoadLayersSucceeds(st, layers[..|layers| - 1]);
    }
  }

  /** A failing list has a first failing layer, and fails with its failure. */
  lemma {:induction false} LoadLayersFailureHasCause(st: Storage, layers: seq<string>)
    requires LoadLayers(st, layers).Err?
    ensures exists k: nat :: FailsFirstAt(st, layers, k) && LayerFailure(st, layers[k]) == Some(LoadLayers(st, layers).error)
    decreases |layers|
  {
    var front := layers[..|layers| - 1];
    if LoadLayers(st, front).Err? {
      LoadLayersFailureHasCause(st, front);
      var k: nat :| FailsFirstAt(st, front, k) && LayerFailure(st, front[k]) == Some(LoadLayers(st, front).error);
      assert forall j :: 0 <= j <= k ==> front[j] == layers[j];
      assert FailsFirstAt(st, layers, k);
    } else {
      var k := |layers| - 1;
      assert forall j :: 0 <= j < k ==> LayerFailure(st, layers[j]).None? by {
        forall j | 0 <= j < k ensures LayerFailure(st, layers[j]).None? {
          assert LoadImage(st, front[j]) == Ok(Some(LoadLayers(st, front).value[j]));
        }
      }
      assert FailsFirstAt(st, layers, k);
    }
  }

  // ----- The base image -----------------------------------------------------

  /** The canvas for a first layer of bounds `first`:
      `image.Rect(0, 0, first.Dx(), first.Dy())`. */
  function CanvasBounds(first: Rectangle): (c: Rectangle)
    requires first.WellFormed()
    ensures c.min == Origin && c.Dx() == first.Dx() && c.Dy() == first.Dy()
    ensures first.min == Origin ==> c == first
  {
    RectAtOrigin(first.Dx(), first.Dy());
    Rect(0, 0, first.Dx(), first.Dy())
  }

  /** A layer as it is drawn: resampled to the first layer's size unless its
      bounds already equal the first layer's. */
  function Normalise(img: Image, first: Rectangle): (r: Image)
    requires img.bounds.WellFormed() && first.WellFormed()
    ensures img.bounds == first ==> r == img
    ensures img.bounds != first ==> r.Resampled? && r.source == img
    ensures first.Dx() > 0 && first.Dy() > 0 ==> r.bounds.Dx() == first.Dx() && r.bounds.Dy() == first.Dy()
  {
    if first != img.bounds then Resize(first.Dx(), first.Dy(), img) else img
  }

  /** What a successful build produces: the canvas bounds and the draws. */
  datatype Plan = Plan(bounds: Rectangle, draws: seq<DrawOp>)

  /** `GenerateBaseImage` as a value: a load failure, no image at all for an
      empty list, or a canvas sized after the first layer with every layer
      drawn over the whole canvas in input order. */
  function BaseImagePlan(st: Storage, layers: seq<string>): (r: Result<Option<Plan>>)
    requires st.Valid()
    ensures r == Ok(None) <==> layers == []
    ensures r.Err? <==> LoadLayers(st, layers).Err?
    ensures r.Err? ==> r.error == LoadLayers(st, layers).error
  {
    match LoadLayers(st, layers)
    case Err(e) => Err(e)
    case Ok(imgs) =>
      if imgs == [] then Ok(None)
      else
        var first := imgs[0].bounds;
        var canvas := CanvasBounds(first);
        Ok(Some(Plan(canvas, seq(|imgs|, i requires 0 <= i < |imgs| => DrawOp(Normalise(imgs[i], first), canvas)))))
  }

  /** The image loaded from the first layer of a successful build. */
  function FirstLayer(st: Storage, layers: seq<string>): (img: Image)
    requires st.Valid()
    requires BaseImagePlan(st, layers).Ok? && BaseImagePlan(st, layers).value.Some?
    ensures LoadImage(st, layers[0]) == Ok(Some(img))
    ensures img.bounds.WellFormed()
  {
    LoadLayers(st, layers).value[0]
  }

  /** The canvas is `image.Rect(0, 0, Dx, Dy)` of the first layer. */
  lemma CanvasFromFirstLayer(st: Storage, layers: seq<string>)
    requires st.Valid()
    requires BaseImagePlan(st, layers).Ok? && BaseImagePlan(st, layers).value.Some?
    ensures var p := BaseImagePlan(st, layers).value.value;
      var first := FirstLayer(st, layers).bounds;
      p.bounds == Rectangle(Origin, Point(first.Dx(), first.Dy()))
  {
  }

  /** Every layer is drawn, once, in input order, over the whole canvas: the
      i-th draw is the i-th layer's image or a resampling of it. */
  lemma LayersDrawnInOrder(st: Storage, layers: seq<string>, i: nat)
    requires st.Valid()
    requires BaseImagePlan(st, layers).Ok? && BaseImagePlan(st, layers).value.Some?
    requires i < |layers|
    ensures var p := BaseImagePlan(st, layers).value.value;
      |p.draws| == |layers| &&
      p.draws[i].rect == p.bounds &&
      LoadImage(st, layers[i]).Ok? && LoadImage(st, layers[i]).value.Some? &&
      var img := LoadImage(st, layers[i]).value.value;
      (p.draws[i].src == img || (p.draws[i].src.Resampled? && p.draws[i].src.source == img))
  {
  }

  /** When the first layer has a positive size, every layer is drawn at that
      size; when it is also anchored at the origin, every layer drawn has
      exactly the canvas's bounds. */
  lemma LayersFitCanvas(st: Storage, layers: seq<string>, i: nat)
    requires st.Valid()
    requires BaseImagePlan(st, layers).Ok? && BaseImagePlan(st, layers).value.Some?
    requires i < |layers|
    requires FirstLayer(st, layers).bounds.Dx() > 0 && FirstLayer(st, layers).bounds.Dy() > 0
    ensures var p := BaseImagePlan(st, layers).value.value;
      p.draws[i].src.bounds.Dx() == p.bounds.Dx() && p.draws[i].src.bounds.Dy() == p.bounds.Dy()
    ensures FirstLayer(st, layers).bounds.min == Origin ==>
      BaseImagePlan(st, layers).value.value.draws[i].src.bounds == BaseImagePlan(st, layers).value.value.bounds
  {
  }

  /** The build stops at the first layer that fails, with that layer's error. */
  lemma BuildFailsFast(st: Storage, layers: seq<string>, k: nat)
    requires st.Valid()
    requires FailsFirstAt(st, layers, k)
    ensures BaseImagePlan(st, layers) == Err(LayerFailure(st, layers[k]).value)
  {
    LoadLayersFirstFailure(st, layers, k);
  }

  /** A failed build names the failure of its first failing layer. */
  lemma BuildFailureHasCause(st: Storage, layers: seq<string>)
    requires st.Valid()
    requires BaseImagePlan(st, layers).Err?
    ensures exists k: nat :: FailsFirstAt(st, layers, k) && LayerFailure(st, layers[k]) == Some(BaseImagePlan(st, layers).error)
  {
    LoadLayersFailureHasCause(st, layers);
  }

  /** A build succeeds exactly when every layer loads to an image. */
  lemma BuildSucceedsIffLayersLoad(st: Storage, layers: seq<string>)
    requires st.Valid()
    ensures BaseImagePlan(st, layers).Ok? <==> forall j :: 0 <= j < |layers| ==> LayerFailure(st, layers[j]).None?
  {
    if forall j :: 0 <= j < |layers| ==> LayerFailure(st, layers[j]).None? {
      LoadLayersSucceeds(st, layers);
    }
    if BaseImagePlan(st, layers).Ok? {
      var imgs := LoadLayers(st, layers).value;
      forall j | 0 <= j < |layers| ensures LayerFailure(st, layers[j]).None? {
        assert LoadImage(st, layers[j]) == Ok(Some(imgs[j]));
      }
    }
  }

  /** `GenerateBaseImage`: load the layers in order; the first one fixes the
      canvas; each layer whose bounds differ from the first's is resampled to
      its size; each is drawn over the whole canvas. */
  method GenerateBaseImage(st: Storage, layers: seq<string>) returns (canvas: Canvas?, err: Option<Error>)
    requires st.Valid()
    ensures match BaseImagePlan(st, layers)
      case Err(e) => canvas == null && err == Some(e)
      case Ok(None) => canvas == null && err == None
      case Ok(Some(p)) => canvas != null && err == None && canvas.bounds == p.bounds && canvas.draws == p.draws
  {
    canvas := null;
    var bounds := Rectangle(Origin, Origin);
    ghost var loaded: seq<Image> := [];
    for i := 0 to |layers|
      invariant LoadLayers(st, layers[..i]) == Ok(loaded)
      invariant canvas == null <==> i == 0
      invariant canvas != null ==> fresh(canvas)
      invariant i > 0 ==> bounds == loaded[0].bounds && bounds.WellFormed()
      invariant i > 0 ==> canvas.bounds == CanvasBounds(bounds)
      invariant canvas != null ==> |canvas.draws| == i
      invariant canvas != null ==> forall j :: 0 <= j < i ==>
        canvas.draws[j] == DrawOp(Normalise(loaded[j], bounds), canvas.bounds)
    {
      LoadLayersStep(st, layers, i);
      var r := LoadImage(st, layers[i]);
      if r.Err? {
        LoadLayersKeepsEarlyFailure(st, layers, i + 1);
        return null, Some(r.error);
      }
      if r.value.None? {
        // img.Bounds() on a nil image: a run-time panic in the source.
        LoadLayersKeepsEarlyFailure(st, layers, i + 1);
        return null, Some(NilLayer(layers[i]));
      }
      var img := r.value.value;
      if i == 0 {
        bounds := img.bounds;
        canvas := new Canvas(Rect(0, 0, bounds.Dx(), bounds.Dy()));
      }
      if bounds != img.bounds {
        img := Resize(bounds.Dx(), bounds.Dy(), img);
      }
      canvas.Draw(canvas.bounds, img);
      loaded := loaded + [r.value.value];
    }
    assert layers[..|layers|] == layers;
    return canvas, None;
  }

  /** `HighlightCoord`: resolve the marker against the canvas's bounds and
      draw it once; on failure nothing is drawn and no canvas is returned. */
  method HighlightCoord(canvas: Canvas?, coord: string, color: Color, st: Storage, staticPath: string, layout: Layout)
    returns (out: Canvas?, err: Option<Error>)
    requires st.Valid()
    modifies canvas
    ensures canvas == null ==> out == null && err == Some(NilCanvas)
    ensures canvas != null ==> match GetHex(coord, color, canvas.bounds, st, staticPath, layout)
      case Err(e) => out == null && err == Some(e) && canvas.draws == old(canvas.draws)
      case Ok(hex) => out == canvas && err == None && canvas.draws == old(canvas.draws) + [DrawOp(hex.img, hex.rect)]
  {
    if canvas == null {
      // baseImage.Bounds() on a nil image: a run-time panic in the source.
      return null, Some(NilCanvas);
    }
    var hex := GetHex(coord, color, canvas.bounds, st, staticPath, layout);
    if hex.Err? {
      return null, Some(hex.error);
    }
    canvas.Draw(hex.value.rect, hex.value.img);
    return canvas, None;
  }
}
