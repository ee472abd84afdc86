/** Highlight colours, marker assets and the placement of a hex marker. */
module Markers {
  import opened Outcomes
  import opened Geometry
  import opened Coords
  import opened Images

  // ----- Colours and their assets -------------------------------------------

  /** `Color`: any string may be used; six are predefined. */
  type Color = string

  const Green: Color := "green"
  const Orange: Color := "orange"
  const Pink: Color := "pink"
  const Yellow: Color := "yellow"
  const Red: Color := "red"
  /** Warning pattern (yellow-black stripes). */
  const Warn: Color := "warn"

  const DefaultColor: Color := Green

  /** The predefined colours. */
  const Palette: seq<Color> := [Green, Orange, Pink, Yellow, Red, Warn]

  /** `fmt.Sprintf("hex_%s.png", color)`: the file name of a colour's marker. */
  function AssetName(color: Color): (name: string)
    ensures |name| == |color| + 8
    ensures name[..4] == "hex_" && name[|name| - 4..] == ".png"
    ensures name[4..|name| - 4] == color
  {
    "hex_" + color + ".png"
  }

  /** The colour a marker file name was built from. */
  function ColorOfAsset(name: string): Color
    requires |name| >= 8
  {
    name[4..|name| - 4]
  }

  /** The colour can be read back from its file name. */
  lemma AssetNameRoundTrip(color: Color)
    ensures ColorOfAsset(AssetName(color)) == color
  {
  }

  /** Distinct colours have distinct marker files. */
  lemma AssetNameInjective(c1: Color, c2: Color)
    requires AssetName(c1) == AssetName(c2)
    ensures c1 == c2
  {
    AssetNameRoundTrip(c1);
    AssetNameRoundTrip(c2);
  }

  /** The six predefined colours name six different files, and the default
      colour is green. */
  lemma PaletteAssetsDistinct(i: nat, j: nat)
    requires i < j < |Palette|
    ensures AssetName(Palette[i]) != AssetName(Palette[j])
    ensures DefaultColor == Green == Palette[0]
  {
  }

  /** `path.Join(dir, name)` for a name without separators: empty elements are
      dropped, the others joined with "/". */
  function JoinPath(dir: string, name: string): string {
    if dir == "" then name else dir + "/" + name
  }

  /** Where the marker of `color` is stored. */
  function AssetPath(staticPath: string, color: Color): (p: string)
    ensures HasSuffix(p, AssetName(color))
    ensures FormatOf(p) == Png
  {
    var name := AssetName(color);
    var p := JoinPath(staticPath, name);
    assert p[|p| - |name|..] == name;
    assert p[|p| - 4..] == ".png" && p[|p| - 2] == 'n';
    p
  }

  // ----- Placement ----------------------------------------------------------

  /** The float-valued parts of placement, given as their integer results:
      the top-left pixel of a cell on a base image of the given bounds, and
      the marker height for a base image of the given height. */
  datatype Layout = Layout(cellOrigin: (string, Rectangle) -> Point, markerHeight: int -> nat)

  /** `getTargetPoint`: the rectangle starts at the cell's origin and reaches
      the marker's Max corner shifted by that origin. */
  function GetTargetPoint(coord: string, base: Rectangle, hex: Rectangle, layout: Layout): (r: Rectangle)
    ensures r.min == layout.cellOrigin(coord, base)
    ensures r.Dx() == hex.max.x && r.Dy() == hex.max.y
    ensures hex.min == Origin ==> r.Dx() == hex.Dx() && r.Dy() == hex.Dy()
  {
    var origin := layout.cellOrigin(coord, base);
    Rectangle(origin, origin.Add(hex.max))
  }

  /** `hex`: a resized marker and where it goes. */
  datatype Hex = Hex(img: Image, rect: Rectangle)

  /** `getHex`: validate the coordinate, load the colour's marker, resize it
      to the marker height (width keeping the aspect ratio) and place it. */
  function GetHex(coord: string, color: Color, base: Rectangle, st: Storage, staticPath: string, layout: Layout): (r: Result<Hex>)
    requires st.Valid()
    ensures !IsValidCoord(coord) ==> r == Err(InvalidCoordinate(coord))
    ensures IsValidCoord(coord) && r.Err? ==> LoadImage(st, AssetPath(staticPath, color)) == Err(r.error)
    ensures r.Ok? ==> IsValidCoord(coord)
    ensures r.Ok? ==> r.value.img.Resampled?
    ensures r.Ok? ==> LoadImage(st, AssetPath(staticPath, color)) == Ok(Some(r.value.img.source))
    ensures r.Ok? ==> r.value.rect.min == layout.cellOrigin(coord, base)
    ensures r.Ok? ==> r.value.rect.Dx() == r.value.img.bounds.Dx() && r.value.rect.Dy() == r.value.img.bounds.Dy()
    ensures r.Ok? && layout.markerHeight(base.Dy()) > 0 ==> r.value.rect.Dy() == layout.markerHeight(base.Dy())
  {
    if !IsValidCoord(coord) then Err(InvalidCoordinate(coord))
    else
      var loaded := LoadImage(st, AssetPath(staticPath, color));
      if loaded.Err? then Err(loaded.error)
      else
        var resized := Resize(0, layout.markerHeight(base.Dy()), loaded.value.value);
        Ok(Hex(resized, GetTargetPoint(coord, base, resized.bounds, layout)))
  }

  /** An invalid coordinate is reported before any file is looked at: the
      outcome is the same whatever the storage holds. */
  lemma GetHexValidatesFirst(coord: string, color: Color, base: Rectangle, st1: Storage, st2: Storage,
                             staticPath: string, layout: Layout)
    requires st1.Valid() && st2.Valid()
    requires !IsValidCoord(coord)
    ensures GetHex(coord, color, base, st1, staticPath, layout) == Err(InvalidCoordinate(coord))
    ensures GetHex(coord, color, base, st1, staticPath, layout) == GetHex(coord, color, base, st2, staticPath, layout)
  {
  }

  /** `getHex` fails exactly when the coordinate is invalid or the marker
      cannot be loaded; the nil image never reaches the resize step, as the
      marker path always selects the png decoder. */
  lemma GetHexFailures(coord: string, color: Color, base: Rectangle, st: Storage, staticPath: string, layout: Layout)
    requires st.Valid()
    ensures GetHex(coord, color, base, st, staticPath, layout).Err? <==>
      !IsValidCoord(coord) || LoadImage(st, AssetPath(staticPath, color)).Err?
    ensures GetHex(coord, color, base, st, staticPath, layout).Err? ==>
      GetHex(coord, color, base, st, staticPath, layout).error in
        {InvalidCoordinate(coord), OpenFailed(AssetPath(staticPath, color)), DecodeFailed(AssetPath(staticPath, color), false)}
  {
  }

  /** The colour only selects the asset: two colours whose markers decode to
      images of the same bounds are placed on the same rectangle. */
  lemma PlacementIgnoresColor(coord: string, c1: Color, c2: Color, base: Rectangle, st: Storage,
                              staticPath: string, layout: Layout)
    requires st.Valid()
    requires GetHex(coord, c1, base, st, staticPath, layout).Ok?
    requires GetHex(coord, c2, base, st, staticPath, layout).Ok?
    requires GetHex(coord, c1, base, st, staticPath, layout).value.img.source.bounds ==
             GetHex(coord, c2, base, st, staticPath, layout).value.img.source.bounds
    ensures GetHex(coord, c1, base, st, staticPath, layout).value.rect ==
            GetHex(coord, c2, base, st, staticPath, layout).value.rect
  {
  }
}
