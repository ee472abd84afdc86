# hadesmap in Dafny

A model of the `hmap` package of hadesmap, which renders a game map: it
stacks image layers into one base image and then highlights hex-grid cells
("c4", "D7", ...) by drawing a coloured hex marker onto that image. The model
covers the decisions the package makes around its image library, not the
pixels:

- `Coords` — the closed table of 37 grid cells (rows a..g of 4, 5, 6, 7, 6,
  5, 4 cells) and the case-insensitive validator, both as a set-membership
  predicate and as the source's early-return search loop (`CheckCoord`),
  tied to an independent row rule (`InHexGrid`).
- `Images` — images as opaque values with bounds (`Decoded` from a file, or
  `Resampled` from another image), the suffix dispatch of `LoadImage`
  (".jpeg" first, then ".png", anything else: no image and no error), image
  loading over an abstract `Storage` that says which paths open and what each
  decoder makes of them, and the resampler as "a new image of the requested
  size".
- `Markers` — the `Color` strings and their constants, the marker asset name
  `hex_<color>.png`, `getTargetPoint` and `getHex` (validation before any
  load, then load, resize to the marker height, place).
- `BaseMap` — the canvas as a class whose state is its bounds and the ordered
  list of draws made onto it, `GenerateBaseImage` as a loop proved against a
  specification function (`BaseImagePlan`), and `HighlightCoord`.
- `Outcomes`, `Geometry` — the `Option`/`Result`/`Error` values and Go's
  integer `image.Point` and `image.Rectangle`.

Errors are values: a Go `(nil, err)` return is `Err(err)`. Where the source
dereferences a nil image (a layer with an unsupported suffix, or a nil base
image passed to `HighlightCoord`) Go panics; the model reports these as the
errors `NilLayer(path)` and `NilCanvas`.

The code's coordinate table holds 37 tokens (hmap/hadesmap.go:129-137).

The float-valued parts of placement are parameters: a `Layout` gives the
cell's top-left pixel for a coordinate on base bounds (the result of
`newCellPoint` scaled and truncated) and the marker height for a base
height (the result of `uint(cellSizeHight * Dy)`). `staticPath` is a
parameter too. `Storage.Valid()` states what the decoders guarantee: decoded
images have non-negative width and height.

## Model

| member | source | states |
|---|---|---|
| `Coords.CheckCoord` | hmap/hadesmap.go:128-146 | the search loop over the table answers true exactly when the lower-cased token is a cell of the grid, i.e. a row letter a..g followed by a column 1..row length |
| `Coords.IsValidCoord` | hmap/hadesmap.go:128-146 | a token is accepted iff its lower-case form is a row letter with a column digit from 1 to that row's length (4, 5, 6, 7, 6, 5, 4) |
| `Coords.GridIsHexGrid` | hmap/hadesmap.go:129-137 | the table's set of tokens is exactly the set described by the row rule |
| `Coords.DirectionsFollowRowRule` | hmap/hadesmap.go:129-137 | every table entry obeys the row rule and sits at the position the rule gives it (row by row, column by column) |
| `Coords.DirectionsDistinct` | hmap/hadesmap.go:129-137 | no token appears twice in the table |
| `Coords.HexGridInDirections` | hmap/hadesmap.go:129-137 | every token obeying the row rule is in the table |
| `Coords.GridSize` | hmap/hadesmap.go:129-137 | the table accepts exactly 37 distinct tokens |
| `Coords.ToLowerIdempotent` | hmap/hadesmap.go:139 | lower-casing an already lower-cased token changes nothing |
| `Coords.ValidCoordIgnoresCase` | hmap/hadesmap.go:139-145 | a token is accepted iff its lower-case form is |
| `Coords.AcceptedExamples` | hmap/hadesmap.go:129-145 | "a4", "d7", "D4" and "G4" are accepted |
| `Coords.RejectedOutsideRows` | hmap/hadesmap.go:129-145 | "a5", "g5" (past the row end) and "a0" are rejected |
| `Coords.RejectedMalformed` | hmap/hadesmap.go:129-145 | "h1", "z9", the empty token and "d4 " are rejected |
| `Images.FormatOf` | hmap/hadesmap.go:96-106 | the jpeg decoder is chosen iff the path ends in ".jpeg", the png decoder iff it ends in ".png", and neither otherwise |
| `Images.FormatOfExtension` | hmap/hadesmap.go:96-108 | for every stem, ".jpeg" selects jpeg and ".png" selects png, while ".jpg", ".PNG" and ".JPEG" select no decoder |
| `Images.LoadImage` | hmap/hadesmap.go:88-109 | a path that does not open fails whatever its suffix; an opened path with an unsupported suffix gives no image and no error; an opened ".jpeg" path gives exactly the jpeg decoder's image or its error, and an opened ".png" path the png decoder's |
| `Images.LoadImageDecodesKnownFormats` | hmap/hadesmap.go:96-106 | an opened ".jpeg"/".png" path never yields the nil image, and fails iff its decoder fails |
| `Images.Resize` | hmap/hadesmap.go:67 | the result is resampled from the input, anchored at the origin, and has each requested non-zero dimension |
| `Markers.AssetName` | hmap/hadesmap.go:116 | the marker file name is "hex_", then the colour, then ".png" |
| `Markers.AssetNameRoundTrip` | hmap/hadesmap.go:116 | the colour can be read back from its marker file name |
| `Markers.AssetNameInjective` | hmap/hadesmap.go:116 | distinct colours give distinct marker file names |
| `Markers.PaletteAssetsDistinct` | hmap/hadesmap.go:20-40 | the six predefined colours name six different files, and the default colour is green |
| `Markers.AssetPath` | hmap/hadesmap.go:116 | the marker path ends with the marker file name, and so always selects the png decoder |
| `Markers.GetTargetPoint` | hmap/hadesmap.go:149-158 | the rectangle starts at the cell origin and spans the marker's Max corner, so it has the marker's size when the marker's bounds start at (0,0) |
| `Markers.GetHex` | hmap/hadesmap.go:112-125 | an invalid coordinate fails with `InvalidCoordinate`; otherwise a load error is passed on; on success the marker is a resampling of the loaded asset, placed at the cell origin with its own size and the marker height |
| `Markers.GetHexValidatesFirst` | hmap/hadesmap.go:113-116 | for an invalid coordinate the outcome does not depend on the storage: no asset is consulted |
| `Markers.GetHexFailures` | hmap/hadesmap.go:112-119 | `getHex` fails iff the coordinate is invalid or the marker fails to open or decode, and with one of exactly those errors |
| `Markers.PlacementIgnoresColor` | hmap/hadesmap.go:116-122 | two colours whose markers have the same bounds are placed on the same rectangle |
| `BaseMap.Canvas.constructor` | hmap/hadesmap.go:63 | a new canvas has the given bounds and nothing drawn on it |
| `BaseMap.Canvas.Draw` | hmap/hadesmap.go:70 | a draw is appended after all earlier ones |
| `BaseMap.LayerFailure` | hmap/hadesmap.go:56-66 | a layer stops the build iff it does not load to an image: with its load error, or as a nil image from an unsupported suffix |
| `BaseMap.LoadLayers` | hmap/hadesmap.go:55-59 | a successful load gives one image per layer, the i-th being what the i-th path loads to |
| `BaseMap.LoadLayersStep` | hmap/hadesmap.go:55-59 | loading one more layer either fails with that layer's load error or nil-image panic, or appends that layer's image |
| `BaseMap.LoadLayersKeepsEarlyFailure` | hmap/hadesmap.go:55-59 | a failure among the first layers is the failure of the whole list, whatever follows |
| `BaseMap.LoadLayersFirstFailure` | hmap/hadesmap.go:55-59 | the list fails with the failure of its first failing layer |
| `BaseMap.LoadLayersSucceeds` | hmap/hadesmap.go:55-59 | when every layer loads to an image, the list loads |
| `BaseMap.LoadLayersFailureHasCause` | hmap/hadesmap.go:55-59 | a failing list has a first failing layer whose failure it reports |
| `BaseMap.CanvasBounds` | hmap/hadesmap.go:61-63 | the canvas is anchored at (0,0) with the first layer's width and height, and equals the first layer's bounds when those start at (0,0) |
| `BaseMap.Normalise` | hmap/hadesmap.go:66-68 | a layer with the first layer's bounds is drawn as it is; any other is resampled, to the first layer's size when that size is positive |
| `BaseMap.BaseImagePlan` | hmap/hadesmap.go:51-74 | the build gives no image and no error iff the list is empty, and fails iff loading the layers fails, with that error |
| `BaseMap.FirstLayer` | hmap/hadesmap.go:61-62 | a successful build's first image is what the first path loads to |
| `BaseMap.CanvasFromFirstLayer` | hmap/hadesmap.go:61-63 | the canvas is `Rect(0, 0, Dx, Dy)` of the first layer |
| `BaseMap.LayersDrawnInOrder` | hmap/hadesmap.go:55-71 | there is one draw per layer, in input order, each over the whole canvas, of that layer's image or a resampling of it |
| `BaseMap.LayersFitCanvas` | hmap/hadesmap.go:61-70 | when the first layer has positive size every layer is drawn at the canvas size, and with exactly the canvas bounds when the first layer starts at (0,0) |
| `BaseMap.BuildFailsFast` | hmap/hadesmap.go:55-59 | the build fails with the failure of its first failing layer |
| `BaseMap.BuildFailureHasCause` | hmap/hadesmap.go:55-59 | a failed build reports the failure of its first failing layer |
| `BaseMap.BuildSucceedsIffLayersLoad` | hmap/hadesmap.go:55-73 | the build succeeds iff every layer loads to an image |
| `BaseMap.GenerateBaseImage` | hmap/hadesmap.go:51-74 | the loop returns the error of the build specification, nil for an empty list, or a canvas whose bounds and ordered draws are the specification's |
| `BaseMap.HighlightCoord` | hmap/hadesmap.go:77-85 | a nil canvas panics; when `getHex` fails nothing is drawn and no canvas is returned; otherwise the marker is drawn once at its rectangle and the same canvas is returned |

## Left out

- Pixels: decoding (`os.Open`, `jpeg.Decode`, `png.Decode`) is the `Storage` map; `draw.Draw`'s over-compositing is recorded as a draw (source image and rectangle) without blending; the source point is always (0,0) and the operator always `draw.Over`, so neither is recorded.
- Closing the opened file (the deferred `file.Close`) has no effect on results and is not modelled.
- `newCellPoint`, `staticPath` and the float constants `cellSizeHight` and `cellSizeWight` are not part of this model; the cell origin and the marker height enter through `Layout`, and `staticPath` as a parameter.
- `Images.Resize`: the library's float arithmetic for a derived (zero) dimension is modelled as truncated integer scaling, and its shortcut of returning the input unchanged when the size already matches is not modelled (the model always makes a new image at the origin); `BaseMap.LayersFitCanvas` states its exact-bounds claim under this model, its size claim holds either way.
- `Coords.ToLower` lower-cases only the letters A..Z; Go's `strings.ToLower` also folds other scripts, and no such character lower-cases into a letter a..g or a digit, so the accepted set is the same.
- `Markers.JoinPath` joins with "/" and drops an empty directory, but does not apply `path.Clean`; cleaning cannot remove the ".png" suffix, so the decoder choice is unaffected.
- `Markers.GetHex`: the cell origin is computed from the coordinate as given, not lower-cased, as in the source; whether `newCellPoint` accepts upper-case tokens is outside this model.
- `BaseMap.GenerateBaseImage`: does not state that the returned canvas is freshly allocated; for an empty list the source returns a nil `*image.RGBA` inside a non-nil interface, modelled as no canvas.
