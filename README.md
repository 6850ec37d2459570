# WebGL marker layer of the viewer, modelled in Dafny

The viewer draws two families of markers over a zoomable slide image with WebGL,
in `js/utils/glUtils.js`:

- **Barcode markers.** Each processed barcode record has a position and a barcode.
  It may also carry a colour of its own. The layer numbers the distinct barcodes
  in the order they are first seen; that number is the barcode's *LUT index*. The
  style of each barcode is kept in the texel at its index of a 4096-texel RGBA
  byte table. These are the *colour LUT*, the colour input of the barcode's key,
  and its visibility and shape. The alpha byte holds the visibility and the shape.
- **CP markers.** These are cell-morphology rows with a position and a scalar
  property. Each is coloured by where its scalar falls in the data's scalar
  range, or by its own colour column.

The model covers these parts:
- The `glUtils` object and its state: point counts, marker scale, scalar range,
  colour flag, colour-scale name, the two barcode dictionaries, the two vertex
  buffers and the LUT.
- The operations that change that state: `loadMarkers`, `loadCPMarkers`,
  `_updateBarcodeToLUTIndexDict`, `_updateColorLUTTexture`, `updateLUTTextures`,
  `updateMarkerScale` and `draw`.
- The pure string helper `_formatHex`.
- The arithmetic of the vertex shader `MARKERS_VS`: the position transform,
  the LUT lookup, the unpacking of the packed colour, the point size, the shape
  cell and the hiding of invisible points.

Modules, one per file:

| file | module | contents |
|---|---|---|
| `js_values.dfy` | `JsValues` | JavaScript numbers with NaN, `Math.min`/`Math.max`, the `Uint8Array` conversion, `substring`, `includes` |
| `hex_text.dfy` | `HexText` | `Number("0x" + …)`, `toString(16)`, `"0".repeat`, the channels of a `#RRGGBB` string |
| `color_text.dfy` | `ColorText` | `_formatHex` |
| `categories.dfy` | `Categories` | the index and key dictionaries of `_updateBarcodeToLUTIndexDict` |
| `vertices.dfy` | `Vertices` | the vertex data of both loaders and the CP scalar range, with the packing loops as methods |
| `color_lut.dfy` | `ColorLut` | the LUT bytes and the loop that fills them |
| `markers_vs.dfy` | `MarkersVs` | the vertex shader |
| `gl_layer.dfy` | `GlLayer` | class `GlUtils`, the layer's mutable state and its methods |
| `rendering.dfy` | `Rendering` | what the shader draws for a point loaded by `loadMarkers` with the LUT of the same load |

The imperative parts are methods with loops proved against specification
functions:
- `GlUtils.UpdateBarcodeToLUTIndexDict` against `Assign`;
- `PackBarcodeVertices` and `PackCPVertices` against `BarcodePositions`,
  `CPPositions` and `ScalarRange`;
- `FillColorLUT`, which fills an array texel by texel, against `LUTBytes`.

The class methods state their whole new state. `GlUtils.Valid` keeps these
invariants:
- the LUT has 16384 bytes;
- the index dictionary numbers a ghost list of barcodes in first-seen order;
- the key dictionary has the same barcodes;
- each buffer holds four numbers per point.

Inputs that the source reads from the page, from data modules or from the viewer
are parameters:
- the processed records and CSV rows, with their numeric columns already
  converted by `Number()`;
- the key column name and the gene-name-to-key function;
- the unique-colour flag;
- the image size;
- the colour, shape and checkbox inputs of each key (`StyleInputs`);
- the global marker size;
- the viewport bounds, and the home bounds that give the image size.

Exceptions are values: a `Result` for functions, a `Status` for methods.

## Model

| member | source | states |
|---|---|---|
| JsValues.Min | js/utils/glUtils.js:305 | `Math.min` is NaN exactly when an argument is NaN; otherwise it is the smaller argument and equals one of them |
| JsValues.Max | js/utils/glUtils.js:306 | `Math.max` is NaN exactly when an argument is NaN; otherwise it is the larger argument and equals one of them |
| JsValues.Div | js/utils/glUtils.js:262-263 | division by an image dimension keeps NaN and otherwise inverts multiplication |
| JsValues.ToUint8 | js/utils/glUtils.js:389 | the `Uint8Array` conversion always stores a byte, and stores an integer 0..255 unchanged |
| JsValues.Substring | js/utils/glUtils.js:383-385 | with in-range ends `substring` is the slice, and it is never longer than the string |
| JsValues.IncludesIff | js/utils/glUtils.js:294 | `includes` is true exactly when the pattern occurs at some position |
| HexText.HexNumber | js/utils/glUtils.js:265 | `Number("0x" + d)` is a number exactly when `d` without trailing white space is one or more hex digits; for hex digits it is their value |
| HexText.HexStringValue | js/utils/glUtils.js:420 | reading `n.toString(16)` as hex gives back `n` |
| HexText.HexStringLength | js/utils/glUtils.js:420-421 | a number below 16^k has at most k hex digits |
| HexText.Zeros | js/utils/glUtils.js:421 | `"0".repeat(k)` is k zero digits |
| HexText.ColorChannel | js/utils/glUtils.js:383-385 | a channel read from two characters that parses is below 16 to the power of the digits it read |
| HexText.PackedColorChannels | js/utils/glUtils.js:265 | for `#RRGGBB`, the number `Number("0x" + RRGGBB)` is `R*65536 + G*256 + B` of the three channels the LUT code reads, each a byte |
| ColorText.FormatHex | js/utils/glUtils.js:415-424 | a colour without "rgb" is returned unchanged |
| ColorText.FormatHexIdempotent | js/utils/glUtils.js:415-424 | a result of `_formatHex` contains no "rgb", so formatting it again returns it unchanged |
| ColorText.RgbParts | js/utils/glUtils.js:417-419 | splitting `rgb(r, g, b)` at commas gives exactly the three component texts |
| ColorText.ParseSpacedDecimal | js/utils/glUtils.js:420 | `Number()` of a component with leading spaces is its decimal value |
| ColorText.FormatHexRgb | js/utils/glUtils.js:415-424 | `rgb(r, g, b)` becomes `#` plus the hex of `r*65536+g*256+b` zero-padded to six digits when it fits; when it needs more than six digits `repeat` throws a RangeError |
| ColorText.FormatHexBytes | js/utils/glUtils.js:415-424 | for byte components the hex text has at most six digits, so `_formatHex` succeeds with the zero-padded `#` form |
| ColorText.FormatHexRoundTrip | js/utils/glUtils.js:415-424 | for byte components the result is a well-formed `#RRGGBB` whose three channels read back as r, g, b and whose packed value is `r*65536+g*256+b` |
| Categories.AssignEnumerates | js/utils/glUtils.js:324-338 | the index dictionary numbers the first-seen list of barcodes 0, 1, …; the running index is its length; the key dictionary has the same barcodes |
| Categories.FirstSeenLetters | js/utils/glUtils.js:328-331 | a barcode is in the first-seen list exactly when some record carries it |
| Categories.AssignIndices | js/utils/glUtils.js:324-338 | the dictionaries hold exactly the barcodes that occur; the indices are exactly 0..k-1 for k distinct barcodes, one barcode each |
| Categories.AssignExtends | js/utils/glUtils.js:331-334 | later records never change an entry an earlier record made |
| Categories.FirstOccurrence | js/utils/glUtils.js:331-334 | a barcode first seen at record i gets as index the number of distinct barcodes before i, and its key from record i (the barcode itself for "letters", else the key of its gene name) |
| Categories.FirstSeenOrder | js/utils/glUtils.js:331-333 | a barcode first met later gets a larger index than every barcode met before it |
| Vertices.PackedNumber | js/utils/glUtils.js:265 | the fourth number of a point is the packed integer of a well-formed colour |
| Vertices.DefaultIsZero | js/utils/glUtils.js:257 | the default colour `#000000` packs to 0 |
| Vertices.BarcodeThrows | js/utils/glUtils.js:258-266 | loadMarkers' loop throws exactly when own colours are used and some record lacks the colour property, and the exception is a TypeError |
| Vertices.BarcodePacking | js/utils/glUtils.js:258-266 | when the loop completes there are four numbers per record: x and y over the image size, the LUT index over 4095, and the record's packed colour or 0 |
| Vertices.PackBarcodeVertices | js/utils/glUtils.js:258-266 | the loop computes exactly `BarcodePositions`, including its TypeError |
| Vertices.CPThrows | js/utils/glUtils.js:296-307 | loadCPMarkers' loop throws exactly when own colours are used and some row lacks the property cell, with a TypeError |
| Vertices.CPPacking | js/utils/glUtils.js:296-307 | when the loop completes there are four numbers per row: x and y over the image size, the scalar, and the packed colour or 0 |
| Vertices.PackCPVertices | js/utils/glUtils.js:296-307 | the loop computes `CPPositions` and, alongside, the scalar range `ScalarRange` |
| Vertices.RangeNaN | js/utils/glUtils.js:298-307 | an end of the scalar range is NaN exactly when some scalar is NaN |
| Vertices.RangeBounds | js/utils/glUtils.js:298-307 | without NaN the range starts at most 1e9 and ends at least -1e9, every scalar lies within it, and each end is its initial value or a scalar |
| Vertices.RangeAttained | js/utils/glUtils.js:298-307 | for non-empty data within ±1e9 both ends are attained by scalars |
| Vertices.RangeEmpty | js/utils/glUtils.js:298 | empty data leaves the inverted range [1e9, -1e9] |
| ColorLut.TexelBytes | js/utils/glUtils.js:383-389 | each texel is four bytes |
| ColorLut.LUTBytes | js/utils/glUtils.js:370-389 | the table has 4096 texels of four bytes, each byte in 0..255 |
| ColorLut.LUTByte | js/utils/glUtils.js:370-389 | byte i of the table is channel i mod 4 of the key of the (i div 4)-th first-seen barcode, and 0 past the last barcode |
| ColorLut.FillColorLUT | js/utils/glUtils.js:366-389 | the loop over the index dictionary yields exactly `LUTBytes`: texel k holds the style of the k-th first-seen barcode, and every other byte is 0 |
| ColorLut.TexelOfBarcode | js/utils/glUtils.js:371-386 | the texel at a barcode's index holds the four bytes of that barcode's key |
| ColorLut.TexelsOfBarcode | js/utils/glUtils.js:371-386 | a barcode's index is one of the 4096 texels, and all four of its channels hold its key's bytes |
| ColorLut.UnmappedTexel | js/utils/glUtils.js:370-389 | a texel no barcode is mapped to is all zeros |
| ColorLut.AlphaEncodesVisibility | js/utils/glUtils.js:381-386 | for shapes 0..254 the alpha byte is the shape plus 1 when the key is visible and 0 when hidden, so alpha 0 means exactly hidden |
| ColorLut.ShowAllShows | js/utils/glUtils.js:367-382 | with the all-markers box ticked every key is shown |
| ColorLut.NaNShapeHides | js/utils/glUtils.js:381-386 | a shape that is not a number gives alpha 0 |
| ColorLut.MissingColorIsBlack | js/utils/glUtils.js:374-379 | a key without a colour input is black |
| ColorLut.DefaultChannels | js/utils/glUtils.js:379 | the three channels of `#000000` are 0 |
| ColorLut.WellFormedTexel | js/utils/glUtils.js:383-385 | a `#RRGGBB` input gives the texel its three bytes, and they are the bytes of the packed colour |
| MarkersVs.FloorModIsMod | js/utils/glUtils.js:35 | GLSL `floor(mod(x, 256))` is integer modulo of the floor |
| MarkersVs.FloorDiv | js/utils/glUtils.js:35 | the floor of a real quotient of integers is integer division |
| MarkersVs.HexToRgbInteger | js/utils/glUtils.js:31-36 | `hex_to_rgb` of an integer gives the three bytes of the clamped value |
| MarkersVs.HexToRgbInverts | js/utils/glUtils.js:31-36 | unpacking `r*65536+g*256+b` gives r, g, b back |
| MarkersVs.PackInverts | js/utils/glUtils.js:31-36 | repacking the unpacked bytes of a 24-bit integer gives the integer back |
| MarkersVs.HexToRgbClamps | js/utils/glUtils.js:34 | values at or below 0 are black and values at or above 16777215 are white |
| MarkersVs.ColorRoundTrip | js/utils/glUtils.js:31-55 | a colour packed by a loader is unpacked by the shader into the colour's own channels |
| MarkersVs.NdcRoundTrip | js/utils/glUtils.js:40-43 | the image-to-clip-space transform has an inverse: image positions come back |
| MarkersVs.NdcRoundTripBack | js/utils/glUtils.js:40-43 | and the inverse is also a right inverse: clip-space positions come back |
| MarkersVs.InsideViewport | js/utils/glUtils.js:40-43 | a point is inside the viewport rectangle exactly when its clip coordinates lie in [-1, 1], with y flipped |
| MarkersVs.CentreToOrigin | js/utils/glUtils.js:40-43 | the viewport centre maps to the clip-space origin |
| MarkersVs.UnitCentre | js/utils/glUtils.js:40-43 | with the initial image size and viewport the image centre is at the origin |
| MarkersVs.PointSizeFloor | js/utils/glUtils.js:58 | the point size is never below 2; it is the scale over the viewport height above that |
| MarkersVs.PointSizeMonotone | js/utils/glUtils.js:58 | a larger marker scale never gives smaller points |
| MarkersVs.ShapeColorBiasRange | js/utils/glUtils.js:62 | the shape colour bias lies in [0, 0.6] and is 0 exactly from size 5 up |
| MarkersVs.ShapeCell | js/utils/glUtils.js:60-61 | alpha byte s+1 selects column s mod 4 and row s div 4 of the 4-by-4 shape atlas |
| MarkersVs.CPShape | js/utils/glUtils.js:52-61 | the CP alpha 7 selects atlas cell (2, 1), the round shape |
| MarkersVs.NearestTexel | js/utils/glUtils.js:47 | a nearest, clamped lookup reads one of the 4096 texels |
| MarkersVs.TexelCoordinate | js/utils/glUtils.js:264 | the loader's coordinate `index / 4095` reads back texel `index`, the last one included |
| MarkersVs.NormalizedRange | js/utils/glUtils.js:49-51 | inside a proper range the scalar maps into [0, 1], with the ends at 0 and 1 |
| MarkersVs.NormalizedExample | js/utils/glUtils.js:49-51 | in [10, 30] the scalar 20 maps to 0.5 |
| MarkersVs.HiddenPointsOffScreen | js/utils/glUtils.js:64-66 | a barcode point whose texel alpha is 0 is moved off screen with alpha 0; any other is placed at its clip position with the layer opacity |
| MarkersVs.CPPointsShown | js/utils/glUtils.js:48-66 | CP points are always drawn with the round shape at the layer opacity, coloured by their normalised scalar unless own colours are on |
| GlLayer.ClampScale | js/utils/glUtils.js:643 | the marker scale is a number exactly when the size is, and it then lies in [0.01, 5] |
| GlLayer.ClampScaleCases | js/utils/glUtils.js:639-644 | sizes in [1, 500] are divided by 100, larger ones give 5, smaller ones give 0.01, and a size that is not a number gives NaN |
| GlLayer.GlUtils.constructor | js/utils/glUtils.js:99-176 | the initial state: no points, image size (1, 1), viewport (0, 0, 1, 1), range [0, 1], opacity 1, no own colours, colour scale "null", empty dictionaries, the clamped global marker size, initialised |
| GlLayer.GlUtils.UpdateMarkerScale | js/utils/glUtils.js:639-644 | only the marker scale changes, to the clamped global size |
| GlLayer.GlUtils.UpdateBarcodeToLUTIndexDict | js/utils/glUtils.js:324-338 | both dictionaries are replaced by the ones built from the records alone, whatever they held before; nothing else changes |
| GlLayer.GlUtils.UpdateColorLUTTexture | js/utils/glUtils.js:366-395 | the LUT becomes `LUTBytes` of the current dictionaries and style inputs; nothing else changes |
| GlLayer.GlUtils.UpdateLUTTextures | js/utils/glUtils.js:647-655 | the LUT is rebuilt only when initialised and barcode points are loaded; otherwise nothing changes |
| GlLayer.GlUtils.LoadMarkers | js/utils/glUtils.js:239-276 | not initialised: nothing changes. Otherwise the dictionaries are replaced. Then empty data with unique colours, or a record without the colour property, throws a TypeError and leaves buffer, count, flag and LUT as they were. Otherwise the buffer is the packed records, the count is their number, the flag is set, and the LUT is rebuilt when there are points |
| GlLayer.GlUtils.SetBarcodeData | js/utils/glUtils.js:258-275 | the packing loop and, unless it throws, the buffer, count and colour flag it sets |
| GlLayer.LettersIndexed | js/utils/glUtils.js:251-264 | after the dictionaries are built every record's barcode has an index |
| GlLayer.GlUtils.Draw | js/utils/glUtils.js:560-626 | not initialised: no frame. Otherwise the viewport and image size come from the viewer; the barcode call uses the marker scale, the colour flag and count. When a colour scale is selected, the CP call uses half the scale and own colours when the scale name says so |
| GlLayer.GlUtils.SetCPData | js/utils/glUtils.js:294-317 | the CP packing and, unless it throws, the buffer, count, scalar range and colour-scale name |
| GlLayer.GlUtils.StoreCP | js/utils/glUtils.js:309-317 | the buffer, count, scalar range and colour-scale name are stored and the invariant kept; nothing else changes |
| GlLayer.GlUtils.LoadCPMarkers | js/utils/glUtils.js:280-321 | as written; see Findings |
| GlLayer.GlUtils.LoadCPMarkersIntended | js/utils/glUtils.js:280-321 | as intended; see Findings |
| Rendering.PointAttribute | js/utils/glUtils.js:21-40 | the shader attribute of point i is the i-th group of four numbers in the buffer |
| Rendering.LoadedPoint | js/utils/glUtils.js:251-266 | when every needed colour is present, loadMarkers' packing succeeds. Point i then holds its barcode's LUT index over 4095 and its packed colour or 0 |
| Rendering.LoadedBarcode | js/utils/glUtils.js:324-338 | a barcode that occurs in the records is in both dictionaries, and the index dictionary numbers the first-seen list |
| Rendering.LoadedTexel | js/utils/glUtils.js:366-389 | the texel at a loaded barcode's index holds the four bytes of its key |
| Rendering.ShadeBarcode | js/utils/glUtils.js:38-67 | for a barcode point reading texel k: its colour is the texel's colour, or the unpacked own colour. Its shape cell is chosen by the alpha byte, and it is off screen exactly when that byte is 0 |
| Rendering.BarcodePointStyle | js/utils/glUtils.js:239-276 | an end-to-end loadMarkers and draw, without own colours. Each point is drawn in its key's colour input, from the shape cell its key selects, and it is off screen exactly when its key is hidden |
| Rendering.OwnColorPointStyle | js/utils/glUtils.js:239-276 | the same in own-colour mode. A record whose colour is `#RRGGBB` is drawn in exactly those three bytes |
| Rendering.LoadedKeyOfFirst | js/utils/glUtils.js:331-334 | a barcode's style key is the one computed from the record where it first occurs |
| Rendering.StyleExample | js/utils/glUtils.js:383-386 | a shown key with colour `#112233` and shape 2 gets texel (17, 34, 51, 3), drawn from atlas cell (2, 0) |

## Left out

- WebGL itself is not modelled: contexts, programs, buffers and textures are
  sequences in the model. Also left out: the fragment shader, the shape-atlas
  image, canvas resizing (`resize`, `resizeAndDraw`), event handler
  registration and the OpenSeadragon viewer.
- `_createDummyMarkerBuffer` and `_createColorLUTTexture` fill with
  `Math.random()`. They become the empty buffers of the constructor and an
  arbitrary byte table passed to it.
- `_updateColorScaleTexture` and the colour-bar canvas are not modelled. They
  depend on d3 colour scales and sine functions. `_formatHex`, which they call,
  is modelled on its own.
- Floating point is modelled as exact reals: `Float32Array`, `float` uniforms
  and GLSL precision. The shader's `+ 0.49` rounding guard in `hex_to_rgb` is
  dropped, because on exact integers it changes nothing.
- The rotation uniform is the identity: the viewer is not rotated.
- Texture sampling is nearest-texel lookup at `u * 4096`, clamped to the edge.
- Infinity is not a `JsNum`. No input the model accepts produces it.
- `Number()` of CSV cells and DOM input values is done by the caller. Records
  and `StyleInputs` carry the converted values.
- `ColorText.ParseInteger` models `Number()` of `_formatHex` components for
  decimal integer text only (white space trimmed, an optional sign, decimal
  digits). Every other text reads as NaN, including some that `Number()` reads
  as a number: decimal fractions, exponents, hex, octal and binary literals
  ("0x1f", "0o7", "0b1") and "Infinity".
- `GlUtils.LoadMarkers`: requires at most 4096 distinct barcodes. With more,
  the source's array grows past 16384 entries. `texImage2D` still uploads a
  4096-by-1 texture from the first 16384 bytes. A barcode with index 4096 or more
  gets coordinate index / 4095 > 1, and the clamped nearest lookup reads texel
  4095 for it. So all such barcodes share the style of the barcode at index 4095.
  The model does not cover this case.
- `GlUtils.LoadMarkers` and `GlUtils.LoadCPMarkers`: require that the image
  width and height are positive.
- JavaScript `in` on the plain-object dictionary also finds inherited names
  such as "constructor". The model treats the dictionary as an empty map at the
  start, so barcodes that collide with `Object.prototype` names are not modelled.
- `Vertices.CPRecord` carries the scalar `value` and the property cell's `text`
  as two fields. In the source both come from the same column, `Number()` of the
  cell and the cell itself. So in own-colour mode a "#RRGGBB" cell has scalar NaN,
  and the scalar range becomes NaN. The model does not tie the two fields
  together, so it also admits rows the source cannot produce. Every lemma about
  such rows holds for the rows the source does produce.
- `StyleInputs` assumes every key has a shape input and a checkbox. Missing ones
  make the source throw a TypeError in `_updateColorLUTTexture`; that is not
  modelled.
- `GlUtils.Draw` records the calls it would issue. The fixed-function GL state
  (blending, viewport, texture units) is not modelled.
- `Rendering.BarcodePointStyle`: covers points whose x and y are numbers. The
  shader's handling of NaN positions is undefined in GLSL and is not modelled.
- `MarkersVs.Shade`: requires a numeric LUT coordinate. The loaders always
  produce one.

## Findings

| source | as written | input that shows it | evidently intended | confidence | as-written member | corrected member |
|---|---|---|---|---|---|---|
| js/utils/glUtils.js:464 | `_updateColorbarCanvas` calls `getElementByClassName` on the viewer's element. Elements have no such method, so every `loadCPMarkers` that gets past its packing loop throws a TypeError after storing the new CP state. Its forced redraw at line 320 never runs | any CP data load once initialised, for example no rows with colour scale "null" | look the canvas up with `getElementsByClassName("CP_colorbar")[0]`, as `_createColorbarCanvas` does at line 510, so that the load ends with a redraw | high; not executed | GlLayer.GlUtils.LoadCPMarkers | GlLayer.GlUtils.LoadCPMarkersIntended |
