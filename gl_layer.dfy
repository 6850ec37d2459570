/** The `glUtils` object: the state the WebGL marker layer keeps between calls, and
    the operations that load marker data, rebuild the style table, set the marker
    scale and issue the draw calls. GPU buffers and textures are sequences that
    the methods overwrite in full. */
module GlLayer {
  import opened JsValues
  import opened Categories
  import opened Vertices
  import opened ColorLut
  import opened MarkersVs

  /** `Math.max(0.01, Math.min(5.0, size / 100.0))`. */
  function ClampScale(size: JsNum): (r: JsNum)
    ensures r.Fin? <==> size.Fin?
    ensures r.Fin? ==> 0.01 <= r.v <= 5.0
  {
    Max(Fin(0.01), Min(Fin(5.0), Div(size, 100.0)))
  }

  /** The clamp divides by 100 inside [1, 500] and saturates outside it. */
  lemma ClampScaleCases(size: real)
    ensures 1.0 <= size <= 500.0 ==> ClampScale(Fin(size)) == Fin(size / 100.0)
    ensures size >= 500.0 ==> ClampScale(Fin(size)) == Fin(5.0)
    ensures size <= 1.0 ==> ClampScale(Fin(size)) == Fin(0.01)
    ensures ClampScale(NaN) == NaN
  {
    var q := size / 100.0;
    assert Div(Fin(size), 100.0) == Fin(q);
    if 1.0 <= size <= 500.0 {
      assert 0.01 <= q <= 5.0;
    } else if size >= 500.0 {
      assert q >= 5.0;
    } else {
      assert q < 0.01;
    }
  }

  /** One `drawArrays` call with the uniforms that differ between the two families. */
  datatype DrawCall = DrawCall(
    markerType: MarkerType,
    markerScale: JsNum,
    useColorFromMarker: bool,
    count: nat,
    buffer: seq<JsNum>)

  /** What one `draw` sends to the GPU: the shared uniforms, the barcode call, and the
      CP call when one is made. */
  datatype Frame =
    | NoFrame
    | Frame(imageSize: Vec2, viewportRect: Rect, scalarRange: Range, opacity: real,
            colorLUT: seq<int>, barcode: DrawCall, cp: Option<DrawCall>)

  /** The colour-scale name that means "no scale selected". */
  const NoColorscale: string := "null"
  const OwnColor: string := "ownColorFromColumn"

  class GlUtils {
    var initialized: bool
    var numBarcodePoints: nat
    var numCPPoints: nat
    var imageSize: Vec2
    var viewportRect: Rect
    var markerScale: JsNum
    var markerScalarRange: Range
    var markerOpacity: real
    var useColorFromMarker: bool
    var colorscaleName: string
    var barcodeToLUTIndex: map<string, int>
    var barcodeToKey: map<string, string>
    /** The contents of the "barcodeMarkers" and "CPMarkers" vertex buffers. */
    var barcodeBuffer: seq<JsNum>
    var cpBuffer: seq<JsNum>
    /** The contents of the "colorLUT" texture, RGBA bytes. */
    var colorLUT: seq<int>
    /** The barcodes in index order, the list the index dictionary numbers. */
    ghost var barcodeOrder: seq<string>

    ghost predicate Valid()
      reads this
    {
      |colorLUT| == ByteCount && (forall i :: 0 <= i < |colorLUT| ==> 0 <= colorLUT[i] < 256)
      && Enumerates(barcodeToLUTIndex, barcodeOrder) && barcodeToLUTIndex.Keys == barcodeToKey.Keys
      && |barcodeBuffer| == 4 * numBarcodePoints && |cpBuffer| == 4 * numCPPoints
    }

    /** The constructor's state changes. The initial table is the random one of
        `_createColorLUTTexture`; the marker scale comes from the global size input
        through `updateMarkerScale`, which overrides the constructor argument. */
    constructor (initialLUT: seq<int>, globalMarkerSize: JsNum)
      requires |initialLUT| == ByteCount && forall i :: 0 <= i < |initialLUT| ==> 0 <= initialLUT[i] < 256
      ensures Valid() && initialized
      ensures numBarcodePoints == 0 && numCPPoints == 0 && barcodeBuffer == [] && cpBuffer == []
      ensures imageSize == Vec2(1.0, 1.0) && viewportRect == Rect(0.0, 0.0, 1.0, 1.0)
      ensures markerScale == ClampScale(globalMarkerSize) && markerScalarRange == Range(Fin(0.0), Fin(1.0))
      ensures markerOpacity == 1.0 && !useColorFromMarker && colorscaleName == NoColorscale
      ensures barcodeToLUTIndex == map[] && barcodeToKey == map[] && colorLUT == initialLUT
    {
      numBarcodePoints := 0;
      numCPPoints := 0;
      imageSize := Vec2(1.0, 1.0);
      viewportRect := Rect(0.0, 0.0, 1.0, 1.0);
      markerScalarRange := Range(Fin(0.0), Fin(1.0));
      markerOpacity := 1.0;
      useColorFromMarker := false;
      colorscaleName := NoColorscale;
      barcodeToLUTIndex := map[];
      barcodeToKey := map[];
      barcodeOrder := [];
      barcodeBuffer := [];
      cpBuffer := [];
      colorLUT := initialLUT;
      markerScale := ClampScale(globalMarkerSize);
      initialized := true;
    }

    /** `updateMarkerScale`: only the marker scale changes, to the clamped size. */
    method UpdateMarkerScale(globalMarkerSize: JsNum)
      modifies this
      ensures markerScale == ClampScale(globalMarkerSize)
      ensures markerScale.Fin? ==> 0.01 <= markerScale.v <= 5.0
      ensures initialized == old(initialized) && numBarcodePoints == old(numBarcodePoints)
      ensures numCPPoints == old(numCPPoints) && imageSize == old(imageSize) && viewportRect == old(viewportRect)
      ensures markerScalarRange == old(markerScalarRange) && markerOpacity == old(markerOpacity)
      ensures useColorFromMarker == old(useColorFromMarker) && colorscaleName == old(colorscaleName)
      ensures barcodeToLUTIndex == old(barcodeToLUTIndex) && barcodeToKey == old(barcodeToKey)
      ensures barcodeBuffer == old(barcodeBuffer) && cpBuffer == old(cpBuffer) && colorLUT == old(colorLUT)
      ensures barcodeOrder == old(barcodeOrder)
    {
      markerScale := ClampScale(globalMarkerSize);
    }

    /** `_updateBarcodeToLUTIndexDict`: both dictionaries are replaced by the ones
        built from the records alone, whatever they held before. */
    method UpdateBarcodeToLUTIndexDict(records: seq<BarcodeRecord>, keyName: string, keyFrom: string -> string)
      requires Valid()
      modifies this
      ensures Valid()
      ensures barcodeToLUTIndex == Assign(records, keyName, keyFrom).toIndex
      ensures barcodeToKey == Assign(records, keyName, keyFrom).toKey
      ensures barcodeOrder == FirstSeen(records)
      ensures initialized == old(initialized) && numBarcodePoints == old(numBarcodePoints)
      ensures numCPPoints == old(numCPPoints) && imageSize == old(imageSize) && viewportRect == old(viewportRect)
      ensures markerScale == old(markerScale) && markerScalarRange == old(markerScalarRange)
      ensures markerOpacity == old(markerOpacity) && useColorFromMarker == old(useColorFromMarker)
      ensures colorscaleName == old(colorscaleName)
      ensures barcodeBuffer == old(barcodeBuffer) && cpBuffer == old(cpBuffer) && colorLUT == old(colorLUT)
    {
      var toIndex: map<string, int> := map[];
      var toKey: map<string, string> := map[];
      var index := 0;
      var i := 0;
      while i < |records|
        invariant 0 <= i <= |records|
        invariant Assign(records[..i], keyName, keyFrom) == Dicts(toIndex, toKey, index)
      {
        assert records[..i + 1][..i] == records[..i];
        var barcode := records[i].letters;
        var geneName := records[i].geneName;
        if barcode !in toIndex {
          toIndex := toIndex[barcode := index];
          index := index + 1;
          toKey := toKey[barcode := if keyName == "letters" then barcode else keyFrom(geneName)];
        }
        i := i + 1;
      }
      assert records[..i] == records;
      AssignEnumerates(records, keyName, keyFrom);
      barcodeToLUTIndex := toIndex;
      barcodeToKey := toKey;
      barcodeOrder := FirstSeen(records);
    }

    /** `_updateColorLUTTexture`: the table becomes the texels of the current
        dictionaries and style inputs, and nothing else changes. */
    method UpdateColorLUTTexture(style: StyleInputs)
      requires Valid() && |barcodeOrder| <= TexelCount
      modifies this
      ensures Valid()
      ensures (forall i :: 0 <= i < |barcodeOrder| ==> barcodeOrder[i] in barcodeToKey)
           && colorLUT == LUTBytes(barcodeOrder, barcodeToKey, style)
      ensures initialized == old(initialized) && numBarcodePoints == old(numBarcodePoints)
      ensures numCPPoints == old(numCPPoints) && imageSize == old(imageSize) && viewportRect == old(viewportRect)
      ensures markerScale == old(markerScale) && markerScalarRange == old(markerScalarRange)
      ensures markerOpacity == old(markerOpacity) && useColorFromMarker == old(useColorFromMarker)
      ensures colorscaleName == old(colorscaleName)
      ensures barcodeToLUTIndex == old(barcodeToLUTIndex) && barcodeToKey == old(barcodeToKey)
      ensures barcodeBuffer == old(barcodeBuffer) && cpBuffer == old(cpBuffer) && barcodeOrder == old(barcodeOrder)
    {
      var bytes := FillColorLUT(barcodeToLUTIndex, barcodeToKey, style, barcodeOrder);
      colorLUT := bytes;
    }

    /** `updateLUTTextures`: the table is rebuilt only once initialised and only when
        barcode points are loaded; otherwise nothing changes. */
    method UpdateLUTTextures(style: StyleInputs)
      requires Valid() && (numBarcodePoints > 0 ==> |barcodeOrder| <= TexelCount)
      modifies this
      ensures Valid()
      ensures (forall i :: 0 <= i < |barcodeOrder| ==> barcodeOrder[i] in barcodeToKey)
      ensures colorLUT == if initialized && numBarcodePoints > 0
                          then LUTBytes(barcodeOrder, barcodeToKey, style) else old(colorLUT)
      ensures initialized == old(initialized) && numBarcodePoints == old(numBarcodePoints)
      ensures numCPPoints == old(numCPPoints) && imageSize == old(imageSize) && viewportRect == old(viewportRect)
      ensures markerScale == old(markerScale) && markerScalarRange == old(markerScalarRange)
      ensures markerOpacity == old(markerOpacity) && useColorFromMarker == old(useColorFromMarker)
      ensures colorscaleName == old(colorscaleName)
      ensures barcodeToLUTIndex == old(barcodeToLUTIndex) && barcodeToKey == old(barcodeToKey)
      ensures barcodeBuffer == old(barcodeBuffer) && cpBuffer == old(cpBuffer) && barcodeOrder == old(barcodeOrder)
    {
      if !initialized {
        return;
      }
      if numBarcodePoints > 0 {
        UpdateColorLUTTexture(style);
      }
    }

    /** `loadMarkers`. The dictionaries are replaced first; then, with unique colours
        selected, empty data throws (`markerData[0]` is undefined) and a record
        without the colour property throws in the loop, leaving everything else as
        it was. Otherwise the buffer, the point count and the colour flag are set and
        the style table is rebuilt. */
    method LoadMarkers(records: seq<BarcodeRecord>, keyName: string, keyFrom: string -> string, uniqueColor: bool,
                       imageWidth: real, imageHeight: real, style: StyleInputs)
      returns (status: Status)
      requires Valid() && imageWidth > 0.0 && imageHeight > 0.0
      requires |FirstSeen(records)| <= TexelCount
      modifies this
      ensures Valid()
      ensures !old(initialized) ==>
                (status == Completed
                 && barcodeToLUTIndex == old(barcodeToLUTIndex) && barcodeToKey == old(barcodeToKey)
                 && barcodeBuffer == old(barcodeBuffer) && numBarcodePoints == old(numBarcodePoints)
                 && useColorFromMarker == old(useColorFromMarker) && colorLUT == old(colorLUT))
      ensures old(initialized) ==>
                (barcodeToLUTIndex == Assign(records, keyName, keyFrom).toIndex
                 && barcodeToKey == Assign(records, keyName, keyFrom).toKey && barcodeOrder == FirstSeen(records))
      ensures old(initialized) ==>
        var useColor := uniqueColor && |records| > 0 && records[0].color.Some?;
        var packed := MarkerPositions(records, keyName, keyFrom, imageWidth, imageHeight, useColor);
        if (uniqueColor && records == []) || packed.Err? then
          status == Threw(TypeError)
          && barcodeBuffer == old(barcodeBuffer) && numBarcodePoints == old(numBarcodePoints)
          && useColorFromMarker == old(useColorFromMarker) && colorLUT == old(colorLUT)
        else
          status == Completed && barcodeBuffer == packed.value && numBarcodePoints == |records|
          && useColorFromMarker == useColor
          && colorLUT == if records != [] then LUTBytes(FirstSeen(records), barcodeToKey, style) else old(colorLUT)
      ensures initialized == old(initialized) && numCPPoints == old(numCPPoints) && cpBuffer == old(cpBuffer)
      ensures imageSize == old(imageSize) && viewportRect == old(viewportRect) && markerScale == old(markerScale)
      ensures markerScalarRange == old(markerScalarRange) && markerOpacity == old(markerOpacity)
      ensures colorscaleName == old(colorscaleName)
    {
      if !initialized {
        return Completed;
      }
      UpdateBarcodeToLUTIndexDict(records, keyName, keyFrom);
      if uniqueColor && |records| == 0 {
        return Threw(TypeError);
      }
      var useColor := uniqueColor && records[0].color.Some?;
      LettersIndexed(records, keyName, keyFrom);
      var ok := SetBarcodeData(records, imageWidth, imageHeight, useColor);
      if !ok {
        return Threw(TypeError);
      }
      UpdateLUTTextures(style);
      return Completed;
    }

    /** The packing loop of loadMarkers and, unless it throws, the buffer, point
        count and colour flag it sets. */
    method SetBarcodeData(records: seq<BarcodeRecord>, imageWidth: real, imageHeight: real, useColor: bool)
      returns (ok: bool)
      requires Valid() && imageWidth > 0.0 && imageHeight > 0.0
      requires forall i :: 0 <= i < |records| ==> records[i].letters in barcodeToLUTIndex
      modifies this
      ensures Valid()
      ensures barcodeToLUTIndex == old(barcodeToLUTIndex) && barcodeToKey == old(barcodeToKey)
      ensures var packed := BarcodePositions(records, barcodeToLUTIndex, imageWidth, imageHeight, useColor);
        ok == packed.Ok?
        && if packed.Err? then
             barcodeBuffer == old(barcodeBuffer) && numBarcodePoints == old(numBarcodePoints)
             && useColorFromMarker == old(useColorFromMarker)
           else
             barcodeBuffer == packed.value && numBarcodePoints == |records| && useColorFromMarker == useColor
      ensures initialized == old(initialized) && numCPPoints == old(numCPPoints) && cpBuffer == old(cpBuffer)
      ensures imageSize == old(imageSize) && viewportRect == old(viewportRect) && markerScale == old(markerScale)
      ensures markerScalarRange == old(markerScalarRange) && markerOpacity == old(markerOpacity)
      ensures colorscaleName == old(colorscaleName) && colorLUT == old(colorLUT)
      ensures barcodeOrder == old(barcodeOrder)
    {
      var packed := PackBarcodeVertices(records, barcodeToLUTIndex, imageWidth, imageHeight, useColor);
      if packed.Err? {
        return false;
      }
      BarcodeLength(records, barcodeToLUTIndex, imageWidth, imageHeight, useColor);
      barcodeBuffer := packed.value;
      numBarcodePoints := |records|;
      useColorFromMarker := useColor;
      return true;
    }

    /** `draw`. Before initialisation nothing happens. Otherwise the viewport and
        image size are taken from the viewer, the barcode points are drawn with the
        marker scale, and the CP points with half of it, but only when a colour
        scale is selected. */
    method Draw(bounds: Rect, homeBounds: Vec2) returns (frame: Frame)
      modifies this
      ensures !old(initialized) ==>
                (frame == NoFrame && imageSize == old(imageSize) && viewportRect == old(viewportRect))
      ensures old(initialized) ==>
                (viewportRect == bounds && imageSize == homeBounds
                 && frame == Frame(homeBounds, bounds, markerScalarRange, markerOpacity, colorLUT,
                                   DrawCall(BarcodeMarkers, markerScale, useColorFromMarker, numBarcodePoints, barcodeBuffer),
                                   if colorscaleName != NoColorscale
                                   then Some(DrawCall(CPMarkers, Scale(markerScale, 0.5), Includes(colorscaleName, OwnColor),
                                                      numCPPoints, cpBuffer))
                                   else None))
      ensures initialized == old(initialized) && numBarcodePoints == old(numBarcodePoints)
      ensures numCPPoints == old(numCPPoints) && markerScale == old(markerScale)
      ensures markerScalarRange == old(markerScalarRange) && markerOpacity == old(markerOpacity)
      ensures useColorFromMarker == old(useColorFromMarker) && colorscaleName == old(colorscaleName)
      ensures barcodeToLUTIndex == old(barcodeToLUTIndex) && barcodeToKey == old(barcodeToKey)
      ensures barcodeBuffer == old(barcodeBuffer) && cpBuffer == old(cpBuffer) && colorLUT == old(colorLUT)
      ensures barcodeOrder == old(barcodeOrder)
    {
      if !initialized {
        return NoFrame;
      }
      viewportRect := bounds;
      imageSize := homeBounds;
      var barcodeCall := DrawCall(BarcodeMarkers, markerScale, useColorFromMarker, numBarcodePoints, barcodeBuffer);
      var cpCall := DrawCall(CPMarkers, Scale(markerScale, 0.5), Includes(colorscaleName, OwnColor), numCPPoints, cpBuffer);
      frame := Frame(imageSize, viewportRect, markerScalarRange, markerOpacity, colorLUT, barcodeCall,
                     if colorscaleName != NoColorscale then Some(cpCall) else None);
    }

    /** `loadCPMarkers` as written. In own-colour mode a record without the property
        cell throws before anything changes. Otherwise the buffer, point count,
        scalar range and colour-scale name are set; then `_updateColorbarCanvas`
        calls `getElementByClassName`, which elements do not have, so a TypeError
        is thrown and the final redraw never happens. */
    method LoadCPMarkers(records: seq<CPRecord>, colorscale: string, imageWidth: real, imageHeight: real)
      returns (status: Status)
      requires Valid() && imageWidth > 0.0 && imageHeight > 0.0
      modifies this
      ensures Valid()
      ensures var packed := CPPositions(records, imageWidth, imageHeight, Includes(colorscale, OwnColor));
        if !old(initialized) || packed.Err? then
          status == (if old(initialized) then Threw(TypeError) else Completed)
          && cpBuffer == old(cpBuffer) && numCPPoints == old(numCPPoints)
          && markerScalarRange == old(markerScalarRange) && colorscaleName == old(colorscaleName)
        else
          status == Threw(TypeError)
          && cpBuffer == packed.value && numCPPoints == |records|
          && markerScalarRange == ScalarRange(records) && colorscaleName == colorscale
      ensures initialized == old(initialized) && numBarcodePoints == old(numBarcodePoints)
      ensures imageSize == old(imageSize) && viewportRect == old(viewportRect) && markerScale == old(markerScale)
      ensures markerOpacity == old(markerOpacity) && useColorFromMarker == old(useColorFromMarker)
      ensures barcodeToLUTIndex == old(barcodeToLUTIndex) && barcodeToKey == old(barcodeToKey)
      ensures barcodeBuffer == old(barcodeBuffer) && colorLUT == old(colorLUT) && barcodeOrder == old(barcodeOrder)
    {
      if !initialized {
        return Completed;
      }
      var ok := SetCPData(records, colorscale, imageWidth, imageHeight);
      if !ok {
        return Threw(TypeError);
      }
      // _updateColorbarCanvas: `this.viewer.element.getElementByClassName` is not a function.
      return Threw(TypeError);
    }

    /** `loadCPMarkers` as evidently intended, with the colour bar looked up by
        `getElementsByClassName(...)[0]`: the same state changes, and then the
        forced redraw shows the new points. */
    method LoadCPMarkersIntended(records: seq<CPRecord>, colorscale: string, imageWidth: real, imageHeight: real,
                                 bounds: Rect, homeBounds: Vec2)
      returns (status: Status, frame: Frame)
      requires Valid() && imageWidth > 0.0 && imageHeight > 0.0
      modifies this
      ensures Valid()
      ensures var packed := CPPositions(records, imageWidth, imageHeight, Includes(colorscale, OwnColor));
        if !old(initialized) || packed.Err? then
          status == (if old(initialized) then Threw(TypeError) else Completed) && frame == NoFrame
          && cpBuffer == old(cpBuffer) && numCPPoints == old(numCPPoints)
          && markerScalarRange == old(markerScalarRange) && colorscaleName == old(colorscaleName)
          && imageSize == old(imageSize) && viewportRect == old(viewportRect)
        else
          status == Completed
          && cpBuffer == packed.value && numCPPoints == |records|
          && markerScalarRange == ScalarRange(records) && colorscaleName == colorscale
          && viewportRect == bounds && imageSize == homeBounds
          && frame == Frame(homeBounds, bounds, ScalarRange(records), markerOpacity, colorLUT,
                            DrawCall(BarcodeMarkers, markerScale, useColorFromMarker, numBarcodePoints, barcodeBuffer),
                            if colorscale != NoColorscale
                            then Some(DrawCall(CPMarkers, Scale(markerScale, 0.5), Includes(colorscale, OwnColor),
                                               |records|, packed.value))
                            else None)
      ensures initialized == old(initialized) && numBarcodePoints == old(numBarcodePoints)
      ensures markerScale == old(markerScale)
      ensures markerOpacity == old(markerOpacity) && useColorFromMarker == old(useColorFromMarker)
      ensures barcodeToLUTIndex == old(barcodeToLUTIndex) && barcodeToKey == old(barcodeToKey)
      ensures barcodeBuffer == old(barcodeBuffer) && colorLUT == old(colorLUT) && barcodeOrder == old(barcodeOrder)
    {
      if !initialized {
        return Completed, NoFrame;
      }
      var ok := SetCPData(records, colorscale, imageWidth, imageHeight);
      if !ok {
        return Threw(TypeError), NoFrame;
      }
      frame := Draw(bounds, homeBounds);
      status := Completed;
    }

    /** The part of loadCPMarkers both versions share: pack the records and, unless
        that throws, store the buffer, the count, the range and the scale name. */
    method SetCPData(records: seq<CPRecord>, colorscale: string, imageWidth: real, imageHeight: real)
      returns (ok: bool)
      requires Valid() && imageWidth > 0.0 && imageHeight > 0.0
      modifies this
      ensures Valid()
      ensures var packed := CPPositions(records, imageWidth, imageHeight, Includes(colorscale, OwnColor));
        ok == packed.Ok?
        && if packed.Err? then
             cpBuffer == old(cpBuffer) && numCPPoints == old(numCPPoints)
             && markerScalarRange == old(markerScalarRange) && colorscaleName == old(colorscaleName)
           else
             cpBuffer == packed.value && numCPPoints == |records|
             && markerScalarRange == ScalarRange(records) && colorscaleName == colorscale
      ensures initialized == old(initialized) && numBarcodePoints == old(numBarcodePoints)
      ensures imageSize == old(imageSize) && viewportRect == old(viewportRect) && markerScale == old(markerScale)
      ensures markerOpacity == old(markerOpacity) && useColorFromMarker == old(useColorFromMarker)
      ensures barcodeToLUTIndex == old(barcodeToLUTIndex) && barcodeToKey == old(barcodeToKey)
      ensures barcodeBuffer == old(barcodeBuffer) && colorLUT == old(colorLUT) && barcodeOrder == old(barcodeOrder)
    {
      var useColor := Includes(colorscale, OwnColor);
      var r := PackCPVertices(records, imageWidth, imageHeight, useColor);
      ok := r.Ok?;
      if ok {
        StoreCP(r.value, |records|, colorscale);
      }
    }

    /** The four fields a successful loadCPMarkers sets. */
    method StoreCP(data: CPData, count: nat, colorscale: string)
      requires Valid() && |data.positions| == 4 * count
      modifies this
      ensures Valid()
      ensures cpBuffer == data.positions && numCPPoints == count
      ensures markerScalarRange == data.range && colorscaleName == colorscale
      ensures initialized == old(initialized) && numBarcodePoints == old(numBarcodePoints)
      ensures imageSize == old(imageSize) && viewportRect == old(viewportRect) && markerScale == old(markerScale)
      ensures markerOpacity == old(markerOpacity) && useColorFromMarker == old(useColorFromMarker)
      ensures barcodeToLUTIndex == old(barcodeToLUTIndex) && barcodeToKey == old(barcodeToKey)
      ensures barcodeBuffer == old(barcodeBuffer) && colorLUT == old(colorLUT) && barcodeOrder == old(barcodeOrder)
    {
      cpBuffer := data.positions;
      numCPPoints := count;
      markerScalarRange := data.range;
      colorscaleName := colorscale;
    }
  }

  /** Every record's barcode has an index after the dictionaries are built. */
  lemma LettersIndexed(records: seq<BarcodeRecord>, keyName: string, keyFrom: string -> string)
    ensures forall i :: 0 <= i < |records| ==> records[i].letters in Assign(records, keyName, keyFrom).toIndex
  {
    AssignIndices(records, keyName, keyFrom);
    forall i | 0 <= i < |records| ensures Occurs(records, records[i].letters) {
    }
  }

  lemma BarcodeLength(recs: seq<BarcodeRecord>, index: map<string, int>, width: real, height: real, useColor: bool)
    requires forall i :: 0 <= i < |recs| ==> recs[i].letters in index
    requires width > 0.0 && height > 0.0
    requires BarcodePositions(recs, index, width, height, useColor).Ok?
    ensures |BarcodePositions(recs, index, width, height, useColor).value| == 4 * |recs|
  {
    BarcodePacking(recs, index, width, height, useColor);
  }

  /** The packing loadMarkers performs with the dictionaries it has just built. */
  function MarkerPositions(records: seq<BarcodeRecord>, keyName: string, keyFrom: string -> string,
                           imageWidth: real, imageHeight: real, useColor: bool): (p: Result<seq<JsNum>>)
    requires imageWidth > 0.0 && imageHeight > 0.0
  {
    LettersIndexed(records, keyName, keyFrom);
    BarcodePositions(records, Assign(records, keyName, keyFrom).toIndex, imageWidth, imageHeight, useColor)
  }
}
