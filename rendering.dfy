/** What the layer draws for a loaded barcode marker: the vertex data of
    `loadMarkers`, the table of `_updateColorLUTTexture` and the vertex shader
    together give every point the colour, shape and visibility of its key. */
module Rendering {
  import opened JsValues
  import opened HexText
  import opened Categories
  import opened Vertices
  import opened ColorLut
  import opened MarkersVs
  import opened GlLayer

  /** `a_position` of point i of a packed buffer whose x and y are numbers. */
  function PointAttribute(p: seq<JsNum>, i: nat): (a: Attribute)
    requires 4 * i + 3 < |p| && p[4 * i].Fin? && p[4 * i + 1].Fin?
    ensures Fin(a.x) == p[4 * i] && Fin(a.y) == p[4 * i + 1] && a.z == p[4 * i + 2] && a.w == p[4 * i + 3]
  {
    Attribute(p[4 * i].v, p[4 * i + 1].v, p[4 * i + 2], p[4 * i + 3])
  }

  /** The table loadMarkers leaves behind for records. */
  ghost function LoadedLUT(records: seq<BarcodeRecord>, keyName: string, keyFrom: string -> string, style: StyleInputs): (t: seq<int>)
    ensures |t| == ByteCount
  {
    LUTBytes(FirstSeen(records), Assign(records, keyName, keyFrom).toKey, style)
  }

  /** The style key of a loaded barcode. */
  ghost function LoadedKey(records: seq<BarcodeRecord>, keyName: string, keyFrom: string -> string, b: string): (key: string)
    requires Occurs(records, b)
  {
    AssignIndices(records, keyName, keyFrom);
    Assign(records, keyName, keyFrom).toKey[b]
  }

  /** The lookup-table index of a loaded barcode. */
  ghost function LoadedIndex(records: seq<BarcodeRecord>, keyName: string, keyFrom: string -> string, b: string): (k: int)
    requires Occurs(records, b)
    ensures 0 <= k < |FirstSeen(records)|
  {
    AssignIndices(records, keyName, keyFrom);
    Assign(records, keyName, keyFrom).toIndex[b]
  }

  /** The four numbers of point i in loadMarkers' buffer. */
  lemma LoadedPoint(records: seq<BarcodeRecord>, keyName: string, keyFrom: string -> string,
                    width: real, height: real, useColor: bool, i: nat)
    requires width > 0.0 && height > 0.0
    requires i < |records| && records[i].x.Fin? && records[i].y.Fin?
    requires useColor ==> forall j :: 0 <= j < |records| ==> records[j].color.Some?
    ensures Occurs(records, records[i].letters)
    ensures var p := MarkerPositions(records, keyName, keyFrom, width, height, useColor);
      p.Ok? && |p.value| == 4 * |records| && p.value[4 * i].Fin? && p.value[4 * i + 1].Fin?
      && p.value[4 * i + 2] == Fin(LoadedIndex(records, keyName, keyFrom, records[i].letters) as real / LastTexel)
      && p.value[4 * i + 3] == (if useColor then PackedNumber(records[i].color.value) else Fin(0.0))
  {
    var d := Assign(records, keyName, keyFrom);
    LettersIndexed(records, keyName, keyFrom);
    BarcodeThrows(records, d.toIndex, width, height, useColor);
    assert !MissingColor(BarcodeColors(records), useColor);
    BarcodePacking(records, d.toIndex, width, height, useColor);
    assert Occurs(records, records[i].letters);
  }

  /** A loaded barcode is in the dictionaries, which enumerate the first-seen order. */
  lemma LoadedBarcode(records: seq<BarcodeRecord>, keyName: string, keyFrom: string -> string, b: string)
    requires Occurs(records, b)
    ensures var d := Assign(records, keyName, keyFrom);
      b in d.toIndex && Enumerates(d.toIndex, FirstSeen(records)) && d.toIndex.Keys <= d.toKey.Keys
      && LoadedIndex(records, keyName, keyFrom, b) == d.toIndex[b] && LoadedKey(records, keyName, keyFrom, b) == d.toKey[b]
  {
    var d := Assign(records, keyName, keyFrom);
    var order := FirstSeen(records);
    AssignEnumerates(records, keyName, keyFrom);
    FirstSeenLetters(records, b);
    var j :| 0 <= j < |order| && order[j] == b;
    assert b in d.toIndex;
  }

  /** The texel of a loaded barcode holds its key's four bytes. */
  lemma LoadedTexel(records: seq<BarcodeRecord>, keyName: string, keyFrom: string -> string, style: StyleInputs, b: string)
    requires |FirstSeen(records)| <= TexelCount && Occurs(records, b)
    ensures var d := Assign(records, keyName, keyFrom);
      b in d.toIndex && b in d.toKey && 0 <= d.toIndex[b] < TexelCount
      && forall c :: 0 <= c < 4 ==>
           LoadedLUT(records, keyName, keyFrom, style)[4 * d.toIndex[b] + c] == TexelBytes(style, d.toKey[b])[c]
  {
    var d := Assign(records, keyName, keyFrom);
    var order := FirstSeen(records);
    LoadedBarcode(records, keyName, keyFrom, b);
    TexelsOfBarcode(d.toIndex, order, d.toKey, style, b);
  }

  /** The red, green and blue channels of a "#RRGGBB" colour. */
  function ColorBytes(s: string): (int, int, int)
    requires WellFormedColor(s)
  {
    PackedColorChannels(s);
    (ColorChannel(s, 1).value, ColorChannel(s, 3).value, ColorChannel(s, 5).value)
  }

  /** The shader on a barcode point whose coordinate names texel k of a table that
      holds bytes t there. */
  lemma ShadeBarcode(u: Uniforms, a: Attribute, k: int, t: seq<int>)
    requires u.markerType == BarcodeMarkers && u.opacity > 0.0
    requires u.viewportRect.width != 0.0 && u.viewportRect.height != 0.0 && |u.colorLUT| == ByteCount
    requires 0 <= k < TexelCount && a.z == Fin(k as real / LastTexel) && |t| == 4
    requires u.colorLUT[4 * k] == t[0] && u.colorLUT[4 * k + 1] == t[1]
    requires u.colorLUT[4 * k + 2] == t[2] && u.colorLUT[4 * k + 3] == t[3] && t[3] >= 0
    ensures var o := Shade(u, a);
      (!u.useColorFromMarker ==> o.color == Rgb(t[0], t[1], t[2]))
      && (u.useColorFromMarker && a.w.Fin? ==> o.color == Rgb(HexToRgb(a.w.v).0, HexToRgb(a.w.v).1, HexToRgb(a.w.v).2))
      && o.shapeOrigin == ShapeOrigin(t[3])
      && (o.position == OffScreen <==> t[3] == 0)
  {
    TexelCoordinate(k);
    assert NearestTexel(a.z.v) == k;
  }

  /** ShadeBarcode for point i of a packed buffer. */
  lemma ShadePoint(u: Uniforms, p: seq<JsNum>, i: nat, k: int, t: seq<int>)
    requires u.markerType == BarcodeMarkers && u.opacity > 0.0
    requires u.viewportRect.width != 0.0 && u.viewportRect.height != 0.0 && |u.colorLUT| == ByteCount
    requires 4 * i + 3 < |p| && p[4 * i].Fin? && p[4 * i + 1].Fin? && p[4 * i + 2] == Fin(k as real / LastTexel)
    requires 0 <= k < TexelCount && |t| == 4 && t[3] >= 0
    requires forall c :: 0 <= c < 4 ==> u.colorLUT[4 * k + c] == t[c]
    ensures var a := PointAttribute(p, i); var o := Shade(u, a);
      (!u.useColorFromMarker ==> o.color == Rgb(t[0], t[1], t[2]))
      && (u.useColorFromMarker && a.w.Fin? ==> o.color == Rgb(HexToRgb(a.w.v).0, HexToRgb(a.w.v).1, HexToRgb(a.w.v).2))
      && o.shapeOrigin == ShapeOrigin(t[3])
      && (o.position == OffScreen <==> t[3] == 0)
  {
    assert u.colorLUT[4 * k + 0] == t[0] && u.colorLUT[4 * k + 1] == t[1];
    assert u.colorLUT[4 * k + 2] == t[2] && u.colorLUT[4 * k + 3] == t[3];
    ShadeBarcode(u, PointAttribute(p, i), k, t);
  }

  /** The table holds, at the index of the barcode of record i, that barcode's
      key's four bytes. */
  ghost predicate HoldsTexelOf(lut: seq<int>, records: seq<BarcodeRecord>, keyName: string, keyFrom: string -> string,
                               style: StyleInputs, i: nat)
    requires i < |records|
  {
    var d, b := Assign(records, keyName, keyFrom), records[i].letters;
    b in d.toIndex && b in d.toKey && |lut| == ByteCount && 0 <= d.toIndex[b] < TexelCount
    && forall c :: 0 <= c < 4 ==> lut[4 * d.toIndex[b] + c] == TexelBytes(style, d.toKey[b])[c]
  }

  /** Point i of `loadMarkers`' buffer, without own colours, drawn with any table
      that holds its barcode's texel. */
  lemma TexelPointStyle(records: seq<BarcodeRecord>, keyName: string, keyFrom: string -> string,
                        style: StyleInputs, width: real, height: real, u: Uniforms, i: nat)
    requires width > 0.0 && height > 0.0
    requires i < |records| && records[i].x.Fin? && records[i].y.Fin?
    requires u.markerType == BarcodeMarkers && !u.useColorFromMarker && u.opacity > 0.0
    requires u.viewportRect.width != 0.0 && u.viewportRect.height != 0.0
    requires HoldsTexelOf(u.colorLUT, records, keyName, keyFrom, style, i)
    ensures var p := MarkerPositions(records, keyName, keyFrom, width, height, false);
      p.Ok? && |p.value| == 4 * |records| && p.value[4 * i].Fin? && p.value[4 * i + 1].Fin?
      && p.value[4 * i + 2].Fin? && Occurs(records, records[i].letters)
      && var o := Shade(u, PointAttribute(p.value, i));
         var t := TexelBytes(style, LoadedKey(records, keyName, keyFrom, records[i].letters));
         o.color == Rgb(t[0], t[1], t[2]) && o.shapeOrigin == ShapeOrigin(t[3])
         && (o.position == OffScreen <==> t[3] == 0)
  {
    LoadedPoint(records, keyName, keyFrom, width, height, false, i);
    var b := records[i].letters;
    var p := MarkerPositions(records, keyName, keyFrom, width, height, false).value;
    var d := Assign(records, keyName, keyFrom);
    LoadedBarcode(records, keyName, keyFrom, b);
    ShadePoint(u, p, i, d.toIndex[b], TexelBytes(style, d.toKey[b]));
  }

  /** The same in own-colour mode: a record whose colour is "#RRGGBB" is drawn in
      exactly that colour. */
  lemma TexelOwnColorStyle(records: seq<BarcodeRecord>, keyName: string, keyFrom: string -> string,
                           style: StyleInputs, width: real, height: real, u: Uniforms, i: nat)
    requires width > 0.0 && height > 0.0
    requires i < |records| && records[i].x.Fin? && records[i].y.Fin?
    requires forall j :: 0 <= j < |records| ==> records[j].color.Some?
    requires WellFormedColor(records[i].color.value)
    requires u.markerType == BarcodeMarkers && u.useColorFromMarker && u.opacity > 0.0
    requires u.viewportRect.width != 0.0 && u.viewportRect.height != 0.0
    requires HoldsTexelOf(u.colorLUT, records, keyName, keyFrom, style, i)
    ensures var p := MarkerPositions(records, keyName, keyFrom, width, height, true);
      p.Ok? && |p.value| == 4 * |records| && p.value[4 * i].Fin? && p.value[4 * i + 1].Fin?
      && p.value[4 * i + 2].Fin? && Occurs(records, records[i].letters)
      && var o, c := Shade(u, PointAttribute(p.value, i)), ColorBytes(records[i].color.value);
         var t := TexelBytes(style, LoadedKey(records, keyName, keyFrom, records[i].letters));
         o.color == Rgb(c.0, c.1, c.2) && o.shapeOrigin == ShapeOrigin(t[3])
         && (o.position == OffScreen <==> t[3] == 0)
  {
    LoadedPoint(records, keyName, keyFrom, width, height, true, i);
    var b := records[i].letters;
    var p := MarkerPositions(records, keyName, keyFrom, width, height, true).value;
    var d := Assign(records, keyName, keyFrom);
    LoadedBarcode(records, keyName, keyFrom, b);
    ShadePoint(u, p, i, d.toIndex[b], TexelBytes(style, d.toKey[b]));
    ColorRoundTrip(records[i].color.value);
    assert PointAttribute(p, i).w == PackedNumber(records[i].color.value);
  }

  /** Point i of `loadMarkers`' buffer, drawn with the table of the same load and
      without own colours: its colour is its key's colour input, its shape cell is
      chosen by its key's alpha byte, and it is moved off screen exactly when that
      byte is 0. */
  lemma BarcodePointStyle(records: seq<BarcodeRecord>, keyName: string, keyFrom: string -> string,
                          style: StyleInputs, width: real, height: real, u: Uniforms, i: nat)
    requires width > 0.0 && height > 0.0 && |FirstSeen(records)| <= TexelCount
    requires i < |records| && records[i].x.Fin? && records[i].y.Fin?
    requires u.markerType == BarcodeMarkers && !u.useColorFromMarker && u.opacity > 0.0
    requires u.viewportRect.width != 0.0 && u.viewportRect.height != 0.0
    requires u.colorLUT == LoadedLUT(records, keyName, keyFrom, style)
    ensures var p := MarkerPositions(records, keyName, keyFrom, width, height, false);
      p.Ok? && |p.value| == 4 * |records| && p.value[4 * i].Fin? && p.value[4 * i + 1].Fin?
      && p.value[4 * i + 2].Fin? && Occurs(records, records[i].letters)
      && var o := Shade(u, PointAttribute(p.value, i));
         var t := TexelBytes(style, LoadedKey(records, keyName, keyFrom, records[i].letters));
         o.color == Rgb(t[0], t[1], t[2]) && o.shapeOrigin == ShapeOrigin(t[3])
         && (o.position == OffScreen <==> t[3] == 0)
  {
    LoadedPoint(records, keyName, keyFrom, width, height, false, i);
    LoadedTexel(records, keyName, keyFrom, style, records[i].letters);
    TexelPointStyle(records, keyName, keyFrom, style, width, height, u, i);
  }

  /** The same point in own-colour mode: a record whose colour is "#RRGGBB" is
      drawn in exactly that colour, with its key's shape and visibility. */
  lemma OwnColorPointStyle(records: seq<BarcodeRecord>, keyName: string, keyFrom: string -> string,
                           style: StyleInputs, width: real, height: real, u: Uniforms, i: nat)
    requires width > 0.0 && height > 0.0 && |FirstSeen(records)| <= TexelCount
    requires i < |records| && records[i].x.Fin? && records[i].y.Fin?
    requires forall j :: 0 <= j < |records| ==> records[j].color.Some?
    requires WellFormedColor(records[i].color.value)
    requires u.markerType == BarcodeMarkers && u.useColorFromMarker && u.opacity > 0.0
    requires u.viewportRect.width != 0.0 && u.viewportRect.height != 0.0
    requires u.colorLUT == LoadedLUT(records, keyName, keyFrom, style)
    ensures var p := MarkerPositions(records, keyName, keyFrom, width, height, true);
      p.Ok? && |p.value| == 4 * |records| && p.value[4 * i].Fin? && p.value[4 * i + 1].Fin?
      && p.value[4 * i + 2].Fin? && Occurs(records, records[i].letters)
      && var o, c := Shade(u, PointAttribute(p.value, i)), ColorBytes(records[i].color.value);
         var t := TexelBytes(style, LoadedKey(records, keyName, keyFrom, records[i].letters));
         o.color == Rgb(c.0, c.1, c.2) && o.shapeOrigin == ShapeOrigin(t[3])
         && (o.position == OffScreen <==> t[3] == 0)
  {
    LoadedPoint(records, keyName, keyFrom, width, height, true, i);
    LoadedTexel(records, keyName, keyFrom, style, records[i].letters);
    TexelOwnColorStyle(records, keyName, keyFrom, style, width, height, u, i);
  }

  /** The key of a barcode is fixed by the record it first occurs at. */
  lemma LoadedKeyOfFirst(records: seq<BarcodeRecord>, keyName: string, keyFrom: string -> string, i: nat)
    requires i < |records| && !Occurs(records[..i], records[i].letters)
    ensures Occurs(records, records[i].letters)
    ensures LoadedKey(records, keyName, keyFrom, records[i].letters) == KeyOf(keyName, keyFrom, records[i])
  {
    assert Occurs(records, records[i].letters);
    FirstOccurrence(records, keyName, keyFrom, i);
  }

  /** A shown key with colour "#112233" and shape 2 gets texel (17, 34, 51, 3),
      which the shader draws in that colour from atlas cell (2, 0). */
  lemma StyleExample(style: StyleInputs, key: string)
    requires style.colorInput(key) == Some("#112233") && style.shapeInput(key) == Fin(2.0) && Visible(style, key)
    ensures TexelBytes(style, key) == [17, 34, 51, 3]
    ensures ShapeOrigin(TexelBytes(style, key)[3]) == (2, 0)
  {
    ExampleChannels();
    assert KeyColor(style, key) == "#112233";
    var n, t := TexelNumbers(style, key), TexelBytes(style, key);
    assert n[0] == Fin(17.0) && n[1] == Fin(34.0) && n[2] == Fin(51.0);
    TexelChannel(style, key, 0);
    TexelChannel(style, key, 1);
    TexelChannel(style, key, 2);
    AlphaEncodesVisibility(style, key, 2);
    assert t[0] == 17 && t[1] == 34 && t[2] == 51 && t[3] == 3;
  }

  /** The three channels of "#112233". */
  lemma ExampleChannels()
    ensures ColorChannel("#112233", 1) == Some(17)
    ensures ColorChannel("#112233", 3) == Some(34)
    ensures ColorChannel("#112233", 5) == Some(51)
  {
    var s := "#112233";
    assert Substring(s, 1, 3) == "11" && Substring(s, 3, 5) == "22" && Substring(s, 5, 7) == "33";
    TwoDigits("11", 17);
    TwoDigits("22", 34);
    TwoDigits("33", 51);
  }

  lemma TwoDigits(pair: string, v: nat)
    requires |pair| == 2 && AllHex(pair) && HexValue(pair) == v
    ensures HexNumber(pair) == Some(v)
  {
  }
}
