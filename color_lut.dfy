/** `glUtils._updateColorLUTTexture`: the 4096-texel RGBA byte table that gives every
    barcode index its colour, its shape and whether it is shown. */
module ColorLut {
  import opened JsValues
  import opened HexText
  import opened Categories
  import opened Vertices

  /** Number of texels, and of bytes, in the table. */
  const TexelCount: nat := 4096
  const ByteCount: nat := 16384

  /** What the page's inputs say about a style key: the colour input's value when
      the input exists, `Number()` of the shape selector, the key's checkbox, and
      the "all markers" checkbox. */
  datatype StyleInputs = StyleInputs(
    colorInput: string -> Option<string>,
    shapeInput: string -> JsNum,
    checkedBox: string -> bool,
    showAll: bool)

  /** The colour read for a key; "#000000" when there is no colour input. */
  function KeyColor(style: StyleInputs, key: string): (hex: string)
  {
    match style.colorInput(key)
    case Some(c) => c
    case None => DefaultColor
  }

  predicate Visible(style: StyleInputs, key: string)
  {
    style.showAll || style.checkedBox(key)
  }

  /** `Number(visible) * (Number(shape) + 1)`. */
  function AlphaNumber(style: StyleInputs, key: string): (a: JsNum)
  {
    Scale(Plus(style.shapeInput(key), 1.0), if Visible(style, key) then 1.0 else 0.0)
  }

  /** The four numbers the loop writes for a key, before Uint8Array conversion. */
  function TexelNumbers(style: StyleInputs, key: string): (t: seq<JsNum>)
    ensures |t| == 4
  {
    var hex := KeyColor(style, key);
    [OfInt(ColorChannel(hex, 1)), OfInt(ColorChannel(hex, 3)), OfInt(ColorChannel(hex, 5)), AlphaNumber(style, key)]
  }

  /** The four bytes of a key's texel. */
  function TexelBytes(style: StyleInputs, key: string): (t: seq<int>)
    ensures |t| == 4 && forall c :: 0 <= c < 4 ==> 0 <= t[c] < 256
  {
    var n := TexelNumbers(style, key);
    [ToUint8(n[0]), ToUint8(n[1]), ToUint8(n[2]), ToUint8(n[3])]
  }

  /** Texel k of the table: the bytes of the k-th barcode's key, or, for a texel no
      barcode owns, the holes of `new Array`, which are stored as 0. (Every barcode
      of the order has a key wherever the table is built; the membership test only
      makes the definition total.) */
  function Texel(order: seq<string>, keyOf: map<string, string>, style: StyleInputs, k: nat): (t: seq<int>)
    ensures |t| == 4 && forall c :: 0 <= c < 4 ==> 0 <= t[c] < 256
  {
    if k < |order| && order[k] in keyOf then TexelBytes(style, keyOf[order[k]]) else [0, 0, 0, 0]
  }

  /** The first n texels, one after the other. */
  function Texels(order: seq<string>, keyOf: map<string, string>, style: StyleInputs, n: nat): (t: seq<int>)
    ensures |t| == 4 * n && forall i :: 0 <= i < |t| ==> 0 <= t[i] < 256
  {
    if n == 0 then [] else Texels(order, keyOf, style, n - 1) + Texel(order, keyOf, style, n - 1)
  }

  /** Channel c of a texel is the Uint8Array conversion of the c-th number. */
  lemma TexelChannel(style: StyleInputs, key: string, c: nat)
    requires c < 4
    ensures TexelBytes(style, key)[c] == ToUint8(TexelNumbers(style, key)[c])
  {
    var n := TexelNumbers(style, key);
    assert TexelBytes(style, key) == [ToUint8(n[0]), ToUint8(n[1]), ToUint8(n[2]), ToUint8(n[3])];
  }

  /** The whole table: texel k belongs to the k-th barcode of order. */
  function LUTBytes(order: seq<string>, keyOf: map<string, string>, style: StyleInputs): (t: seq<int>)
    ensures |t| == ByteCount && forall i :: 0 <= i < |t| ==> 0 <= t[i] < 256
  {
    Texels(order, keyOf, style, TexelCount)
  }

  /** Byte i of the first n texels is channel i mod 4 of texel i div 4. */
  lemma {:induction false} TexelsByte(order: seq<string>, keyOf: map<string, string>, style: StyleInputs, n: nat, i: nat)
    requires i < 4 * n
    ensures Texels(order, keyOf, style, n)[i] == Texel(order, keyOf, style, i / 4)[i % 4]
  {
    var front := Texels(order, keyOf, style, n - 1);
    if i < 4 * (n - 1) {
      TexelsByte(order, keyOf, style, n - 1, i);
      assert Texels(order, keyOf, style, n)[i] == front[i];
    } else {
      assert i / 4 == n - 1 && i % 4 == i - |front|;
    }
  }

  /** Byte i of the table: the key's byte for an owned texel, 0 for any other. */
  lemma LUTByte(order: seq<string>, keyOf: map<string, string>, style: StyleInputs, i: nat)
    requires (forall j :: 0 <= j < |order| ==> order[j] in keyOf) && i < ByteCount
    ensures LUTBytes(order, keyOf, style)[i] == if i / 4 < |order| then TexelBytes(style, keyOf[order[i / 4]])[i % 4] else 0
  {
    TexelsByte(order, keyOf, style, TexelCount, i);
  }

  /** The loop over the index dictionary and the Uint8Array built from its result. */
  method FillColorLUT(index: map<string, int>, keyOf: map<string, string>, style: StyleInputs, ghost order: seq<string>)
    returns (bytes: seq<int>)
    requires Enumerates(index, order) && |order| <= TexelCount
    requires index.Keys <= keyOf.Keys
    ensures (forall i :: 0 <= i < |order| ==> order[i] in keyOf) && bytes == LUTBytes(order, keyOf, style)
  {
    var colors := new JsNum[ByteCount](_ => NaN);
    var pending := index.Keys;
    while pending != {}
      invariant pending <= index.Keys
      invariant forall i :: 0 <= i < ByteCount ==>
        colors[i] == (if i / 4 < |order| && order[i / 4] !in pending then TexelNumbers(style, keyOf[order[i / 4]])[i % 4] else NaN)
      decreases |pending|
    {
      var barcode :| barcode in pending;
      var k := index[barcode];
      var key := keyOf[barcode];
      WriteTexel(colors, k, TexelNumbers(style, key));
      pending := pending - {barcode};
      forall i | 0 <= i < ByteCount
        ensures colors[i] == (if i / 4 < |order| && order[i / 4] !in pending then TexelNumbers(style, keyOf[order[i / 4]])[i % 4] else NaN)
      {
        if i / 4 == k {
          assert order[i / 4] == barcode;
        } else if i / 4 < |order| {
          assert order[i / 4] != barcode;
        }
      }
    }
    var values := colors[..];
    bytes := seq(ByteCount, i requires 0 <= i < ByteCount => ToUint8(values[i]));
    assert forall i :: 0 <= i < |order| ==> order[i] in keyOf;
    forall i | 0 <= i < ByteCount ensures bytes[i] == LUTBytes(order, keyOf, style)[i] {
      assert values[i] == colors[i];
      LUTByte(order, keyOf, style, i);
      if i / 4 < |order| {
        TexelChannel(style, keyOf[order[i / 4]], i % 4);
      }
    }
  }

  /** `colors[4k + c] = t[c]` for the four channels; nothing else changes. */
  method WriteTexel(colors: array<JsNum>, k: nat, t: seq<JsNum>)
    requires |t| == 4 && 4 * k + 4 <= colors.Length
    modifies colors
    ensures forall i :: 0 <= i < colors.Length ==> colors[i] == (if i / 4 == k then t[i % 4] else old(colors[i]))
  {
    colors[4 * k] := t[0];
    colors[4 * k + 1] := t[1];
    colors[4 * k + 2] := t[2];
    colors[4 * k + 3] := t[3];
  }

  /** The texel at a barcode's index holds that barcode's style. */
  lemma TexelOfBarcode(index: map<string, int>, order: seq<string>, keyOf: map<string, string>, style: StyleInputs, b: string, c: nat)
    requires Enumerates(index, order) && |order| <= TexelCount && index.Keys <= keyOf.Keys
    requires b in index && c < 4
    ensures 4 * index[b] + c < ByteCount
    ensures (forall i :: 0 <= i < |order| ==> order[i] in keyOf)
         && LUTBytes(order, keyOf, style)[4 * index[b] + c] == TexelBytes(style, keyOf[b])[c]
  {
    var i := 4 * index[b] + c;
    assert i / 4 == index[b] && i % 4 == c;
    LUTByte(order, keyOf, style, i);
  }

  /** All four channels of a barcode's texel hold its key's bytes. */
  lemma TexelsOfBarcode(index: map<string, int>, order: seq<string>, keyOf: map<string, string>, style: StyleInputs, b: string)
    requires Enumerates(index, order) && |order| <= TexelCount && index.Keys <= keyOf.Keys && b in index
    ensures b in keyOf && 0 <= index[b] < TexelCount
    ensures forall c :: 0 <= c < 4 ==> LUTBytes(order, keyOf, style)[4 * index[b] + c] == TexelBytes(style, keyOf[b])[c]
  {
    forall c | 0 <= c < 4 ensures LUTBytes(order, keyOf, style)[4 * index[b] + c] == TexelBytes(style, keyOf[b])[c] {
      TexelOfBarcode(index, order, keyOf, style, b, c);
    }
  }

  /** A texel no barcode is mapped to is all zero, so its alpha hides it. */
  lemma UnmappedTexel(index: map<string, int>, order: seq<string>, keyOf: map<string, string>, style: StyleInputs, k: nat, c: nat)
    requires Enumerates(index, order) && |order| <= TexelCount && index.Keys <= keyOf.Keys
    requires k < TexelCount && c < 4 && forall b :: b in index ==> index[b] != k
    ensures (forall i :: 0 <= i < |order| ==> order[i] in keyOf) && LUTBytes(order, keyOf, style)[4 * k + c] == 0
  {
    var i := 4 * k + c;
    assert i / 4 == k;
    LUTByte(order, keyOf, style, i);
  }

  /** For a shape number 0 .. 254 the alpha byte is shape + 1 when the key is shown
      and 0 when it is hidden: alpha 0 means hidden, and nothing else does. */
  lemma AlphaEncodesVisibility(style: StyleInputs, key: string, shape: int)
    requires 0 <= shape < 255 && style.shapeInput(key) == Fin(shape as real)
    ensures TexelBytes(style, key)[3] == (if Visible(style, key) then shape + 1 else 0)
    ensures TexelBytes(style, key)[3] == 0 <==> !Visible(style, key)
  {
    var a := AlphaNumber(style, key);
    if Visible(style, key) {
      assert a == Fin((shape + 1) as real);
    } else {
      assert a == Fin(0.0);
    }
  }

  /** With the "all markers" box ticked every key is shown, whatever its own box says. */
  lemma ShowAllShows(style: StyleInputs, key: string, shape: int)
    requires style.showAll && 0 <= shape < 255 && style.shapeInput(key) == Fin(shape as real)
    ensures TexelBytes(style, key)[3] == shape + 1 > 0
  {
    AlphaEncodesVisibility(style, key, shape);
  }

  /** A shape that is not a number hides the key even when it is shown:
      `NaN + 1` stores as alpha 0. */
  lemma NaNShapeHides(style: StyleInputs, key: string)
    requires style.shapeInput(key).NaN?
    ensures TexelBytes(style, key)[3] == 0
  {
  }

  /** Without a colour input the texel's colour is black. */
  lemma MissingColorIsBlack(style: StyleInputs, key: string)
    requires style.colorInput(key).None?
    ensures TexelBytes(style, key)[..3] == [0, 0, 0]
  {
    DefaultChannels();
  }

  lemma DefaultChannels()
    ensures ColorChannel(DefaultColor, 1) == Some(0)
    ensures ColorChannel(DefaultColor, 3) == Some(0)
    ensures ColorChannel(DefaultColor, 5) == Some(0)
  {
    var z := "00";
    assert Substring(DefaultColor, 1, 3) == z;
    assert Substring(DefaultColor, 3, 5) == z;
    assert Substring(DefaultColor, 5, 7) == z;
    assert z == Zeros(2);
    ZerosAreZero(2);
  }

  /** A "#RRGGBB" colour input gives the texel its three bytes, red first, and
      they are the bytes of the packed colour integer. */
  lemma WellFormedTexel(style: StyleInputs, key: string, s: string)
    requires style.colorInput(key) == Some(s) && WellFormedColor(s)
    ensures PackedColor(s).Some?
    ensures var t := TexelBytes(style, key);
      ColorChannel(s, 1) == Some(t[0]) && ColorChannel(s, 3) == Some(t[1]) && ColorChannel(s, 5) == Some(t[2])
      && PackedColor(s).value == t[0] * 65536 + t[1] * 256 + t[2]
  {
    PackedColorChannels(s);
  }
}
