/** The vertex data `loadMarkers` and `loadCPMarkers` upload: four numbers per point
    (normalised x, normalised y, a lookup-table coordinate or a scalar, and the
    marker's colour packed into one integer), and the CP scalar range. */
module Vertices {
  import opened JsValues
  import opened HexText
  import opened Categories

  /** The colour both loaders start from and keep when markers have no own colour. */
  const DefaultColor: string := "#000000"

  /** Index of the last lookup-table texel, the divisor of the LUT coordinate. */
  const LastTexel: real := 4095.0

  /** `Number("0x" + hexColor.substring(1, 7))`, the fourth number of every point. */
  function PackedNumber(hexColor: string): (r: JsNum)
    ensures WellFormedColor(hexColor) ==> r.Fin? && r.v == PackedColor(hexColor).value as real
  {
    if WellFormedColor(hexColor) then PackedColorChannels(hexColor); OfInt(PackedColor(hexColor))
    else OfInt(PackedColor(hexColor))
  }

  /** The four numbers of one barcode marker. */
  function BarcodeVertex(r: BarcodeRecord, index: map<string, int>, width: real, height: real, hexColor: string): (v: seq<JsNum>)
    requires r.letters in index && width > 0.0 && height > 0.0
  {
    [Div(r.x, width), Div(r.y, height), Fin(index[r.letters] as real / LastTexel), PackedNumber(hexColor)]
  }

  /** The colour the loop reads for a record: its own one, or the default. With
      own colours on, a record without the property makes `.substring` throw. */
  function MarkerColor(color: Option<string>, useColor: bool): (r: Result<string>)
  {
    if !useColor then Ok(DefaultColor)
    else if color.None? then Err(TypeError)
    else Ok(color.value)
  }

  /** The `positions` array of loadMarkers after the loop over recs. */
  function BarcodePositions(recs: seq<BarcodeRecord>, index: map<string, int>, width: real, height: real, useColor: bool): (r: Result<seq<JsNum>>)
    requires forall i :: 0 <= i < |recs| ==> recs[i].letters in index
    requires width > 0.0 && height > 0.0
  {
    if recs == [] then Ok([])
    else
      var last := recs[|recs| - 1];
      var pre := BarcodePositions(recs[..|recs| - 1], index, width, height, useColor);
      var hex := MarkerColor(last.color, useColor);
      if pre.Err? then pre
      else if hex.Err? then Err(hex.error)
      else Ok(pre.value + BarcodeVertex(last, index, width, height, hex.value))
  }

  /** Own colours are used and some record has none. */
  predicate MissingColor<R>(colors: seq<Option<R>>, useColor: bool)
  {
    useColor && exists i :: 0 <= i < |colors| && colors[i].None?
  }

  function BarcodeColors(recs: seq<BarcodeRecord>): (cs: seq<Option<string>>)
    ensures |cs| == |recs| && forall i :: 0 <= i < |recs| ==> cs[i] == recs[i].color
  {
    seq(|recs|, i requires 0 <= i < |recs| => recs[i].color)
  }

  /** loadMarkers' packing: it throws exactly when a marker lacks its own colour,
      and the exception is a TypeError. */
  lemma {:induction false} BarcodeThrows(recs: seq<BarcodeRecord>, index: map<string, int>, width: real, height: real, useColor: bool)
    requires forall i :: 0 <= i < |recs| ==> recs[i].letters in index
    requires width > 0.0 && height > 0.0
    ensures var r := BarcodePositions(recs, index, width, height, useColor);
      (r.Err? <==> MissingColor(BarcodeColors(recs), useColor)) && (r.Err? ==> r.error == TypeError)
  {
    if recs != [] {
      var n := |recs| - 1;
      var pre := recs[..n];
      BarcodeThrows(pre, index, width, height, useColor);
      MissingPrefix(BarcodeColors(recs), BarcodeColors(pre), useColor);
    }
  }

  /** A colour is missing from cs exactly when it is missing from its prefix cs'
      or from its last element. */
  lemma MissingPrefix<R>(cs: seq<Option<R>>, cs': seq<Option<R>>, useColor: bool)
    requires cs != [] && cs' == cs[..|cs| - 1]
    ensures MissingColor(cs, useColor) <==> MissingColor(cs', useColor) || (useColor && cs[|cs| - 1].None?)
  {
    if MissingColor(cs', useColor) {
      var i :| 0 <= i < |cs'| && cs'[i].None?;
      assert cs[i].None?;
    }
    if MissingColor(cs, useColor) && cs[|cs| - 1].Some? {
      var i :| 0 <= i < |cs| && cs[i].None?;
      assert cs'[i].None?;
    }
  }

  /** When loadMarkers' loop completes there are four numbers per point: x and y
      divided by the image size, the barcode's index over 4095, and the packed
      colour, which is the record's own one or 0 for "#000000". */
  lemma {:induction false} BarcodePacking(recs: seq<BarcodeRecord>, index: map<string, int>, width: real, height: real, useColor: bool)
    requires forall i :: 0 <= i < |recs| ==> recs[i].letters in index
    requires width > 0.0 && height > 0.0
    requires BarcodePositions(recs, index, width, height, useColor).Ok?
    ensures var p := BarcodePositions(recs, index, width, height, useColor).value;
      |p| == 4 * |recs|
      && forall i :: 0 <= i < |recs| ==>
           p[4 * i] == Div(recs[i].x, width)
           && p[4 * i + 1] == Div(recs[i].y, height)
           && p[4 * i + 2] == Fin(index[recs[i].letters] as real / LastTexel)
           && (useColor ==> recs[i].color.Some? && p[4 * i + 3] == PackedNumber(recs[i].color.value))
           && (!useColor ==> p[4 * i + 3] == Fin(0.0))
  {
    if recs != [] {
      var n := |recs| - 1;
      var pre, last := recs[..n], recs[n];
      BarcodePacking(pre, index, width, height, useColor);
      assert recs == pre + [last];
      BarcodeStep(pre, last, index, BarcodePositions(pre, index, width, height, useColor).value,
                  width, height, useColor, MarkerColor(last.color, useColor).value);
    }
  }

  /** One more turn of loadMarkers' loop keeps the four numbers of every point. */
  lemma BarcodeStep(pre: seq<BarcodeRecord>, last: BarcodeRecord, index: map<string, int>, p': seq<JsNum>,
                    width: real, height: real, useColor: bool, hex: string)
    requires (forall i :: 0 <= i < |pre| ==> pre[i].letters in index) && last.letters in index
    requires width > 0.0 && height > 0.0 && |p'| == 4 * |pre| && MarkerColor(last.color, useColor) == Ok(hex)
    requires forall i :: 0 <= i < |pre| ==>
           p'[4 * i] == Div(pre[i].x, width)
           && p'[4 * i + 1] == Div(pre[i].y, height)
           && p'[4 * i + 2] == Fin(index[pre[i].letters] as real / LastTexel)
           && (useColor ==> pre[i].color.Some? && p'[4 * i + 3] == PackedNumber(pre[i].color.value))
           && (!useColor ==> p'[4 * i + 3] == Fin(0.0))
    ensures var recs, p := pre + [last], p' + BarcodeVertex(last, index, width, height, hex);
      |p| == 4 * |recs|
      && forall i :: 0 <= i < |recs| ==>
           p[4 * i] == Div(recs[i].x, width)
           && p[4 * i + 1] == Div(recs[i].y, height)
           && p[4 * i + 2] == Fin(index[recs[i].letters] as real / LastTexel)
           && (useColor ==> recs[i].color.Some? && p[4 * i + 3] == PackedNumber(recs[i].color.value))
           && (!useColor ==> p[4 * i + 3] == Fin(0.0))
  {
    DefaultIsZero();
    var recs, v := pre + [last], BarcodeVertex(last, index, width, height, hex);
    var p := p' + v;
    forall i | 0 <= i < |recs|
      ensures p[4 * i] == Div(recs[i].x, width)
      ensures p[4 * i + 1] == Div(recs[i].y, height)
      ensures p[4 * i + 2] == Fin(index[recs[i].letters] as real / LastTexel)
      ensures useColor ==> recs[i].color.Some? && p[4 * i + 3] == PackedNumber(recs[i].color.value)
      ensures !useColor ==> p[4 * i + 3] == Fin(0.0)
    {
      if i < |pre| {
        assert recs[i] == pre[i];
        Group(p', v, i);
      } else {
        assert recs[i] == last;
        Group(p', v, |pre|);
      }
    }
  }

  /** Once a prefix has thrown, so has the whole loop. */
  lemma {:induction false} BarcodePrefixError(recs: seq<BarcodeRecord>, index: map<string, int>, width: real, height: real, useColor: bool, k: nat)
    requires forall i :: 0 <= i < |recs| ==> recs[i].letters in index
    requires width > 0.0 && height > 0.0 && k <= |recs|
    requires BarcodePositions(recs[..k], index, width, height, useColor).Err?
    ensures BarcodePositions(recs, index, width, height, useColor).Err?
    decreases |recs| - k
  {
    if k < |recs| {
      assert recs[..k + 1][..k] == recs[..k];
      BarcodePrefixError(recs, index, width, height, useColor, k + 1);
    } else {
      assert recs[..k] == recs;
    }
  }

  /** The entries of a group of four before an appended vertex, and of the vertex. */
  lemma Group(p': seq<JsNum>, v: seq<JsNum>, i: nat)
    requires |v| == 4 && |p'| % 4 == 0 && 4 * i <= |p'|
    ensures 4 * i < |p'| ==>
              (p' + v)[4 * i] == p'[4 * i] && (p' + v)[4 * i + 1] == p'[4 * i + 1]
              && (p' + v)[4 * i + 2] == p'[4 * i + 2] && (p' + v)[4 * i + 3] == p'[4 * i + 3]
    ensures 4 * i == |p'| ==>
              (p' + v)[4 * i] == v[0] && (p' + v)[4 * i + 1] == v[1]
              && (p' + v)[4 * i + 2] == v[2] && (p' + v)[4 * i + 3] == v[3]
  {
  }

  lemma DefaultIsZero()
    ensures PackedNumber(DefaultColor) == Fin(0.0)
  {
    var p := DefaultColor[1..];
    assert Substring(DefaultColor, 1, 7) == p;
    assert p == Zeros(6);
    ZerosAreZero(6);
  }

  /** One row of the CP data with its columns converted by `Number()`, and the raw
      text of the property column, read as the colour in own-colour mode. The
      scalar `value` is `Number()` of that same text, so a "#RRGGBB" cell has
      value NaN; the record does not enforce this link. */
  datatype CPRecord = CPRecord(x: JsNum, y: JsNum, value: JsNum, text: Option<string>)

  /** The four numbers of one CP marker. */
  function CPVertex(r: CPRecord, width: real, height: real, hexColor: string): (v: seq<JsNum>)
    requires width > 0.0 && height > 0.0
  {
    [Div(r.x, width), Div(r.y, height), r.value, PackedNumber(hexColor)]
  }

  /** The `positions` array of loadCPMarkers after the loop over recs. */
  function CPPositions(recs: seq<CPRecord>, width: real, height: real, useColor: bool): (r: Result<seq<JsNum>>)
    requires width > 0.0 && height > 0.0
  {
    if recs == [] then Ok([])
    else
      var last := recs[|recs| - 1];
      var pre := CPPositions(recs[..|recs| - 1], width, height, useColor);
      var hex := MarkerColor(last.text, useColor);
      if pre.Err? then pre
      else if hex.Err? then Err(hex.error)
      else Ok(pre.value + CPVertex(last, width, height, hex.value))
  }

  function CPColors(recs: seq<CPRecord>): (cs: seq<Option<string>>)
    ensures |cs| == |recs| && forall i :: 0 <= i < |recs| ==> cs[i] == recs[i].text
  {
    seq(|recs|, i requires 0 <= i < |recs| => recs[i].text)
  }

  /** loadCPMarkers' packing: in own-colour mode it throws a TypeError exactly when
      a marker's property cell is missing. */
  lemma {:induction false} CPThrows(recs: seq<CPRecord>, width: real, height: real, useColor: bool)
    requires width > 0.0 && height > 0.0
    ensures var r := CPPositions(recs, width, height, useColor);
      (r.Err? <==> MissingColor(CPColors(recs), useColor)) && (r.Err? ==> r.error == TypeError)
  {
    if recs != [] {
      var n := |recs| - 1;
      var pre := recs[..n];
      CPThrows(pre, width, height, useColor);
      MissingPrefix(CPColors(recs), CPColors(pre), useColor);
    }
  }

  /** When loadCPMarkers' loop completes there are four numbers per point, the
      third one the scalar itself. */
  lemma {:induction false} CPPacking(recs: seq<CPRecord>, width: real, height: real, useColor: bool)
    requires width > 0.0 && height > 0.0
    requires CPPositions(recs, width, height, useColor).Ok?
    ensures var p := CPPositions(recs, width, height, useColor).value;
      |p| == 4 * |recs|
      && forall i :: 0 <= i < |recs| ==>
           p[4 * i] == Div(recs[i].x, width)
           && p[4 * i + 1] == Div(recs[i].y, height)
           && p[4 * i + 2] == recs[i].value
           && (useColor ==> recs[i].text.Some? && p[4 * i + 3] == PackedNumber(recs[i].text.value))
           && (!useColor ==> p[4 * i + 3] == Fin(0.0))
  {
    if recs != [] {
      var n := |recs| - 1;
      var pre, last := recs[..n], recs[n];
      CPPacking(pre, width, height, useColor);
      assert recs == pre + [last];
      CPStep(pre, last, CPPositions(pre, width, height, useColor).value, width, height, useColor,
             MarkerColor(last.text, useColor).value);
    }
  }

  /** One more turn of loadCPMarkers' loop keeps the four numbers of every point. */
  lemma CPStep(pre: seq<CPRecord>, last: CPRecord, p': seq<JsNum>, width: real, height: real, useColor: bool, hex: string)
    requires width > 0.0 && height > 0.0 && |p'| == 4 * |pre| && MarkerColor(last.text, useColor) == Ok(hex)
    requires forall i :: 0 <= i < |pre| ==>
           p'[4 * i] == Div(pre[i].x, width)
           && p'[4 * i + 1] == Div(pre[i].y, height)
           && p'[4 * i + 2] == pre[i].value
           && (useColor ==> pre[i].text.Some? && p'[4 * i + 3] == PackedNumber(pre[i].text.value))
           && (!useColor ==> p'[4 * i + 3] == Fin(0.0))
    ensures var recs, p := pre + [last], p' + CPVertex(last, width, height, hex);
      |p| == 4 * |recs|
      && forall i :: 0 <= i < |recs| ==>
           p[4 * i] == Div(recs[i].x, width)
           && p[4 * i + 1] == Div(recs[i].y, height)
           && p[4 * i + 2] == recs[i].value
           && (useColor ==> recs[i].text.Some? && p[4 * i + 3] == PackedNumber(recs[i].text.value))
           && (!useColor ==> p[4 * i + 3] == Fin(0.0))
  {
    DefaultIsZero();
    var recs, v := pre + [last], CPVertex(last, width, height, hex);
    var p := p' + v;
    forall i | 0 <= i < |recs|
      ensures p[4 * i] == Div(recs[i].x, width)
      ensures p[4 * i + 1] == Div(recs[i].y, height)
      ensures p[4 * i + 2] == recs[i].value
      ensures useColor ==> recs[i].text.Some? && p[4 * i + 3] == PackedNumber(recs[i].text.value)
      ensures !useColor ==> p[4 * i + 3] == Fin(0.0)
    {
      if i < |pre| {
        assert recs[i] == pre[i];
        Group(p', v, i);
      } else {
        assert recs[i] == last;
        Group(p', v, |pre|);
      }
    }
  }

  /** The bounds the CP range starts from. */
  const RangeStart: JsNum := Fin(1000000000.0)
  const RangeEnd: JsNum := Fin(-1000000000.0)

  /** A running `[min, max]` of the scalars. */
  datatype Range = Range(low: JsNum, high: JsNum)

  /** `scalarRange` after the loop over recs. */
  function ScalarRange(recs: seq<CPRecord>): (range: Range)
  {
    if recs == [] then Range(RangeStart, RangeEnd)
    else
      var r := ScalarRange(recs[..|recs| - 1]);
      var z := recs[|recs| - 1].value;
      Range(Min(r.low, z), Max(r.high, z))
  }

  predicate HasNaN(recs: seq<CPRecord>)
  {
    exists i :: 0 <= i < |recs| && recs[i].value.NaN?
  }

  /** A single NaN scalar (a non-numeric cell) turns both ends of the range to NaN,
      for good; without one both ends stay numbers. */
  lemma {:induction false} RangeNaN(recs: seq<CPRecord>)
    ensures var r := ScalarRange(recs);
      (r.low.NaN? <==> HasNaN(recs)) && (r.high.NaN? <==> HasNaN(recs))
  {
    if recs != [] {
      var pre := recs[..|recs| - 1];
      RangeNaN(pre);
      if HasNaN(pre) {
        var i :| 0 <= i < |pre| && pre[i].value.NaN?;
        assert recs[i].value.NaN?;
      }
      if HasNaN(recs) && !recs[|recs| - 1].value.NaN? {
        var i :| 0 <= i < |recs| && recs[i].value.NaN?;
        assert pre[i].value.NaN?;
      }
    }
  }

  /** Without NaN every scalar lies within the range, and the range is the
      minimum and maximum of the start bounds and the scalars. */
  lemma {:induction false} RangeBounds(recs: seq<CPRecord>)
    requires !HasNaN(recs)
    ensures var r := ScalarRange(recs);
      r.low.Fin? && r.high.Fin?
      && r.low.v <= RangeStart.v && r.high.v >= RangeEnd.v
      && (forall i :: 0 <= i < |recs| ==> r.low.v <= recs[i].value.v <= r.high.v)
      && (r.low.v == RangeStart.v || exists i :: 0 <= i < |recs| && recs[i].value.v == r.low.v)
      && (r.high.v == RangeEnd.v || exists i :: 0 <= i < |recs| && recs[i].value.v == r.high.v)
  {
    if recs != [] {
      var n := |recs| - 1;
      var pre := recs[..n];
      forall i | 0 <= i < |pre| ensures !pre[i].value.NaN? {
        assert pre[i] == recs[i];
      }
      RangeBounds(pre);
      RangeNaN(recs);
      var r, r' := ScalarRange(pre), ScalarRange(recs);
      forall i | 0 <= i < |recs| ensures r'.low.v <= recs[i].value.v <= r'.high.v {
        if i < n { assert recs[i] == pre[i]; }
      }
      if r'.low.v != RangeStart.v && r'.low.v != recs[n].value.v {
        var i :| 0 <= i < |pre| && pre[i].value.v == r.low.v;
        assert recs[i] == pre[i];
      }
      if r'.high.v != RangeEnd.v && r'.high.v != recs[n].value.v {
        var i :| 0 <= i < |pre| && pre[i].value.v == r.high.v;
        assert recs[i] == pre[i];
      }
    }
  }

  /** For non-empty data with NaN-free scalars inside [-1e9, 1e9], both ends of
      the range are scalars of the data: it is exactly their minimum and maximum. */
  lemma RangeAttained(recs: seq<CPRecord>)
    requires recs != [] && !HasNaN(recs)
    requires forall i :: 0 <= i < |recs| ==> RangeEnd.v <= recs[i].value.v <= RangeStart.v
    ensures var r := ScalarRange(recs);
      r.low.Fin? && r.high.Fin?
      && (exists i :: 0 <= i < |recs| && recs[i].value.v == r.low.v)
      && (exists j :: 0 <= j < |recs| && recs[j].value.v == r.high.v)
      && (forall i :: 0 <= i < |recs| ==> r.low.v <= recs[i].value.v <= r.high.v)
  {
    RangeBounds(recs);
    var r := ScalarRange(recs);
    assert r.low.v <= recs[0].value.v <= RangeStart.v;
    assert RangeEnd.v <= recs[0].value.v <= r.high.v;
    if r.low.v == RangeStart.v {
      assert recs[0].value.v == r.low.v;
    }
    if r.high.v == RangeEnd.v {
      assert recs[0].value.v == r.high.v;
    }
  }

  /** With no data the range keeps its start bounds; they are reversed, so a
      following normalisation divides by a negative width. */
  lemma RangeEmpty(recs: seq<CPRecord>)
    requires recs == []
    ensures ScalarRange(recs) == Range(RangeStart, RangeEnd)
    ensures ScalarRange(recs).low.v > ScalarRange(recs).high.v
  {
  }

  /** What the CP loop produces: the positions and the scalar range. */
  datatype CPData = CPData(positions: seq<JsNum>, range: Range)

  /** The loop of loadMarkers, writing four numbers per point. */
  method PackBarcodeVertices(recs: seq<BarcodeRecord>, index: map<string, int>, width: real, height: real, useColor: bool)
    returns (r: Result<seq<JsNum>>)
    requires forall i :: 0 <= i < |recs| ==> recs[i].letters in index
    requires width > 0.0 && height > 0.0
    ensures r == BarcodePositions(recs, index, width, height, useColor)
  {
    var positions: seq<JsNum> := [];
    var hexColor := DefaultColor;
    var i := 0;
    while i < |recs|
      invariant 0 <= i <= |recs|
      invariant BarcodePositions(recs[..i], index, width, height, useColor) == Ok(positions)
      invariant !useColor ==> hexColor == DefaultColor
    {
      assert recs[..i + 1][..i] == recs[..i];
      if useColor {
        if recs[i].color.None? {
          BarcodePrefixError(recs, index, width, height, useColor, i + 1);
          BarcodeThrows(recs, index, width, height, useColor);
          return Err(TypeError);
        }
        hexColor := recs[i].color.value;
      }
      var rec := recs[i];
      positions := positions + [Div(rec.x, width), Div(rec.y, height), Fin(index[rec.letters] as real / LastTexel), PackedNumber(hexColor)];
      i := i + 1;
    }
    assert recs[..i] == recs;
    return Ok(positions);
  }

  /** The loop of loadCPMarkers: four numbers per point and the running range. */
  method PackCPVertices(recs: seq<CPRecord>, width: real, height: real, useColor: bool)
    returns (r: Result<CPData>)
    requires width > 0.0 && height > 0.0
    ensures CPPositions(recs, width, height, useColor).Err? ==> r == Err(TypeError)
    ensures CPPositions(recs, width, height, useColor).Ok? ==>
      r == Ok(CPData(CPPositions(recs, width, height, useColor).value, ScalarRange(recs)))
    ensures r.Ok? ==> |r.value.positions| == 4 * |recs|
  {
    var positions: seq<JsNum> := [];
    var low, high := RangeStart, RangeEnd;
    var hexColor := DefaultColor;
    var i := 0;
    while i < |recs|
      invariant 0 <= i <= |recs|
      invariant CPPositions(recs[..i], width, height, useColor) == Ok(positions)
      invariant |positions| == 4 * i
      invariant ScalarRange(recs[..i]) == Range(low, high)
      invariant !useColor ==> hexColor == DefaultColor
    {
      assert recs[..i + 1][..i] == recs[..i];
      if useColor {
        if recs[i].text.None? {
          PrefixError(recs, width, height, useColor, i + 1);
          CPThrows(recs, width, height, useColor);
          return Err(TypeError);
        }
        hexColor := recs[i].text.value;
      }
      var rec := recs[i];
      positions := positions + [Div(rec.x, width), Div(rec.y, height), rec.value, PackedNumber(hexColor)];
      low := Min(low, positions[4 * i + 2]);
      high := Max(high, positions[4 * i + 2]);
      i := i + 1;
    }
    assert recs[..i] == recs;
    return Ok(CPData(positions, Range(low, high)));
  }

  /** Once a prefix has thrown, so has the whole loop. */
  lemma {:induction false} PrefixError(recs: seq<CPRecord>, width: real, height: real, useColor: bool, k: nat)
    requires width > 0.0 && height > 0.0 && k <= |recs|
    requires CPPositions(recs[..k], width, height, useColor).Err?
    ensures CPPositions(recs, width, height, useColor).Err?
    decreases |recs| - k
  {
    if k < |recs| {
      assert recs[..k + 1][..k] == recs[..k];
      PrefixError(recs, width, height, useColor, k + 1);
    } else {
      assert recs[..k] == recs;
    }
  }
}
