/** The arithmetic of the marker vertex shader `MARKERS_VS`: colour unpacking, the
    image-to-clip-space transform, point size, the shape-atlas cell and the hiding
    of invisible points. Numbers are exact reals; colours are kept as bytes 0..255
    where the shader divides them by 255. */
module MarkersVs {
  import opened JsValues
  import opened HexText
  import opened Vertices

  /** The largest 24-bit colour. */
  const MaxPacked: real := 16777215.0

  datatype Vec2 = Vec2(x: real, y: real)
  datatype Vec4 = Vec4(x: real, y: real, z: real, w: real)

  /** `u_viewportRect`: the visible part of the image, as OpenSeadragon bounds. */
  datatype Rect = Rect(x: real, y: real, width: real, height: real)

  /** GLSL `floor(mod(x, 256.0))`, where `mod(x, y) = x - y * floor(x / y)`. */
  function FloorMod256(x: real): (m: int)
  {
    (x - 256.0 * ((x / 256.0).Floor as real)).Floor
  }

  /** GLSL `clamp(v, 0.0, 16777215.0)`. */
  function ClampPacked(v: real): (c: real)
  {
    if v < 0.0 then 0.0 else if v > MaxPacked then MaxPacked else v
  }

  /** `hex_to_rgb`: red, green and blue bytes of a 24-bit colour stored in a float. */
  function HexToRgb(v: real): (int, int, int)
  {
    var c := ClampPacked(v);
    (FloorMod256(c / 65536.0), FloorMod256(c / 256.0), FloorMod256(c))
  }

  /** `floor(mod(x, 256))` is the integer part of x taken modulo 256. */
  lemma FloorModIsMod(x: real)
    ensures FloorMod256(x) == x.Floor % 256
  {
    var f := x.Floor;
    var a, b := f / 256, f % 256;
    assert f == 256 * a + b;
    assert a as real <= x / 256.0 < a as real + 1.0;
    assert (x / 256.0).Floor == a;
    var m := x - 256.0 * (a as real);
    assert b as real <= m < b as real + 1.0;
  }

  /** Dividing an integer by a positive integer and flooring is integer division. */
  lemma FloorDiv(n: int, d: int)
    requires d > 0
    ensures ((n as real) / (d as real)).Floor == n / d
  {
    var q, r := n / d, n % d;
    assert n == q * d + r;
    assert (n as real) / (d as real) == q as real + (r as real) / (d as real);
    assert 0.0 <= (r as real) / (d as real) < 1.0;
  }

  /** For an integer v the shader's colour is `(v / 65536 % 256, v / 256 % 256, v % 256)`
      of v clamped to the 24-bit range. */
  lemma HexToRgbInteger(n: int)
    ensures var c := if n < 0 then 0 else if n > 16777215 then 16777215 else n;
      HexToRgb(n as real) == (c / 65536 % 256, c / 256 % 256, c % 256)
  {
    var c := if n < 0 then 0 else if n > 16777215 then 16777215 else n;
    assert ClampPacked(n as real) == c as real;
    FloorModIsMod(c as real / 65536.0);
    FloorModIsMod(c as real / 256.0);
    FloorModIsMod(c as real);
    FloorDiv(c, 65536);
    FloorDiv(c, 256);
  }

  /** Unpacking inverts packing: three bytes packed as r * 65536 + g * 256 + b come
      back out of hex_to_rgb unchanged. */
  lemma HexToRgbInverts(r: int, g: int, b: int)
    requires 0 <= r < 256 && 0 <= g < 256 && 0 <= b < 256
    ensures HexToRgb((r * 65536 + g * 256 + b) as real) == (r, g, b)
  {
    var n := r * 65536 + g * 256 + b;
    HexToRgbInteger(n);
    DivMod65536(n, r, g * 256 + b);
    DivMod256(n, r * 256 + g, b);
    DivMod256(r * 256 + g, r, g);
    DivMod256(r, 0, r);
  }

  /** Packing inverts unpacking: every colour in the 24-bit range is the packing
      of its three unpacked bytes. */
  lemma PackInverts(n: int)
    requires 0 <= n <= 16777215
    ensures var (r, g, b) := HexToRgb(n as real);
      0 <= r < 256 && 0 <= g < 256 && 0 <= b < 256 && n == r * 65536 + g * 256 + b
  {
    var a, rest := n / 65536, n % 65536;
    var b, c := rest / 256, rest % 256;
    assert n == a * 65536 + b * 256 + c;
    HexToRgbInverts(a, b, c);
  }

  lemma DivMod256(n: int, q: int, m: int)
    requires 0 <= m < 256 && n == q * 256 + m
    ensures n / 256 == q && n % 256 == m
  {
  }

  lemma DivMod65536(n: int, q: int, m: int)
    requires 0 <= m < 65536 && n == q * 65536 + m
    ensures n / 65536 == q && n % 65536 == m
  {
  }

  /** Out-of-range values are clamped: below 0 is black, above 0xFFFFFF white. */
  lemma HexToRgbClamps(v: real)
    ensures v <= 0.0 ==> HexToRgb(v) == (0, 0, 0)
    ensures v >= MaxPacked ==> HexToRgb(v) == (255, 255, 255)
  {
    if v <= 0.0 {
      assert ClampPacked(v) == 0 as real;
      HexToRgbInteger(0);
    } else if v >= MaxPacked {
      assert ClampPacked(v) == 16777215 as real;
      HexToRgbInteger(16777215);
    }
  }

  /** A "#RRGGBB" colour packed by the loaders unpacks to the colour's own bytes. */
  lemma ColorRoundTrip(s: string)
    requires WellFormedColor(s)
    ensures PackedNumber(s).Fin?
    ensures ColorChannel(s, 1).Some? && ColorChannel(s, 3).Some? && ColorChannel(s, 5).Some?
    ensures HexToRgb(PackedNumber(s).v) == (ColorChannel(s, 1).value, ColorChannel(s, 3).value, ColorChannel(s, 5).value)
  {
    PackedColorChannels(s);
    HexToRgbInverts(ColorChannel(s, 1).value, ColorChannel(s, 3).value, ColorChannel(s, 5).value);
  }

  /** Image position (as a fraction of the image) to normalised device coordinates:
      scaled to image units, made relative to the viewport, mapped to [-1, 1], with
      y pointing up. The rotation is the identity. */
  function ToNdc(pos: Vec2, imageSize: Vec2, rect: Rect): (ndc: Vec2)
    requires rect.width != 0.0 && rect.height != 0.0
  {
    var image := Vec2(pos.x * imageSize.x, pos.y * imageSize.y);
    var view := Vec2(image.x - rect.x, image.y - rect.y);
    var ndc := Vec2(view.x / rect.width * 2.0 - 1.0, view.y / rect.height * 2.0 - 1.0);
    Vec2(ndc.x, -ndc.y)
  }

  /** The inverse transform, from device coordinates back to the image fraction. */
  function FromNdc(ndc: Vec2, imageSize: Vec2, rect: Rect): (pos: Vec2)
    requires imageSize.x != 0.0 && imageSize.y != 0.0
  {
    Vec2(((ndc.x + 1.0) / 2.0 * rect.width + rect.x) / imageSize.x,
         ((-ndc.y + 1.0) / 2.0 * rect.height + rect.y) / imageSize.y)
  }

  lemma NdcRoundTrip(pos: Vec2, imageSize: Vec2, rect: Rect)
    requires rect.width != 0.0 && rect.height != 0.0 && imageSize.x != 0.0 && imageSize.y != 0.0
    ensures FromNdc(ToNdc(pos, imageSize, rect), imageSize, rect) == pos
  {
    var n := ToNdc(pos, imageSize, rect);
    assert (n.x + 1.0) / 2.0 * rect.width == pos.x * imageSize.x - rect.x;
    assert (-n.y + 1.0) / 2.0 * rect.height == pos.y * imageSize.y - rect.y;
  }

  lemma NdcRoundTripBack(ndc: Vec2, imageSize: Vec2, rect: Rect)
    requires rect.width != 0.0 && rect.height != 0.0 && imageSize.x != 0.0 && imageSize.y != 0.0
    ensures ToNdc(FromNdc(ndc, imageSize, rect), imageSize, rect) == ndc
  {
    var p := FromNdc(ndc, imageSize, rect);
    assert p.x * imageSize.x == (ndc.x + 1.0) / 2.0 * rect.width + rect.x;
    assert p.y * imageSize.y == (-ndc.y + 1.0) / 2.0 * rect.height + rect.y;
  }

  /** A point maps into the [-1, 1] square exactly when it lies in the viewport;
      the viewport's top edge goes to y = 1 and its left edge to x = -1. */
  lemma InsideViewport(pos: Vec2, imageSize: Vec2, rect: Rect)
    requires rect.width > 0.0 && rect.height > 0.0
    ensures var n, ix, iy := ToNdc(pos, imageSize, rect), pos.x * imageSize.x, pos.y * imageSize.y;
      ((-1.0 <= n.x <= 1.0 && -1.0 <= n.y <= 1.0)
         <==> (rect.x <= ix <= rect.x + rect.width && rect.y <= iy <= rect.y + rect.height))
      && (ix == rect.x ==> n.x == -1.0) && (iy == rect.y ==> n.y == 1.0)
  {
    var n, ix, iy := ToNdc(pos, imageSize, rect), pos.x * imageSize.x, pos.y * imageSize.y;
    var u, w := (ix - rect.x) / rect.width, (iy - rect.y) / rect.height;
    assert n == Vec2(u * 2.0 - 1.0, -(w * 2.0 - 1.0));
    assert 0.0 <= u <= 1.0 <==> rect.x <= ix <= rect.x + rect.width;
    assert 0.0 <= w <= 1.0 <==> rect.y <= iy <= rect.y + rect.height;
  }

  /** The viewport's centre is the origin of device space. */
  lemma CentreToOrigin(pos: Vec2, imageSize: Vec2, rect: Rect)
    requires rect.width != 0.0 && rect.height != 0.0
    requires pos.x * imageSize.x == rect.x + rect.width / 2.0 && pos.y * imageSize.y == rect.y + rect.height / 2.0
    ensures ToNdc(pos, imageSize, rect) == Vec2(0.0, 0.0)
  {
  }

  lemma UnitCentre()
    ensures ToNdc(Vec2(0.5, 0.5), Vec2(1.0, 1.0), Rect(0.0, 0.0, 1.0, 1.0)) == Vec2(0.0, 0.0)
  {
    CentreToOrigin(Vec2(0.5, 0.5), Vec2(1.0, 1.0), Rect(0.0, 0.0, 1.0, 1.0));
  }

  /** `gl_PointSize = max(2.0, u_markerScale / u_viewportRect.w)`. */
  function PointSize(scale: real, rect: Rect): (size: real)
    requires rect.height != 0.0
  {
    var s := scale / rect.height;
    if s > 2.0 then s else 2.0
  }

  /** Points are never smaller than two pixels, and otherwise follow the scale. */
  lemma PointSizeFloor(scale: real, rect: Rect)
    requires rect.height > 0.0
    ensures PointSize(scale, rect) >= 2.0
    ensures scale >= 2.0 * rect.height ==> PointSize(scale, rect) == scale / rect.height
    ensures scale <= 2.0 * rect.height ==> PointSize(scale, rect) == 2.0
  {
    if scale >= 2.0 * rect.height {
      assert scale / rect.height >= 2.0;
    } else {
      assert scale / rect.height < 2.0;
    }
  }

  /** A larger scale never gives a smaller point. */
  lemma PointSizeMonotone(s1: real, s2: real, rect: Rect)
    requires rect.height > 0.0 && s1 <= s2
    ensures PointSize(s1, rect) <= PointSize(s2, rect)
  {
    assert s1 / rect.height <= s2 / rect.height;
  }

  /** `v_shapeColorBias = max(0.0, 1.0 - gl_PointSize * 0.2)`. */
  function ShapeColorBias(size: real): (bias: real)
  {
    var b := 1.0 - size * 0.2;
    if b > 0.0 then b else 0.0
  }

  /** Small points are brightened by at most 0.6; points of 5 pixels or more not at all. */
  lemma ShapeColorBiasRange(size: real)
    requires size >= 2.0
    ensures 0.0 <= ShapeColorBias(size) <= 0.6
    ensures size >= 5.0 <==> ShapeColorBias(size) == 0.0
  {
  }

  /** The atlas cell of an alpha byte a: column `mod(a - 1, 4)`, row `floor((a - 1) / 4)`.
      Dafny's `%` and `/` by a positive number are GLSL's floor-based mod and floor. */
  function ShapeOrigin(alpha: int): (int, int)
  {
    ((alpha - 1) % 4, (alpha - 1) / 4)
  }

  /** Shape s (alpha s + 1) selects the cell in column s mod 4 of row s div 4 of the
      4 x 4 atlas: cells are numbered row by row, and each of the 16 shapes has its own. */
  lemma ShapeCell(s: int)
    requires 0 <= s < 16
    ensures var (col, row) := ShapeOrigin(s + 1);
      0 <= col < 4 && 0 <= row < 4 && 4 * row + col == s
  {
  }

  /** CP markers are given alpha 7: the round shape in column 2 of row 1. */
  lemma CPShape()
    ensures ShapeOrigin(7) == (2, 1)
  {
  }

  const OffScreen: Vec4 := Vec4(2.0, 2.0, 2.0, 0.0)

  /** `u_markerType`. */
  datatype MarkerType = BarcodeMarkers | CPMarkers

  /** Where a point's colour comes from: bytes, a position in the colour-scale
      texture, or nothing defined (a NaN reaching a GLSL operation). */
  datatype ColorSource = Rgb(r: int, g: int, b: int) | ScaleAt(t: real) | Undefined

  /** The uniforms of one draw call. */
  datatype Uniforms = Uniforms(
    imageSize: Vec2,
    viewportRect: Rect,
    markerType: MarkerType,
    markerScale: real,
    scalarRange: Range,
    opacity: real,
    useColorFromMarker: bool,
    colorLUT: seq<int>)

  /** `a_position`: normalised x and y, the LUT coordinate or scalar, the packed colour. */
  datatype Attribute = Attribute(x: real, y: real, z: JsNum, w: JsNum)

  /** What the vertex stage hands on for one point. */
  datatype VertexOut = VertexOut(
    position: Vec4,
    color: ColorSource,
    alpha: real,
    shapeOrigin: (int, int),
    shapeColorBias: real,
    pointSize: real)

  /** The texel a NEAREST, CLAMP_TO_EDGE lookup of the 4096-texel table reads at u. */
  function NearestTexel(u: real): (k: int)
    ensures 0 <= k < 4096
  {
    var k := (u * 4096.0).Floor;
    if k < 0 then 0 else if k > 4095 then 4095 else k
  }

  /** The loaders' coordinate `index / 4095` reads back texel `index`. */
  lemma TexelCoordinate(k: int)
    requires 0 <= k < 4096
    ensures NearestTexel(k as real / LastTexel) == k
  {
    var u := k as real / LastTexel;
    assert u * 4096.0 == k as real + k as real / LastTexel;
    if k < 4095 {
      assert 0.0 <= k as real / LastTexel < 1.0;
    }
  }

  /** `(a_position.z - range[0]) / (range[1] - range[0])`, the colour-scale position. */
  function Normalized(z: JsNum, range: Range): (c: ColorSource)
  {
    if z.NaN? || range.low.NaN? || range.high.NaN? || range.high.v == range.low.v then Undefined
    else ScaleAt((z.v - range.low.v) / (range.high.v - range.low.v))
  }

  /** Inside a proper range a scalar maps into [0, 1], the ends to 0 and 1. */
  lemma NormalizedRange(z: real, low: real, high: real)
    requires low < high && low <= z <= high
    ensures var c := Normalized(Fin(z), Range(Fin(low), Fin(high)));
      c.ScaleAt? && 0.0 <= c.t <= 1.0 && (z == low ==> c.t == 0.0) && (z == high ==> c.t == 1.0)
  {
    var d := high - low;
    var t := (z - low) / d;
    assert t * d == z - low;
    assert 0.0 <= t <= 1.0;
  }

  lemma NormalizedExample()
    ensures Normalized(Fin(20.0), Range(Fin(10.0), Fin(30.0))) == ScaleAt(0.5)
  {
  }

  /** The vertex shader's `main` for one point. */
  function Shade(u: Uniforms, a: Attribute): (o: VertexOut)
    requires u.viewportRect.width != 0.0 && u.viewportRect.height != 0.0
    requires |u.colorLUT| == 16384
    requires u.markerType.BarcodeMarkers? ==> a.z.Fin?
  {
    var ndc := ToNdc(Vec2(a.x, a.y), u.imageSize, u.viewportRect);
    var k := if u.markerType.BarcodeMarkers? then NearestTexel(a.z.v) else 0;
    var sampled :=
      if u.markerType.BarcodeMarkers? then Rgb(u.colorLUT[4 * k], u.colorLUT[4 * k + 1], u.colorLUT[4 * k + 2])
      else Normalized(a.z, u.scalarRange);
    var alphaByte := if u.markerType.BarcodeMarkers? then u.colorLUT[4 * k + 3] else 7;
    var color :=
      if !u.useColorFromMarker then sampled
      else if a.w.NaN? then Undefined
      else var (r, g, b) := HexToRgb(a.w.v); Rgb(r, g, b);
    var size := PointSize(u.markerScale, u.viewportRect);
    var alpha := if alphaByte > 0 then u.opacity else 0.0;
    VertexOut(
      if alpha == 0.0 then OffScreen else Vec4(ndc.x, ndc.y, 0.0, 1.0),
      color, alpha, ShapeOrigin(alphaByte), ShapeColorBias(size), size)
  }

  /** A point whose texel alpha is 0 is moved off screen; any other point is placed
      at its transformed position with the layer's opacity. */
  lemma HiddenPointsOffScreen(u: Uniforms, a: Attribute)
    requires u.viewportRect.width != 0.0 && u.viewportRect.height != 0.0
    requires |u.colorLUT| == 16384 && u.markerType.BarcodeMarkers? && a.z.Fin? && u.opacity > 0.0
    ensures var k, o := NearestTexel(a.z.v), Shade(u, a);
      var ndc := ToNdc(Vec2(a.x, a.y), u.imageSize, u.viewportRect);
      (u.colorLUT[4 * k + 3] <= 0 ==> o.position == OffScreen && o.alpha == 0.0)
      && (u.colorLUT[4 * k + 3] > 0 ==> o.position == Vec4(ndc.x, ndc.y, 0.0, 1.0) && o.alpha == u.opacity)
  {
  }

  /** CP points have alpha 7, so they are always drawn, with the round shape, at the
      layer's opacity. */
  lemma CPPointsShown(u: Uniforms, a: Attribute)
    requires u.viewportRect.width != 0.0 && u.viewportRect.height != 0.0
    requires |u.colorLUT| == 16384 && u.markerType.CPMarkers? && u.opacity > 0.0
    ensures var o, ndc := Shade(u, a), ToNdc(Vec2(a.x, a.y), u.imageSize, u.viewportRect);
      o.position == Vec4(ndc.x, ndc.y, 0.0, 1.0) && o.alpha == u.opacity && o.shapeOrigin == (2, 1)
      && (!u.useColorFromMarker ==> o.color == Normalized(a.z, u.scalarRange))
  {
  }
}
