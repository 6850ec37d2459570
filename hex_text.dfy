/** Hexadecimal text as the marker layer reads and writes it: `Number("0x" + digits)`
    for colour strings and `Number.prototype.toString(16)` for packed colours. */
module HexText {
  import opened JsValues

  predicate IsHexDigit(c: char)
  {
    '0' <= c <= '9' || 'a' <= c <= 'f' || 'A' <= c <= 'F'
  }

  predicate AllHex(s: string)
  {
    forall i :: 0 <= i < |s| ==> IsHexDigit(s[i])
  }

  function DigitValue(c: char): (d: nat)
    requires IsHexDigit(c)
    ensures d < 16
  {
    if '0' <= c <= '9' then c as int - '0' as int
    else if 'a' <= c <= 'f' then c as int - 'a' as int + 10
    else c as int - 'A' as int + 10
  }

  /** The lower-case digit toString(16) writes for d. */
  function Digit(d: nat): (c: char)
    requires d < 16
    ensures IsHexDigit(c) && DigitValue(c) == d
  {
    if d < 10 then ('0' as int + d) as char else ('a' as int + d - 10) as char
  }

  function Pow16(k: nat): (p: nat)
    ensures p >= 1
  {
    if k == 0 then 1 else 16 * Pow16(k - 1)
  }

  /** The value of a string of hex digits, most significant first. */
  function HexValue(s: string): (v: nat)
    requires AllHex(s)
  {
    if s == [] then 0
    else HexValue(s[..|s| - 1]) * 16 + DigitValue(s[|s| - 1])
  }

  /** The characters JavaScript's string-to-number conversion trims
      (WhiteSpace and LineTerminator of ECMA-262). */
  predicate IsJsSpace(c: char)
  {
    var k := c as int;
    (0x09 <= k <= 0x0D) || k == 0x20 || k == 0xA0 || k == 0x1680 || (0x2000 <= k <= 0x200A)
    || k == 0x2028 || k == 0x2029 || k == 0x202F || k == 0x205F || k == 0x3000 || k == 0xFEFF
  }

  /** s without its trailing white space. */
  function TrimEnd(s: string): (t: string)
  {
    if s != [] && IsJsSpace(s[|s| - 1]) then TrimEnd(s[..|s| - 1]) else s
  }

  /** s without its leading white space. */
  function TrimStart(s: string): (t: string)
  {
    if s != [] && IsJsSpace(s[0]) then TrimStart(s[1..]) else s
  }

  /** `Number("0x" + digits)`: the hex value when what follows "0x" is one or more
      hex digits, up to trailing white space; NaN (None) otherwise, "0x" alone included. */
  function HexNumber(digits: string): (r: Option<nat>)
    ensures r.Some? <==> TrimEnd(digits) != [] && AllHex(TrimEnd(digits))
    ensures AllHex(digits) && digits != [] ==> r == Some(HexValue(digits))
  {
    var t := TrimEnd(digits);
    if t != [] && AllHex(t) then Some(HexValue(t)) else None
  }

  /** `n.toString(16)` for a non-negative integer: lower-case digits, no leading zeros. */
  function HexString(n: nat): (s: string)
    ensures s != [] && AllHex(s)
    decreases n
  {
    if n < 16 then [Digit(n)] else HexString(n / 16) + [Digit(n % 16)]
  }

  /** `("0").repeat(k)` */
  function Zeros(k: nat): (s: string)
    ensures |s| == k && AllHex(s)
    ensures forall i :: 0 <= i < k ==> s[i] == '0'
  {
    if k == 0 then [] else Zeros(k - 1) + ['0']
  }

  /** toString(16) is read back by `Number("0x" + ...)`. */
  lemma {:induction false} HexStringValue(n: nat)
    ensures HexValue(HexString(n)) == n
    decreases n
  {
    if n >= 16 {
      var s := HexString(n);
      HexStringValue(n / 16);
      assert s[..|s| - 1] == HexString(n / 16);
    }
  }

  /** A number below 16^k has at most k hex digits. */
  lemma {:induction false} HexStringLength(n: nat, k: nat)
    requires 1 <= k && n < Pow16(k)
    ensures |HexString(n)| <= k
    decreases n
  {
    if n >= 16 {
      assert k >= 2;
      assert n / 16 < Pow16(k - 1);
      HexStringLength(n / 16, k - 1);
    }
  }

  /** Concatenated digit strings: the left part is shifted by the right part's width. */
  lemma {:induction false} HexValueConcat(a: string, b: string)
    requires AllHex(a) && AllHex(b)
    ensures AllHex(a + b) && HexValue(a + b) == HexValue(a) * Pow16(|b|) + HexValue(b)
    decreases |b|
  {
    AllHexConcat(a, b);
    if b == [] {
      assert a + b == a;
    } else {
      var b' := b[..|b| - 1];
      assert AllHex(b') by { assert forall i :: 0 <= i < |b'| ==> b'[i] == b[i]; }
      HexValueConcat(a, b');
      ConcatStep(a, b);
    }
  }

  /** One digit more on the right of a concatenation whose value is known. */
  lemma ConcatStep(a: string, b: string)
    requires AllHex(a) && AllHex(b) && b != [] && AllHex(a + b) && AllHex(b[..|b| - 1])
    requires AllHex(a + b[..|b| - 1])
    requires HexValue(a + b[..|b| - 1]) == HexValue(a) * Pow16(|b| - 1) + HexValue(b[..|b| - 1])
    ensures HexValue(a + b) == HexValue(a) * Pow16(|b|) + HexValue(b)
  {
    var ab := a + b;
    var b' := b[..|b| - 1];
    var d := DigitValue(b[|b| - 1]);
    var x, p, y := HexValue(a), Pow16(|b'|), HexValue(b');
    assert ab[..|ab| - 1] == a + b';
    assert ab[|ab| - 1] == b[|b| - 1];
    var v := HexValue(a + b');
    assert HexValue(ab) == v * 16 + d;
    assert HexValue(b) == y * 16 + d;
    assert Pow16(|b|) == p * 16;
    ShiftDigit(x, p, y, d, v, Pow16(|b|));
  }

  lemma AllHexConcat(a: string, b: string)
    requires AllHex(a) && AllHex(b)
    ensures AllHex(a + b)
  {
    var ab := a + b;
    forall i | 0 <= i < |ab| ensures IsHexDigit(ab[i]) {
      if i < |a| { assert ab[i] == a[i]; } else { assert ab[i] == b[i - |a|]; }
    }
  }

  lemma ShiftDigit(x: int, p: int, y: int, d: int, v: int, p16: int)
    requires v == x * p + y && p16 == p * 16
    ensures v * 16 + d == x * p16 + (y * 16 + d)
  {
  }

  /** Zero padding does not change the value. */
  lemma ZerosValue(k: nat, s: string)
    requires AllHex(s)
    ensures AllHex(Zeros(k) + s) && HexValue(Zeros(k) + s) == HexValue(s)
  {
    HexValueConcat(Zeros(k), s);
    ZerosAreZero(k);
  }

  lemma {:induction false} ZerosAreZero(k: nat)
    ensures HexValue(Zeros(k)) == 0
  {
    if k > 0 {
      assert Zeros(k)[..k - 1] == Zeros(k - 1);
      ZerosAreZero(k - 1);
    }
  }

  /** A six-digit colour is three two-digit bytes, red first. */
  lemma SixDigits(p: string)
    requires |p| == 6 && AllHex(p)
    ensures AllHex(p[..2]) && AllHex(p[2..4]) && AllHex(p[4..])
    ensures HexValue(p) == HexValue(p[..2]) * 65536 + HexValue(p[2..4]) * 256 + HexValue(p[4..])
    ensures HexValue(p[..2]) < 256 && HexValue(p[2..4]) < 256 && HexValue(p[4..]) < 256
  {
    var r, g, b := p[..2], p[2..4], p[4..];
    var rg := p[..4];
    assert rg == r + g;
    assert p == rg + b;
    assert Pow16(2) == 256;
    HexValueConcat(r, g);
    HexValueConcat(rg, b);
    TwoDigitBound(r);
    TwoDigitBound(g);
    TwoDigitBound(b);
  }

  lemma TwoDigitBound(s: string)
    requires |s| == 2 && AllHex(s)
    ensures HexValue(s) < 256
  {
    var s1 := s[..1];
    assert s1[..0] == [] && s1[0] == s[0];
    assert HexValue(s1) == DigitValue(s[0]);
    assert HexValue(s) == HexValue(s1) * 16 + DigitValue(s[1]);
  }

  /** `Number("0x" + hexColor.substring(start, start + 2))`: one colour channel. */
  function ColorChannel(hexColor: string, start: int): (r: Option<nat>)
    ensures r.Some? ==> r.value < Pow16(|TrimEnd(Substring(hexColor, start, start + 2))|)
  {
    var r := HexNumber(Substring(hexColor, start, start + 2));
    if r.Some? then ValueBound(TrimEnd(Substring(hexColor, start, start + 2))); r else r
  }

  /** `Number("0x" + hexColor.substring(1, 7))`: the colour packed as one integer. */
  function PackedColor(hexColor: string): (n: Option<nat>)
  {
    HexNumber(Substring(hexColor, 1, 7))
  }

  /** A colour written as "#" followed by six hex digits. */
  predicate WellFormedColor(s: string)
  {
    |s| == 7 && s[0] == '#' && AllHex(s[1..])
  }

  lemma {:induction false} ValueBound(s: string)
    requires AllHex(s)
    ensures HexValue(s) < Pow16(|s|)
  {
    if s != [] {
      var s' := s[..|s| - 1];
      ValueBound(s');
      var v, d := HexValue(s'), DigitValue(s[|s| - 1]);
      NextDigitBound(v, d, Pow16(|s'|));
    }
  }

  lemma NextDigitBound(v: int, d: int, p: int)
    requires 0 <= v < p && 0 <= d < 16
    ensures v * 16 + d < p * 16
  {
  }

  /** For a well-formed colour the packed integer is the three channels in
      red-green-blue order, each one byte. */
  lemma PackedColorChannels(s: string)
    requires WellFormedColor(s)
    ensures PackedColor(s).Some? && ColorChannel(s, 1).Some? && ColorChannel(s, 3).Some? && ColorChannel(s, 5).Some?
    ensures ColorChannel(s, 1).value < 256 && ColorChannel(s, 3).value < 256 && ColorChannel(s, 5).value < 256
    ensures PackedColor(s).value
         == ColorChannel(s, 1).value * 65536 + ColorChannel(s, 3).value * 256 + ColorChannel(s, 5).value
  {
    var p := s[1..];
    assert Substring(s, 1, 7) == p;
    assert Substring(s, 1, 3) == p[..2];
    assert Substring(s, 3, 5) == p[2..4];
    assert Substring(s, 5, 7) == p[4..];
    SixDigits(p);
  }

  /** Three bytes in mixed radix 65536/256/1 are determined by their sum. */
  lemma ByteTriple(a: int, b: int, c: int, x: int, y: int, z: int)
    requires 0 <= a < 256 && 0 <= b < 256 && 0 <= c < 256
    requires 0 <= x < 256 && 0 <= y < 256 && 0 <= z < 256
    requires a * 65536 + b * 256 + c == x * 65536 + y * 256 + z
    ensures a == x && b == y && c == z
  {
  }
}
