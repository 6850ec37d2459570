/** `glUtils._formatHex`: turns the "rgb(r, g, b)" strings that colour-scale
    interpolators may return into "#rrggbb", and leaves every other string alone. */
module ColorText {
  import opened JsValues
  import opened HexText

  predicate IsDecDigit(c: char)
  {
    '0' <= c <= '9'
  }

  predicate AllDec(s: string)
  {
    forall i :: 0 <= i < |s| ==> IsDecDigit(s[i])
  }

  function DecValue(s: string): (n: nat)
    requires AllDec(s)
  {
    if s == [] then 0 else DecValue(s[..|s| - 1]) * 10 + (s[|s| - 1] as int - '0' as int)
  }

  /** The decimal text of n, as `String(n)` writes it. */
  function DecString(n: nat): (s: string)
    ensures s != [] && AllDec(s)
    decreases n
  {
    if n < 10 then [('0' as int + n) as char] else DecString(n / 10) + [('0' as int + n % 10) as char]
  }

  /** `Number(text)` for the integer text this function meets: white space trimmed
      at both ends, empty text is 0, an optional sign, then decimal digits; None is NaN. */
  function ParseInteger(text: string): (r: Option<int>)
  {
    var t := TrimStart(TrimEnd(text));
    if t == [] then Some(0)
    else if (t[0] == '-' || t[0] == '+') && |t| > 1 && AllDec(t[1..]) then
      var v: int := DecValue(t[1..]);
      Some(if t[0] == '-' then -v else v)
    else if AllDec(t) then Some(DecValue(t))
    else None
  }

  /** `s.split(sep)` for a one-character separator. */
  function Split(s: string, sep: char): (parts: seq<string>)
    ensures |parts| >= 1
  {
    if s == [] then [""]
    else if s[0] == sep then [""] + Split(s[1..], sep)
    else var rest := Split(s[1..], sep); [[s[0]] + rest[0]] + rest[1..]
  }

  /** `s.replace(pat, rep)` with a string pattern: only the first occurrence is replaced. */
  function ReplaceFirst(s: string, pat: string, rep: string): (t: string)
  {
    if OccursAt(s, pat, 0) then rep + s[|pat|..]
    else if s == [] then s
    else [s[0]] + ReplaceFirst(s[1..], pat, rep)
  }

  /** One colour component: "rgb(" and then ")" removed, then `Number(...)`. */
  function Component(part: string): (c: Option<int>)
  {
    ParseInteger(ReplaceFirst(ReplaceFirst(part, "rgb(", ""), ")", ""))
  }

  /** `Number(r) * 65536 + Number(g) * 256 + Number(b)`, NaN as soon as one is NaN. */
  function PackComponents(r: Option<int>, g: Option<int>, b: Option<int>): (n: Option<int>)
    ensures n.Some? <==> r.Some? && g.Some? && b.Some?
  {
    if r.Some? && g.Some? && b.Some? then Some(r.value * 65536 + g.value * 256 + b.value) else None
  }

  /** `n.toString(16)` for an integer or NaN. */
  function NumberToHex(n: Option<int>): (s: string)
    ensures forall i :: 0 <= i < |s| ==> s[i] != 'r'
  {
    match n
    case None => "NaN"
    case Some(k) => if k >= 0 then HexString(k) else "-" + HexString(-k)
  }

  /** `"#" + ("0").repeat(6 - hex.length) + hex`: a RangeError for a negative count. */
  function PadHex(hex: string): (r: Result<string>)
    ensures r.Ok? <==> |hex| <= 6
  {
    if |hex| > 6 then Err(RangeError) else Ok("#" + Zeros(6 - |hex|) + hex)
  }

  /** The hex text of the three parts; `undefined.replace` throws when a part is missing. */
  function FormatParts(parts: seq<string>): (r: Result<string>)
  {
    if |parts| < 3 then Err(TypeError)
    else PadHex(NumberToHex(PackComponents(Component(parts[0]), Component(parts[1]), Component(parts[2]))))
  }

  /** `_formatHex(color)`: strings containing "rgb" are rewritten, all others returned as they are. */
  function FormatHex(color: string): (r: Result<string>)
    ensures !Includes(color, "rgb") ==> r == Ok(color)
  {
    if !Includes(color, "rgb") then Ok(color) else FormatParts(Split(color, ','))
  }

  lemma PaddedNoR(hex: string, k: nat)
    requires Lacks(hex, 'r')
    ensures !Includes("#" + Zeros(k) + hex, "rgb")
  {
    assert Lacks(Zeros(k), 'r');
    LacksConcat("#", Zeros(k), 'r');
    LacksConcat("#" + Zeros(k), hex, 'r');
    NoR("#" + Zeros(k) + hex);
  }

  /** Neither hex digits, '#', '-' nor "NaN" contain the letter r. */
  lemma NoR(s: string)
    requires Lacks(s, 'r')
    ensures !Includes(s, "rgb")
  {
    IncludesIff(s, "rgb");
    forall i: nat ensures !OccursAt(s, "rgb", i) {
      if i + 3 <= |s| { assert s[i..i + 3][0] == s[i]; }
    }
  }

  lemma PadHexNoR(hex: string)
    requires PadHex(hex).Ok? && Lacks(hex, 'r')
    ensures !Includes(PadHex(hex).value, "rgb")
  {
    PaddedNoR(hex, 6 - |hex|);
  }

  lemma FormatPartsNoR(parts: seq<string>)
    requires FormatParts(parts).Ok?
    ensures !Includes(FormatParts(parts).value, "rgb")
  {
    PadHexNoR(NumberToHex(PackComponents(Component(parts[0]), Component(parts[1]), Component(parts[2]))));
  }

  /** What _formatHex returns contains no "rgb", so applying it again changes nothing. */
  lemma FormatHexIdempotent(color: string)
    requires FormatHex(color).Ok?
    ensures !Includes(FormatHex(color).value, "rgb")
    ensures FormatHex(FormatHex(color).value) == FormatHex(color)
  {
    if Includes(color, "rgb") {
      FormatPartsNoR(Split(color, ','));
    }
  }

  /** The text a colour interpolator writes for a colour: "rgb(" r "," gap g "," gap b ")". */
  function RgbText(r: nat, g: nat, b: nat, gap: string): (t: string)
  {
    "rgb(" + DecString(r) + "," + gap + DecString(g) + "," + gap + DecString(b) + ")"
  }

  predicate AllSpace(s: string)
  {
    forall i :: 0 <= i < |s| ==> IsJsSpace(s[i])
  }

  predicate Lacks(s: string, c: char)
  {
    forall i :: 0 <= i < |s| ==> s[i] != c
  }

  lemma {:induction false} DecStringValue(n: nat)
    ensures DecValue(DecString(n)) == n
    decreases n
  {
    if n >= 10 {
      var s := DecString(n);
      assert s[..|s| - 1] == DecString(n / 10);
      DecStringValue(n / 10);
    }
  }

  lemma {:induction false} SplitWhole(a: string, sep: char)
    requires Lacks(a, sep)
    ensures Split(a, sep) == [a]
  {
    if a != [] {
      SplitWhole(a[1..], sep);
      assert [a[0]] + a[1..] == a;
    }
  }

  lemma {:induction false} SplitFirst(a: string, sep: char, rest: string)
    requires Lacks(a, sep)
    ensures Split(a + [sep] + rest, sep) == [a] + Split(rest, sep)
  {
    if a == [] {
      assert a + [sep] + rest == [sep] + rest;
      assert ([sep] + rest)[1..] == rest;
    } else {
      var s := a + [sep] + rest;
      assert s[1..] == a[1..] + [sep] + rest;
      SplitFirst(a[1..], sep, rest);
      assert [a[0]] + a[1..] == a;
    }
  }

  /** A pattern whose first character does not occur in s is not replaced. */
  lemma {:induction false} ReplaceAbsent(s: string, pat: string, rep: string)
    requires pat != [] && Lacks(s, pat[0])
    ensures ReplaceFirst(s, pat, rep) == s
  {
    if s != [] {
      assert !OccursAt(s, pat, 0) by {
        if |pat| <= |s| { assert s[..|pat|][0] == s[0]; }
      }
      ReplaceAbsent(s[1..], pat, rep);
      assert [s[0]] + s[1..] == s;
    }
  }

  /** The only ")" at the end of a string is removed. */
  lemma {:induction false} ReplaceCloseAtEnd(s: string)
    requires Lacks(s, ')')
    ensures ReplaceFirst(s + ")", ")", "") == s
  {
    var t := s + ")";
    if s == [] {
      assert OccursAt(t, ")", 0);
    } else {
      assert !OccursAt(t, ")", 0) by {
        assert t[..1][0] == s[0];
      }
      assert t[1..] == s[1..] + ")";
      ReplaceCloseAtEnd(s[1..]);
      assert [s[0]] + s[1..] == s;
    }
  }

  lemma {:induction false} TrimSpacesBefore(gap: string, t: string)
    requires AllSpace(gap) && t != [] && !IsJsSpace(t[0])
    ensures TrimStart(gap + t) == t
  {
    if gap == [] {
      assert gap + t == t;
    } else {
      assert (gap + t)[1..] == gap[1..] + t;
      TrimSpacesBefore(gap[1..], t);
    }
  }

  lemma LacksConcat(a: string, b: string, c: char)
    requires Lacks(a, c) && Lacks(b, c)
    ensures Lacks(a + b, c)
  {
    var ab := a + b;
    forall i | 0 <= i < |ab| ensures ab[i] != c {
      if i < |a| { assert ab[i] == a[i]; } else { assert ab[i] == b[i - |a|]; }
    }
  }

  lemma DecStringShape(n: nat)
    ensures Lacks(DecString(n), ',') && Lacks(DecString(n), ')') && Lacks(DecString(n), 'r')
    ensures !IsJsSpace(DecString(n)[0]) && !IsJsSpace(DecString(n)[|DecString(n)| - 1])
    ensures DecString(n)[0] != '-' && DecString(n)[0] != '+'
  {
  }

  /** White space before the digits is trimmed, as Number() does. */
  lemma ParseSpacedDecimal(gap: string, n: nat)
    requires AllSpace(gap)
    ensures ParseInteger(gap + DecString(n)) == Some(n)
  {
    var d := DecString(n);
    DecStringShape(n);
    var s := gap + d;
    assert s[|s| - 1] == d[|d| - 1];
    assert TrimEnd(s) == s;
    TrimSpacesBefore(gap, d);
    DecStringValue(n);
  }

  lemma {:induction false} HexStringLong(n: nat, k: nat)
    requires n >= Pow16(k)
    ensures |HexString(n)| > k
    decreases n
  {
    if k > 0 {
      assert n >= 16;
      assert n / 16 >= Pow16(k - 1);
      HexStringLong(n / 16, k - 1);
    }
  }

  /** Three separator-free parts joined by the separator split back into them. */
  lemma SplitThree(a: string, b: string, c: string, sep: char)
    requires Lacks(a, sep) && Lacks(b, sep) && Lacks(c, sep)
    ensures Split(a + [sep] + (b + [sep] + c), sep) == [a, b, c]
  {
    SplitFirst(a, sep, b + [sep] + c);
    SplitFirst(b, sep, c);
    SplitWhole(c, sep);
  }

  lemma RgbTextJoin(r: nat, g: nat, b: nat, gap: string)
    ensures RgbText(r, g, b, gap)
         == ("rgb(" + DecString(r)) + [','] + ((gap + DecString(g)) + [','] + (gap + DecString(b) + ")"))
  {
  }

  /** The three comma-separated parts of an rgb string. */
  lemma RgbParts(r: nat, g: nat, b: nat, gap: string)
    requires AllSpace(gap)
    ensures Split(RgbText(r, g, b, gap), ',')
         == ["rgb(" + DecString(r), gap + DecString(g), gap + DecString(b) + ")"]
  {
    var dr, dg, db := DecString(r), DecString(g), DecString(b);
    DecStringShape(r);
    DecStringShape(g);
    DecStringShape(b);
    LacksConcat("rgb(", dr, ',');
    LacksConcat(gap, dg, ',');
    LacksConcat(gap, db, ',');
    LacksConcat(gap + db, ")", ',');
    RgbTextJoin(r, g, b, gap);
    SplitThree("rgb(" + dr, gap + dg, gap + db + ")", ',');
  }

  lemma RedComponent(r: nat)
    ensures Component("rgb(" + DecString(r)) == Some(r)
  {
    var A, dr := "rgb(" + DecString(r), DecString(r);
    DecStringShape(r);
    assert OccursAt(A, "rgb(", 0);
    assert A[4..] == dr;
    ReplaceAbsent(dr, ")", "");
    ParseSpacedDecimal("", r);
    assert "" + dr == dr;
  }

  lemma GreenComponent(gap: string, g: nat)
    requires AllSpace(gap)
    ensures Component(gap + DecString(g)) == Some(g)
  {
    var B, dg := gap + DecString(g), DecString(g);
    DecStringShape(g);
    LacksConcat(gap, dg, 'r');
    LacksConcat(gap, dg, ')');
    ReplaceAbsent(B, "rgb(", "");
    ReplaceAbsent(B, ")", "");
    ParseSpacedDecimal(gap, g);
  }

  lemma BlueComponent(gap: string, b: nat)
    requires AllSpace(gap)
    ensures Component(gap + DecString(b) + ")") == Some(b)
  {
    var db := DecString(b);
    var B', C := gap + db, gap + db + ")";
    DecStringShape(b);
    LacksConcat(gap, db, ')');
    LacksConcat(gap, db, 'r');
    LacksConcat(B', ")", 'r');
    ReplaceAbsent(C, "rgb(", "");
    ReplaceCloseAtEnd(B');
    ParseSpacedDecimal(gap, b);
  }

  /** An "rgb" string is split at its commas and the three parts are read as numbers. */
  lemma RgbIsRewritten(r: nat, g: nat, b: nat, gap: string)
    requires AllSpace(gap)
    ensures FormatHex(RgbText(r, g, b, gap))
         == FormatParts(["rgb(" + DecString(r), gap + DecString(g), gap + DecString(b) + ")"])
  {
    var s := RgbText(r, g, b, gap);
    assert OccursAt(s, "rgb", 0);
    IncludesIff(s, "rgb");
    RgbParts(r, g, b, gap);
  }

  lemma RgbPartsValue(r: nat, g: nat, b: nat, gap: string)
    requires AllSpace(gap)
    ensures FormatParts(["rgb(" + DecString(r), gap + DecString(g), gap + DecString(b) + ")"])
         == PadHex(HexString(r * 65536 + g * 256 + b))
  {
    RedComponent(r);
    GreenComponent(gap, g);
    BlueComponent(gap, b);
    PartsOfComponents("rgb(" + DecString(r), gap + DecString(g), gap + DecString(b) + ")", r, g, b);
  }

  lemma PartsOfComponents(a: string, b: string, c: string, x: nat, y: nat, z: nat)
    requires Component(a) == Some(x) && Component(b) == Some(y) && Component(c) == Some(z)
    ensures FormatParts([a, b, c]) == PadHex(HexString(x * 65536 + y * 256 + z))
  {
    var n: int := x * 65536 + y * 256 + z;
    var parts := [a, b, c];
    assert parts[0] == a && parts[1] == b && parts[2] == c;
    assert PackComponents(Component(a), Component(b), Component(c)) == Some(n);
    assert NumberToHex(Some(n)) == HexString(n);
  }

  lemma FormatHexRgbPad(r: nat, g: nat, b: nat, gap: string)
    requires AllSpace(gap)
    ensures FormatHex(RgbText(r, g, b, gap)) == PadHex(HexString(r * 65536 + g * 256 + b))
  {
    RgbIsRewritten(r, g, b, gap);
    RgbPartsValue(r, g, b, gap);
  }

  /** An "rgb(r, g, b)" string: the three components become one hex number,
      written with six digits when it fits and refused with a RangeError when not. */
  lemma FormatHexRgb(r: nat, g: nat, b: nat, gap: string)
    requires AllSpace(gap)
    ensures var n := r * 65536 + g * 256 + b;
      if n < 16777216 then
        |HexString(n)| <= 6 && FormatHex(RgbText(r, g, b, gap)) == Ok("#" + Zeros(6 - |HexString(n)|) + HexString(n))
      else
        FormatHex(RgbText(r, g, b, gap)) == Err(RangeError)
  {
    FormatHexRgbPad(r, g, b, gap);
    var n := r * 65536 + g * 256 + b;
    assert Pow16(6) == 16777216;
    if n < 16777216 {
      HexStringLength(n, 6);
    } else {
      HexStringLong(n, 6);
    }
  }

  /** Read back by the lookup-table code, the "#rrggbb" that _formatHex writes for
      byte components gives the same three bytes, and the same packed integer. */
  lemma FormatHexRoundTrip(r: nat, g: nat, b: nat, gap: string)
    requires r < 256 && g < 256 && b < 256 && AllSpace(gap)
    ensures FormatHex(RgbText(r, g, b, gap)).Ok?
    ensures var s := FormatHex(RgbText(r, g, b, gap)).value;
      WellFormedColor(s)
      && ColorChannel(s, 1) == Some(r) && ColorChannel(s, 3) == Some(g) && ColorChannel(s, 5) == Some(b)
      && PackedColor(s) == Some(r * 65536 + g * 256 + b)
  {
    var n := r * 65536 + g * 256 + b;
    FormatHexBytes(r, g, b, gap);
    PaddedResultRead(FormatHex(RgbText(r, g, b, gap)), n, r, g, b);
  }

  /** For byte components the number fits in six digits. */
  lemma FormatHexBytes(r: nat, g: nat, b: nat, gap: string)
    requires r < 256 && g < 256 && b < 256 && AllSpace(gap)
    ensures var h := HexString(r * 65536 + g * 256 + b);
      |h| <= 6 && FormatHex(RgbText(r, g, b, gap)) == Ok("#" + Zeros(6 - |h|) + h)
  {
    ThreeBytes(r, g, b);
    FormatHexRgb(r, g, b, gap);
  }

  /** PaddedColorRead for the padded string as a result value. */
  lemma PaddedResultRead(x: Result<string>, n: nat, r: nat, g: nat, b: nat)
    requires r < 256 && g < 256 && b < 256 && n == r * 65536 + g * 256 + b
    requires |HexString(n)| <= 6 && x == Ok("#" + Zeros(6 - |HexString(n)|) + HexString(n))
    ensures x.Ok?
    ensures WellFormedColor(x.value)
      && ColorChannel(x.value, 1) == Some(r) && ColorChannel(x.value, 3) == Some(g) && ColorChannel(x.value, 5) == Some(b)
      && PackedColor(x.value) == Some(n)
  {
    var h := HexString(n);
    var p := Zeros(6 - |h|) + h;
    assert x.value == "#" + p;
    PaddedColorRead(n, p, r, g, b);
  }

  lemma ThreeBytes(r: nat, g: nat, b: nat)
    requires r < 256 && g < 256 && b < 256
    ensures r * 65536 + g * 256 + b < 16777216
  {
    assert r * 65536 <= 255 * 65536;
    assert g * 256 <= 255 * 256;
  }

  lemma PaddedColorRead(n: nat, p: string, r: nat, g: nat, b: nat)
    requires r < 256 && g < 256 && b < 256 && n == r * 65536 + g * 256 + b
    requires |HexString(n)| <= 6 && p == Zeros(6 - |HexString(n)|) + HexString(n)
    ensures var s := "#" + p;
      WellFormedColor(s)
      && ColorChannel(s, 1) == Some(r) && ColorChannel(s, 3) == Some(g) && ColorChannel(s, 5) == Some(b)
      && PackedColor(s) == Some(n)
  {
    PaddedColor(n, p);
    var s := "#" + p;
    assert s[1..] == p;
    PackedColorChannels(s);
    assert Substring(s, 1, 7) == p;
    ByteTriple(ColorChannel(s, 1).value, ColorChannel(s, 3).value, ColorChannel(s, 5).value, r, g, b);
  }

  lemma PaddedColor(n: nat, p: string)
    requires |HexString(n)| <= 6 && p == Zeros(6 - |HexString(n)|) + HexString(n)
    ensures |p| == 6 && AllHex(p) && HexValue(p) == n
  {
    ZerosValue(6 - |HexString(n)|, HexString(n));
    HexStringValue(n);
  }
}
