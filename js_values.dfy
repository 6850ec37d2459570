/** The few JavaScript value semantics the marker layer depends on: numbers that
    may be NaN, Math.min/Math.max, division by an image dimension, the conversion
    a Uint8Array applies to each element, and String.prototype.substring/includes. */
module JsValues {

  /** A JavaScript number as the marker layer produces it: finite or NaN.
      Infinities never arise from the inputs this model accepts. */
  datatype JsNum = Fin(v: real) | NaN

  datatype Option<T> = None | Some(value: T)

  /** The exceptions the source can raise on malformed inputs. */
  datatype JsError = TypeError | RangeError

  /** How a method that returns nothing ended: normally, or by throwing. */
  datatype Status = Completed | Threw(error: JsError)

  /** A value, or the exception that was thrown instead. */
  datatype Result<T> = Ok(value: T) | Err(error: JsError)

  /** The number a JavaScript conversion gives for an integer, or NaN. */
  function OfInt(n: Option<int>): (r: JsNum)
    ensures r.Fin? <==> n.Some?
    ensures n.Some? ==> r.v == n.value as real
  {
    match n
    case None => NaN
    case Some(k) => Fin(k as real)
  }

  /** Math.min of two numbers: NaN as soon as one of them is NaN. */
  function Min(a: JsNum, b: JsNum): (r: JsNum)
    ensures r.NaN? <==> a.NaN? || b.NaN?
    ensures r.Fin? ==> r.v <= a.v && r.v <= b.v && (r.v == a.v || r.v == b.v)
  {
    if a.NaN? || b.NaN? then NaN else if a.v <= b.v then a else b
  }

  /** Math.max of two numbers: NaN as soon as one of them is NaN. */
  function Max(a: JsNum, b: JsNum): (r: JsNum)
    ensures r.NaN? <==> a.NaN? || b.NaN?
    ensures r.Fin? ==> a.v <= r.v && b.v <= r.v && (r.v == a.v || r.v == b.v)
  {
    if a.NaN? || b.NaN? then NaN else if a.v >= b.v then a else b
  }

  /** `a / d` for a non-zero divisor (an image dimension or a constant). */
  function Div(a: JsNum, d: real): (r: JsNum)
    requires d != 0.0
    ensures r.NaN? <==> a.NaN?
    ensures r.Fin? ==> r.v * d == a.v
  {
    if a.NaN? then NaN else Fin(a.v / d)
  }

  /** `a + k` for a finite constant k. */
  function Plus(a: JsNum, k: real): (r: JsNum)
    ensures r.NaN? <==> a.NaN?
    ensures r.Fin? ==> r.v == a.v + k
  {
    if a.NaN? then NaN else Fin(a.v + k)
  }

  /** `a * k` for a finite constant k. */
  function Scale(a: JsNum, k: real): (r: JsNum)
    ensures r.NaN? <==> a.NaN?
    ensures r.Fin? ==> r.v == a.v * k
  {
    if a.NaN? then NaN else Fin(a.v * k)
  }

  /** Truncation toward zero, as ToInt32/ToUint8 apply before wrapping. */
  function Trunc(x: real): (r: int)
    ensures x >= 0.0 ==> r as real <= x < r as real + 1.0
    ensures x < 0.0 ==> r as real - 1.0 < x <= r as real
  {
    if x >= 0.0 then x.Floor else -((-x).Floor)
  }

  /** The value a Uint8Array stores for an element: NaN (and a hole) become 0,
      anything else is truncated and wrapped modulo 256. */
  function ToUint8(x: JsNum): (r: int)
    ensures 0 <= r < 256
    ensures x.Fin? && x.v == x.v.Floor as real && 0.0 <= x.v < 256.0 ==> r as real == x.v
  {
    if x.NaN? then 0 else Trunc(x.v) % 256
  }

  /** String.prototype.substring: both ends clamped to [0, |s|], swapped when reversed. */
  function Substring(s: string, start: int, end: int): (r: string)
    ensures 0 <= start <= end <= |s| ==> r == s[start..end]
    ensures |r| <= |s|
  {
    var a := if start < 0 then 0 else if start > |s| then |s| else start;
    var b := if end < 0 then 0 else if end > |s| then |s| else end;
    if a <= b then s[a..b] else s[b..a]
  }

  /** True when `sub` occurs at position i of s. */
  predicate OccursAt(s: string, sub: string, i: nat)
  {
    i + |sub| <= |s| && s[i..i + |sub|] == sub
  }

  /** String.prototype.includes. */
  function Includes(s: string, sub: string): (b: bool)
    decreases |s|
  {
    if |sub| <= |s| && s[..|sub|] == sub then true
    else if s == [] then false
    else Includes(s[1..], sub)
  }

  /** includes is true exactly when the string occurs somewhere. */
  lemma {:induction false} IncludesIff(s: string, sub: string)
    ensures Includes(s, sub) <==> exists i: nat :: OccursAt(s, sub, i)
    decreases |s|
  {
    if |sub| <= |s| && s[..|sub|] == sub {
      assert OccursAt(s, sub, 0);
    } else if s == [] {
      assert forall i: nat :: !OccursAt(s, sub, i);
    } else {
      IncludesIff(s[1..], sub);
      assert forall i: nat :: OccursAt(s[1..], sub, i) <==> OccursAt(s, sub, i + 1) by {
        forall i: nat ensures OccursAt(s[1..], sub, i) <==> OccursAt(s, sub, i + 1) {
          if i + |sub| <= |s[1..]| { assert s[1..][i..i + |sub|] == s[i + 1..i + 1 + |sub|]; }
        }
      }
      assert !OccursAt(s, sub, 0);
      assert forall i: nat :: OccursAt(s, sub, i) ==> i >= 1 && OccursAt(s[1..], sub, i - 1);
    }
  }
}
