/** The parts of Kotlin's value semantics that the player's arithmetic relies on:
    nullable values, the 32-bit `Int`, `Float.toInt()` and the special results of
    floating-point division. Floats are modelled by exact reals; rounding is not
    modelled. */
module Kotlin {

  /** A Kotlin nullable value `T?`: `None` stands for `null`. */
  datatype Option<+T> = None | Some(value: T)

  const IntMin: int := -0x8000_0000
  const IntMax: int := 0x7fff_ffff

  /** Kotlin's `Int`. */
  type Int32 = x: int | IntMin <= x <= IntMax

  /** Truncation of an exact real toward zero. */
  function Trunc(v: real): (r: int)
    ensures 0.0 <= v ==> 0 <= r && r as real <= v < r as real + 1.0
    ensures v <= 0.0 ==> r <= 0 && r as real - 1.0 < v <= r as real
  {
    if v >= 0.0 then v.Floor else -((-v).Floor)
  }

  /** `Float.toInt()` on a finite value: truncation toward zero, saturating at the
      bounds of `Int`. */
  function FloatToInt(v: real): (r: Int32)
    ensures 0.0 <= v ==> 0 <= r && r as real <= v
    ensures 0.0 <= v < IntMax as real + 1.0 ==> v < r as real + 1.0
    ensures v <= 0.0 ==> r <= 0 && v <= r as real
    ensures IntMin as real - 1.0 < v <= 0.0 ==> r as real - 1.0 < v
    ensures v >= IntMax as real + 1.0 ==> r == IntMax
    ensures v <= IntMin as real - 1.0 ==> r == IntMin
  {
    var t := Trunc(v);
    if t > IntMax then IntMax else if t < IntMin then IntMin else t
  }

  /** An integer that already fits in `Int` survives the conversion to `Float` and back. */
  lemma FloatToIntOfInt(n: Int32)
    ensures FloatToInt(n as real) == n
  {
  }

  /** The result of a floating-point operation: a finite value, an infinity, or NaN.
      Signed zeros are not distinguished. */
  datatype FloatValue = Finite(value: real) | PosInfinity | NegInfinity | NaN

  /** IEEE 754 division `a / b` where `b` comes from an `Int` (so a zero divisor is +0). */
  function Divide(a: real, b: real): (r: FloatValue)
    ensures r.Finite? <==> b != 0.0
    ensures r.Finite? ==> r.value * b == a
    ensures r == NaN <==> a == 0.0 && b == 0.0
    ensures r == PosInfinity <==> a > 0.0 && b == 0.0
  {
    if b != 0.0 then Finite(a / b)
    else if a > 0.0 then PosInfinity
    else if a < 0.0 then NegInfinity
    else NaN
  }

  /** Multiplication of a float by a positive finite constant `k`. */
  function Scale(k: real, x: FloatValue): (r: FloatValue)
    requires k > 0.0
    ensures r.Finite? <==> x.Finite?
    ensures x.Finite? ==> r.value / k == x.value
    ensures !x.Finite? ==> r == x
  {
    match x
    case Finite(v) => Finite(k * v)
    case _ => x
  }

  /** The comparison `b < x` of a finite value with a float: false when `x` is NaN. */
  predicate Below(b: real, x: FloatValue)
    ensures x.Finite? ==> (Below(b, x) <==> b < x.value)
    ensures x == PosInfinity ==> Below(b, x)
    ensures x == NaN || x == NegInfinity ==> !Below(b, x)
  {
    match x
    case Finite(v) => b < v
    case PosInfinity => true
    case NegInfinity => false
    case NaN => false
  }

  /** What is above a value is above every smaller one. */
  lemma BelowDownward(b: real, c: real, x: FloatValue)
    requires c <= b && Below(b, x)
    ensures Below(c, x)
  {
  }
}
