// JavaScript number and value semantics that the maze code relies on.
//
// JavaScript numbers are doubles; the model uses exact `real`s for the
// float-valued quantities and `int` for the integer-valued ones, and writes
// out the conversions the bit operators perform: `~~x` and `x >> k` first
// truncate toward zero and wrap to a signed 32-bit value, `x << k` wraps the
// shifted value again, and `%` keeps the sign of its left operand.
module Js {

  datatype Option<T> = None | Some(value: T)

  /** The two kinds of exception the code can raise. */
  datatype JsError = ReferenceError | TypeError

  /** The outcome of a call that may throw. */
  datatype Outcome<T> = Returns(value: T) | Throws(error: JsError)

  const TWO31: int := 0x8000_0000
  const TWO32: int := 0x1_0000_0000

  /** Number.MAX_VALUE, the largest finite double, (2^53 - 1) * 2^971. */
  const MaxValue: real := 179769313486231570814527423731704356798070567525844996598917476803157260780028538760589558632766878171540458953514382464234321326889464182768467546703537516986049910576551282076245490090389328944075868508455133942304583236903222948165808559332123348274797826204144723168738177180919299881250404026184124858368.0

  function Pow2(k: nat): (r: nat)
    ensures r >= 1
  {
    if k == 0 then 1 else 2 * Pow2(k - 1)
  }

  predicate IsInt32(x: int) { -TWO31 <= x < TWO31 }

  /** ECMAScript ToInt32 of an integral value: reduce modulo 2^32 into [-2^31, 2^31). */
  function ToInt32(x: int): (r: int)
    ensures IsInt32(r)
    ensures IsInt32(x) ==> r == x
  {
    var m := x % TWO32;
    if m >= TWO31 then m - TWO32 else m
  }

  /** ToInt32 changes its argument by a whole multiple of 2^32. */
  lemma ToInt32Wraps(x: int)
    ensures (x - ToInt32(x)) % TWO32 == 0
  {
  }

  /** Math.trunc: the integer part, rounding toward zero. */
  function Trunc(x: real): (r: int)
    ensures 0.0 <= x ==> 0 <= r && r as real <= x < r as real + 1.0
    ensures x < 0.0 ==> r <= 0 && r as real - 1.0 < x <= r as real
  {
    if x >= 0.0 then x.Floor else -((-x).Floor)
  }

  /** `~~x`: truncate toward zero, then ToInt32. */
  function Tilde(x: real): (r: int)
    ensures IsInt32(r)
    ensures IsInt32(Trunc(x)) ==> r == Trunc(x)
  {
    ToInt32(Trunc(x))
  }

  /** The shift count a shift operator uses: `k & 31`. */
  function ShiftCount(k: int): (n: nat)
    ensures n < 32
    ensures 0 <= k < 32 ==> n == k
  {
    k % 32
  }

  /** `x >> k` for an integral x: an arithmetic (flooring) shift of ToInt32(x) by `k & 31`. */
  function Sar(x: int, k: int): (r: int)
    ensures IsInt32(r)
  {
    Pow2Bound(ShiftCount(k));
    ToInt32(x) / Pow2(ShiftCount(k))
  }

  /** `x >> k` is ToInt32(x) divided by 2^(k & 31), rounded down. */
  lemma SarFloors(x: int, k: int)
    ensures var q := ToInt32(x) / Pow2(ShiftCount(k));
      q * Pow2(ShiftCount(k)) <= ToInt32(x) < q * Pow2(ShiftCount(k)) + Pow2(ShiftCount(k))
  {
  }

  /** The bounds a right shift leaves: the quotient's multiple of 2^(k & 31) is at most ToInt32(x), and the next one above it. */
  lemma SarBounds(x: int, k: int)
    ensures var r := Sar(x, k);
      r * Pow2(ShiftCount(k)) <= ToInt32(x) < r * Pow2(ShiftCount(k)) + Pow2(ShiftCount(k))
  {
    SarFloors(x, k);
  }

  /** `x >> k` for any number x: ToInt32 truncates first. */
  function SarReal(x: real, k: int): (r: int)
    ensures IsInt32(r)
  {
    Sar(Trunc(x), k)
  }

  /** A non-negative x below 2^31 shifted right by 0..31 is its floor divided by 2^k. */
  lemma SarRealOfNonNegative(x: real, k: int)
    requires 0.0 <= x < TWO31 as real && 0 <= k < 32
    ensures SarReal(x, k) == x.Floor / Pow2(k) && 0 <= SarReal(x, k)
  {
    SarOfNonNegative(Trunc(x), k);
  }

  /** On a non-negative 32-bit value, `>> k` for k in 0..31 is division by 2^k. */
  lemma SarOfNonNegative(t: int, k: int)
    requires 0 <= t < TWO31 && 0 <= k < 32
    ensures Sar(t, k) == t / Pow2(k) && 0 <= t / Pow2(k)
  {
    assert ToInt32(t) == t && ShiftCount(k) == k;
    QuotientNonNegative(t, Pow2(k));
  }

  lemma QuotientNonNegative(a: int, b: int)
    requires 0 <= a && 1 <= b
    ensures 0 <= a / b <= a
  {
  }

  /** `x << k` for an integral x: the shifted ToInt32(x), wrapped again. */
  function Shl(x: int, k: int): (r: int)
    ensures IsInt32(r)
  {
    ToInt32(ToInt32(x) * Pow2(ShiftCount(k)))
  }

  /** A left shift whose product stays in 32 bits is multiplication by 2^(k & 31). */
  lemma ShlMultiplies(x: int, k: int)
    ensures IsInt32(ToInt32(x) * Pow2(ShiftCount(k))) ==> Shl(x, k) == ToInt32(x) * Pow2(ShiftCount(k))
  {
  }

  /** `a % b` on integral numbers with b != 0: the remainder of truncating division. */
  function Rem(a: int, b: int): (r: int)
    requires b != 0
    ensures 0 <= a ==> 0 <= r < if b > 0 then b else -b
    ensures a < 0 ==> -(if b > 0 then b else -b) < r <= 0
  {
    var m := if b > 0 then b else -b;
    if a >= 0 then a % m else -((-a) % m)
  }

  /**
   * `a / b` on finite numbers. JavaScript gives an infinity or NaN when b is
   * zero; the model has no infinities and gives 0 instead.
   */
  function Div(a: real, b: real): (r: real)
    ensures b == 0.0 ==> r == 0.0
  {
    if b == 0.0 then 0.0 else a / b
  }

  lemma Pow2Bound(k: nat)
    requires k < 32
    ensures Pow2(k) <= TWO31
  {
    Pow2Monotone(k, 31);
    Pow2ThirtyOne();
  }

  lemma Pow2ThirtyOne()
    ensures Pow2(31) == TWO31
  {
    assert Pow2(1) == 2; assert Pow2(2) == 4; assert Pow2(3) == 8; assert Pow2(4) == 16; assert Pow2(5) == 32; assert Pow2(6) == 64; assert Pow2(7) == 128; assert Pow2(8) == 256; assert Pow2(9) == 512; assert Pow2(10) == 1024; assert Pow2(11) == 2048; assert Pow2(12) == 4096; assert Pow2(13) == 8192; assert Pow2(14) == 16384; assert Pow2(15) == 32768; assert Pow2(16) == 65536; assert Pow2(17) == 131072; assert Pow2(18) == 262144; assert Pow2(19) == 524288; assert Pow2(20) == 1048576; assert Pow2(21) == 2097152; assert Pow2(22) == 4194304; assert Pow2(23) == 8388608; assert Pow2(24) == 16777216; assert Pow2(25) == 33554432; assert Pow2(26) == 67108864; assert Pow2(27) == 134217728; assert Pow2(28) == 268435456; assert Pow2(29) == 536870912; assert Pow2(30) == 1073741824; assert Pow2(31) == 2147483648;
  }

  lemma {:induction false} Pow2Monotone(j: nat, k: nat)
    requires j <= k
    ensures Pow2(j) <= Pow2(k)
  {
    if j < k { Pow2Monotone(j, k - 1); }
  }

  /** The shift amounts the maze uses. */
  lemma Pow2Values()
    ensures Pow2(3) == 8 && Pow2(6) == 64
  {
  }

  /** On non-negative 32-bit values `>> 6` is division by 64 and `<< 6` multiplication by 64. */
  lemma {:induction false} ShiftBySixFacts(x: int)
    ensures Sar(x, 6) == ToInt32(x) / 64
    ensures -0x200_0000 <= x < 0x200_0000 ==> Shl(x, 6) == x * 64
  {
    Pow2Values();
    SarBounds(x, 6);
    ShlMultiplies(x, 6);
  }

  // A JavaScript number that may be NaN is an Option<int>: None is NaN.

  /** `a + b` where either may be NaN: NaN in, NaN out. */
  function NumAdd(a: Option<int>, b: Option<int>): (r: Option<int>)
    ensures r.Some? <==> a.Some? && b.Some?
    ensures r.Some? ==> r.value == a.value + b.value
  {
    if a.Some? && b.Some? then Some(a.value + b.value) else None
  }

  /** `a > b` where a may be NaN: every comparison with NaN is false. */
  predicate NumGreater(a: Option<int>, b: int) {
    a.Some? && a.value > b
  }

  /** A JavaScript value read from a possibly shorter array: `undefined` past the end. */
  function At<T>(s: seq<T>, i: int): (r: Option<T>)
    ensures (0 <= i < |s|) <==> r.Some?
    ensures r.Some? ==> r.value == s[i]
  {
    if 0 <= i < |s| then Some(s[i]) else None
  }
}
