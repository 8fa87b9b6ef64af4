/** Machine words: byte, 16- and 32-bit integers, wrapping tick arithmetic and C's truncating division. */
module Words {

  const TWO31: int := 0x8000_0000
  const TWO32: int := 0x1_0000_0000

  type byte = x: int | 0 <= x < 256
  type u16 = x: int | 0 <= x < 0x1_0000
  type u32 = x: int | 0 <= x < 0x1_0000_0000
  type int32 = x: int | -0x8000_0000 <= x < 0x8000_0000

  predicate IsInt32(x: int) {
    -TWO31 <= x < TWO31
  }

  datatype Option<+T> = None | Some(value: T)

  function Wrap32(x: int): u32 {
    x % TWO32
  }

  /** The cast `(int32_t)x` of a wider value, in two's complement. */
  function ToInt32(x: int): int32 {
    (x + TWO31) % TWO32 - TWO31
  }

  /** The wrapping sum of two 32-bit words. */
  function Add32(a: u32, b: u32): u32 {
    if a + b < TWO32 then a + b else a + b - TWO32
  }

  /** The wrapping difference `a - b` of two ticks. */
  function Diff(a: u32, b: u32): u32 {
    if a >= b then a - b else a - b + TWO32
  }

  /** The cast `(int32_t)x` of a 32-bit word, in two's complement. */
  function Signed(x: u32): int32 {
    if x < TWO31 then x else x - TWO32
  }

  /** `(int32_t)(candidate - reference) > 0`. */
  predicate After(candidate: u32, reference: u32) {
    Signed(Diff(candidate, reference)) > 0
  }

  /** C's integer division by a positive divisor, truncating toward zero. */
  function TruncDiv(a: int, b: int): int
    requires b > 0
  {
    if a >= 0 then a / b else -((-a) / b)
  }

  function Abs(x: int): nat {
    if x < 0 then -x else x
  }

  /** `absolute_difference`: the distance of two positions. */
  function Gap(x: int, y: int): nat {
    Abs(x - y)
  }

  // ---- modular ticks seen from a base tick ----

  /** Time of tick t on the clock that reads 0 at tick b. */
  function Rel(b: u32, t: u32): u32 {
    Diff(t, b)
  }

  /** t lies in the half range of ticks that follows b. */
  predicate InWindow(b: u32, t: u32) {
    Rel(b, t) < TWO31
  }

  /** The piecewise definitions are arithmetic modulo 2^32. */
  lemma WrappingIsModular(a: u32, b: u32)
    ensures Add32(a, b) == Wrap32(a + b) && Diff(a, b) == Wrap32(a - b) && Signed(a) == ToInt32(a)
    ensures After(a, b) <==> 0 < Diff(a, b) < TWO31
  {
  }

  /** Inside one half range the modular tests are the order and the difference of times. */
  lemma WindowOrder(b: u32, x: u32, y: u32)
    requires InWindow(b, x) && InWindow(b, y)
    ensures After(x, y) <==> Rel(b, x) > Rel(b, y)
    ensures Rel(b, x) >= Rel(b, y) ==> Diff(x, y) == Rel(b, x) - Rel(b, y)
    ensures Rel(b, x) < Rel(b, y) ==> Diff(x, y) == TWO32 + Rel(b, x) - Rel(b, y)
    ensures x == y <==> Rel(b, x) == Rel(b, y)
  {
  }

  lemma ModShift(x: int, m: int)
    ensures (x + TWO32 * m) % TWO32 == x % TWO32
  {
  }

  // ---- truncating division ----

  lemma DivBounds(a: int, b: int)
    requires b > 0
    ensures b * (a / b) <= a < b * (a / b) + b
  {
  }

  lemma DivMonotone(x: nat, y: nat, d: int)
    requires d > 0 && x <= y
    ensures x / d <= y / d
  {
    DivBounds(x, d);
    DivBounds(y, d);
    if y / d < x / d { MulLe(d, y / d + 1, x / d); }
  }

  /** Truncation rounds toward zero: the remainder is less than the divisor and has the sign of the dividend. */
  lemma TruncIs(a: int, b: int)
    requires b > 0
    ensures var rest := a - b * TruncDiv(a, b);
      if a >= 0 then 0 <= rest < b && TruncDiv(a, b) >= 0 else -b < rest <= 0 && TruncDiv(a, b) <= 0
  {
    if a >= 0 { ShareIs(a, b, a / b); } else { ShareIs(-a, b, -a / b); }
  }

  lemma ShareIs(n: nat, b: int, q: int)
    requires b > 0 && q == n / b
    ensures 0 <= n - b * q < b && q >= 0 && b * -q == -(b * q)
  {
    DivBounds(n, b);
  }

  /** A quotient lies where its multiples say it does. */
  lemma DivUnique(a: int, b: int, q: int)
    requires b > 0 && b * q <= a < b * q + b
    ensures a / b == q
  {
    var r := a - b * q;
    assert a == b * q + r;
    if a / b < q {
      MulLe(b, a / b + 1, q);
    } else if a / b > q {
      MulLe(b, q + 1, a / b);
    }
  }

  lemma MulLe(b: int, x: int, y: int)
    requires b >= 0 && x <= y
    ensures b * x <= b * y
  {
  }
}
