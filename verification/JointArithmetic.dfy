/** Servo counts and micro-radians: rounding division, the conversions and what they lose. */
module JointArithmetic {
  import opened Words

  const RAW_PER_TURN: int := 4096
  const TURN_URAD: int := 6283185

  /** Division by a positive number, rounded to the nearest and halves away from zero. */
  function RoundDivide(numerator: int, denominator: int): int
    requires denominator > 0
  {
    if numerator >= 0 then (numerator + denominator / 2) / denominator
    else -((-numerator + denominator / 2) / denominator)
  }

  /** Micro-radians of a displacement in counts, and counts of a displacement in micro-radians. */
  function ToUrad(counts: int): int {
    RoundDivide(counts * TURN_URAD, RAW_PER_TURN)
  }

  function ToCounts(urad: int): int {
    RoundDivide(urad * RAW_PER_TURN, TURN_URAD)
  }

  /** Rounding errs by at most half a unit. */
  lemma RoundingError(n: int, d: int)
    requires d > 0
    ensures -d <= 2 * (d * RoundDivide(n, d) - n) <= d
  {
    DivBounds(Abs(n) + d / 2, d);
    var q := RoundDivide(Abs(n), d);
    assert d * -q == -(d * q);
  }

  /** The integer within less than half a unit of a quotient is what rounding finds. */
  lemma RoundsTo(n: int, d: int, q: int)
    requires d > 0 && -d < 2 * (d * q - n) < d
    ensures RoundDivide(n, d) == q
  {
    if n >= 0 {
      assert d * q > -d by { MulLe(d, 0, 1); }
      DivUnique(n + d / 2, d, q);
    } else {
      assert d * -q == -(d * q);
      DivUnique(-n + d / 2, d, -q);
    }
  }

  /** q is as near to n / d as an integer can be, and of two equally near it is the one further from zero. */
  predicate Nearest(n: int, d: int, q: int) {
    var error := d * q - n;
    -d < 2 * error < d || (2 * error == d && n >= 0) || (2 * error == -d && n <= 0)
  }

  /** Rounding finds the nearest integer, halves away from zero, and nothing else. */
  lemma RoundsIff(n: int, d: int, q: int)
    requires d > 0
    ensures RoundDivide(n, d) == q <==> Nearest(n, d, q)
  {
    RoundedIsNearest(n, d, RoundDivide(n, d));
    if Nearest(n, d, q) { NearestIsOne(n, d, q, RoundDivide(n, d)); }
  }

  lemma RoundedIsNearest(n: int, d: int, q: int)
    requires d > 0 && q == RoundDivide(n, d)
    ensures Nearest(n, d, q)
  {
    DivBounds(Abs(n) + d / 2, d);
    assert n < 0 ==> d * q == -(d * -q);
  }

  lemma NearestIsOne(n: int, d: int, p: int, q: int)
    requires d > 0 && Nearest(n, d, p) && Nearest(n, d, q)
    ensures p == q
  {
    assert d * p - d * q == d * (p - q);
    if p > q { MulLe(d, 1, p - q); } else if p < q { MulLe(d, p - q, -1); }
  }

  /** A turn is 4096 counts and 6283185 micro-radians, and both conversions round to the nearest. */
  lemma ConversionsAreNearest(counts: int, urad: int, x: int)
    ensures ToUrad(counts) == x <==> Nearest(counts * 6283185, 4096, x)
    ensures ToCounts(urad) == x <==> Nearest(urad * 4096, 6283185, x)
  {
    RoundsIff(counts * TURN_URAD, RAW_PER_TURN, x);
    RoundsIff(urad * RAW_PER_TURN, TURN_URAD, x);
  }

  lemma RoundMonotone(m: int, n: int, d: int)
    requires d > 0 && m <= n
    ensures RoundDivide(m, d) <= RoundDivide(n, d)
  {
    if 0 <= m {
      DivMonotone(m + d / 2, n + d / 2, d);
    } else if n < 0 {
      DivMonotone(-n + d / 2, -m + d / 2, d);
    } else {
      DivNonnegative(n + d / 2, d);
      DivNonnegative(-m + d / 2, d);
    }
  }

  lemma DivNonnegative(x: nat, d: int)
    requires d > 0
    ensures 0 <= x / d
  {
  }

  /** Counts survive the trip through micro-radians. */
  lemma CountsRoundTrip(counts: int)
    ensures ToCounts(ToUrad(counts)) == counts
  {
    RoundingError(counts * TURN_URAD, RAW_PER_TURN);
    RoundsTo(ToUrad(counts) * RAW_PER_TURN, TURN_URAD, counts);
  }

  /** Micro-radians come back at most 767 away: half a count, rounded. */
  lemma UradRoundTrip(urad: int)
    ensures Abs(ToUrad(ToCounts(urad)) - urad) <= 767
  {
    RoundingError(urad * RAW_PER_TURN, TURN_URAD);
    RoundingError(ToCounts(urad) * TURN_URAD, RAW_PER_TURN);
  }

  /** The bound is reached. */
  lemma UradErrorIsTight()
    ensures ToUrad(ToCounts(767)) == 1534
  {
  }

  lemma ConversionsMonotone(x: int, y: int)
    requires x <= y
    ensures ToUrad(x) <= ToUrad(y) && ToCounts(x) <= ToCounts(y)
  {
    RoundMonotone(x * TURN_URAD, y * TURN_URAD, RAW_PER_TURN);
    RoundMonotone(x * RAW_PER_TURN, y * RAW_PER_TURN, TURN_URAD);
  }
}
