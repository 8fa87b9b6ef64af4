/** Exact interpolation, and why the firmware's 32-bit arithmetic computes it. */
module Interpolation {
  import opened Words
  import opened StreamSession

  /** The joint position `elapsed` after p on the way to n, rounded toward p. */
  function Between(p: int32, n: int32, elapsed: nat, span: nat): (r: int32)
    requires 0 < span && elapsed <= span
    ensures p <= r <= n || n <= r <= p
  {
    TruncBounds(n - p as int, elapsed, span);
    p + TruncDiv((n - p as int) * elapsed, span)
  }

  lemma TruncBounds(d: int, elapsed: nat, span: nat)
    requires 0 < span && elapsed <= span
    ensures d >= 0 ==> 0 <= TruncDiv(d * elapsed, span) <= d
    ensures d <= 0 ==> d <= TruncDiv(d * elapsed, span) <= 0
  {
    var m := Abs(d);
    MulLe(m, elapsed, span);
    MulLe(elapsed, 0, m);
    assert m * elapsed <= span * m;
    QuotientLe(m * elapsed, span, m);
    assert (-d) * elapsed == -(d * elapsed);
  }

  lemma QuotientLe(a: int, b: int, q: int)
    requires 0 < b && 0 <= a <= b * q
    ensures 0 <= a / b <= q
  {
    DivBounds(a, b);
    if a / b > q {
      MulLe(b, q + 1, a / b);
    }
  }

  lemma EndOfSegment(p: int32, n: int32, span: nat)
    requires span > 0
    ensures Between(p, n, span, span) == n
  {
    var d: int := n - p as int;
    if d >= 0 {
      DivUnique(d * span, span, d);
    } else {
      DivUnique(-d * span, span, -d);
      assert (-d) * span == -(d * span);
    }
  }

  /** The share of the way is what the elapsed time earns, with a fraction of a unit dropped: it is within one unit
      of the exact point, on the near side of it, for ever. */
  lemma BetweenIsShare(p: int32, n: int32, elapsed: nat, span: nat)
    requires 0 < span && elapsed <= span
    ensures var gone, due := (Between(p, n, elapsed, span) - p as int) * span, (n - p as int) * elapsed;
      if n >= p then gone <= due < gone + span else gone - span < due <= gone
  {
    var d: int := n - p as int;
    TruncIs(d * elapsed, span);
    MulLe(elapsed, 0, Abs(d));
    assert d < 0 ==> d * elapsed == -(elapsed * -d);
    assert TruncDiv(d * elapsed, span) * span == span * TruncDiv(d * elapsed, span);
  }

  lemma StartOfSegment(p: int32, n: int32, span: nat)
    requires span > 0
    ensures Between(p, n, 0, span) == p
  {
    DivUnique(0, span, 0);
  }

  /** With a 32-bit addition that wraps, the firmware's value is the exact interpolation for any endpoints; while
      the quotient fits 32 bits nothing wraps. */
  lemma LerpIsExact(p: int32, n: int32, elapsed: u32, span: u32)
    requires 0 < span && elapsed <= span
    ensures LerpJoint(p, n, elapsed, span) == Between(p, n, elapsed, span)
  {
    CastTwice(p, TruncDiv((n - p as int) * elapsed, span), Between(p, n, elapsed, span));
  }

  lemma CastTwice(p: int32, q: int, r: int32)
    requires r == p + q
    ensures ToInt32(p + ToInt32(q)) == r
  {
    ModShift(r + TWO31, -((q + TWO31) / TWO32));
  }

  /** No 64-bit product, 32-bit cast or 32-bit sum leaves its range. */
  predicate NoOverflow(p: int32, n: int32, elapsed: u32, span: u32)
    requires 0 < span
  {
    var product := (n - p as int) * elapsed;
    && -0x8000_0000_0000_0000 <= product < 0x8000_0000_0000_0000
    && IsInt32(TruncDiv(product, span)) && IsInt32(p + TruncDiv(product, span))
  }

  /** Endpoints at most 2^31-1 apart keep every intermediate result in range. */
  lemma NarrowSpanNoOverflow(p: int32, n: int32, elapsed: u32, span: u32)
    requires 0 < span && elapsed <= span && Gap(n, p) < TWO31
    ensures NoOverflow(p, n, elapsed, span)
  {
    var d: int := n - p as int;
    TruncBounds(d, elapsed, span);
    MulLe(elapsed, d, 0x7FFF_FFFF);
    MulLe(elapsed, -0x7FFF_FFFF, d);
  }

  /** When the quotient does not fit 32 bits, the wrapped cast does not save the sum: it leaves its range too, which
      C leaves undefined. */
  lemma SumFitsIff(p: int32, n: int32, elapsed: u32, span: u32)
    requires 0 < span && elapsed <= span
    ensures var q := TruncDiv((n - p as int) * elapsed, span);
      IsInt32(p + ToInt32(q)) <==> IsInt32(q)
  {
    SumOfCast(p, TruncDiv((n - p as int) * elapsed, span), Between(p, n, elapsed, span));
  }

  lemma SumOfCast(p: int32, q: int, r: int32)
    requires r == p + q
    ensures IsInt32(p + ToInt32(q)) <==> IsInt32(q)
  {
    assert q >= TWO31 ==> ToInt32(q) == q - TWO32;
    assert q < -TWO31 ==> ToInt32(q) == q + TWO32;
  }
}
