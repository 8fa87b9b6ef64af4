/** How fast the path through queued samples is: the checks of the contract, and what a splice adds to them. */
module PathRate {
  import opened Words
  import opened StreamContract
  import opened StreamSession
  import opened StreamExecutor
  import opened Interpolation
  import opened Timeline
  import opened Schedule
  import Coasting

  /** What rounding to control ticks can add to a span, in milliseconds: nothing if all samples lie on the grid
      (`whole`), and otherwise up to four between a sample on the grid and a later one. Before the first splice
      there is nothing to add between two samples on the grid. */
  function Slack(tx: nat, ty: nat, k: nat, whole: bool): nat {
    if whole || tx % TICK_MS != 0 || (k == 0 && ty % TICK_MS == 0) then 0 else TICK_MS - 1
  }

  /** After k splices the way from x to y is within the step rate, but for k steps and the slack. */
  predicate Rate(b: u32, x: Sample, y: Sample, step: Pose, k: nat, whole: bool) {
    var tx, ty := Time(b, x), Time(b, y);
    && tx < ty && (whole ==> tx % TICK_MS == 0 && ty % TICK_MS == 0)
    && forall j :: 0 <= j < 12 ==>
         InRate(Gap(y.position[j], x.position[j]), step[j], ty - tx, k, Slack(tx, ty, k, whole))
  }

  /** A move within the rate of a span, with k further steps and some slack. */
  predicate InRate(gap: nat, step: int, span: nat, k: nat, slack: nat) {
    TICK_MS * gap <= step * (span + TICK_MS * k + slack)
  }

  /** A move within the rate of so many milliseconds, rounded up. */
  predicate Within(gap: nat, step: int, span: nat) {
    TICK_MS * gap < step * span + TICK_MS
  }

  predicate MoveWithin(from: Pose, to: Pose, step: Pose, span: nat) {
    forall j :: 0 <= j < 12 ==> Within(Gap(to[j], from[j]), step[j], span)
  }

  predicate Rates(b: u32, q: seq<Sample>, step: Pose, k: nat, whole: bool) {
    forall i :: 1 <= i < |q| ==> Rate(b, q[i - 1], q[i], step, k, whole)
  }

  predicate Moving(step: Pose) {
    forall j :: 0 <= j < 12 ==> step[j] > 0
  }

  // ---- arithmetic of one segment ----

  /** Points of a segment whose exact distance is within a rate are within it, rounded up, once truncated. */
  lemma TruncStep(d: int, e1: nat, e2: nat, span: nat, step: nat, ms: nat)
    requires 0 < span && e1 <= e2 && TICK_MS * (Abs(d) * (e2 - e1)) <= step * ms * span
    ensures Within(Gap(TruncDiv(d * e2, span), TruncDiv(d * e1, span)), step, ms)
  {
    var m := Abs(d);
    assert m * e2 == m * e1 + m * (e2 - e1);
    MulLe(m, e1, e2);
    MulLe(m, 0, e1);
    FloorStep(m * e1, m * e2, span, step * ms);
    TruncOf(d, e1, m * e1, span);
    TruncOf(d, e2, m * e2, span);
  }

  /** Truncation goes by the size of the product. */
  lemma TruncOf(d: int, e: nat, product: int, span: nat)
    requires 0 < span && product == Abs(d) * e && 0 <= product
    ensures TruncDiv(d * e, span) == if d >= 0 then product / span else -(product / span)
  {
    assert d < 0 ==> d * e == -product;
  }

  lemma FloorStep(x: nat, y: nat, span: nat, rate: nat)
    requires 0 < span && x <= y && TICK_MS * (y - x) <= rate * span
    ensures 0 <= y / span - x / span && TICK_MS * (y / span - x / span) < rate + TICK_MS
  {
    DivBounds(x, span);
    DivBounds(y, span);
    DivMonotone(x, y, span);
    var n := y / span - x / span;
    assert span * n == span * (y / span) - span * (x / span);
    FloorRate(n, span, y - x, rate);
  }

  lemma FloorRate(n: nat, span: nat, apart: nat, rate: nat)
    requires 0 < span && span * n < apart + span && TICK_MS * apart <= rate * span
    ensures TICK_MS * n < rate + TICK_MS
  {
    assert span * (TICK_MS * n) == TICK_MS * (span * n);
    assert span * (rate + TICK_MS) == rate * span + TICK_MS * span;
    if TICK_MS * n >= rate + TICK_MS { MulLe(span, rate + TICK_MS, TICK_MS * n); }
  }

  /** Numbers at most m spans apart truncate to quotients at most m apart. */
  lemma TruncApart(x: int, y: int, span: nat, m: nat)
    requires 0 < span && x <= y <= x + m * span
    ensures 0 <= TruncDiv(y, span) - TruncDiv(x, span) <= m
  {
    if x >= 0 {
      QuotientsApart(x, y, span, m);
    } else if y < 0 {
      QuotientsApart(-y, -x, span, m);
    } else {
      TruncAround(-x, y, span, m);
    }
  }

  lemma QuotientsApart(x: nat, y: nat, span: nat, m: nat)
    requires 0 < span && x <= y <= x + m * span
    ensures 0 <= y / span - x / span <= m
  {
    assert TICK_MS * m * span == TICK_MS * (m * span);
    FloorStep(x, y, span, TICK_MS * m);
  }

  lemma TruncAround(x: nat, y: nat, span: nat, m: nat)
    requires 0 < span && x + y <= m * span
    ensures 0 <= y / span && 0 <= x / span && y / span + x / span <= m
  {
    DivBounds(x, span);
    DivBounds(y, span);
    DivSign(x, span);
    DivSign(y, span);
    SumWithin(y / span, x / span, span, m);
  }

  lemma SumWithin(a: nat, c: nat, span: nat, m: nat)
    requires 0 < span && span * a + span * c <= m * span
    ensures a + c <= m
  {
    assert span * (a + c) == span * a + span * c;
    Cancel(span, a + c, m);
  }

  lemma Cancel(n: nat, a: int, c: int)
    requires n > 0 && n * a <= n * c
    ensures a <= c
  {
    if a > c { MulLe(n, c + 1, a); }
  }

  lemma DivSign(x: nat, span: nat)
    requires span > 0
    ensures x / span >= 0
  {
  }

  /** A mix begins at its first pose and ends at its second. */
  lemma MixEnds(x: Pose, y: Pose, span: nat)
    requires span > 0
    ensures Mix(x, y, 0, span) == x && Mix(x, y, span, span) == y
  {
    forall j | 0 <= j < 12 ensures Mix(x, y, 0, span)[j] == x[j] && Mix(x, y, span, span)[j] == y[j] {
      EndOfSegment(x[j], y[j], span);
    }
  }

  lemma SegmentEnds(b: u32, x: Sample, y: Sample)
    requires Time(b, x) < Time(b, y)
    ensures Segment(b, x, y, Time(b, y)) == y.position
  {
    MixEnds(x.position, y.position, Time(b, y) - Time(b, x));
  }

  /** What a move may cover, in milliseconds of the rate: the control tick if both samples lie on the grid, and
      otherwise the nine milliseconds a segment may have run when its first point is output; and one tick more for
      each splice. */
  function Cover(tx: nat, ty: nat, k: nat, whole: bool): nat {
    TICK_MS * k
    + if whole || (k == 0 && tx % TICK_MS == 0 && ty % TICK_MS == 0) then TICK_MS else 2 * TICK_MS - 1
  }

  /** A move of at most nine milliseconds along a segment, of at most five if there is slack or the ends lie on
      the grid. */
  lemma MoveInRate(d: int, e1: nat, e2: nat, span: nat, step: nat, k: nat, slack: nat, base: nat)
    requires 0 < span && e1 <= e2 <= span && InRate(Abs(d), step, span, k, slack)
    requires base == TICK_MS || base == 2 * TICK_MS - 1
    requires slack < TICK_MS && e2 - e1 <= base && (base == TICK_MS ==> slack == 0)
    requires e2 - e1 <= TICK_MS || slack == 0
    ensures Within(Gap(TruncDiv(d * e2, span), TruncDiv(d * e1, span)), step, TICK_MS * k + base)
  {
    var g := e2 - e1;
    MoveShare(g, span, k, slack, base);
    MulLe(step, (span + TICK_MS * k + slack) * g, (TICK_MS * k + base) * span);
    MulLe(g, TICK_MS * Abs(d), step * (span + TICK_MS * k + slack));
    Reorder(Abs(d), g, step, span + TICK_MS * k + slack, TICK_MS * k + base, span);
    TruncStep(d, e1, e2, span, step, TICK_MS * k + base);
  }

  lemma MoveShare(g: nat, span: nat, k: nat, slack: nat, base: nat)
    requires g <= span && slack < TICK_MS && (base == TICK_MS || base == 2 * TICK_MS - 1)
    requires g <= base && (base == TICK_MS ==> slack == 0) && (g <= TICK_MS || slack == 0)
    ensures (span + TICK_MS * k + slack) * g <= (TICK_MS * k + base) * span
  {
    MulLe(TICK_MS * k, g, span);
    Expand(span, TICK_MS * k, slack, g);
    Expand(0, TICK_MS * k, base, span);
    if slack == 0 { MulLe(span, g, base); } else { MulLe(span, g, TICK_MS); }
    MulLe(slack, g, span);
    MulLe(span, slack, TICK_MS - 1);
  }

  lemma Expand(a: nat, c: nat, d: nat, g: nat)
    ensures (a + c + d) * g == a * g + c * g + d * g
  {
  }

  lemma Reorder(m: nat, g: nat, step: nat, rate: nat, ms: nat, span: nat)
    requires g * (TICK_MS * m) <= g * (step * rate) && step * (rate * g) <= step * (ms * span)
    ensures TICK_MS * (m * g) <= step * ms * span
  {
    Times(g, step, rate);
    Times(step, rate, g);
    Times(step, ms, span);
    Times(g, TICK_MS, m);
    assert rate * g == g * rate;
  }

  /** Two points of a segment in rate. */
  lemma MixMove(b: u32, x: Sample, y: Sample, e1: nat, e2: nat, step: Pose, k: nat, whole: bool, joint: nat)
    requires Rate(b, x, y, step, k, whole) && joint < 12 && step[joint] >= 0
    requires e1 <= e2 <= Time(b, y) - Time(b, x) && e2 - e1 <= 9
    requires e2 - e1 <= 5 || Time(b, x) % TICK_MS != 0
    ensures var span := Time(b, y) - Time(b, x);
      Within(Gap(Mix(x.position, y.position, e2, span)[joint], Mix(x.position, y.position, e1, span)[joint]),
             step[joint], Cover(Time(b, x), Time(b, y), k, whole))
  {
    var tx, ty := Time(b, x), Time(b, y);
    MoveInRate(y.position[joint] - x.position[joint] as int, e1, e2, ty - tx, step[joint], k,
               Slack(tx, ty, k, whole), Cover(tx, ty, k, whole) - TICK_MS * k);
  }

  // ---- batches ----

  /** Neighbours in a batch, and a batch and the tail it follows, are in rate. */
  lemma ContinuousRate(b: u32, x: Sample, y: Sample, step: Pose, k: nat, whole: bool)
    requires InWindow(b, x.tick) && InWindow(b, y.tick) && After(y.tick, x.tick) && Continuous(x, y, step)
    requires Moving(step) && (whole ==> Time(b, x) % TICK_MS == 0 && Time(b, y) % TICK_MS == 0)
    ensures Rate(b, x, y, step, k, whole)
  {
    WindowOrder(b, y.tick, x.tick);
    var span := Diff(y.tick, x.tick);
    forall j | 0 <= j < 12
      ensures InRate(Gap(y.position[j], x.position[j]), step[j], span, k, Slack(Time(b, x), Time(b, y), k, whole))
    {
      WholeSpan(Gap(y.position[j], x.position[j]), step[j], span, k, Slack(Time(b, x), Time(b, y), k, whole));
    }
  }

  lemma WholeSpan(gap: nat, step: nat, span: nat, k: nat, slack: nat)
    requires span % TICK_MS == 0 && gap <= step * (span / TICK_MS)
    ensures InRate(gap, step, span, k, slack)
  {
    MulLe(step, span, span + TICK_MS * k + slack);
    assert TICK_MS * (step * (span / TICK_MS)) == step * (TICK_MS * (span / TICK_MS));
  }

  lemma BatchRates(b: u32, s: seq<Sample>, step: Pose, k: nat, whole: bool)
    requires Windowed(b, s) && Monotonic(s) && AllContinuous(s, step) && Moving(step) && (whole ==> OnGrid(b, s))
    ensures Rates(b, s, step, k, whole)
  {
    forall i | 1 <= i < |s| ensures Rate(b, s[i - 1], s[i], step, k, whole) {
      assert After(s[i].tick, s[i - 1].tick) && Continuous(s[i - 1], s[i], step);
      ContinuousRate(b, s[i - 1], s[i], step, k, whole);
    }
  }

  lemma JoinRates(b: u32, q: seq<Sample>, s: seq<Sample>, step: Pose, k: nat, whole: bool)
    requires Rates(b, q, step, k, whole) && Rates(b, s, step, k, whole)
    requires q != [] && s != [] ==> Rate(b, q[|q| - 1], s[0], step, k, whole)
    ensures Rates(b, q + s, step, k, whole)
  {
    var w := q + s;
    forall i | 1 <= i < |w| ensures Rate(b, w[i - 1], w[i], step, k, whole) {
      if i < |q| {
        assert Rate(b, q[i - 1], q[i], step, k, whole);
      } else if i > |q| {
        assert Rate(b, s[i - |q| - 1], s[i - |q|], step, k, whole);
      }
    }
  }

  /** Appending an accepted batch to queued samples keeps the rate. */
  lemma AppendRates(b: u32, q: seq<Sample>, s: seq<Sample>, step: Pose, k: nat, whole: bool)
    requires Rates(b, q, step, k, whole) && Windowed(b, q) && (whole ==> OnGrid(b, q) && OnGrid(b, s))
    requires Windowed(b, s) && Monotonic(s) && AllContinuous(s, step) && Moving(step)
    requires q != [] && s != [] ==> After(s[0].tick, q[|q| - 1].tick) && TailContinuous(q, s[0], step)
    ensures Rates(b, q + s, step, k, whole)
  {
    BatchRates(b, s, step, k, whole);
    if q != [] && s != [] { ContinuousRate(b, q[|q| - 1], s[0], step, k, whole); }
    JoinRates(b, q, s, step, k, whole);
  }

  /** The measured start is in rate with the first sample. */
  lemma AnchorRate(x: Sample, y: Sample, step: Pose, k: nat, whole: bool)
    requires InWindow(x.tick, y.tick) && After(y.tick, x.tick) && Moving(step)
    requires StepWithin(x.position, y.position, step, TicksUntil(y.tick, x.tick))
    requires whole ==> Time(x.tick, y) % TICK_MS == 0
    ensures Rate(x.tick, x, y, step, k, whole)
  {
    var span := Time(x.tick, y);
    forall j | 0 <= j < 12
      ensures InRate(Gap(y.position[j], x.position[j]), step[j], span, k, Slack(0, span, k, whole))
    {
      RoundedSpan(Gap(y.position[j], x.position[j]), step[j], span, k, Slack(0, span, k, whole));
    }
  }

  lemma RoundedSpan(gap: nat, step: nat, span: nat, k: nat, slack: nat)
    requires gap <= step * ((span + TICK_MS - 1) / TICK_MS)
    requires slack == TICK_MS - 1 || span % TICK_MS == 0
    ensures InRate(gap, step, span, k, slack)
  {
    var ticks := (span + TICK_MS - 1) / TICK_MS;
    MulLe(step, TICK_MS * ticks, span + TICK_MS * k + slack);
    assert TICK_MS * (step * ticks) == step * (TICK_MS * ticks);
  }

  // ---- splices ----

  /** One splice more only adds to what is allowed. */
  lemma RateWeakens(b: u32, x: Sample, y: Sample, step: Pose, k: nat, whole: bool)
    requires Rate(b, x, y, step, k, whole) && Moving(step)
    ensures Rate(b, x, y, step, k + 1, whole)
  {
    var tx, ty := Time(b, x), Time(b, y);
    forall j | 0 <= j < 12
      ensures InRate(Gap(y.position[j], x.position[j]), step[j], ty - tx, k + 1, Slack(tx, ty, k + 1, whole))
    {
      MulLe(step[j], ty - tx + TICK_MS * k + Slack(tx, ty, k, whole),
            ty - tx + TICK_MS * (k + 1) + Slack(tx, ty, k + 1, whole));
    }
  }

  /** The position a splice is checked against, at `at`: the head's if nothing is retained, and otherwise on the
      way from the last retained sample to the one after it. */
  lemma SplicePoint(b: u32, q: seq<Sample>, at: u32)
    requires Windowed(b, q) && Increasing(b, q) && InWindow(b, at) && Interpolate(q, at).Some?
    ensures var n := RetainedCount(q, at);
      && n < |q| && Rel(b, at) <= Time(b, q[n]) && (n == 0 ==> Rel(b, at) == Time(b, q[0]))
      && (n > 0 ==> Time(b, q[n - 1]) < Rel(b, at))
      && Interpolate(q, at).value == if n == 0 then q[0].position else Segment(b, q[n - 1], q[n], Rel(b, at))
  {
    var i := Coasting.InterpolationSource(b, q, at);
    RetainedAreEarlier(b, q, at);
    var n := RetainedCount(q, at);
    if Time(b, q[i]) == Rel(b, at) {
      assert i > 0 ==> Time(b, q[i - 1]) < Time(b, q[i]);
      assert n == i;
      if i > 0 { SegmentEnds(b, q[i - 1], q[i]); }
    } else {
      assert n == i + 1;
    }
  }

  /** From the last retained sample x to the first spliced one y, which is near the old segment to z. */
  lemma SplicedRate(b: u32, x: Sample, z: Sample, y: Sample, step: Pose, k: nat, whole: bool)
    requires Rate(b, x, z, step, k, whole) && Moving(step)
    requires Time(b, x) < Time(b, y) <= Time(b, z) && (whole ==> Time(b, y) % TICK_MS == 0)
    requires StepWithin(Segment(b, x, z, Time(b, y)), y.position, step, 1)
    ensures Rate(b, x, y, step, k + 1, whole)
  {
    var tx, ty, tz := Time(b, x), Time(b, y), Time(b, z);
    forall j | 0 <= j < 12
      ensures InRate(Gap(y.position[j], x.position[j]), step[j], ty - tx, k + 1, Slack(tx, ty, k + 1, whole))
    {
      assert Segment(b, x, z, ty)[j] == Between(x.position[j], z.position[j], ty - tx, tz - tx);
      SplicedJoint(x.position[j], z.position[j], y.position[j], ty - tx, tz - tx, step[j], k,
                   Slack(tx, tz, k, whole), Slack(tx, ty, k + 1, whole));
    }
  }

  lemma SplicedJoint(x: int32, z: int32, y: int32, elapsed: nat, span: nat, step: nat, k: nat, slack: nat, more: nat)
    requires 0 < elapsed <= span && InRate(Gap(z, x), step, span, k, slack) && slack <= more
    requires Gap(y, Between(x, z, elapsed, span)) <= step
    ensures InRate(Gap(y, x), step, elapsed, k + 1, more)
  {
    var d: int := z - x as int;
    var t := Abs(TruncDiv(d * elapsed, span));
    TruncOf(d, elapsed, Abs(d) * elapsed, span);
    MulLe(elapsed, 0, Abs(d));
    DivBounds(Abs(d) * elapsed, span);
    assert span * t <= Abs(d) * elapsed;
    SharedRate(t, Abs(d), elapsed, span, step, TICK_MS * k + slack);
    assert Gap(y, x) <= t + step;
    MulLe(step, elapsed + TICK_MS * k + slack + TICK_MS, elapsed + TICK_MS * (k + 1) + more);
    assert step * (elapsed + (TICK_MS * k + slack)) + TICK_MS * step
           == step * (elapsed + TICK_MS * k + slack + TICK_MS);
  }

  /** A part of a segment has its share of the segment's move. */
  lemma SharedRate(t: nat, d: nat, elapsed: nat, span: nat, step: nat, extra: nat)
    requires 0 < elapsed <= span && span * t <= d * elapsed && TICK_MS * d <= step * (span + extra)
    ensures TICK_MS * t <= step * (elapsed + extra)
  {
    var u, v := step * extra, step * elapsed;
    Times(TICK_MS, span, t);
    Times(TICK_MS, d, elapsed);
    MulLe(elapsed, TICK_MS * d, step * (span + extra));
    Swapped(elapsed, step, span, extra);
    MulLe(u, elapsed, span);
    Cancel(span, TICK_MS * t, v + u);
  }

  lemma Times(a: nat, c: nat, d: nat)
    ensures a * (c * d) == c * (a * d) && a * (c * d) == (a * c) * d
  {
  }

  lemma Swapped(elapsed: nat, step: nat, span: nat, extra: nat)
    ensures elapsed * (step * (span + extra)) == span * (step * elapsed) + step * extra * elapsed
    ensures span * (step * elapsed) + step * extra * span == span * (step * elapsed + step * extra)
    ensures step * (elapsed + extra) == step * elapsed + step * extra
  {
    assert step * (span + extra) == step * span + step * extra;
    assert elapsed * (step * span + step * extra) == elapsed * (step * span) + elapsed * (step * extra);
    Times(elapsed, step, span);
    Times(span, step, elapsed);
    assert span * (step * elapsed + step * extra) == span * (step * elapsed) + span * (step * extra);
  }

  /** Moving the end of a segment by a step moves its points by at most a step. */
  lemma MixEndMoves(x: Pose, z: Pose, y: Pose, elapsed: nat, span: nat, step: Pose, joint: nat)
    requires joint < 12 && 0 < span && elapsed <= span && StepWithin(z, y, step, 1)
    ensures Gap(Mix(x, y, elapsed, span)[joint], Mix(x, z, elapsed, span)[joint]) <= step[joint]
  {
    var d, f := z[joint] - x[joint] as int, y[joint] - x[joint] as int;
    EndMoves(if d <= f then d else f, if d <= f then f else d, elapsed, span, step[joint]);
  }

  lemma EndMoves(d: int, f: int, elapsed: nat, span: nat, step: int)
    requires 0 < span && elapsed <= span && d <= f <= d + step
    ensures 0 <= TruncDiv(f * elapsed, span) - TruncDiv(d * elapsed, span) <= step
  {
    MulLe(elapsed, d, f);
    MulLe(elapsed, f, d + step);
    MulLe(step, elapsed, span);
    assert elapsed * (d + step) == d * elapsed + step * elapsed;
    TruncApart(d * elapsed, f * elapsed, span, step);
  }

  lemma FrontRates(b: u32, q: seq<Sample>, n: nat, step: Pose, k: nat, whole: bool)
    requires n <= |q| && Rates(b, q, step, k, whole) && Moving(step)
    ensures Rates(b, q[..n], step, k + 1, whole)
  {
    var r := q[..n];
    forall i | 1 <= i < n ensures Rate(b, r[i - 1], r[i], step, k + 1, whole) {
      assert Rate(b, q[i - 1], q[i], step, k, whole);
      RateWeakens(b, q[i - 1], q[i], step, k, whole);
    }
  }

  /** What a splice leaves is in rate, with one splice more. */
  lemma SpliceRates(b: u32, q: seq<Sample>, s: seq<Sample>, step: Pose, k: nat, whole: bool)
    requires Rates(b, q, step, k, whole) && Windowed(b, q) && Increasing(b, q) && Moving(step)
    requires s != [] && Windowed(b, s) && Monotonic(s) && AllContinuous(s, step) && (whole ==> OnGrid(b, s))
    requires Interpolate(q, s[0].tick).Some? && StepWithin(Interpolate(q, s[0].tick).value, s[0].position, step, 1)
    ensures Rates(b, q[..RetainedCount(q, s[0].tick)] + s, step, k + 1, whole)
  {
    var n := RetainedCount(q, s[0].tick);
    SplicePoint(b, q, s[0].tick);
    FrontRates(b, q, n, step, k, whole);
    BatchRates(b, s, step, k + 1, whole);
    if n > 0 {
      assert Rate(b, q[n - 1], q[n], step, k, whole);
      SplicedRate(b, q[n - 1], q[n], s[0], step, k, whole);
    }
    JoinRates(b, q[..n], s, step, k + 1, whole);
  }
}
