/** Histories of the v2 executor: what a run has applied, what it was told, and when. */
module Timeline {
  import opened Words
  import opened StreamContract
  import opened StreamExecutor

  // ---- time on the control grid ----

  function Time(b: u32, s: Sample): u32 {
    Rel(b, s.tick)
  }

  /** The first grid time at or after t. */
  function Grid(t: nat): nat {
    (t + TICK_MS - 1) / TICK_MS * TICK_MS
  }

  predicate Windowed(b: u32, s: seq<Sample>) {
    forall i :: 0 <= i < |s| ==> InWindow(b, s[i].tick)
  }

  predicate Increasing(b: u32, s: seq<Sample>) {
    forall i, j :: 0 <= i < j < |s| ==> Time(b, s[i]) < Time(b, s[j])
  }

  /** No two samples fall due at the same grid time. */
  predicate Spaced(b: u32, s: seq<Sample>) {
    forall i, j :: 0 <= i < j < |s| ==> Grid(Time(b, s[i])) < Grid(Time(b, s[j]))
  }

  predicate OnGrid(b: u32, s: seq<Sample>) {
    forall i :: 0 <= i < |s| ==> Time(b, s[i]) % TICK_MS == 0
  }

  lemma GridLaws(t: nat)
    ensures Grid(t) % TICK_MS == 0 && t <= Grid(t) < t + TICK_MS
    ensures t % TICK_MS == 0 ==> Grid(t) == t
  {
  }

  lemma GridMonotone(x: nat, y: nat)
    requires x <= y
    ensures Grid(x) <= Grid(y)
  {
  }

  lemma SpacedIsIncreasing(b: u32, s: seq<Sample>)
    requires Spaced(b, s)
    ensures Increasing(b, s)
  {
    forall i, j | 0 <= i < j < |s| ensures Time(b, s[i]) < Time(b, s[j]) {
      assert Grid(Time(b, s[i])) < Grid(Time(b, s[j]));
    }
  }

  /** The firmware's wrapping computation of a due tick is the grid time. */
  lemma DueTime(b: u32, t: u32)
    requires InWindow(b, t)
    ensures Rel(b, DueTick(b, t)) == Grid(Rel(b, t))
  {
    GridLaws(Rel(b, t));
    RelOf(b, Grid(Rel(b, t)));
  }

  lemma RelOf(b: u32, x: u32)
    ensures Rel(b, Add32(b, x)) == x
  {
  }

  /** Modular order between neighbours is real order once all ticks share a window. */
  lemma {:induction false} MonotonicIncreasing(b: u32, s: seq<Sample>)
    requires Windowed(b, s) && Monotonic(s)
    ensures Increasing(b, s)
  {
    if |s| > 1 {
      var n := |s| - 1;
      assert Windowed(b, s[..n]) && Monotonic(s[..n]) by {
        forall i | 1 <= i < n ensures After(s[..n][i].tick, s[..n][i - 1].tick) {
          assert After(s[i].tick, s[i - 1].tick);
        }
      }
      MonotonicIncreasing(b, s[..n]);
      WindowOrder(b, s[n].tick, s[n - 1].tick);
      assert After(s[n].tick, s[n - 1].tick);
      forall i, j | 0 <= i < j < |s| ensures Time(b, s[i]) < Time(b, s[j]) {
        if j < n {
          assert s[..n][i] == s[i] && s[..n][j] == s[j];
        } else if i < n - 1 {
          assert s[..n][i] == s[i] && s[..n][n - 1] == s[n - 1];
        }
      }
    }
  }

  lemma IncreasingJoin(b: u32, q: seq<Sample>, s: seq<Sample>)
    requires Windowed(b, q) && Increasing(b, q) && Windowed(b, s) && Increasing(b, s)
    requires q != [] && s != [] ==> Time(b, q[|q| - 1]) < Time(b, s[0])
    ensures Windowed(b, q + s) && Increasing(b, q + s)
  {
    var w := q + s;
    forall i, j | 0 <= i < j < |w| ensures Time(b, w[i]) < Time(b, w[j]) {
      if i < |q| <= j {
        assert i < |q| - 1 ==> Time(b, q[i]) < Time(b, q[|q| - 1]);
        assert j > |q| ==> Time(b, s[0]) < Time(b, s[j - |q|]);
      }
    }
  }

  lemma AdvanceBy(b: u32, x: Sample, y: Sample)
    requires InWindow(b, x.tick) && InWindow(b, y.tick) && After(y.tick, x.tick)
    requires Diff(y.tick, x.tick) % TICK_MS == 0
    ensures Grid(Time(b, x)) < Grid(Time(b, y)) && SamePhase(b, x, y)
  {
    WindowOrder(b, y.tick, x.tick);
    GridStep(Time(b, x), Time(b, y));
  }

  lemma GridStep(x: nat, y: nat)
    requires x < y && (y - x) % TICK_MS == 0
    ensures Grid(x) < Grid(y) && x % TICK_MS == y % TICK_MS
  {
    GridShift(x, (y - x) / TICK_MS);
  }

  lemma GridShift(x: nat, k: nat)
    ensures Grid(x + TICK_MS * k) == Grid(x) + TICK_MS * k && (x + TICK_MS * k) % TICK_MS == x % TICK_MS
  {
  }

  predicate SamePhase(b: u32, x: Sample, y: Sample) {
    Time(b, x) % TICK_MS == Time(b, y) % TICK_MS
  }

  lemma {:induction false} SpacedFromNeighbours(b: u32, s: seq<Sample>)
    requires forall i :: 1 <= i < |s| ==> Grid(Time(b, s[i - 1])) < Grid(Time(b, s[i]))
    ensures Spaced(b, s)
  {
    if |s| > 1 {
      var n := |s| - 1;
      var r := s[..n];
      forall i | 1 <= i < n ensures Grid(Time(b, r[i - 1])) < Grid(Time(b, r[i])) {
        assert r[i] == s[i] && r[i - 1] == s[i - 1];
      }
      SpacedFromNeighbours(b, r);
      forall i, j | 0 <= i < j < |s| ensures Grid(Time(b, s[i])) < Grid(Time(b, s[j])) {
        assert r[i] == s[i] && r[n - 1] == s[n - 1];
        if j < n { assert r[j] == s[j]; }
        assert i < n - 1 ==> Grid(Time(b, r[i])) < Grid(Time(b, r[n - 1]));
      }
    }
  }

  /** Samples whole control ticks apart are due at different grid times and share one phase. */
  lemma {:induction false} ContinuousSpaced(b: u32, s: seq<Sample>, step: Pose)
    requires s != [] && Windowed(b, s) && Monotonic(s) && AllContinuous(s, step)
    ensures Spaced(b, s)
    ensures forall i :: 0 <= i < |s| ==> SamePhase(b, s[0], s[i])
  {
    forall i | 1 <= i < |s|
      ensures Grid(Time(b, s[i - 1])) < Grid(Time(b, s[i])) && SamePhase(b, s[i - 1], s[i])
    {
      assert After(s[i].tick, s[i - 1].tick) && Continuous(s[i - 1], s[i], step);
      AdvanceBy(b, s[i - 1], s[i]);
    }
    SpacedFromNeighbours(b, s);
    var n := 1;
    while n < |s|
      invariant 1 <= n <= |s|
      invariant forall i :: 0 <= i < n ==> SamePhase(b, s[0], s[i])
    {
      assert SamePhase(b, s[n - 1], s[n]);
      n := n + 1;
    }
  }

  // ---- histories ----

  /** A command given to a running executor. */
  datatype Event =
    | Admission(payload: seq<byte>, kind: Kind, now: u32)
    | Control(now: u32)
    | Feedback(now: u32, measured: Pose)
    | JointFeedback(now: u32, joint: byte, commanded: int32, actual: int32)

  /** The executor takes the batch that ev brings. */
  predicate Accepts(e: Executor, ev: Event) {
    && ev.Admission? && BatchDecode(ev.payload, ev.kind).Accepted?
    && Admit(e, ev.payload, ev.kind, ev.now).1 == OutcomeOk
  }

  /** The batch an event brings. */
  function Brought(ev: Event): Batch
    requires ev.Admission? && BatchDecode(ev.payload, ev.kind).Accepted?
  {
    BatchDecode(ev.payload, ev.kind).value
  }

  /** The executor, the measured start, the samples applied so far, the timeline the accepted batches
      describe, and how many samples splices removed from it. */
  datatype History = History(
    exec: Executor, start: Sample, applied: seq<Sample>, timeline: seq<Sample>, replaced: int)

  /** The samples of a timeline that come before a tick. */
  function Earlier(s: seq<Sample>, t: u32): seq<Sample> {
    if s == [] then [] else
      (if After(t, s[0].tick) then [s[0]] else []) + Earlier(s[1..], t)
  }

  /** What an accepted batch makes of a timeline: an append extends it, a splice replaces its future. */
  function Amend(timeline: seq<Sample>, b: Batch, kind: Kind): seq<Sample> {
    (if kind == Splice then Earlier(timeline, b.spliceAt) else timeline) + b.samples
  }

  /** The history after an accepted batch. */
  function Amended(h: History, b: Batch, kind: Kind, done: Executor): History {
    var timeline := Amend(h.timeline, b, kind);
    h.(exec := done, timeline := timeline, replaced := h.replaced + |h.timeline| + |b.samples| - |timeline|)
  }

  /** The history after an admission. */
  function Told(h: History, payload: seq<byte>, kind: Kind, now: u32): History {
    var (e, outcome) := Admit(h.exec, payload, kind, now);
    match BatchDecode(payload, kind)
    case Rejected(_) => h.(exec := e)
    case Accepted(b) => if outcome != OutcomeOk then h.(exec := e) else Amended(h, b, kind, e)
  }

  /** The history after a control step. */
  function Stepped(h: History, now: u32): History {
    var (e, outcome, output) := Step(h.exec, now);
    if |e.session.queue| < |h.exec.session.queue| then
      h.(exec := e, applied := h.applied + [h.exec.session.queue[0]])
    else h.(exec := e)
  }

  function Next(h: History, ev: Event): History {
    match ev
    case Admission(payload, kind, now) => Told(h, payload, kind, now)
    case Control(now) => Stepped(h, now)
    case Feedback(now, measured) => h.(exec := CheckFeedback(h.exec, now, measured).0)
    case JointFeedback(now, joint, commanded, actual) =>
      h.(exec := CheckJointFeedback(h.exec, now, joint, commanded, actual).0)
  }
}
