/** The bounds on the step rate are exact: streams that reach them, and one whose refilled queue breaks any. */
module Sharpness {
  import opened Words
  import opened StreamContract
  import opened StreamSession
  import opened StreamExecutor
  import opened Interpolation
  import opened Timeline
  import opened Schedule
  import opened Refinement
  import opened Lifecycle
  import opened Soundness
  import opened GridRuns
  import opened StepRate
  import BatchWire
  import Scenario

  // ---- runs, event by event ----

  /** A lawful event, aligned if the run is to be, and refilling no empty queue if it is strict. */
  predicate Fine(h: History, ev: Event, whole: bool, strict: bool) {
    Lawful(h, ev) && (whole ==> Aligned(h, ev)) && (strict ==> !Refills(h, ev))
  }

  function Fines(whole: bool, strict: bool): (History, Event) -> bool {
    (h, ev) => Fine(h, ev, whole, strict)
  }

  lemma {:induction false} FineRun(h: History, events: seq<Event>, whole: bool, strict: bool)
    requires Each(Fines(whole, strict), h, events)
    ensures LawfulRun(h, events) && (whole ==> AlignedRun(h, events)) && (strict ==> NeverRefills(h, events))
    decreases |events|
  {
    if events != [] { FineRun(Next(h, events[0]), events[1..], whole, strict); }
  }

  /** A run of such events from h to last, with n accepted splices. */
  predicate Leads(h: History, events: seq<Event>, last: History, n: nat, whole: bool, strict: bool) {
    Each(Fines(whole, strict), h, events) && Splices(h, events) == n && Run(h, events) == last
  }

  lemma LeadsNowhere(h: History, whole: bool, strict: bool)
    ensures Leads(h, [], h, 0, whole, strict)
  {
  }

  lemma LeadsOn(h: History, ev: Event, next: History, rest: seq<Event>, last: History, m: nat, n: nat, whole: bool,
                strict: bool)
    requires Fine(h, ev, whole, strict) && next == Next(h, ev)
    requires Leads(next, rest, last, m, whole, strict) && n == m + Splicing(h, ev)
    ensures Leads(h, [ev] + rest, last, n, whole, strict)
  {
    assert ([ev] + rest)[0] == ev && ([ev] + rest)[1..] == rest;
  }

  /** A launch followed by a lawful run, on the grid if `whole`, awaits a step that moves some joint by more than the
      rate of ms milliseconds. */
  predicate Breaks(e: Executor, l: Launch, events: seq<Event>, now: u32, ms: nat, whole: bool) {
    && Launches(e, l) && Spaced(l.start, Filled(e, l).timeline)
    && (whole ==> FillsGrid(l.start, Opened(e, l.opening, l.openedAt), l.filling))
    && LawfulRun(Launched(e, l), events) && (whole ==> AlignedRun(Launched(e, l), events))
    && Awaits(Run(Launched(e, l), events).exec, now)
    && !MovesWithin(Run(Launched(e, l), events).exec, now, ms)
  }

  /** Where a run leads decides whether it breaks a bound. */
  lemma LeadsToBreak(e: Executor, l: Launch, events: seq<Event>, last: History, k: nat, whole: bool, strict: bool,
                     now: u32, ms: nat)
    requires Launches(e, l) && Spaced(l.start, Filled(e, l).timeline)
    requires whole ==> FillsGrid(l.start, Opened(e, l.opening, l.openedAt), l.filling)
    requires Splices(Opened(e, l.opening, l.openedAt), l.filling) == 0
    requires Leads(Launched(e, l), events, last, k, whole, strict)
    requires Awaits(last.exec, now) && !MovesWithin(last.exec, now, ms)
    ensures Breaks(e, l, events, now, ms, whole) && AllSplices(e, l, events) == k
    ensures strict ==> NeverRefills(Launched(e, l), events)
  {
    FineRun(Launched(e, l), events, whole, strict);
  }

  // ---- a stream at rest until its first sample ----

  const FIVES: Pose := [5, 5, 5, 5, 5, 5, 5, 5, 5, 5, 5, 5]

  /** Five micro-radians a control tick. */
  const BRISK := ORDINARY.(maximumStep := FIVES)

  /** A tick on the grid, or the next one, which is as far from its grid time as can be. */
  predicate Phase(r: u32) {
    r == 20 || r == 21
  }

  function Due(r: u32): u32 {
    if r == 20 then 20 else 25
  }

  function Head(r: u32): Sample {
    Sample(r, ZERO_POSE)
  }

  /** Running from rest, with a sample at rest for tick r at the head of its queue. */
  predicate Resting(e: Executor, limits: Limits, r: u32, q: seq<Sample>, c: u32) {
    && Phase(r) && Ready(e) && e.epoch == 0 && e.lastStep == c && e.anchor == Sample(0, ZERO_POSE)
    && e.limits == limits && q != [] && q[0] == Head(r) && e.session == Session(true, true, BRISK, 1, 0, q)
    && e.diag.lastCommandTick == 0
  }

  lemma RestingStep(h: History, limits: Limits, r: u32, q: seq<Sample>, c: u32, next: History)
    requires Resting(h.exec, limits, r, q, c) && c + 5 < Due(r) && next == Next(h, Control(c + 5))
    ensures NextTick(h.exec, c + 5) && Resting(next.exec, limits, r, q, c + 5)
  {
    StepInterpolates(h.exec, c + 5);
    StepStaysReady(h.exec, c + 5);
  }

  /** It has applied that sample. */
  predicate Arrived(e: Executor, limits: Limits, r: u32, q: seq<Sample>) {
    && Phase(r) && Ready(e) && e.epoch == 0 && e.lastStep == Due(r) && e.anchor == Head(r) && e.limits == limits
    && e.session == Session(true, true, BRISK, 1, 0, q)
    && e.diag.lastCommandTick == 0 && e.outputValid && e.lastOutput == ZERO_POSE
  }

  lemma ArrivingStep(h: History, limits: Limits, r: u32, q: seq<Sample>, c: u32, next: History)
    requires Resting(h.exec, limits, r, q, c) && c + 5 == Due(r) && next == Next(h, Control(c + 5))
    ensures NextTick(h.exec, c + 5) && Arrived(next.exec, limits, r, q[1..])
  {
    StepApplies(h.exec, c + 5);
    StepStaysReady(h.exec, c + 5);
  }

  /** Control at the grid times after c up to d, before some further events. */
  function WaitFrom(c: u32, d: u32, rest: seq<Event>): seq<Event>
    decreases d - c
  {
    if c + 5 > d then rest else [Control(c + 5)] + WaitFrom(c + 5, d, rest)
  }

  function Waited(h: History, c: u32, d: u32): History
    decreases d - c
  {
    if c + 5 > d then h else Waited(Next(h, Control(c + 5)), c + 5, d)
  }

  lemma {:induction false} WaitArrives(h: History, limits: Limits, r: u32, q: seq<Sample>, c: u32, last: History)
    requires Resting(h.exec, limits, r, q, c) && c < Due(r) && last == Waited(h, c, Due(r))
    ensures Arrived(last.exec, limits, r, q[1..])
    decreases Due(r) - c
  {
    if c + 5 == Due(r) {
      ArrivingStep(h, limits, r, q, c, last);
    } else {
      RestingStep(h, limits, r, q, c, Next(h, Control(c + 5)));
      WaitArrives(Next(h, Control(c + 5)), limits, r, q, c + 5, last);
    }
  }

  lemma {:induction false} LeadsByWaiting(h: History, limits: Limits, r: u32, q: seq<Sample>, c: u32, mid: History,
                                          rest: seq<Event>, last: History, n: nat, whole: bool, strict: bool)
    requires Resting(h.exec, limits, r, q, c) && c < Due(r) && mid == Waited(h, c, Due(r))
    requires Leads(mid, rest, last, n, whole, strict)
    ensures Leads(h, WaitFrom(c, Due(r), rest), last, n, whole, strict)
    decreases Due(r) - c
  {
    var next, later := Next(h, Control(c + 5)), WaitFrom(c + 5, Due(r), rest);
    TickIsBy(h.exec, limits, r, q, c);
    WaitFirst(c, Due(r), rest, later);
    WaitedFirst(h, c, Due(r), next, mid);
    if c + 5 != Due(r) {
      RestingStep(h, limits, r, q, c, next);
      LeadsByWaiting(next, limits, r, q, c + 5, mid, rest, last, n, whole, strict);
    }
    LeadsByControl(h, limits, r, q, c, next, later, last, n, whole, strict);
  }

  lemma LeadsByControl(h: History, limits: Limits, r: u32, q: seq<Sample>, c: u32, next: History, later: seq<Event>,
                       last: History, n: nat, whole: bool, strict: bool)
    requires Resting(h.exec, limits, r, q, c) && c < Due(r) && next == Next(h, Control(c + 5))
    requires Leads(next, later, last, n, whole, strict)
    ensures Leads(h, [Control(c + 5)] + later, last, n, whole, strict)
  {
    ControlIsFine(h, limits, r, q, c, whole, strict);
    LeadsOn(h, Control(c + 5), next, later, last, n, n, whole, strict);
  }

  lemma ControlIsFine(h: History, limits: Limits, r: u32, q: seq<Sample>, c: u32, whole: bool, strict: bool)
    requires Resting(h.exec, limits, r, q, c) && c < Due(r)
    ensures Fine(h, Control(c + 5), whole, strict) && Splicing(h, Control(c + 5)) == 0
  {
  }

  lemma TickIsBy(e: Executor, limits: Limits, r: u32, q: seq<Sample>, c: u32)
    requires Resting(e, limits, r, q, c) && c < Due(r)
    ensures c + 5 <= Due(r)
  {
    NextCellBy(c, Due(r));
  }

  lemma NextCellBy(c: nat, d: nat)
    requires c % 5 == 0 && d % 5 == 0 && c < d
    ensures c + 5 <= d
  {
  }

  lemma WaitedFirst(h: History, c: u32, d: u32, next: History, mid: History)
    requires c + 5 <= d && next == Next(h, Control(c + 5)) && mid == Waited(h, c, d)
    ensures mid == Waited(next, c + 5, d) && (c + 5 == d ==> mid == next)
  {
  }

  lemma WaitFirst(c: u32, d: u32, rest: seq<Event>, later: seq<Event>)
    requires c + 5 <= d && later == WaitFrom(c + 5, d, rest)
    ensures WaitFrom(c, d, rest) == [Control(c + 5)] + later
    ensures c + 5 == d ==> later == rest
  {
  }

  /** A batch that begins with that sample, and at most one more two control ticks later. */
  predicate Opening(r: u32, b: Batch) {
    && Phase(r) && b == Batch(r, 0, 1, 0, 3, b.samples) && 0 < |b.samples| <= 2 && b.samples[0] == Head(r)
    && (|b.samples| == 2 ==>
          b.samples[1].tick == r + 10 && StepWithin(ZERO_POSE, b.samples[1].position, FIVES, 2))
  }

  lemma RestingStarts(e: Executor, r: u32, b: Batch) returns (l: Launch)
    requires e.diag.state == Closed && WithinCaps(BRISK, e.caps, 0) && Opening(r, b)
    requires WithinLimits(e.limits, ZERO_POSE) && AllWithin(e.limits, b.samples)
    ensures Launches(e, l) && Spaced(l.start, Filled(e, l).timeline)
    ensures r == 20 ==> FillsGrid(l.start, Opened(e, l.opening, l.openedAt), l.filling)
    ensures Resting(Launched(e, l).exec, e.limits, r, b.samples, 0)
    ensures Splices(Opened(e, l.opening, l.openedAt), l.filling) == 0
  {
    OpeningIsAdmissible(r, b);
    l := Scenario.LaunchOf(BRISK, b, ZERO_POSE);
    Scenario.LaunchTakes(e, BRISK, b, ZERO_POSE);
    UnderwayRests(Launched(e, l).exec, e.limits, r, b);
    OpeningFills(Opened(e, l.opening, 0), r, b);
  }

  lemma UnderwayRests(e: Executor, limits: Limits, r: u32, b: Batch)
    requires Opening(r, b) && Scenario.Underway(e, limits, BRISK, b, ZERO_POSE)
    ensures Resting(e, limits, r, b.samples, 0)
  {
    OpeningIsAdmissible(r, b);
  }

  lemma OpeningIsAdmissible(r: u32, b: Batch)
    requires Opening(r, b)
    ensures WellFormed(b) && Windowed(0, b.samples) && Spaced(0, b.samples) && (r == 20 ==> OnGrid(0, b.samples))
    ensures Admissible(Scenario.Empty(BRISK), b, Append, 0)
    ensures StepWithin(ZERO_POSE, b.samples[0].position, FIVES, TicksUntil(r, 0))
  {
    assert forall j :: 0 <= j < 12 ==> FIVES[j] == 5;
    Scenario.AtRest(ZERO_POSE, FIVES, TicksUntil(r, 0));
  }

  lemma OpeningFills(h: History, r: u32, b: Batch)
    requires Opening(r, b) && WellFormed(b) && (r == 20 ==> OnGrid(0, b.samples))
    ensures r == 20 ==> FillsGrid(0, h, [Admission(BatchWire.EncodeBatch(b), Append, 0)])
    ensures Splices(h, [Admission(BatchWire.EncodeBatch(b), Append, 0)]) == 0
  {
    var ev := Admission(BatchWire.EncodeBatch(b), Append, 0);
    assert [ev][1..] == [];
    BatchWire.DecodeIsInverse(ev.payload, b, Append);
  }

  // ---- after k splices ----

  function Uniform(p: int32): Pose {
    seq(12, i => p)
  }

  /** The grid time after that sample falls due, five or nine milliseconds after it. */
  function Turn(r: u32): u32 {
    Due(r) + 5
  }

  /** Where every joint is told to be by then, after k splices. */
  function Height(r: u32, k: nat): nat
    requires Phase(r)
  {
    Turn(r) - r + 5 * k
  }

  /** The queue after k splices: the first sample, and one to move to. */
  function Queue(r: u32, k: nat): seq<Sample>
    requires Phase(r) && Height(r, k) < TWO31
  {
    [Head(r), if k == 0 then Sample(r + 10, Uniform(10)) else Sample(Turn(r), Uniform(Height(r, k)))]
  }

  /** The k-th splice. */
  function Raise(r: u32, k: nat): Batch
    requires Phase(r) && Height(r, k) < TWO31
  {
    Batch(Turn(r), 0, 1, Turn(r), 3, [Sample(Turn(r), Uniform(Height(r, k)))])
  }

  function Raising(r: u32, k: nat): Event
    requires Phase(r) && Height(r, k) < TWO31
  {
    Admission(BatchWire.EncodeBatch(Raise(r, k)), Splice, 0)
  }

  predicate Room(limits: Limits, top: int) {
    forall i :: 0 <= i < 12 ==> limits[i].minimum <= 0 && top <= limits[i].maximum
  }

  lemma UniformWithin(limits: Limits, p: int32, top: int)
    requires 0 <= p <= top && Room(limits, top)
    ensures WithinLimits(limits, Uniform(p))
  {
  }

  lemma FiveApart(p: int32, r: int32)
    requires Gap(p, r) <= 5
    ensures StepWithin(Uniform(p), Uniform(r), FIVES, 1)
  {
    forall j | 0 <= j < 12 ensures Gap(Uniform(r)[j], Uniform(p)[j]) <= FIVES[j] * 1 {
      assert FIVES[j] == 5;
    }
  }

  lemma PartWay(r: u32)
    requires Phase(r)
    ensures Lerp(Head(r), Sample(r + 10, Uniform(10)), Turn(r)) == Uniform(Height(r, 0))
  {
    assert LerpJoint(0, 10, Turn(r) - r, 10) == Height(r, 0);
  }

  /** What the next splice is checked against. */
  lemma QueueAtTurn(r: u32, k: nat)
    requires Phase(r) && Height(r, k) < TWO31
    ensures Interpolate(Queue(r, k), Turn(r)) == Some(Uniform(Height(r, k)))
    ensures Retained(Queue(r, k), Splice, Turn(r)) == [Head(r)] && SpliceClear(0, Queue(r, k), Turn(r))
  {
    var q := Queue(r, k);
    assert q[1..] == [q[1]];
    PartWay(r);
    assert k > 0 ==> Interpolate(q, Turn(r)) == Interpolate([q[1]], Turn(r));
    assert RetainedCount([q[1]], Turn(r)) == 0 && RetainedCount(q, Turn(r)) == 1;
  }

  lemma RaiseIsAdmissible(r: u32, m: nat, k: nat)
    requires Phase(r) && k == m + 1 && Height(r, k) < TWO31
    ensures WellFormed(Raise(r, k)) && Windowed(0, Raise(r, k).samples)
    ensures r == 20 ==> OnGrid(0, Raise(r, k).samples)
    ensures Admissible(Session(true, true, BRISK, 1, 0, Queue(r, m)), Raise(r, k), Splice, 0)
  {
    QueueAtTurn(r, m);
    FiveApart(Height(r, m), Height(r, k));
  }

  /** From m splices to k, one more. */
  lemma RaiseTakes(h: History, limits: Limits, r: u32, m: nat, k: nat, next: History)
    requires Phase(r) && k == m + 1 && Height(r, k) < TWO31 && Resting(h.exec, limits, r, Queue(r, m), 0)
    requires WithinLimits(limits, Uniform(Height(r, k))) && next == Next(h, Raising(r, k))
    ensures Fine(h, Raising(r, k), r == 20, true) && Splicing(h, Raising(r, k)) == 1
    ensures Resting(next.exec, limits, r, Queue(r, k), 0)
  {
    QueueAtTurn(r, m);
    RaiseIsAdmissible(r, m, k);
    Scenario.BatchTakes(h.exec, Raise(r, k), Splice, 0, next.exec);
    RaisedRests(h.exec, limits, r, m, k, next.exec);
  }

  lemma RaisedRests(e: Executor, limits: Limits, r: u32, m: nat, k: nat, done: Executor)
    requires Phase(r) && k == m + 1 && Height(r, k) < TWO31 && Resting(e, limits, r, Queue(r, m), 0)
    requires done == e.(session := done.session, diag := done.diag)
    requires done.diag.state == Running && done.diag.lastCommandTick == 0
    requires done.session == e.session.(queue := [Head(r)] + Raise(r, k).samples)
    ensures Resting(done, limits, r, Queue(r, k), 0)
  {
    assert [Head(r)] + Raise(r, k).samples == Queue(r, k);
  }

  /** The splices from m to n, one by one, and then to where the first sample falls due. */
  function RaisesFrom(r: u32, m: nat, n: nat): seq<Event>
    requires Phase(r) && m <= n && Height(r, n) < TWO31
    decreases n - m
  {
    if m == n then WaitFrom(0, Due(r), []) else [Raising(r, m + 1)] + RaisesFrom(r, m + 1, n)
  }

  lemma FirstRaise(r: u32, m: nat, k: nat, n: nat)
    requires Phase(r) && m != n && k == m + 1 <= n && Height(r, n) < TWO31
    ensures RaisesFrom(r, m, n) == [Raising(r, k)] + RaisesFrom(r, k, n)
  {
  }

  /** The events are a fine run with k splices to where the first sample is due, with one more still to come. */
  predicate Rises(h: History, events: seq<Event>, limits: Limits, r: u32, n: nat, k: nat)
    requires Phase(r) && Height(r, n) < TWO31
  {
    Leads(h, events, Run(h, events), k, r == 20, true) && Arrived(Run(h, events).exec, limits, r, [Queue(r, n)[1]])
  }

  lemma {:induction false} Raises(h: History, limits: Limits, r: u32, m: nat, n: nat, d: nat, events: seq<Event>)
    requires Phase(r) && m <= n && d == n - m && Height(r, n) < TWO31 && Room(limits, Height(r, n))
    requires Resting(h.exec, limits, r, Queue(r, m), 0) && events == RaisesFrom(r, m, n)
    ensures Rises(h, events, limits, r, n, d)
    decreases n - m
  {
    if m == n {
      RisenArrives(h, limits, r, n, events, Waited(h, 0, Due(r)));
    } else {
      var k, c := m + 1, d - 1;
      FirstRaise(r, m, k, n);
      UniformWithin(limits, Height(r, k), Height(r, n));
      RaiseTakes(h, limits, r, m, k, Next(h, Raising(r, k)));
      Raises(Next(h, Raising(r, k)), limits, r, k, n, c, RaisesFrom(r, k, n));
      RisesOn(h, Raising(r, k), Next(h, Raising(r, k)), RaisesFrom(r, k, n), limits, r, n, c, d, events);
    }
  }

  lemma RisesOn(h: History, ev: Event, next: History, rest: seq<Event>, limits: Limits, r: u32, n: nat, c: nat, d: nat,
                events: seq<Event>)
    requires Phase(r) && Height(r, n) < TWO31
    requires Fine(h, ev, r == 20, true) && Splicing(h, ev) == 1 && next == Next(h, ev)
    requires Rises(next, rest, limits, r, n, c) && d == c + 1 && events == [ev] + rest
    ensures Rises(h, events, limits, r, n, d)
  {
    LeadsOn(h, ev, next, rest, Run(next, rest), c, d, r == 20, true);
  }

  lemma RisenArrives(h: History, limits: Limits, r: u32, n: nat, events: seq<Event>, last: History)
    requires Phase(r) && Height(r, n) < TWO31 && Resting(h.exec, limits, r, Queue(r, n), 0)
    requires events == WaitFrom(0, Due(r), []) && last == Waited(h, 0, Due(r))
    ensures Rises(h, events, limits, r, n, 0)
  {
    WaitArrives(h, limits, r, Queue(r, n), 0, last);
    assert Queue(r, n)[1..] == [Queue(r, n)[1]];
    LeadsNowhere(last, r == 20, true);
    LeadsByWaiting(h, limits, r, Queue(r, n), 0, last, [], last, 0, r == 20, true);
  }

  /** A launch to rest, with the queue to splice into. */
  predicate Poised(e: Executor, l: Launch, r: u32) {
    && Phase(r) && Launches(e, l) && Spaced(l.start, Filled(e, l).timeline)
    && (r == 20 ==> FillsGrid(l.start, Opened(e, l.opening, l.openedAt), l.filling))
    && Splices(Opened(e, l.opening, l.openedAt), l.filling) == 0
    && Resting(Launched(e, l).exec, e.limits, r, Queue(r, 0), 0)
  }

  lemma RisenStarts(e: Executor, r: u32) returns (l: Launch)
    requires e.diag.state == Closed && WithinCaps(BRISK, e.caps, 0) && Room(e.limits, 10) && Phase(r)
    ensures Poised(e, l, r)
  {
    UniformWithin(e.limits, 0, 10);
    UniformWithin(e.limits, 10, 10);
    assert Uniform(0) == ZERO_POSE;
    TwoSteps();
    l := RestingStarts(e, r, Batch(r, 0, 1, 0, 3, Queue(r, 0)));
  }

  lemma TwoSteps()
    ensures StepWithin(ZERO_POSE, Uniform(10), FIVES, 2)
  {
    forall j | 0 <= j < 12 ensures Gap(Uniform(10)[j], ZERO_POSE[j]) <= FIVES[j] * 2 {
      assert ZERO_POSE[j] == 0 && FIVES[j] == 5;
    }
  }

  /** The next output moves every joint there at once. */
  lemma TurnMoves(e: Executor, limits: Limits, r: u32, k: nat, ms: nat)
    requires Phase(r) && Height(r, k) < TWO31 && Arrived(e, limits, r, [Queue(r, k)[1]]) && ms == Height(r, k) - 1
    ensures Awaits(e, Turn(r)) && !MovesWithin(e, Turn(r), ms)
  {
    if k == 0 {
      StepInterpolates(e, Turn(r));
      PartWay(r);
      LerpIsSegment(0, Head(r), Sample(r + 10, Uniform(10)), Turn(r));
    } else {
      StepApplies(e, Turn(r));
    }
    assert Step(e, Turn(r)).2 == Some(Uniform(Height(r, k)));
    assert Gap(Uniform(Height(r, k))[0], Current(e)[0]) == Height(r, k) && FIVES[0] == 5;
  }

  /** From the open, over a run with k splices that refills no empty queue, to a step that breaks a bound. */
  predicate Reaches(e: Executor, l: Launch, events: seq<Event>, now: u32, ms: nat, k: nat, whole: bool) {
    Breaks(e, l, events, now, ms, whole) && NeverRefills(Launched(e, l), events) && AllSplices(e, l, events) == k
  }

  lemma HeightIsReached(e: Executor, r: u32, k: nat, now: u32, ms: nat, whole: bool)
    returns (l: Launch, events: seq<Event>)
    requires now == Turn(r) && Room(e.limits, 5 * k + 10)
    requires e.diag.state == Closed && WithinCaps(BRISK, e.caps, 0) && Phase(r) && whole == (r == 20)
    requires ms + 1 == Height(r, k) < TWO31
    ensures Reaches(e, l, events, now, ms, k, whole)
  {
    RoomBelow(e.limits, Height(r, k), 5 * k + 10);
    RoomBelow(e.limits, 10, 5 * k + 10);
    l := RisenStarts(e, r);
    events := RaisesFrom(r, 0, k);
    PoisedReaches(e, l, r, k, ms, whole, Launched(e, l), events);
  }

  lemma PoisedReaches(e: Executor, l: Launch, r: u32, k: nat, ms: nat, whole: bool, h: History, events: seq<Event>)
    requires Poised(e, l, r) && whole == (r == 20) && ms + 1 == Height(r, k) < TWO31 && Room(e.limits, Height(r, k))
    requires h == Launched(e, l) && events == RaisesFrom(r, 0, k)
    ensures Reaches(e, l, events, Turn(r), ms, k, whole)
  {
    Raises(h, e.limits, r, 0, k, k, events);
    RisenBreaks(e, l, events, Run(h, events), r, k, ms, whole);
  }

  lemma RisenBreaks(e: Executor, l: Launch, events: seq<Event>, last: History, r: u32, k: nat, ms: nat, whole: bool)
    requires Poised(e, l, r) && whole == (r == 20) && ms + 1 == Height(r, k) < TWO31
    requires Rises(Launched(e, l), events, e.limits, r, k, k) && last == Run(Launched(e, l), events)
    ensures Reaches(e, l, events, Turn(r), ms, k, whole)
  {
    TurnMoves(last.exec, e.limits, r, k, ms);
    LeadsToBreak(e, l, events, last, k, whole, true, Turn(r), ms);
  }

  /** The bound over runs of any phase is exact: for every k the limits leave room for there is one with k splices
      whose next output covers more than the rate of 5 k + 8 ms. */
  lemma BoundIsReached(e: Executor, k: nat, ms: nat) returns (l: Launch, events: seq<Event>, now: u32)
    requires e.diag.state == Closed && WithinCaps(BRISK, e.caps, 0)
    requires ms == TICK_MS * k + 8 && 5 * k + 10 < TWO31 && Room(e.limits, 5 * k + 10)
    ensures Reaches(e, l, events, now, ms, k, false)
  {
    now := 30;
    l, events := HeightIsReached(e, 21, k, now, ms, false);
  }

  lemma RoomBelow(limits: Limits, p: int, top: int)
    requires Room(limits, top) && p <= top
    ensures Room(limits, p)
  {
  }

  /** So is the bound on the grid: there is an aligned one whose next output covers more than that of 5 k + 4 ms. */
  lemma AlignedBoundIsReached(e: Executor, k: nat, ms: nat) returns (l: Launch, events: seq<Event>, now: u32)
    requires e.diag.state == Closed && WithinCaps(BRISK, e.caps, 0)
    requires ms == TICK_MS * k + 4 && 5 * k + 10 < TWO31 && Room(e.limits, 5 * k + 10)
    ensures Reaches(e, l, events, now, ms, k, true)
  {
    now := 25;
    l, events := HeightIsReached(e, 20, k, now, ms, true);
  }

  // ---- a refilled queue ----

  /** After an append to an empty running queue no bound holds: for every n there is a target that takes a joint
      further at once than the rate of n ms allows, if the limits leave room for it. */
  lemma RefillBreaksAnyBound(e: Executor, n: nat, to: Pose, j: nat) returns (l: Launch, events: seq<Event>)
    requires e.diag.state == Closed && WithinCaps(BRISK, e.caps, 0)
    requires WithinLimits(e.limits, ZERO_POSE) && WithinLimits(e.limits, to) && j < 12 && Abs(to[j]) > 4 * n + 3
    ensures Breaks(e, l, events, 25, n, true) && AllSplices(e, l, events) == 0
  {
    l := RestingStarts(e, 20, Batch(20, 0, 1, 0, 3, [Head(20)]));
    var h := Launched(e, l);
    var arrived := Waited(h, 0, 20);
    WaitArrives(h, e.limits, 20, [Head(20)], 0, arrived);
    assert [Head(20)][1..] == [];
    var ev := Admission(BatchWire.EncodeBatch(Refill(to)), Append, 20);
    var last := Next(arrived, ev);
    RefillTakes(arrived, e.limits, to, ev, last);
    LeadsNowhere(last, true, false);
    LeadsOn(arrived, ev, last, [], last, 0, 0, true, false);
    events := WaitFrom(0, 20, [ev] + []);
    LeadsByWaiting(h, e.limits, 20, [Head(20)], 0, arrived, [ev] + [], last, 0, true, false);
    RefillMoves(last.exec, to, j, n);
    LeadsToBreak(e, l, events, last, 0, true, false, 25, n);
  }

  function Refill(to: Pose): Batch {
    Batch(40, 0, 1, 0, 3, [Sample(40, to)])
  }

  /** On the way from rest at tick 20 to a target at tick 40. */
  predicate Refilled(e: Executor, to: Pose) {
    && Ready(e) && e.epoch == 0 && e.lastStep == 20 && e.anchor == Head(20)
    && e.session == Session(true, true, BRISK, 1, 0, [Sample(40, to)])
    && e.diag.lastCommandTick == 20 && e.outputValid && e.lastOutput == ZERO_POSE
  }

  lemma RefillIsAdmissible(to: Pose)
    ensures WellFormed(Refill(to)) && Windowed(0, Refill(to).samples) && OnGrid(0, Refill(to).samples)
    ensures Admissible(Session(true, true, BRISK, 1, 0, []), Refill(to), Append, 20)
  {
  }

  lemma RefillTakes(h: History, limits: Limits, to: Pose, ev: Event, next: History)
    requires Arrived(h.exec, limits, 20, []) && WithinLimits(limits, to)
    requires ev == Admission(BatchWire.EncodeBatch(Refill(to)), Append, 20) && next == Next(h, ev)
    ensures Fine(h, ev, true, false) && Splicing(h, ev) == 0 && Refilled(next.exec, to)
  {
    RefillIsAdmissible(to);
    Scenario.BatchTakes(h.exec, Refill(to), Append, 20, next.exec);
    assert [] + Refill(to).samples == [Sample(40, to)];
  }

  lemma RefillMoves(e: Executor, to: Pose, j: nat, n: nat)
    requires Refilled(e, to) && j < 12 && Abs(to[j]) > 4 * n + 3
    ensures Awaits(e, 25) && !MovesWithin(e, 25, n)
  {
    StepInterpolates(e, 25);
    QuarterWay(to[j]);
    assert Step(e, 25).2.value[j] == Between(0, to[j], 5, 20);
    assert Gap(Step(e, 25).2.value[j], Current(e)[j]) > n && FIVES[j] == 5;
  }

  lemma QuarterWay(p: int32)
    ensures 4 * Abs(Between(0, p, 5, 20)) + 3 >= Abs(p)
  {
  }
}
