/** Histories of the v1 executor: first in, first out, everything counted, and terminal means terminal. */
module Accounting {
  import opened Words
  import opened SetpointQueue
  import opened BufferedExecutor
  import Interpolation

  /** The executor with all samples it ever accepted and applied. */
  datatype History = History(exec: Executor, accepted: seq<Sample>, applied: seq<Sample>)

  /** A step that applies the head of the queue. */
  predicate Applies(e: Executor, now: u32) {
    && e.diag.state == Running && e.anchorValid && e.queue != []
    && IsDue(e.queue[0], now) && Diff(now, e.queue[0].tick) <= e.lateLimit
  }

  function Next(h: History, c: Command, limits: Limits): History {
    var (e, r, output) := Do(h.exec, c, limits);
    History(e,
            if c.AdmitBatch? && r == OutcomeOk then h.accepted + c.samples else h.accepted,
            if c.StepAt? && Applies(h.exec, c.now) then h.applied + [h.exec.queue[0]] else h.applied)
  }

  function Sum(h: seq<u32>): nat
    decreases |h|
  {
    if h == [] then 0 else h[0] + Sum(h[1..])
  }

  predicate AllWithin(limits: Limits, q: seq<Sample>) {
    forall i :: 0 <= i < |q| ==> WithinLimits(limits, q[i].position)
  }

  /** What every history keeps. */
  predicate Balanced(h: History, limits: Limits) {
    var e := h.exec;
    && |e.queue| <= CAPACITY && e.diag.queued == |e.queue| && e.diag.queued <= e.diag.peakQueued <= CAPACITY
    && h.applied <= h.accepted
    && (Accepting(e.diag.state) ==> h.accepted == h.applied + e.queue)
    && (!Accepting(e.diag.state) ==> e.queue == [])
    && e.diag.accepted == Saturate(|h.accepted|) && e.diag.applied == Saturate(|h.applied|)
    && (|h.applied| <= U32_MAX ==> Sum(e.diag.histogram) == |h.applied|)
    && AllWithin(limits, e.queue) && (e.anchorValid ==> WithinLimits(limits, e.anchor.position))
  }

  lemma SumUpdate(h: Histogram, k: nat, v: u32)
    requires k < 6
    ensures Sum(h[k := v]) == Sum(h) - h[k] + v
    ensures h[k] <= Sum(h)
  {
    SumSix(h);
    SumSix(h[k := v]);
  }

  lemma SumSix(h: Histogram)
    ensures Sum(h) == h[0] as int + h[1] as int + h[2] as int + h[3] as int + h[4] as int + h[5] as int
  {
    SumFrom(h, 0);
    SumFrom(h, 1);
    SumFrom(h, 2);
    SumFrom(h, 3);
    SumFrom(h, 4);
    SumFrom(h, 5);
    assert h[0..] == h;
  }

  lemma SumFrom(h: Histogram, i: nat)
    requires i < 6
    ensures Sum(h[i..]) == h[i] + Sum(h[i + 1..])
    ensures Sum(h[6..]) == 0
  {
    assert h[i..][1..] == h[i + 1..];
  }

  /** The lateness of every applied sample lands in exactly one bucket. */
  lemma ConsumeCounts(e: Executor, now: u32)
    requires e.queue != [] && Sum(e.diag.histogram) < U32_MAX
    ensures Sum(Consume(e, now).diag.histogram) == Sum(e.diag.histogram) + 1
  {
    var k := Bucket(Diff(now, e.queue[0].tick));
    SumUpdate(e.diag.histogram, k, Saturate(e.diag.histogram[k] as int + 1));
  }

  lemma FaultlessWithin(s: seq<Sample>, previous: u32, now: u32, lo: u32, hi: u32, limits: Limits)
    requires Faultless(s, previous, now, lo, hi, limits)
    ensures AllWithin(limits, s)
  {
    forall i | 0 <= i < |s| ensures WithinLimits(limits, s[i].position) {
      assert Fits(s[i], TickBefore(s, previous, i), now, lo, hi, limits);
    }
  }

  lemma AdmitBalanced(h: History, c: Command, limits: Limits)
    requires Balanced(h, limits) && c.AdmitBatch?
    ensures Balanced(Next(h, c, limits), limits)
  {
    var (done, r) := Admit(h.exec, c.samples, c.now, c.minimumLead, c.maximumLead, limits);
    AdmitShape(h.exec, c.samples, c.now, c.minimumLead, c.maximumLead, limits);
    if r == OutcomeOk { AcceptedBalanced(h, c.samples, done, limits); }
  }

  /** A refused batch leaves only its verdict; an accepted one is queued whole, counted and within the limits. */
  lemma AdmitShape(e: Executor, s: seq<Sample>, now: u32, lo: u32, hi: u32, limits: Limits)
    requires e.diag.queued == |e.queue| <= e.diag.peakQueued
    ensures var (done, r) := Admit(e, s, now, lo, hi, limits);
      if r != OutcomeOk then done == e.(diag := e.diag.(lastQueueResult := done.diag.lastQueueResult))
      else Accepting(e.diag.state) && !e.diag.inputComplete && Queued(e, s, done) && AllWithin(limits, s)
  {
    if Push(e.queue, s, now, lo, hi, limits).1 == QueueOk {
      FaultlessIff(s, LastTick(e.queue, now), now, lo, hi, limits);
      FaultlessWithin(s, LastTick(e.queue, now), now, lo, hi, limits);
    }
  }

  /** What an accepted batch does to the executor. */
  predicate Queued(e: Executor, s: seq<Sample>, done: Executor) {
    var n := |e.queue| + |s|;
    && n <= CAPACITY
    && done == e.(queue := e.queue + s, diag := e.diag.(
         lastQueueResult := QueueOk, queued := n, peakQueued := if n > e.diag.peakQueued then n else e.diag.peakQueued,
         accepted := Saturate(e.diag.accepted + |s|)))
  }

  lemma AcceptedBalanced(h: History, s: seq<Sample>, done: Executor, limits: Limits)
    requires Balanced(h, limits) && Accepting(h.exec.diag.state) && Queued(h.exec, s, done) && AllWithin(limits, s)
    ensures Balanced(h.(exec := done, accepted := h.accepted + s), limits)
  {
    assert (h.applied + h.exec.queue) + s == h.applied + (h.exec.queue + s);
  }

  /** The history part of applying the head. */
  lemma AppliedPrefix(h: History)
    requires h.accepted == h.applied + h.exec.queue && h.exec.queue != []
    ensures var applied := h.applied + [h.exec.queue[0]];
      h.accepted == applied + h.exec.queue[1..] && applied <= h.accepted
  {
    assert h.exec.queue == [h.exec.queue[0]] + h.exec.queue[1..];
  }

  lemma StepBalanced(h: History, now: u32, limits: Limits)
    requires Balanced(h, limits)
    ensures Balanced(Next(h, StepAt(now), limits), limits)
  {
    var e := h.exec;
    if Applies(e, now) {
      AppliedPrefix(h);
      if |h.applied| < U32_MAX { ConsumeCounts(e, now); }
    }
  }

  /** First in, first out, and nothing lost: in every history the applied samples are a prefix of the accepted
      ones, the rest is in the queue until the stream ends, and counters and lateness buckets agree with that. */
  lemma NextBalanced(h: History, c: Command, limits: Limits)
    requires Balanced(h, limits)
    ensures Balanced(Next(h, c, limits), limits)
  {
    match c
    case AdmitBatch(_, _, _, _) => AdmitBalanced(h, c, limits);
    case StepAt(now) => StepBalanced(h, now, limits);
    case _ => OtherBalanced(h, c, limits);
  }

  lemma OtherBalanced(h: History, c: Command, limits: Limits)
    requires Balanced(h, limits) && !c.AdmitBatch? && !c.StepAt?
    ensures Balanced(Next(h, c, limits), limits)
  {
    match c
    case EndAt(how, now) => EndingBalanced(h, how, now, limits);
    case StartAt(now, measured) => StartBalanced(h, now, measured, limits);
    case MarkComplete =>
  }

  lemma EndingBalanced(h: History, how: Ending, now: u32, limits: Limits)
    requires Balanced(h, limits)
    ensures Balanced(h.(exec := Finish(h.exec, how, now).0), limits)
  {
  }

  lemma StartBalanced(h: History, now: u32, measured: Pose, limits: Limits)
    requires Balanced(h, limits)
    ensures Balanced(h.(exec := Start(h.exec, now, measured, limits).0), limits)
  {
  }

  function Follow(h: History, commands: seq<Command>, limits: Limits): History
    decreases |commands|
  {
    if commands == [] then h else Follow(Next(h, commands[0], limits), commands[1..], limits)
  }

  lemma {:induction false} RunBalanced(h: History, commands: seq<Command>, limits: Limits)
    requires Balanced(h, limits)
    ensures Balanced(Follow(h, commands, limits), limits)
    decreases |commands|
  {
    if commands != [] {
      NextBalanced(h, commands[0], limits);
      RunBalanced(Next(h, commands[0], limits), commands[1..], limits);
    }
  }

  lemma FreshBalanced(minimumStart: nat, lateLimit: u32, limits: Limits)
    requires Init(minimumStart, lateLimit).Some?
    ensures Balanced(History(Init(minimumStart, lateLimit).value, [], []), limits)
  {
    SumSix(ZERO_HISTOGRAM);
  }

  /** Once ended, a stream ignores every command: no state, counter or queue changes again. */
  lemma EndedIsForever(e: Executor, c: Command, limits: Limits)
    requires !Accepting(e.diag.state)
    ensures Do(e, c, limits) == (e, BadState, None)
  {
  }

  lemma {:induction false} EndedRunIsForever(e: Executor, commands: seq<Command>, limits: Limits)
    requires !Accepting(e.diag.state)
    ensures Run(e, commands, limits).0 == e
    decreases |commands|
  {
    if commands != [] { EndedRunIsForever(e, commands[1..], limits); }
  }

  /** Every output of a step is within the limits, called at any time. */
  lemma OutputWithinLimits(h: History, now: u32, limits: Limits)
    requires Balanced(h, limits) && Step(h.exec, now).2.Some?
    ensures WithinLimits(limits, Step(h.exec, now).2.value)
  {
    var e := h.exec;
    var head := e.queue[0];
    if !IsDue(head, now) {
      forall j | 0 <= j < 6
        ensures limits[j].minimum <= Lerp(e.anchor, head, now)[j] <= limits[j].maximum
      {
        JointWithin(e.anchor.position[j], head.position[j], Diff(now, e.anchor.tick), Diff(head.tick, e.anchor.tick));
        assert limits[j].minimum <= e.anchor.position[j] <= limits[j].maximum;
        assert limits[j].minimum <= head.position[j] <= limits[j].maximum;
      }
    }
  }

  lemma JointWithin(p: int32, n: int32, elapsed: u32, span: u32)
    requires 0 < span && elapsed <= span
    ensures LerpJoint(p, n, elapsed, span) == Interpolation.Between(p, n, elapsed, span)
  {
  }

  /** After any run from a fresh executor, outputs are within the limits the batches were checked against. */
  lemma RunOutputsWithinLimits(minimumStart: nat, lateLimit: u32, commands: seq<Command>, now: u32, limits: Limits)
    requires Init(minimumStart, lateLimit).Some?
    ensures var h := Follow(History(Init(minimumStart, lateLimit).value, [], []), commands, limits);
      && Balanced(h, limits)
      && (Step(h.exec, now).2.Some? ==> WithinLimits(limits, Step(h.exec, now).2.value))
  {
    FreshBalanced(minimumStart, lateLimit, limits);
    RunBalanced(History(Init(minimumStart, lateLimit).value, [], []), commands, limits);
    var h := Follow(History(Init(minimumStart, lateLimit).value, [], []), commands, limits);
    if Step(h.exec, now).2.Some? { OutputWithinLimits(h, now, limits); }
  }
}
