/** The v1 command route: flags on top of the executor, dry runs and all-or-nothing admission. */
module CommandRoute {
  import opened Words
  import opened SetpointQueue
  import opened BufferedExecutor
  import Accounting
  import BufferedObject

  /** The frame flags by bit; `unknown` stands for all bits outside the flag mask. */
  datatype Flags = Flags(
    validationOnly: bool, candidate: bool, begin: bool, start: bool, end: bool, unknown: bool)

  datatype Command = Command(flags: Flags, samples: seq<Sample>)

  datatype Reply = ReplyOk | InvalidFlags | ReplyBadState | Rejected

  datatype Route = Route(
    exec: Executor, limits: Limits, sequence: u32, admitted: u32, active: bool, startRequested: bool, started: bool)

  predicate FlagsKnown(f: Flags) {
    f.candidate && !f.unknown
  }

  /** BEGIN opens a trajectory, everything else needs one, and START comes once. */
  predicate FlagsFit(r: Route, f: Flags) {
    f.begin != r.active && !(f.start && r.startRequested)
  }

  function RouteAdmit(r: Route, c: Command, request: u32, now: u32, minimumLead: u32, maximumLead: u32)
    : (Route, Reply)
  {
    if !FlagsKnown(c.flags) then (r, InvalidFlags)
    else if !FlagsFit(r, c.flags) then (r, ReplyBadState)
    else
      var (e, outcome) := BufferedExecutor.Admit(r.exec, c.samples, now, minimumLead, maximumLead, r.limits);
      if c.flags.validationOnly then (r, if outcome == OutcomeOk then ReplyOk else Rejected)
      else if outcome != OutcomeOk then (r.(exec := e), Rejected)
      else Enact(r.(exec := e), c.flags, request)
  }

  /** What the flags of an admitted batch do to the route. */
  function Enact(r: Route, f: Flags, request: u32): (Route, Reply) {
    var noted := r.(active := r.active || f.begin,
                    sequence := if f.begin then request else r.sequence,
                    startRequested := r.startRequested || f.start);
    if f.end then
      var (e, ended) := Complete(r.exec);
      if ended != OutcomeOk then (noted, ReplyBadState)
      else (noted.(exec := e, admitted := Add32(r.admitted, 1)), ReplyOk)
    else (noted.(admitted := Add32(r.admitted, 1)), ReplyOk)
  }

  function RouteStart(r: Route, now: u32, measured: Pose): (Route, Outcome) {
    if !r.active || !r.startRequested || r.started then (r, BadState)
    else
      var (e, outcome) := BufferedExecutor.Start(r.exec, now, measured, r.limits);
      (r.(exec := e, started := r.started || outcome == OutcomeOk), outcome)
  }

  function RouteInit(minimumStart: nat, lateLimit: u32, limits: Limits): Option<Route> {
    match Init(minimumStart, lateLimit)
    case None => None
    case Some(e) => Some(Route(e, limits, 0, 0, false, false, false))
  }

  // ---- all or nothing ----

  /** The reported queue depth is the depth, and has been seen by the peak. */
  predicate DepthCounted(e: Executor) {
    e.diag.queued == |e.queue| <= e.diag.peakQueued
  }

  /** A batch that ends the input is never half applied: once its samples are admitted, marking the input
      complete cannot fail. So a bad-state reply leaves the route as it was, and a rejected batch leaves no
      trace but the queue's verdict. */
  lemma AdmissionIsAtomic(r: Route, c: Command, request: u32, now: u32, lo: u32, hi: u32)
    requires DepthCounted(r.exec)
    ensures Atomic(r, c, RouteAdmit(r, c, request, now, lo, hi).0, RouteAdmit(r, c, request, now, lo, hi).1)
  {
    Accounting.AdmitShape(r.exec, c.samples, now, lo, hi, r.limits);
    var (e, outcome) := BufferedExecutor.Admit(r.exec, c.samples, now, lo, hi, r.limits);
    if outcome == OutcomeOk { EnactCompletes(r.(exec := e), c.flags, request); }
  }

  /** Marking the input complete cannot fail while the executor accepts commands. */
  lemma EnactCompletes(r: Route, f: Flags, request: u32)
    requires Accepting(r.exec.diag.state) && !r.exec.diag.inputComplete
    ensures var (done, reply) := Enact(r, f, request);
      && reply == ReplyOk && done.exec == r.exec.(diag := r.exec.diag.(inputComplete := f.end))
      && done.admitted == Add32(r.admitted, 1)
  {
  }

  predicate Atomic(r: Route, c: Command, done: Route, reply: Reply) {
    && (reply == ReplyBadState ==> done == r)
    && (reply != ReplyOk ==>
          done == r.(exec := r.exec.(diag := r.exec.diag.(lastQueueResult := done.exec.diag.lastQueueResult))))
    && (reply == ReplyOk && !c.flags.validationOnly ==>
          && done.exec.queue == r.exec.queue + c.samples
          && done.admitted == Add32(r.admitted, 1)
          && (c.flags.end <==> done.exec.diag.inputComplete))
  }

  /** So it is at the end of every run from a fresh route. */
  lemma EveryAdmissionIsAtomic(minimumStart: nat, lateLimit: u32, limits: Limits, events: seq<Event>,
                               c: Command, request: u32, now: u32, lo: u32, hi: u32)
    requires RouteInit(minimumStart, lateLimit, limits).Some?
    ensures var r := Run(RouteInit(minimumStart, lateLimit, limits).value, events).0;
      Atomic(r, c, RouteAdmit(r, c, request, now, lo, hi).0, RouteAdmit(r, c, request, now, lo, hi).1)
  {
    var idle := RouteInit(minimumStart, lateLimit, limits).value;
    RunKeepsDepth(idle, events);
    AdmissionIsAtomic(Run(idle, events).0, c, request, now, lo, hi);
  }

  // ---- validation-only batches ----

  datatype Event =
    | Admission(command: Command, request: u32, now: u32, minimumLead: u32, maximumLead: u32)
    | Started(now: u32, measured: Pose)
    | Stepped(now: u32)
    | Ended(how: Ending, now: u32)

  datatype Report = Replied(reply: Reply) | Finished(outcome: Outcome, output: Option<Pose>)

  function Do(r: Route, ev: Event): (Route, Report) {
    match ev
    case Admission(c, request, now, lo, hi) =>
      var (done, reply) := RouteAdmit(r, c, request, now, lo, hi);
      (done, Replied(reply))
    case Started(now, measured) =>
      var (done, outcome) := RouteStart(r, now, measured);
      (done, Finished(outcome, None))
    case Stepped(now) =>
      var (e, outcome, output) := Step(r.exec, now);
      (r.(exec := e), Finished(outcome, output))
    case Ended(how, now) =>
      var (e, outcome) := Finish(r.exec, how, now);
      (r.(exec := e), Finished(outcome, None))
  }

  lemma {:induction false} RunKeepsDepth(r: Route, events: seq<Event>)
    requires DepthCounted(r.exec)
    ensures DepthCounted(Run(r, events).0.exec)
    decreases |events|
  {
    if events != [] {
      DoKeepsDepth(r, events[0]);
      RunKeepsDepth(Do(r, events[0]).0, events[1..]);
    }
  }

  lemma DoKeepsDepth(r: Route, ev: Event)
    requires DepthCounted(r.exec)
    ensures DepthCounted(Do(r, ev).0.exec)
  {
    match ev
    case Admission(c, request, now, lo, hi) => AdmitKeepsDepth(r, c, request, now, lo, hi);
    case Stepped(now) => StepKeepsDepth(r.exec, now);
    case _ =>
  }

  lemma AdmitKeepsDepth(r: Route, c: Command, request: u32, now: u32, lo: u32, hi: u32)
    requires DepthCounted(r.exec)
    ensures DepthCounted(RouteAdmit(r, c, request, now, lo, hi).0.exec)
  {
    BatchKeepsDepth(r.exec, c.samples, now, lo, hi, r.limits);
  }

  lemma BatchKeepsDepth(e: Executor, s: seq<Sample>, now: u32, lo: u32, hi: u32, limits: Limits)
    requires DepthCounted(e)
    ensures DepthCounted(BufferedExecutor.Admit(e, s, now, lo, hi, limits).0)
  {
    Accounting.AdmitShape(e, s, now, lo, hi, limits);
  }

  lemma StepKeepsDepth(e: Executor, now: u32)
    requires DepthCounted(e)
    ensures DepthCounted(Step(e, now).0)
  {
  }

  predicate DryRun(ev: Event) {
    ev.Admission? && ev.command.flags.validationOnly
  }

  /** The reports of a run, each with its event, and where it leaves the route. */
  function Run(r: Route, events: seq<Event>): (Route, seq<(Event, Report)>)
    decreases |events|
  {
    if events == [] then (r, [])
    else
      var (next, report) := Do(r, events[0]);
      var (last, rest) := Run(next, events[1..]);
      (last, [(events[0], report)] + rest)
  }

  function WithoutDryRuns(events: seq<Event>): seq<Event>
    decreases |events|
  {
    if events == [] then []
    else (if DryRun(events[0]) then [] else [events[0]]) + WithoutDryRuns(events[1..])
  }

  function RealReports(reports: seq<(Event, Report)>): seq<(Event, Report)>
    decreases |reports|
  {
    if reports == [] then []
    else (if DryRun(reports[0].0) then [] else [reports[0]]) + RealReports(reports[1..])
  }

  /** A validation-only batch changes nothing, and its reply is what the same batch would get for real. */
  lemma DryRunChangesNothing(r: Route, c: Command, request: u32, now: u32, lo: u32, hi: u32)
    requires c.flags.validationOnly
    ensures RouteAdmit(r, c, request, now, lo, hi).0 == r
    ensures var wet := c.(flags := c.flags.(validationOnly := false));
      RouteAdmit(r, c, request, now, lo, hi).1 == RouteAdmit(r, wet, request, now, lo, hi).1
  {
  }

  /** Erasure: taking every validation-only batch out of a run changes no other report and not the outcome. */
  lemma {:induction false} DryRunsErase(r: Route, events: seq<Event>)
    ensures var (last, reports) := Run(r, events);
      Run(r, WithoutDryRuns(events)) == (last, RealReports(reports))
    decreases |events|
  {
    if events != [] {
      var (next, report) := Do(r, events[0]);
      var (last, rest) := Run(next, events[1..]);
      DryRunsErase(next, events[1..]);
      var kept := WithoutDryRuns(events[1..]);
      assert ([(events[0], report)] + rest)[1..] == rest;
      if DryRun(events[0]) {
        assert [] + kept == kept && [] + RealReports(rest) == RealReports(rest);
      } else {
        assert ([events[0]] + kept)[1..] == kept;
      }
    }
  }

  // ---- the route as the firmware keeps it ----

  class Router {
    const machine: BufferedObject.Machine
    var limits: Limits
    var sequence: u32
    var admitted: u32
    var active: bool
    var startRequested: bool
    var started: bool

    ghost predicate Valid()
      reads this, machine, machine.queue
    {
      machine.Valid()
    }

    ghost function View(): Route
      requires Valid()
      reads this, machine, machine.queue, machine.queue.samples
    {
      Route(machine.View(), limits, sequence, admitted, active, startRequested, started)
    }

    constructor (jointLimits: Limits)
      ensures Valid() && fresh(machine) && fresh(machine.queue) && fresh(machine.queue.samples)
      ensures limits == jointLimits && !active && !startRequested && !started && admitted == 0
    {
      machine := new BufferedObject.Machine();
      limits, sequence, admitted, active, startRequested, started := jointLimits, 0, 0, false, false, false;
    }

    /** The dry run: queue and diagnostics are saved, the batch is admitted, and both are put back. */
    method Rehearse(s: seq<Sample>, now: u32, minimumLead: u32, maximumLead: u32) returns (reply: Reply)
      requires Valid()
      modifies machine, machine.queue, machine.queue.samples
      ensures Valid() && View() == old(View())
      ensures var outcome := BufferedExecutor.Admit(old(machine.View()), s, now, minimumLead, maximumLead, limits).1;
        reply == if outcome == OutcomeOk then ReplyOk else Rejected
    {
      var queue := machine.queue;
      ghost var before := queue.Contents();
      var savedSamples, savedHead, savedCount := queue.samples[..], queue.head, queue.count;
      var savedDiagnostics := machine.diag;
      var outcome := machine.AdmitSamples(s, now, minimumLead, maximumLead, limits);
      forall i | 0 <= i < CAPACITY {
        queue.samples[i] := savedSamples[i];
      }
      queue.head, queue.count := savedHead, savedCount;
      machine.diag := savedDiagnostics;
      assert queue.samples[..] == savedSamples;
      assert queue.Contents() == before;
      reply := if outcome == OutcomeOk then ReplyOk else Rejected;
    }

    method AdmitCommand(c: Command, request: u32, now: u32, minimumLead: u32, maximumLead: u32) returns (reply: Reply)
      requires Valid()
      modifies this, machine, machine.queue, machine.queue.samples
      ensures Valid() && (View(), reply) == RouteAdmit(old(View()), c, request, now, minimumLead, maximumLead)
    {
      var begin, start := c.flags.begin, c.flags.start;
      if !c.flags.candidate || c.flags.unknown {
        return InvalidFlags;
      }
      if (begin && active) || (!begin && !active) || (start && startRequested) {
        return ReplyBadState;
      }
      if c.flags.validationOnly {
        reply := Rehearse(c.samples, now, minimumLead, maximumLead);
        return;
      }
      var outcome := machine.AdmitSamples(c.samples, now, minimumLead, maximumLead, limits);
      if outcome != OutcomeOk {
        return Rejected;
      }
      reply := EnactFlags(c.flags, request);
    }

    method EnactFlags(f: Flags, request: u32) returns (reply: Reply)
      requires Valid()
      modifies this, machine`diag
      ensures Valid() && (View(), reply) == Enact(old(View()), f, request)
    {
      if f.begin {
        active := true;
        sequence := request;
      }
      if f.start {
        startRequested := true;
      }
      if f.end {
        var outcome := machine.MarkInputComplete();
        if outcome != OutcomeOk {
          return ReplyBadState;
        }
      }
      admitted := Add32(admitted, 1);
      reply := ReplyOk;
    }

    method StartFrom(now: u32, measured: Pose) returns (outcome: Outcome)
      requires Valid()
      modifies this, machine
      ensures Valid() && (View(), outcome) == RouteStart(old(View()), now, measured)
    {
      if !active || !startRequested || started {
        return BadState;
      }
      outcome := machine.StartFrom(now, measured, limits);
      if outcome == OutcomeOk {
        started := true;
      }
    }
  }
}
