/** What the v1 command route answers and changes, and how its flags tell the story of a run. */
module RouteCases {
  import opened Words
  import opened SetpointQueue
  import opened BufferedExecutor
  import opened CommandRoute
  import BufferedCases

  /** The batch is a candidate with no flag the route does not know. */
  predicate Understood(f: Flags) {
    f.candidate && !f.unknown
  }

  /** BEGIN on an idle route, no BEGIN on an active one, and at most one START. */
  predicate InTurn(r: Route, f: Flags) {
    (f.begin ==> !r.active) && (!f.begin ==> r.active) && !(f.start && r.startRequested)
  }

  /** The executor would take the batch. */
  predicate Admissible(r: Route, c: CommandRoute.Command, now: u32, lo: u32, hi: u32) {
    var e, s := r.exec, c.samples;
    && BufferedCases.Takes(e) && s != [] && |e.queue| + |s| <= 16 && lo <= hi
    && Faultless(s, if e.queue == [] then now else e.queue[|e.queue| - 1].tick, now, lo, hi, r.limits)
  }

  /** The reply names the first thing wrong: unknown flags, a batch out of turn, or one the executor refuses. */
  lemma ReplyIs(r: Route, c: CommandRoute.Command, request: u32, now: u32, lo: u32, hi: u32)
    ensures RouteAdmit(r, c, request, now, lo, hi).1 ==
      if !Understood(c.flags) then InvalidFlags
      else if !InTurn(r, c.flags) then ReplyBadState
      else if Admissible(r, c, now, lo, hi) then ReplyOk else Rejected
  {
    BufferedCases.AdmitIff(r.exec, c.samples, now, lo, hi, r.limits);
    if Understood(c.flags) && InTurn(r, c.flags) && Admissible(r, c, now, lo, hi) {
      var e := BufferedExecutor.Admit(r.exec, c.samples, now, lo, hi, r.limits).0;
      AdmitGoesOn(r.exec, c.samples, now, lo, hi, r.limits);
      EnactCompletes(r.(exec := e), c.flags, request);
    }
  }

  lemma AdmitGoesOn(e: Executor, s: seq<Sample>, now: u32, lo: u32, hi: u32, limits: Limits)
    requires BufferedExecutor.Admit(e, s, now, lo, hi, limits).1 == OutcomeOk
    ensures var done := BufferedExecutor.Admit(e, s, now, lo, hi, limits).0;
      Accepting(done.diag.state) && !done.diag.inputComplete && done.queue == e.queue + s
  {
  }

  /** An accepted batch for real makes the route active, under the sequence number of its BEGIN; START is remembered
      and END completes the input. A refused one leaves all that alone, and a dry run everything. */
  lemma ChangeIs(r: Route, c: CommandRoute.Command, request: u32, now: u32, lo: u32, hi: u32)
    ensures var (done, reply) := RouteAdmit(r, c, request, now, lo, hi);
      if reply == ReplyOk && !c.flags.validationOnly then
        && done.active && done.sequence == (if c.flags.begin then request else r.sequence)
        && done.startRequested == (r.startRequested || c.flags.start) && done.admitted == Wrap32(r.admitted + 1)
        && done.started == r.started && done.limits == r.limits
        && done.exec.queue == r.exec.queue + c.samples && done.exec.diag.inputComplete == c.flags.end
        && done.exec.diag.state == r.exec.diag.state
      else done == r.(exec := done.exec) && (c.flags.validationOnly ==> done == r)
  {
    ReplyIs(r, c, request, now, lo, hi);
    BufferedCases.AdmitIff(r.exec, c.samples, now, lo, hi, r.limits);
    if Understood(c.flags) && InTurn(r, c.flags) && Admissible(r, c, now, lo, hi) {
      var e := BufferedExecutor.Admit(r.exec, c.samples, now, lo, hi, r.limits).0;
      AdmitGoesOn(r.exec, c.samples, now, lo, hi, r.limits);
      EnactCompletes(r.(exec := e), c.flags, request);
    }
  }

  /** The route starts exactly when it is active, a start was requested and none has succeeded, and then as the
      executor does. */
  lemma StartIs(r: Route, now: u32, measured: Pose)
    ensures var (done, outcome) := RouteStart(r, now, measured);
      if r.active && r.startRequested && !r.started then
        && (done.exec, outcome) == BufferedExecutor.Start(r.exec, now, measured, r.limits)
        && (done.started <==> outcome == OutcomeOk) && done == r.(exec := done.exec, started := done.started)
      else done == r && outcome == BadState
  {
  }

  /** A new route is idle, on a new executor. */
  lemma InitIs(minimumStart: nat, lateLimit: u32, limits: Limits)
    ensures RouteInit(minimumStart, lateLimit, limits).Some? <==> 1 <= minimumStart <= 16
    ensures RouteInit(minimumStart, lateLimit, limits).Some? ==>
      var r := RouteInit(minimumStart, lateLimit, limits).value;
      && Init(minimumStart, lateLimit) == Some(r.exec) && r.limits == limits && r.admitted == 0
      && !r.active && !r.startRequested && !r.started
  {
  }

  // ---- the story of a run ----

  /** A batch accepted for real. */
  predicate Took(entry: (Event, Report)) {
    entry.0.Admission? && !entry.0.command.flags.validationOnly && entry.1 == Replied(ReplyOk)
  }

  predicate TookStart(entry: (Event, Report)) {
    Took(entry) && entry.0.command.flags.start
  }

  predicate DidStart(entry: (Event, Report)) {
    entry.0.Started? && entry.1 == Finished(OutcomeOk, None)
  }

  function Count(log: seq<(Event, Report)>, what: ((Event, Report)) -> bool): nat
    decreases |log|
  {
    if log == [] then 0 else (if what(log[0]) then 1 else 0) + Count(log[1..], what)
  }

  /** The flags of a route are the story of its run: active since a batch was accepted for real, start requested since
      one carried START, started since a start succeeded, and as many admitted, modulo 2^32, as were accepted. */
  predicate Tells(r: Route, log: seq<(Event, Report)>, last: Route) {
    && (last.active <==> r.active || Count(log, Took) > 0)
    && (last.startRequested <==> r.startRequested || Count(log, TookStart) > 0)
    && (last.started <==> r.started || Count(log, DidStart) > 0)
    && last.admitted == Wrap32(r.admitted + Count(log, Took))
  }

  lemma EntryTells(r: Route, ev: Event, next: Route, report: Report)
    requires (next, report) == CommandRoute.Do(r, ev)
    ensures next.active == (r.active || Took((ev, report)))
    ensures next.startRequested == (r.startRequested || TookStart((ev, report)))
    ensures next.started == (r.started || DidStart((ev, report)))
    ensures next.admitted == Wrap32(r.admitted + if Took((ev, report)) then 1 else 0)
  {
    match ev
    case Admission(c, request, now, lo, hi) => ChangeIs(r, c, request, now, lo, hi);
    case Started(now, measured) => StartIs(r, now, measured);
    case _ =>
  }

  lemma CountCons(entry: (Event, Report), log: seq<(Event, Report)>, what: ((Event, Report)) -> bool)
    ensures Count([entry] + log, what) == (if what(entry) then 1 else 0) + Count(log, what)
  {
    assert ([entry] + log)[1..] == log;
  }

  lemma {:induction false} RunTells(r: Route, events: seq<Event>)
    ensures Tells(r, CommandRoute.Run(r, events).1, CommandRoute.Run(r, events).0)
    decreases |events|
  {
    if events != [] {
      var (next, report) := CommandRoute.Do(r, events[0]);
      var (last, rest) := CommandRoute.Run(next, events[1..]);
      EntryTells(r, events[0], next, report);
      RunTells(next, events[1..]);
      LogTells(r, (events[0], report), next, rest, last);
    }
  }

  lemma LogTells(r: Route, entry: (Event, Report), next: Route, rest: seq<(Event, Report)>, last: Route)
    requires Tells(next, rest, last)
    requires next.active == (r.active || Took(entry)) && next.startRequested == (r.startRequested || TookStart(entry))
    requires next.started == (r.started || DidStart(entry))
    requires next.admitted == Wrap32(r.admitted + if Took(entry) then 1 else 0)
    ensures Tells(r, [entry] + rest, last)
  {
    CountCons(entry, rest, Took);
    CountCons(entry, rest, TookStart);
    CountCons(entry, rest, DidStart);
    WrapTwice(r.admitted, if Took(entry) then 1 else 0, Count(rest, Took));
  }

  lemma WrapTwice(x: u32, a: nat, b: nat)
    ensures Wrap32(Wrap32(x + a) + b) == Wrap32(x + (a + b))
  {
    ModShift(x + a + b, -((x + a) / TWO32));
  }
}
