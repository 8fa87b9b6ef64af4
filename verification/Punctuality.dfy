/** Streams stepped at every grid time are never late, over whole runs from the open on. */
module Punctuality {
  import opened Words
  import opened StreamExecutor
  import opened StreamContract
  import opened Timeline
  import opened Schedule
  import opened Refinement
  import opened Lifecycle
  import GridRuns

  /** The stream has never been late, and has not been aborted for being late. */
  predicate OnTime(h: History) {
    && Tracked(h) && h.exec.diag.maximumLateness == 0
    && h.exec.diag.reason != MissedApplyTick && h.exec.diag.reason != InvalidTimeline
  }

  lemma NextOnTime(h: History, ev: Event)
    requires OnTime(h) && Lawful(h, ev)
    ensures OnTime(Next(h, ev))
  {
    NextTracked(h, ev);
    match ev
    case Control(now) => if h.exec.diag.state == Running { StepOnSchedule(h.exec, now); }
    case Admission(payload, kind, now) => AdmissionOnTime(h.exec, payload, kind, now);
    case Feedback(now, measured) => CheckFromFrame(h.exec, now, measured, 0);
    case JointFeedback(now, joint, commanded, actual) =>
      if joint < 12 { ObserveFrame(h.exec, now, joint, Gap(commanded, actual)); }
  }

  lemma AdmissionOnTime(e: Executor, payload: seq<byte>, kind: Kind, now: u32)
    requires e.session.open || e.diag.state != Running
    requires e.diag.state != Priming
    ensures var done := Admit(e, payload, kind, now).0;
      done.diag.maximumLateness == e.diag.maximumLateness && done.diag.reason == e.diag.reason
  {
    if Admit(e, payload, kind, now).1 == OutcomeOk {
      DecodedIsWellFormed(payload, kind);
      AcceptedAdmission(e, BatchDecode(payload, kind).value, kind, now);
    } else {
      RefusedAdmission(e, payload, kind, now);
    }
  }

  lemma {:induction false} RunOnTime(h: History, events: seq<Event>)
    requires OnTime(h) && LawfulRun(h, events)
    ensures OnTime(Run(h, events))
    decreases |events|
  {
    if events != [] {
      NextOnTime(h, events[0]);
      RunOnTime(Next(h, events[0]), events[1..]);
    }
  }

  /** On schedule: a stream opened, filled and started with no two samples due together never records a lateness
      and is never aborted for a missed apply tick or an invalid timeline, over any lawful run. */
  lemma StreamIsOnTime(e: Executor, l: Launch, events: seq<Event>)
    requires Launches(e, l) && Spaced(l.start, Filled(e, l).timeline)
    requires LawfulRun(Launched(e, l), events)
    ensures OnTime(Run(Launched(e, l), events))
  {
    LaunchTracked(e, l);
    RunOnTime(Launched(e, l), events);
  }

  /** So does one whose accepted batches lie on the grid, spliced or appended. */
  lemma AlignedStreamIsOnTime(e: Executor, l: Launch, events: seq<Event>)
    requires Launches(e, l) && GridRuns.FillsGrid(l.start, Opened(e, l.opening, l.openedAt), l.filling)
    requires GridRuns.AlignedRun(Launched(e, l), events)
    ensures OnTime(Run(Launched(e, l), events))
  {
    GridRuns.LaunchGridded(e, l);
    GridRuns.RunGridded(Launched(e, l), events);
    RunOnTime(Launched(e, l), events);
  }
}
