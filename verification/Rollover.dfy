/** The v1 executor never notices where on the tick circle it runs. */
module Rollover {
  import opened Words
  import opened SetpointQueue
  import opened BufferedExecutor

  function ShiftSample(s: Sample, k: u32): Sample {
    s.(tick := Add32(s.tick, k))
  }

  function ShiftAll(s: seq<Sample>, k: u32): (r: seq<Sample>)
    ensures |r| == |s|
  {
    seq(|s|, i requires 0 <= i < |s| => ShiftSample(s[i], k))
  }

  /** The executor k ticks later on the circle: only tick fields that the run has set move. */
  function Shift(e: Executor, k: u32): Executor {
    e.(queue := ShiftAll(e.queue, k),
       anchor := if e.anchorValid then ShiftSample(e.anchor, k) else e.anchor,
       diag := e.diag.(
         lastAppliedTick := if e.diag.applied > 0 then Add32(e.diag.lastAppliedTick, k) else e.diag.lastAppliedTick,
         terminalTick := if Accepting(e.diag.state) then e.diag.terminalTick else Add32(e.diag.terminalTick, k)))
  }

  function ShiftCommand(c: Command, k: u32): Command {
    match c
    case AdmitBatch(s, now, lo, hi) => AdmitBatch(ShiftAll(s, k), Add32(now, k), lo, hi)
    case MarkComplete => c
    case StartAt(now, measured) => StartAt(Add32(now, k), measured)
    case StepAt(now) => StepAt(Add32(now, k))
    case EndAt(how, now) => EndAt(how, Add32(now, k))
  }

  function ShiftCommands(c: seq<Command>, k: u32): (r: seq<Command>)
    ensures |r| == |c|
  {
    seq(|c|, i requires 0 <= i < |c| => ShiftCommand(c[i], k))
  }

  /** Ticks are compared by difference or equality only, and both survive a shift. */
  lemma TicksShift(a: u32, b: u32, k: u32)
    ensures Diff(Add32(a, k), Add32(b, k)) == Diff(a, b)
    ensures After(Add32(a, k), Add32(b, k)) == After(a, b)
    ensures Add32(a, k) == Add32(b, k) <==> a == b
  {
  }

  lemma {:induction false} FaultShifts(s: seq<Sample>, previous: u32, now: u32, lo: u32, hi: u32, limits: Limits,
                                       k: u32)
    ensures Fault(ShiftAll(s, k), Add32(previous, k), Add32(now, k), lo, hi, limits) ==
            Fault(s, previous, now, lo, hi, limits)
    decreases |s|
  {
    if s != [] {
      TicksShift(s[0].tick, now, k);
      TicksShift(s[0].tick, previous, k);
      assert ShiftAll(s, k)[1..] == ShiftAll(s[1..], k);
      FaultShifts(s[1..], s[0].tick, now, lo, hi, limits, k);
    }
  }

  lemma PushShifts(q: seq<Sample>, s: seq<Sample>, now: u32, lo: u32, hi: u32, limits: Limits, k: u32)
    ensures var (q', r) := Push(q, s, now, lo, hi, limits);
      Push(ShiftAll(q, k), ShiftAll(s, k), Add32(now, k), lo, hi, limits) == (ShiftAll(q', k), r)
  {
    FaultShifts(s, LastTick(q, now), now, lo, hi, limits, k);
    assert ShiftAll(q + s, k) == ShiftAll(q, k) + ShiftAll(s, k);
  }

  lemma AdmitShifts(e: Executor, s: seq<Sample>, now: u32, lo: u32, hi: u32, limits: Limits, k: u32)
    ensures var (f, r) := Admit(e, s, now, lo, hi, limits);
      Admit(Shift(e, k), ShiftAll(s, k), Add32(now, k), lo, hi, limits) == (Shift(f, k), r)
  {
    PushShifts(e.queue, s, now, lo, hi, limits, k);
  }

  lemma StartShifts(e: Executor, now: u32, measured: Pose, limits: Limits, k: u32)
    ensures var (f, r) := Start(e, now, measured, limits);
      Start(Shift(e, k), Add32(now, k), measured, limits) == (Shift(f, k), r)
  {
    if e.queue != [] { TicksShift(e.queue[0].tick, now, k); }
  }

  lemma FinishShifts(e: Executor, how: Ending, now: u32, k: u32)
    ensures var (f, r) := Finish(e, how, now);
      Finish(Shift(e, k), how, Add32(now, k)) == (Shift(f, k), r)
  {
    assert ShiftAll([], k) == [];
  }

  lemma ConsumeShifts(e: Executor, now: u32, k: u32)
    requires e.queue != [] && e.anchorValid && Accepting(e.diag.state)
    ensures Consume(Shift(e, k), Add32(now, k)) == Shift(Consume(e, now), k)
  {
    TicksShift(now, e.queue[0].tick, k);
    assert ShiftAll(e.queue, k)[1..] == ShiftAll(e.queue[1..], k);
  }

  lemma LerpShifts(a: Sample, b: Sample, t: u32, k: u32)
    requires Diff(b.tick, a.tick) > 0
    ensures Diff(ShiftSample(b, k).tick, ShiftSample(a, k).tick) > 0
    ensures Lerp(ShiftSample(a, k), ShiftSample(b, k), Add32(t, k)) == Lerp(a, b, t)
  {
    TicksShift(b.tick, a.tick, k);
    TicksShift(t, a.tick, k);
  }

  lemma StepShifts(e: Executor, now: u32, k: u32)
    ensures var (f, r, output) := Step(e, now);
      Step(Shift(e, k), Add32(now, k)) == (Shift(f, k), r, output)
  {
    assert ShiftAll([], k) == [];
    if e.diag.state == Running && e.anchorValid && e.queue != [] {
      TicksShift(now, e.queue[0].tick, k);
      if IsDue(e.queue[0], now) {
        DueShifts(e, now, k);
      } else {
        BetweenShifts(e, now, k);
      }
    }
  }

  lemma DueShifts(e: Executor, now: u32, k: u32)
    requires e.diag.state == Running && e.anchorValid && e.queue != [] && IsDue(e.queue[0], now)
    ensures var (f, r, output) := Step(e, now);
      Step(Shift(e, k), Add32(now, k)) == (Shift(f, k), r, output)
  {
    assert ShiftAll([], k) == [];
    TicksShift(now, e.queue[0].tick, k);
    ConsumeShifts(e, now, k);
  }

  lemma BetweenShifts(e: Executor, now: u32, k: u32)
    requires e.diag.state == Running && e.anchorValid && e.queue != [] && !IsDue(e.queue[0], now)
    ensures var (f, r, output) := Step(e, now);
      Step(Shift(e, k), Add32(now, k)) == (Shift(f, k), r, output)
  {
    var head := e.queue[0];
    assert ShiftAll([], k) == [];
    TicksShift(now, head.tick, k);
    TicksShift(now, e.anchor.tick, k);
    TicksShift(head.tick, e.anchor.tick, k);
    if now == e.anchor.tick || After(now, e.anchor.tick) { LerpShifts(e.anchor, head, now, k); }
  }

  lemma DoShifts(e: Executor, c: Command, limits: Limits, k: u32)
    ensures var (f, r, output) := Do(e, c, limits);
      Do(Shift(e, k), ShiftCommand(c, k), limits) == (Shift(f, k), r, output)
  {
    match c
    case AdmitBatch(s, now, lo, hi) => AdmitShifts(e, s, now, lo, hi, limits, k);
    case MarkComplete =>
    case StartAt(now, measured) => StartShifts(e, now, measured, limits, k);
    case StepAt(now) => StepShifts(e, now, k);
    case EndAt(how, now) => FinishShifts(e, how, now, k);
  }

  /** Rollover transparency: a run shifted by any number of ticks, past the wrap or not, gives the same results
      and outputs, and leaves the same executor with its set tick fields shifted. */
  lemma {:induction false} RunShifts(e: Executor, commands: seq<Command>, limits: Limits, k: u32)
    ensures var (f, results) := Run(e, commands, limits);
      Run(Shift(e, k), ShiftCommands(commands, k), limits) == (Shift(f, k), results)
    decreases |commands|
  {
    if commands != [] {
      DoShifts(e, commands[0], limits, k);
      assert ShiftCommands(commands, k)[1..] == ShiftCommands(commands[1..], k);
      RunShifts(Do(e, commands[0], limits).0, commands[1..], limits, k);
    }
  }

  /** In particular a fresh executor is the same wherever it starts. */
  lemma FreshRunShifts(minimumStart: nat, lateLimit: u32, commands: seq<Command>, limits: Limits, k: u32)
    requires Init(minimumStart, lateLimit).Some?
    ensures var e := Init(minimumStart, lateLimit).value;
      Run(e, ShiftCommands(commands, k), limits).1 == Run(e, commands, limits).1
  {
    var e := Init(minimumStart, lateLimit).value;
    assert ShiftAll([], k) == [] && Shift(e, k) == e;
    RunShifts(e, commands, limits, k);
  }
}
