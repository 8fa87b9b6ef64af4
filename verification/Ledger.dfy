/** The books of a v2 stream: every sample accepted is applied, queued or spliced away, whatever the host does. */
module Ledger {
  import opened Words
  import opened StreamContract
  import opened StreamSession
  import opened StreamExecutor
  import opened Schedule
  import opened Soundness
  import Refinement

  /** The executor with the samples its stream has accepted, those it has applied, and those splices replaced. */
  datatype Book = Book(exec: Executor, accepted: seq<Sample>, applied: seq<Sample>, replaced: seq<Sample>)

  /** The entry of one command: a new stream opens a new book, a step may apply the head of the queue, a splice
      may take samples off its end. */
  function Enter(k: Book, c: Command): Book {
    var q := k.exec.session.queue;
    match c
    case OpenStream(payload, now) =>
      var (e, outcome) := Open(k.exec, payload, now);
      if outcome == OutcomeOk then Book(e, [], [], []) else k.(exec := e)
    case AdmitPayload(payload, kind, now) =>
      var (e, outcome) := Admit(k.exec, payload, kind, now);
      if outcome == OutcomeOk then EnterBatch(k, BatchDecode(payload, kind).value, kind, e) else k.(exec := e)
    case StepAt(now) =>
      var e := Step(k.exec, now).0;
      if |e.session.queue| < |q| then k.(exec := e, applied := k.applied + [q[0]]) else k.(exec := e)
    case _ => k.(exec := Do(k.exec, c))
  }

  function EnterBatch(k: Book, b: Batch, kind: Kind, e: Executor): Book {
    var q := k.exec.session.queue;
    k.(exec := e, accepted := k.accepted + b.samples,
       replaced := k.replaced + if kind == Splice then q[RetainedCount(q, b.spliceAt)..] else [])
  }

  function Keep(k: Book, commands: seq<Command>): Book
    decreases |commands|
  {
    if commands == [] then k else Keep(Enter(k, commands[0]), commands[1..])
  }

  /** What was accepted was applied, is queued or was replaced, sample for sample, and the counters, which wrap,
      say so. */
  predicate Balanced(k: Book) {
    var e := k.exec;
    && Settled(k.accepted, k.applied, e.session.queue, k.replaced)
    && e.diag.applied == Wrap32(|k.applied|) && e.diag.accepted == Wrap32(|k.accepted|)
  }

  predicate Settled(accepted: seq<Sample>, applied: seq<Sample>, q: seq<Sample>, replaced: seq<Sample>) {
    multiset(accepted) == multiset(applied) + multiset(q) + multiset(replaced)
  }

  lemma HeadMoves(accepted: seq<Sample>, applied: seq<Sample>, q: seq<Sample>, replaced: seq<Sample>)
    requires q != [] && Settled(accepted, applied, q, replaced)
    ensures Settled(accepted, applied + [q[0]], q[1..], replaced)
  {
    assert q == [q[0]] + q[1..];
  }

  lemma BatchEnters(accepted: seq<Sample>, applied: seq<Sample>, q: seq<Sample>, replaced: seq<Sample>,
                    s: seq<Sample>, n: nat)
    requires n <= |q| && Settled(accepted, applied, q, replaced)
    ensures Settled(accepted + s, applied, q[..n] + s, replaced + q[n..])
  {
    assert q == q[..n] + q[n..];
  }

  lemma AdmissionBalances(k: Book, payload: seq<byte>, kind: Kind, now: u32)
    requires Balanced(k) && Sound(k.exec)
    ensures Balanced(Enter(k, AdmitPayload(payload, kind, now)))
  {
    var done := Admit(k.exec, payload, kind, now).0;
    if Admit(k.exec, payload, kind, now).1 != OutcomeOk {
      RefusedAdmission(k.exec, payload, kind, now);
      SameCounts(k, done);
    } else {
      BatchIsAdmitted(k.exec, payload, kind, now);
      AdmittedBalances(k, BatchDecode(payload, kind).value, kind, now, done);
    }
  }

  lemma SameCounts(k: Book, done: Executor)
    requires Balanced(k) && done.session.queue == k.exec.session.queue
    requires done.diag.applied == k.exec.diag.applied && done.diag.accepted == k.exec.diag.accepted
    ensures Balanced(k.(exec := done))
  {
  }

  lemma BatchIsAdmitted(e: Executor, payload: seq<byte>, kind: Kind, now: u32)
    requires Sound(e) && Admit(e, payload, kind, now).1 == OutcomeOk
    ensures e.session.open && BatchDecode(payload, kind).Accepted? && WellFormed(BatchDecode(payload, kind).value)
    ensures AdmitBatch(e, BatchDecode(payload, kind).value, kind, now) == (Admit(e, payload, kind, now).0, OutcomeOk)
  {
    DecodedIsWellFormed(payload, kind);
  }

  lemma AdmittedBalances(k: Book, b: Batch, kind: Kind, now: u32, done: Executor)
    requires Balanced(k) && k.exec.session.open && WellFormed(b)
    requires AdmitBatch(k.exec, b, kind, now) == (done, OutcomeOk)
    ensures Balanced(EnterBatch(k, b, kind, done))
  {
    AcceptedAdmission(k.exec, b, kind, now);
    AcceptedBatch(k.exec.session, b, kind, now);
    Refinement.WrapAdd(|k.accepted|, |b.samples|);
    var q := k.exec.session.queue;
    var n := if kind == Splice then RetainedCount(q, b.spliceAt) else |q|;
    BatchEnters(k.accepted, k.applied, q, k.replaced, b.samples, n);
    assert q[..|q|] == q && q[|q|..] == [];
  }

  lemma StepBalances(k: Book, now: u32)
    requires Balanced(k)
    ensures Balanced(Enter(k, StepAt(now)))
  {
    var done := Step(k.exec, now).0;
    StepCounts(k.exec, now);
    if |done.session.queue| < |k.exec.session.queue| { HeadIsCounted(k, done); } else { SameCounts(k, done); }
  }

  lemma HeadIsCounted(k: Book, done: Executor)
    requires Balanced(k) && k.exec.session.queue != [] && done.session.queue == k.exec.session.queue[1..]
    requires done.diag.applied == Add32(k.exec.diag.applied, 1) && done.diag.accepted == k.exec.diag.accepted
    ensures Balanced(k.(exec := done, applied := k.applied + [k.exec.session.queue[0]]))
  {
    Refinement.WrapAdd(|k.applied|, 1);
    HeadMoves(k.accepted, k.applied, k.exec.session.queue, k.replaced);
  }

  lemma StepCounts(e: Executor, now: u32)
    ensures Counted(e, Step(e, now).0)
  {
    if e.diag.state == Running && e.anchorValid { AdvanceCounts(e.(lastStep := now, lastStepValid := true), now); }
  }

  /** The head of the queue was applied and counted, or neither queue nor counters were touched. */
  predicate Counted(e: Executor, done: Executor) {
    && done.diag.accepted == e.diag.accepted
    && if |done.session.queue| < |e.session.queue| then
         done.session.queue == e.session.queue[1..] && done.diag.applied == Add32(e.diag.applied, 1)
       else done.session.queue == e.session.queue && done.diag.applied == e.diag.applied
  }

  lemma AdvanceCounts(e: Executor, now: u32)
    ensures Counted(e, Advance(e, now).0)
  {
    if e.session.queue == [] || After(DueTick(e.epoch, e.session.queue[0].tick), now) {
      BetweenCounts(e, now);
    } else {
      DueCounts(e, now, DueTick(e.epoch, e.session.queue[0].tick));
    }
  }

  lemma DueCounts(e: Executor, now: u32, due: u32)
    requires e.session.queue != [] && due == DueTick(e.epoch, e.session.queue[0].tick) && !After(due, now)
    ensures Counted(e, Advance(e, now).0)
  {
    ConsumeCounts(e, Diff(now, due));
  }

  lemma ConsumeCounts(e: Executor, lateness: u32)
    requires e.session.queue != []
    ensures Counted(e, Consume(e, lateness)) && |Consume(e, lateness).session.queue| < |e.session.queue|
    ensures Consume(e, lateness).session == e.session.(queue := e.session.queue[1..])
  {
  }

  lemma BetweenCounts(e: Executor, now: u32)
    requires e.session.queue == [] || After(DueTick(e.epoch, e.session.queue[0].tick), now)
    ensures var done := Advance(e, now).0;
      done.session == e.session && done.diag.accepted == e.diag.accepted && done.diag.applied == e.diag.applied
  {
  }

  lemma CheckBalances(k: Book, c: Command)
    requires Balanced(k) && (c.CheckAll? || c.CheckOne?)
    ensures Balanced(Enter(k, c))
  {
    match c
    case CheckAll(now, measured) => CheckAllBalances(k, now, measured);
    case CheckOne(now, joint, commanded, actual) => CheckOneBalances(k, now, joint, commanded, actual);
  }

  lemma CheckOneBalances(k: Book, now: u32, joint: byte, commanded: int32, actual: int32)
    requires Balanced(k)
    ensures Balanced(k.(exec := CheckJointFeedback(k.exec, now, joint, commanded, actual).0))
  {
    if joint < 12 { Refinement.ObserveFrame(k.exec, now, joint, Gap(commanded, actual)); }
    SameCounts(k, CheckJointFeedback(k.exec, now, joint, commanded, actual).0);
  }

  lemma CheckAllBalances(k: Book, now: u32, measured: Pose)
    requires Balanced(k)
    ensures Balanced(k.(exec := CheckFeedback(k.exec, now, measured).0))
  {
    Refinement.CheckFromFrame(k.exec, now, measured, 0);
    SameCounts(k, CheckFeedback(k.exec, now, measured).0);
  }

  lemma EnterBalances(k: Book, c: Command)
    requires Balanced(k) && Sound(k.exec)
    ensures Balanced(Enter(k, c)) && Sound(Enter(k, c).exec)
  {
    DoIsSound(k.exec, c);
    match c
    case OpenStream(payload, now) => OpenBalances(k, payload, now);
    case AdmitPayload(payload, kind, now) => AdmissionBalances(k, payload, kind, now);
    case StepAt(now) => StepBalances(k, now);
    case StartAt(_, _) =>
    case _ => CheckBalances(k, c);
  }

  lemma OpenBalances(k: Book, payload: seq<byte>, now: u32)
    requires Balanced(k)
    ensures Balanced(Enter(k, OpenStream(payload, now)))
  {
    var (done, outcome) := Open(k.exec, payload, now);
    OpenCounts(k.exec, payload, now);
    if outcome == OutcomeOk { FreshBook(done); } else { SameCounts(k, done); }
  }

  lemma FreshBook(e: Executor)
    requires e.session.queue == [] && e.diag.applied == 0 && e.diag.accepted == 0
    ensures Balanced(Book(e, [], [], []))
  {
  }

  lemma OpenCounts(e: Executor, payload: seq<byte>, now: u32)
    ensures var (done, outcome) := Open(e, payload, now);
      if outcome == OutcomeOk then done.session.queue == [] && done.diag.applied == 0 && done.diag.accepted == 0
      else done.session == e.session && done.diag.applied == e.diag.applied && done.diag.accepted == e.diag.accepted
  {
  }

  lemma {:induction false} KeepBalances(k: Book, commands: seq<Command>)
    requires Balanced(k) && Sound(k.exec)
    ensures Balanced(Keep(k, commands)) && Keep(k, commands).exec == Drive(k.exec, commands)
    decreases |commands|
  {
    if commands != [] {
      EnterBalances(k, commands[0]);
      KeepBalances(Enter(k, commands[0]), commands[1..]);
    }
  }

  /** Conservation: after any commands, at any times, the samples a stream has accepted are, as a multiset, those
      it has applied, those it still holds and those splices replaced, and its counters agree modulo 2^32. */
  lemma SamplesAreConserved(caps: HardCaps, limits: Limits, commands: seq<Command>)
    requires Init(caps, limits).Some?
    ensures var k := Keep(Book(Init(caps, limits).value, [], [], []), commands);
      Balanced(k) && k.exec == Drive(Init(caps, limits).value, commands)
  {
    KeepBalances(Book(Init(caps, limits).value, [], [], []), commands);
  }
}
