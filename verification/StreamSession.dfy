/** The v2 stream session: the validated queue, what opens it and what changes it. */
module StreamSession {
  import opened Words
  import opened StreamContract

  datatype Status =
    | StatusOk | ContractRejected | NotOpen | QueueOverflow | SplicePositionUnavailable | ValidationOnly

  datatype Session = Session(
    open: bool, epochEstablished: bool, policy: Policy, epoch: u32, horizon: u32, queue: seq<Sample>)

  const CLOSED_SESSION := Session(false, false, ZERO_POLICY, 0, 0, [])

  datatype Result = Result(status: Status, contract: Contract)

  // ---- interpolation ----

  /** One joint between p and n as the firmware computes it: 64-bit product, quotient cast to 32 bits. */
  function LerpJoint(p: int32, n: int32, elapsed: u32, span: u32): int32
    requires span > 0
  {
    ToInt32(p + ToInt32(TruncDiv((n - p as int) * elapsed, span)))
  }

  function Lerp(a: Sample, b: Sample, t: u32): Pose
    requires Diff(b.tick, a.tick) > 0
  {
    seq(12, j requires 0 <= j < 12 =>
      LerpJoint(a.position[j], b.position[j], Diff(t, a.tick), Diff(b.tick, a.tick)))
  }

  /** The queued position at a tick, when the queue determines one. */
  function Interpolate(q: seq<Sample>, t: u32): Option<Pose> {
    if q == [] then None
    else if q[0].tick == t then Some(q[0].position)
    else if |q| > 1 && After(t, q[0].tick) && After(q[1].tick, t) then
      assert Diff(q[1].tick, q[0].tick) > 0;
      Some(Lerp(q[0], q[1], t))
    else Interpolate(q[1..], t)
  }

  // ---- commands ----

  function SessionOpen(s: Session, payload: seq<byte>, caps: HardCaps, now: u32): (Session, Result) {
    match PolicyDecode(payload)
    case Rejected(why) => (s, Result(ContractRejected, why))
    case Accepted(policy) =>
      var verdict := PolicyValidate(policy, caps, now);
      if verdict != ContractOk then (s, Result(ContractRejected, verdict))
      else (Session(true, false, policy, 0, policy.horizon, []), Result(ValidationOnly, ContractOk))
  }

  /** How many samples at the front of the queue come before a tick. */
  function RetainedCount(q: seq<Sample>, t: u32): (n: nat)
    ensures n <= |q|
  {
    if q == [] || !After(t, q[0].tick) then 0 else 1 + RetainedCount(q[1..], t)
  }

  /** The part of the queue a batch leaves in place. */
  function Retained(q: seq<Sample>, kind: Kind, spliceAt: u32): seq<Sample> {
    if kind == Splice then q[..RetainedCount(q, spliceAt)] else q
  }

  function LastTick(s: Session, now: u32): u32 {
    if |s.queue| > 0 then s.queue[|s.queue| - 1].tick else now
  }

  /** What the contract says of a decoded batch in the present state of an open session. */
  function BatchVerdict(s: Session, b: Batch, kind: Kind, now: u32, at: Pose): Contract
    requires 0 < |b.samples| <= WIRE_MAX_SAMPLES
  {
    ValidateTransition(b, kind, s.policy, now, if s.epochEstablished then s.epoch else b.epoch,
                       s.horizon, LastTick(s, now), at)
  }

  function SessionApply(s: Session, b: Batch, kind: Kind, now: u32): (Session, Result)
    requires 0 < |b.samples| <= WIRE_MAX_SAMPLES
  {
    var at := if kind == Splice then Interpolate(s.queue, b.spliceAt) else Some(ZERO_POSE);
    if at == None then (s, Result(SplicePositionUnavailable, ContractOk))
    else
      var verdict := BatchVerdict(s, b, kind, now, at.value);
      var kept := Retained(s.queue, kind, b.spliceAt);
      if verdict != ContractOk then (s, Result(ContractRejected, verdict))
      else if |kept| + |b.samples| > QUEUE_CAPACITY then (s, Result(QueueOverflow, ContractOk))
      else (s.(epochEstablished := true, epoch := b.epoch, horizon := b.horizon, queue := kept + b.samples),
            Result(ValidationOnly, ContractOk))
  }

  function SessionBatch(s: Session, payload: seq<byte>, kind: Kind, now: u32): (Session, Result) {
    if !s.open then (s, Result(NotOpen, ContractOk))
    else match BatchDecode(payload, kind)
      case Rejected(why) => (s, Result(ContractRejected, why))
      case Accepted(b) => SessionApply(s, b, kind, now)
  }
}
