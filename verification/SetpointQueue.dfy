/** The v1 setpoint queue: a ring of sixteen slots that refines a sequence. */
module SetpointQueue {
  import opened Words

  const JOINTS: nat := 6
  const CAPACITY: nat := 16

  type Pose = p: seq<int32> | |p| == 6 witness [0, 0, 0, 0, 0, 0]

  const ZERO_POSE: Pose := [0, 0, 0, 0, 0, 0]

  datatype Sample = Sample(tick: u32, position: Pose)

  datatype Limit = Limit(minimum: int32, maximum: int32)

  type Limits = l: seq<Limit> | |l| == 6
    witness [Limit(0, 0), Limit(0, 0), Limit(0, 0), Limit(0, 0), Limit(0, 0), Limit(0, 0)]

  datatype QueueResult =
    | QueueOk | Empty | NotDue | NullArgument | CapacityExceeded | StaleTick | TickTooFar
    | NonMonotonic | LimitViolation

  predicate WithinLimits(limits: Limits, p: Pose) {
    forall j :: 0 <= j < 6 ==> limits[j].minimum <= p[j] <= limits[j].maximum
  }

  /** The first fault of a batch, sample by sample, given the tick before it. */
  function Fault(s: seq<Sample>, previous: u32, now: u32, minimumLead: u32, maximumLead: u32, limits: Limits)
    : QueueResult
    decreases |s|
  {
    if s == [] then QueueOk
    else
      var lead := Diff(s[0].tick, now);
      if !After(s[0].tick, now) || lead < minimumLead then StaleTick
      else if lead > maximumLead then TickTooFar
      else if !After(s[0].tick, previous) then NonMonotonic
      else if !WithinLimits(limits, s[0].position) then LimitViolation
      else Fault(s[1..], s[0].tick, now, minimumLead, maximumLead, limits)
  }

  /** A sample with its lead in the window, after the tick before it and within the limits. */
  predicate Fits(x: Sample, previous: u32, now: u32, minimumLead: u32, maximumLead: u32, limits: Limits) {
    && After(x.tick, now) && minimumLead <= Diff(x.tick, now) <= maximumLead
    && After(x.tick, previous) && WithinLimits(limits, x.position)
  }

  /** The tick before sample i. */
  function TickBefore(s: seq<Sample>, previous: u32, i: nat): u32
    requires i < |s|
  {
    if i == 0 then previous else s[i - 1].tick
  }

  /** A batch without a fault: every sample fits, not just the first and the last. */
  predicate Faultless(s: seq<Sample>, previous: u32, now: u32, minimumLead: u32, maximumLead: u32, limits: Limits) {
    forall i :: 0 <= i < |s| ==> Fits(s[i], TickBefore(s, previous, i), now, minimumLead, maximumLead, limits)
  }

  lemma FaultlessCons(s: seq<Sample>, rest: seq<Sample>, previous: u32, now: u32, lo: u32, hi: u32, limits: Limits)
    requires s != [] && rest == s[1..]
    ensures Faultless(s, previous, now, lo, hi, limits) <==>
      Fits(s[0], previous, now, lo, hi, limits) && Faultless(rest, s[0].tick, now, lo, hi, limits)
  {
    if Faultless(s, previous, now, lo, hi, limits) {
      forall i | 0 <= i < |rest| ensures Fits(rest[i], TickBefore(rest, s[0].tick, i), now, lo, hi, limits) {
        assert Fits(s[i + 1], TickBefore(s, previous, i + 1), now, lo, hi, limits);
      }
    }
    if Fits(s[0], previous, now, lo, hi, limits) && Faultless(rest, s[0].tick, now, lo, hi, limits) {
      forall i | 0 < i < |s| ensures Fits(s[i], TickBefore(s, previous, i), now, lo, hi, limits) {
        assert Fits(rest[i - 1], TickBefore(rest, s[0].tick, i - 1), now, lo, hi, limits);
      }
    }
  }

  lemma {:induction false} FaultlessIff(s: seq<Sample>, previous: u32, now: u32, lo: u32, hi: u32, limits: Limits)
    ensures Fault(s, previous, now, lo, hi, limits) == QueueOk <==> Faultless(s, previous, now, lo, hi, limits)
    decreases |s|
  {
    if s != [] {
      FaultlessCons(s, s[1..], previous, now, lo, hi, limits);
      FaultlessIff(s[1..], s[0].tick, now, lo, hi, limits);
    }
  }

  function LastTick(q: seq<Sample>, now: u32): u32 {
    if q == [] then now else q[|q| - 1].tick
  }

  function Push(q: seq<Sample>, s: seq<Sample>, now: u32, minimumLead: u32, maximumLead: u32, limits: Limits)
    : (seq<Sample>, QueueResult)
  {
    if s == [] then (q, NullArgument)
    else if |q| + |s| > CAPACITY then (q, CapacityExceeded)
    else if minimumLead > maximumLead then (q, TickTooFar)
    else
      var fault := Fault(s, LastTick(q, now), now, minimumLead, maximumLead, limits);
      if fault != QueueOk then (q, fault) else (q + s, QueueOk)
  }

  function TakeDue(q: seq<Sample>, now: u32): (seq<Sample>, QueueResult) {
    if q == [] then (q, Empty)
    else if q[0].tick != now then (q, if After(q[0].tick, now) then NotDue else StaleTick)
    else (q[1..], QueueOk)
  }

  /** The validation loop of `push_batch`, which carries the tick before each sample. */
  method FindFault(s: seq<Sample>, before: u32, now: u32, minimumLead: u32, maximumLead: u32, limits: Limits)
    returns (fault: QueueResult)
    ensures fault == Fault(s, before, now, minimumLead, maximumLead, limits)
  {
    var previous := before;
    for index := 0 to |s|
      invariant Fault(s[index..], previous, now, minimumLead, maximumLead, limits) ==
                Fault(s, before, now, minimumLead, maximumLead, limits)
    {
      assert s[index..][0] == s[index] && s[index..][1..] == s[index + 1..];
      var lead := Diff(s[index].tick, now);
      if !After(s[index].tick, now) || lead < minimumLead {
        return StaleTick;
      }
      if lead > maximumLead {
        return TickTooFar;
      }
      if !After(s[index].tick, previous) {
        return NonMonotonic;
      }
      if !WithinLimits(limits, s[index].position) {
        return LimitViolation;
      }
      previous := s[index].tick;
    }
    fault := QueueOk;
  }

  /** Reduction modulo the capacity moves a slot number back by at most one turn. */
  lemma SlotOf(n: nat)
    requires n < 2 * CAPACITY
    ensures n % CAPACITY == if n < CAPACITY then n else n - CAPACITY
  {
  }

  lemma OneMore(q: seq<Sample>, s: seq<Sample>, i: nat)
    requires i < |s|
    ensures (q + s[..i]) + [s[i]] == q + s[..i + 1]
  {
  }

  /** The slot of the i-th sample after the head. */
  function Slot(head: nat, i: nat): (s: nat)
    requires head < CAPACITY && i < CAPACITY
    ensures s < CAPACITY
  {
    if head + i < CAPACITY then head + i else head + i - CAPACITY
  }

  class Ring {
    const samples: array<Sample>
    var head: nat
    var count: nat

    ghost predicate Valid()
      reads this
    {
      samples.Length == CAPACITY && head < CAPACITY && count <= CAPACITY
    }

    /** The samples in order of arrival. */
    ghost function Contents(): seq<Sample>
      requires Valid()
      reads this, samples
    {
      var first, n := head, count;
      seq(n, i requires 0 <= i < n reads samples => samples[Slot(first, i)])
    }

    constructor ()
      ensures Valid() && Contents() == [] && fresh(samples)
    {
      samples := new Sample[CAPACITY](_ => Sample(0, ZERO_POSE));
      head, count := 0, 0;
    }

    method Clear()
      requires Valid()
      modifies this
      ensures Valid() && Contents() == []
    {
      head, count := 0, 0;
    }

    method PreviousTick(now: u32) returns (previous: u32)
      requires Valid()
      ensures previous == LastTick(Contents(), now)
    {
      if count == 0 {
        return now;
      }
      var tail := (head + count - 1) % CAPACITY;
      SlotOf(head + count - 1);
      previous := samples[tail].tick;
      assert samples[tail] == Contents()[count - 1];
    }

    method PutLast(sample: Sample)
      requires Valid() && count < CAPACITY
      modifies `count, samples
      ensures Valid() && Contents() == old(Contents()) + [sample]
    {
      SlotOf(head + count);
      samples[(head + count) % CAPACITY] := sample;
      count := count + 1;
    }

    /** `push_batch`: all samples, or none. */
    method PushBatch(s: seq<Sample>, now: u32, minimumLead: u32, maximumLead: u32, limits: Limits)
      returns (r: QueueResult)
      requires Valid()
      modifies `count, samples
      ensures Valid() && (Contents(), r) == Push(old(Contents()), s, now, minimumLead, maximumLead, limits)
    {
      if |s| == 0 {
        return NullArgument;
      }
      if |s| > CAPACITY - count {
        return CapacityExceeded;
      }
      if minimumLead > maximumLead {
        return TickTooFar;
      }
      assert |Contents()| == count;
      var previous := PreviousTick(now);
      r := FindFault(s, previous, now, minimumLead, maximumLead, limits);
      if r != QueueOk {
        return;
      }
      PutAll(s);
    }

    /** The copying loop of `push_batch`. */
    method PutAll(s: seq<Sample>)
      requires Valid() && count + |s| <= CAPACITY
      modifies `count, samples
      ensures Valid() && Contents() == old(Contents()) + s
    {
      ghost var was := Contents();
      for index := 0 to |s|
        invariant Valid() && count == old(count) + index && Contents() == was + s[..index]
      {
        PutLast(s[index]);
        OneMore(was, s, index);
      }
      assert s[..|s|] == s;
    }

    method DropHead()
      requires Valid() && count > 0
      modifies `head, `count
      ensures Valid() && Contents() == old(Contents())[1..]
    {
      ghost var rest := Contents()[1..];
      SlotOf(head + 1);
      head := (head + 1) % CAPACITY;
      count := count - 1;
      assert Contents() == rest;
    }

    method Take(now: u32) returns (r: QueueResult, sample: Sample)
      requires Valid()
      modifies `head, `count
      ensures Valid() && (Contents(), r) == TakeDue(old(Contents()), now)
      ensures r == QueueOk ==> sample == old(Contents())[0]
    {
      sample := Sample(0, ZERO_POSE);
      if count == 0 {
        return Empty, sample;
      }
      var front := samples[head];
      assert front == Contents()[0];
      if front.tick != now {
        return if After(front.tick, now) then NotDue else StaleTick, sample;
      }
      DropHead();
      return QueueOk, front;
    }

    method Peek() returns (r: QueueResult, sample: Sample)
      requires Valid()
      ensures r == if Contents() == [] then Empty else QueueOk
      ensures r == QueueOk ==> sample == Contents()[0]
    {
      if count == 0 {
        return Empty, Sample(0, ZERO_POSE);
      }
      return QueueOk, samples[head];
    }
  }
}
