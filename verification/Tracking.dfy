/** Tracking errors: when feedback aborts a stream, and what it leaves on record. */
module Tracking {
  import opened Words
  import opened StreamContract
  import opened StreamExecutor

  /** The distance of joint j from the last output. */
  function Error(e: Executor, measured: Pose, j: nat): u32
    requires j < 12
  {
    Gap(e.lastOutput[j], measured[j])
  }

  predicate Exceeds(e: Executor, measured: Pose, j: nat)
    requires j < 12
  {
    Error(e, measured, j) > Wrap32(e.session.policy.trackingLimit[j])
  }

  /** The stream was aborted, with a safe stop, for the first joint from `joint` on that is too far off. */
  predicate AbortedFor(e: Executor, done: Executor, now: u32, measured: Pose, joint: nat) {
    var at := done.diag.trackingErrorJoint;
    && done.diag.state == Aborted && done.diag.reason == TrackingError
    && done.diag.terminalTick == now && done.diag.safeStop
    && joint <= at < 12 && Exceeds(e, measured, at)
    && forall j :: joint <= j < at ==> !Exceeds(e, measured, j)
  }

  /** The largest error of joint j once it has been looked at. */
  function Largest(e: Executor, measured: Pose, j: nat): u32
    requires j < 12
  {
    if Error(e, measured, j) > e.diag.trackingError[j] then Error(e, measured, j) else e.diag.trackingError[j]
  }

  /** Nothing changed but the largest error of each joint from `joint` on. */
  predicate Recorded(e: Executor, done: Executor, measured: Pose, joint: nat) {
    && done == e.(diag := e.diag.(trackingError := done.diag.trackingError))
    && (forall j :: 0 <= j < 12 && j < joint ==> done.diag.trackingError[j] == e.diag.trackingError[j])
    && (forall j :: joint <= j < 12 ==> done.diag.trackingError[j] == Largest(e, measured, j))
  }

  predicate AnyExceeds(e: Executor, measured: Pose, joint: nat) {
    exists j :: joint <= j < 12 && Exceeds(e, measured, j)
  }

  predicate Judged(e: Executor, done: Executor, outcome: Outcome, now: u32, measured: Pose, joint: nat) {
    if AnyExceeds(e, measured, joint) then outcome == Terminal && AbortedFor(e, done, now, measured, joint)
    else outcome == OutcomeOk && Recorded(e, done, measured, joint)
  }

  lemma {:induction false} CheckFromIff(e: Executor, now: u32, measured: Pose, joint: nat)
    requires joint <= 12
    ensures Judged(e, CheckFrom(e, now, measured, joint).0, CheckFrom(e, now, measured, joint).1, now, measured, joint)
    decreases 12 - joint
  {
    if joint < 12 {
      var (seen, outcome) := Observe(e, now, joint, Error(e, measured, joint));
      ObserveIff(e, now, measured, joint);
      if outcome != Terminal {
        CheckFromIff(seen, now, measured, joint + 1);
        var (done, last) := CheckFrom(seen, now, measured, joint + 1);
        JudgedEarlier(e, seen, done, last, now, measured, joint);
      }
    }
  }

  lemma ObserveIff(e: Executor, now: u32, measured: Pose, joint: nat)
    requires joint < 12
    ensures var (seen, outcome) := Observe(e, now, joint, Error(e, measured, joint));
      if Exceeds(e, measured, joint) then outcome == Terminal && AbortedFor(e, seen, now, measured, joint)
      else outcome == OutcomeOk &&
           seen == e.(diag := e.diag.(trackingError := e.diag.trackingError[joint := Largest(e, measured, joint)]))
  {
    assert e.diag.trackingError == e.diag.trackingError[joint := e.diag.trackingError[joint]];
  }

  lemma JudgedEarlier(e: Executor, seen: Executor, done: Executor, outcome: Outcome, now: u32, measured: Pose,
                      joint: nat)
    requires joint < 12 && !Exceeds(e, measured, joint)
    requires seen == e.(diag := e.diag.(trackingError := e.diag.trackingError[joint := Largest(e, measured, joint)]))
    requires Judged(seen, done, outcome, now, measured, joint + 1)
    ensures Judged(e, done, outcome, now, measured, joint)
  {
    assert forall j :: 0 <= j < 12 ==> Exceeds(seen, measured, j) == Exceeds(e, measured, j);
    if AnyExceeds(seen, measured, joint + 1) {
      AbortedEarlier(e, seen, done, now, measured, joint);
    } else {
      assert forall j :: joint < j < 12 ==> Largest(seen, measured, j) == Largest(e, measured, j);
    }
  }

  lemma AbortedEarlier(e: Executor, seen: Executor, done: Executor, now: u32, measured: Pose, joint: nat)
    requires joint < 12 && !Exceeds(e, measured, joint)
    requires forall j :: 0 <= j < 12 ==> Exceeds(seen, measured, j) == Exceeds(e, measured, j)
    requires AbortedFor(seen, done, now, measured, joint + 1)
    ensures AbortedFor(e, done, now, measured, joint)
  {
  }

  /** Feedback on a running stream that has shown an output aborts it exactly when some joint is further off than
      its limit; otherwise each joint's largest error so far is kept. */
  lemma FeedbackAbortsIff(e: Executor, now: u32, measured: Pose)
    requires e.diag.state == Running && e.outputValid
    ensures Judged(e, CheckFeedback(e, now, measured).0, CheckFeedback(e, now, measured).1, now, measured, 0)
  {
    CheckFromIff(e, now, measured, 0);
  }

  // ---- one joint ----

  /** One joint can be judged while the stream runs, and after it has succeeded, once an output has been shown. */
  predicate Judgeable(e: Executor, joint: byte) {
    joint < 12 && (e.diag.state == Running || e.diag.state == Succeeded) && e.outputValid
  }

  /** The joint is further from its command than the policy allows. */
  predicate Strays(e: Executor, joint: byte, commanded: int32, measured: int32)
    requires joint < 12
  {
    commanded - measured as int > Wrap32(e.session.policy.trackingLimit[joint])
    || measured - commanded as int > Wrap32(e.session.policy.trackingLimit[joint])
  }

  /** The largest error of the joint is kept, and those of the others. */
  predicate KeepsLargest(e: Executor, done: Executor, joint: nat, error: nat) {
    forall j :: 0 <= j < 12 ==>
      done.diag.trackingError[j] as int ==
        if j == joint && error > e.diag.trackingError[j] then error else e.diag.trackingError[j]
  }

  /** One joint's feedback aborts the stream, with a safe stop and the joint named, exactly when the joint strays;
      either way its largest error is kept and no other joint's changes. */
  lemma JointAbortsIff(e: Executor, now: u32, joint: byte, commanded: int32, measured: int32)
    requires Judgeable(e, joint)
    ensures var (done, outcome) := CheckJointFeedback(e, now, joint, commanded, measured);
      && (outcome == Terminal <==> Strays(e, joint, commanded, measured))
      && (outcome != Terminal ==>
            outcome == OutcomeOk && done == e.(diag := e.diag.(trackingError := done.diag.trackingError)))
      && (outcome == Terminal ==>
            done == e.(diag := e.diag.(state := Aborted, reason := TrackingError, terminalTick := now, safeStop := true,
                                       trackingErrorJoint := joint, trackingError := done.diag.trackingError)))
      && KeepsLargest(e, done, joint, Abs(commanded - measured as int))
  {
  }

  /** In any other state, and for a joint there is not, nothing changes. */
  lemma JointNotJudged(e: Executor, now: u32, joint: byte, commanded: int32, measured: int32)
    requires !Judgeable(e, joint)
    ensures CheckJointFeedback(e, now, joint, commanded, measured) == (e, BadState)
  {
  }

  /** Nor does anything for the feedback of all joints before an output or off a running stream. */
  lemma FeedbackNotJudged(e: Executor, now: u32, measured: Pose)
    requires e.diag.state != Running || !e.outputValid
    ensures CheckFeedback(e, now, measured) == (e, BadState)
  {
  }

  /** Twelve checks of one joint each, against what was output, come to the check of all joints. */
  function OneByOne(e: Executor, now: u32, measured: Pose, joint: nat): (Executor, Outcome)
    requires joint <= 12
    decreases 12 - joint
  {
    if joint == 12 then (e, OutcomeOk)
    else
      var (seen, outcome) := CheckJointFeedback(e, now, joint, e.lastOutput[joint], measured[joint]);
      if outcome != OutcomeOk then (seen, outcome) else OneByOne(seen, now, measured, joint + 1)
  }

  lemma {:induction false} OneByOneFrom(e: Executor, now: u32, measured: Pose, joint: nat)
    requires joint <= 12 && e.diag.state == Running && e.outputValid
    ensures OneByOne(e, now, measured, joint) == CheckFrom(e, now, measured, joint)
    decreases 12 - joint
  {
    if joint < 12 {
      var (seen, outcome) := CheckJointFeedback(e, now, joint, e.lastOutput[joint], measured[joint]);
      JointAbortsIff(e, now, joint, e.lastOutput[joint], measured[joint]);
      if outcome == OutcomeOk { OneByOneFrom(seen, now, measured, joint + 1); }
    }
  }

  lemma JointByJoint(e: Executor, now: u32, measured: Pose)
    requires e.diag.state == Running && e.outputValid
    ensures OneByOne(e, now, measured, 0) == CheckFeedback(e, now, measured)
  {
    OneByOneFrom(e, now, measured, 0);
  }
}
