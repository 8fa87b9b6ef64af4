/** Twelve absolute joint positions turned into the raw goals of two arms, all of them or none. */
module GoalMap {
  import opened Words
  import opened JointArithmetic
  import JointUnwrap
  import opened StreamContract
  import opened StreamExecutor
  import opened Soundness

  const ARM: nat := 6

  datatype JointMap = JointMap(zero: u16, direction: int, minimum: int32, maximum: int32)

  type Maps = m: seq<JointMap> | |m| == 12
    witness [JointMap(0, 1, 0, 0), JointMap(0, 1, 0, 0), JointMap(0, 1, 0, 0), JointMap(0, 1, 0, 0),
             JointMap(0, 1, 0, 0), JointMap(0, 1, 0, 0), JointMap(0, 1, 0, 0), JointMap(0, 1, 0, 0),
             JointMap(0, 1, 0, 0), JointMap(0, 1, 0, 0), JointMap(0, 1, 0, 0), JointMap(0, 1, 0, 0)]

  datatype Verdict = Good | InvalidConfig | LimitViolation

  predicate MapValid(m: JointMap) {
    m.zero < 4096 && (m.direction == 1 || m.direction == -1) && m.minimum <= m.maximum
  }

  /** The unwrapped raw position of an angle. */
  function Unwrapped(m: JointMap, urad: int32): int {
    m.zero + m.direction * ToCounts(urad)
  }

  function Judge(m: JointMap, urad: int32): Verdict {
    if !MapValid(m) then InvalidConfig
    else if m.minimum <= Unwrapped(m, urad) <= m.maximum then Good else LimitViolation
  }

  /** The first joint, from j on, that does not pass; 12 if there is none. */
  function FirstBad(maps: Maps, p: Pose, j: nat): (k: nat)
    requires j <= 12
    ensures j <= k <= 12 && (k < 12 ==> Judge(maps[k], p[k]) != Good)
    ensures forall i :: j <= i < k ==> Judge(maps[i], p[i]) == Good
    decreases 12 - j
  {
    if j == 12 || Judge(maps[j], p[j]) != Good then j else FirstBad(maps, p, j + 1)
  }

  /** The raw goal of joint j. */
  function Goal(maps: Maps, p: Pose, j: nat): u16
    requires j < 12
  {
    Unwrapped(maps[j], p[j]) % 4096
  }

  /** C's remainder, moved up when negative, is the residue modulo one turn. */
  method ModuloRaw(unwrapped: int32) returns (r: u16)
    ensures r == unwrapped % 4096
  {
    var remainder: int := unwrapped - 4096 * TruncDiv(unwrapped, 4096);
    if remainder < 0 {
      remainder := remainder + 4096;
    }
    r := remainder;
  }

  /** The candidate goals, as far as the first joint that does not pass. */
  method FillCandidate(maps: Maps, p: Pose, candidate: array<u16>) returns (verdict: Verdict, failed: byte)
    requires candidate.Length == 12
    modifies candidate
    ensures verdict == Good <==> FirstBad(maps, p, 0) == 12
    ensures verdict == Good ==> failed == 255 && forall j :: 0 <= j < 12 ==> candidate[j] == Goal(maps, p, j)
    ensures verdict != Good ==> failed == FirstBad(maps, p, 0) < 12 && verdict == Judge(maps[failed], p[failed])
  {
    for joint := 0 to 12
      invariant FirstBad(maps, p, 0) == FirstBad(maps, p, joint)
      invariant forall j :: 0 <= j < joint ==> candidate[j] == Goal(maps, p, j)
    {
      var m := maps[joint];
      var unwrapped := m.zero + m.direction * ToCounts(p[joint]);
      if m.zero >= 4096 || (m.direction != 1 && m.direction != -1) || m.minimum > m.maximum {
        return InvalidConfig, joint;
      }
      if unwrapped < m.minimum as int || unwrapped > m.maximum as int {
        return LimitViolation, joint;
      }
      candidate[joint] := ModuloRaw(unwrapped);
    }
    return Good, 255;
  }

  /** `actuator_bimanual_goal_map`: neither arm is touched unless all twelve joints pass. */
  method MapGoals(maps: Maps, p: Pose, left: array<u16>, right: array<u16>)
    returns (verdict: Verdict, failed: byte)
    requires left.Length == ARM && right.Length == ARM && left != right
    modifies left, right
    ensures verdict == Good <==> forall j :: 0 <= j < 12 ==> Judge(maps[j], p[j]) == Good
    ensures verdict == Good ==> failed == 255 && forall j :: 0 <= j < 12 ==>
      Goal(maps, p, j) == if j < ARM then left[j] else right[j - ARM]
    ensures verdict != Good ==>
      && failed == FirstBad(maps, p, 0) < 12 && verdict == Judge(maps[failed], p[failed])
      && left[..] == old(left[..]) && right[..] == old(right[..])
  {
    var candidate := new u16[12](_ => 0);
    verdict, failed := FillCandidate(maps, p, candidate);
    if verdict != Good {
      return;
    }
    forall j | 0 <= j < ARM {
      left[j] := candidate[j];
    }
    forall j | 0 <= j < ARM {
      right[j] := candidate[ARM + j];
    }
  }

  /** A joint passes with a goal exactly when the single-joint conversion accepts it, with the same reading. */
  lemma AgreesWithUnwrap(maps: Maps, p: Pose, j: nat)
    requires j < 12
    ensures var m := maps[j];
      var one := JointUnwrap.UradToRaw(m.zero, m.direction, p[j], JointUnwrap.Limit(m.minimum, m.maximum));
      && (Judge(m, p[j]) == Good <==> one.Done?)
      && (one.Done? ==> one.value == (Unwrapped(m, p[j]), Goal(maps, p, j)))
  {
  }

  /** A joint's map is at fault before its position is; its goal is the reading of its position. */
  lemma JudgeIff(maps: Maps, p: Pose, j: nat)
    requires j < 12
    ensures var m := maps[j];
      var at := if m.direction == 1 then m.zero + ToCounts(p[j]) else m.zero - ToCounts(p[j]);
      && (Judge(m, p[j]) == InvalidConfig <==> m.zero >= 4096 || m.direction !in {1, -1} || m.minimum > m.maximum)
      && (Judge(m, p[j]) == Good <==> m.zero < 4096 && m.direction in {1, -1} && m.minimum <= at <= m.maximum)
      && (Judge(m, p[j]) == Good ==> Goal(maps, p, j) == at % 4096)
  {
  }

  /** A joint that passes at two angles passes at every angle between them, whichever way it turns. */
  lemma JudgeIsConvex(m: JointMap, x: int32, y: int32, z: int32)
    requires x <= y <= z && Judge(m, x) == Good && Judge(m, z) == Good
    ensures Judge(m, y) == Good
  {
    ConversionsMonotone(x, y);
    ConversionsMonotone(y, z);
  }

  /** Both ends of every joint's range pass. */
  predicate RangePasses(maps: Maps, limits: Limits) {
    forall j :: 0 <= j < 12 ==>
      Judge(maps[j], limits[j].minimum) == Good && Judge(maps[j], limits[j].maximum) == Good
  }

  /** Poses within the limits always pass exactly when both ends of every range do. */
  lemma RangePassesIff(maps: Maps, limits: Limits)
    requires forall j :: 0 <= j < 12 ==> limits[j].minimum <= limits[j].maximum
    ensures RangePasses(maps, limits) <==>
      forall p: Pose :: WithinLimits(limits, p) ==> FirstBad(maps, p, 0) == 12
  {
    if RangePasses(maps, limits) {
      forall p: Pose | WithinLimits(limits, p) ensures FirstBad(maps, p, 0) == 12 {
        var k := FirstBad(maps, p, 0);
        if k < 12 { JudgeIsConvex(maps[k], limits[k].minimum, p[k], limits[k].maximum); }
      }
    } else {
      var k :| 0 <= k < 12 && !(Judge(maps[k], limits[k].minimum) == Good && Judge(maps[k], limits[k].maximum) == Good);
      var low: Pose := seq(12, j requires 0 <= j < 12 => limits[j].minimum);
      var high: Pose := seq(12, j requires 0 <= j < 12 => limits[j].maximum);
      assert WithinLimits(limits, low) && WithinLimits(limits, high);
      assert low[k] == limits[k].minimum && high[k] == limits[k].maximum;
      assert FirstBad(maps, if Judge(maps[k], low[k]) == Good then high else low, 0) < 12;
    }
  }

  /** End to end: whatever is done to an executor, and whenever, its outputs can be sent to the arms, provided
      both ends of every joint's range can. */
  lemma EveryOutputMaps(maps: Maps, caps: HardCaps, limits: Limits, commands: seq<Command>, now: u32)
    requires Init(caps, limits).Some? && RangePasses(maps, limits)
    ensures var output := Step(Drive(Init(caps, limits).value, commands), now).2;
      output.Some? ==> FirstBad(maps, output.value, 0) == 12
  {
    OutputsStayWithinLimits(caps, limits, commands, now);
    RangePassesIff(maps, limits);
  }
}
