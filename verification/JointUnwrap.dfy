/** Multi-turn joint positions rebuilt from readings modulo one turn. */
module JointUnwrap {
  import opened Words
  import opened JointArithmetic

  const MODULUS: int := 4096
  const HALF_TURN: int := 2048
  const FAR: int := 0x7FFF_FFFF_FFFF_FFFF

  datatype Result =
    | UnwrapOk | RawOutOfRange | BadReferenceWindow | ReferenceTooFar | AmbiguousDelta
    | BadDirection | LimitViolation | PositionOverflow

  datatype State = State(bound: bool, previous: u16, unwrapped: int32)

  // ---- binding ----

  /** The candidates observed + (turn + offset) * 4096 still to try, against the best so far. */
  function Scan(observed: u16, turn: int, reference: int32, offset: int, best: int, distance: int, tied: bool)
    : (int, int, bool)
    decreases 2 - offset
  {
    if offset > 1 then (best, distance, tied)
    else
      var candidate := observed + (turn + offset) * MODULUS;
      var away := Abs(candidate - reference);
      if away < distance then Scan(observed, turn, reference, offset + 1, candidate, away, false)
      else Scan(observed, turn, reference, offset + 1, best, distance, tied || away == distance)
  }

  function Bind(s: State, observed: u16, reference: int32, window: u16): (State, Result) {
    if observed >= MODULUS then (s, RawOutOfRange)
    else if window == 0 || window >= HALF_TURN then (s, BadReferenceWindow)
    else
      var turn := TruncDiv(reference - observed as int, MODULUS);
      var (best, distance, tied) := Scan(observed, turn, reference, -1, 0, FAR, false);
      if tied then (s, AmbiguousDelta)
      else if distance > window then (s, ReferenceTooFar)
      else if !IsInt32(best) then (s, PositionOverflow)
      else (State(true, observed, best), UnwrapOk)
  }

  /** x is a position that reads as observed. */
  predicate ReadsAs(x: int, observed: u16) {
    x % MODULUS == observed
  }

  /** The scan finds the nearest position that reads as observed, and notices when two are equally near. */
  lemma ScanFindsNearest(observed: u16, reference: int32)
    requires observed < MODULUS
    ensures var (best, distance, tied) :=
        Scan(observed, TruncDiv(reference - observed as int, MODULUS), reference, -1, 0, FAR, false);
      && ReadsAs(best, observed) && distance == Abs(best - reference) <= HALF_TURN
      && (tied <==> distance == HALF_TURN)
  {
    var x: int := reference - observed as int;
    WholeTurns(x);
    ThreeCandidates(observed, TruncDiv(x, MODULUS), reference, x - TruncDiv(x, MODULUS) * MODULUS);
  }

  lemma WholeTurns(x: int)
    ensures -MODULUS < x - TruncDiv(x, MODULUS) * MODULUS < MODULUS
  {
  }

  lemma ThreeCandidates(observed: u16, turn: int, reference: int32, r: int)
    requires observed < MODULUS && -MODULUS < r < MODULUS && reference == observed + turn * MODULUS + r
    ensures var (best, distance, tied) := Scan(observed, turn, reference, -1, 0, FAR, false);
      && ReadsAs(best, observed) && distance == Abs(best - reference) <= HALF_TURN
      && (tied <==> distance == HALF_TURN)
  {
    var (b1, d1, t1) := (observed + (turn - 1) * MODULUS, Abs(-MODULUS - r), false);
    assert Scan(observed, turn, reference, -1, 0, FAR, false) == Scan(observed, turn, reference, 0, b1, d1, t1);
    var away := Abs(-r);
    var (b2, d2, t2) := if away < d1 then (observed + turn * MODULUS, away, false) else (b1, d1, away == d1);
    assert Scan(observed, turn, reference, 0, b1, d1, t1) == Scan(observed, turn, reference, 1, b2, d2, t2);
  }

  lemma NearestIsUnique(x: int, y: int, observed: u16, reference: int, window: nat)
    requires ReadsAs(x, observed) && ReadsAs(y, observed) && window < HALF_TURN
    requires Abs(x - reference) <= window && Abs(y - reference) <= HALF_TURN
    ensures x == y
  {
  }

  /** Binding succeeds exactly when some 32-bit position that reads as observed lies within the window around
      the reference, and then that position is the only one and is the result. */
  lemma BindIff(s: State, observed: u16, reference: int32, window: u16)
    requires observed < MODULUS && 0 < window < HALF_TURN
    ensures var (bound, r) := Bind(s, observed, reference, window);
      && (r == UnwrapOk <==> exists x: int32 :: ReadsAs(x, observed) && Abs(x - reference) <= window)
      && (r == UnwrapOk ==>
            && bound == State(true, observed, bound.unwrapped)
            && forall x: int32 :: ReadsAs(x, observed) && Abs(x - reference) <= window <==> x == bound.unwrapped)
      && (r != UnwrapOk ==> bound == s)
  {
    ScanFindsNearest(observed, reference);
    var (best, distance, tied) :=
      Scan(observed, TruncDiv(reference - observed as int, MODULUS), reference, -1, 0, FAR, false);
    forall x: int32 | ReadsAs(x, observed) && Abs(x - reference) <= window ensures x == best {
      NearestIsUnique(x, best, observed, reference, window);
    }
    var (bound, r) := Bind(s, observed, reference, window);
    if r == UnwrapOk {
      assert ReadsAs(bound.unwrapped, observed);
    }
  }

  /** What a bind that fails reports: a reading or a window out of range, two positions equally near the reference,
      the nearest outside the window, or one that does not fit 32 bits. */
  lemma BindReports(s: State, observed: u16, reference: int32, window: u16)
    ensures var r := Bind(s, observed, reference, window).1;
      && (r == RawOutOfRange <==> observed >= 4096)
      && (r == BadReferenceWindow <==> observed < 4096 && !(1 <= window <= 2047))
      && (observed < 4096 && 1 <= window <= 2047 ==>
            && (r == AmbiguousDelta <==> Reading(reference + 2048) == observed)
            && (r == ReferenceTooFar <==>
                  Reading(reference + 2048) != observed && !NearPosition(observed, reference, window))
            && (r == PositionOverflow <==>
                  NearPosition(observed, reference, window) && !NearFits(observed, reference, window)))
  {
    if observed < 4096 && 1 <= window <= 2047 {
      ScanFindsNearest(observed, reference);
      var (best, distance, tied) :=
        Scan(observed, TruncDiv(reference - observed as int, MODULUS), reference, -1, 0, FAR, false);
      HalfTurnAway(best, observed, reference);
      NearIsBest(best, observed, reference, window);
    }
  }

  /** Some position within the window reads as observed, 32 bits or not. */
  ghost predicate NearPosition(observed: u16, reference: int32, window: u16) {
    exists x: int :: ReadsAs(x, observed) && Abs(x - reference) <= window
  }

  ghost predicate NearFits(observed: u16, reference: int32, window: u16) {
    exists x: int32 :: ReadsAs(x, observed) && Abs(x - reference) <= window
  }

  lemma HalfTurnAway(best: int, observed: u16, reference: int32)
    requires observed < MODULUS && ReadsAs(best, observed) && Abs(best - reference) <= HALF_TURN
    ensures Abs(best - reference) == HALF_TURN <==> Reading(reference + 2048) == observed
  {
    if best == reference - 2048 { assert (reference + 2048) % MODULUS == best % MODULUS; }
    if Reading(reference + 2048) == observed {
      assert (reference + 2048 - best) % MODULUS == 0;
    }
  }

  lemma NearIsBest(best: int, observed: u16, reference: int32, window: u16)
    requires observed < MODULUS && ReadsAs(best, observed) && Abs(best - reference) <= HALF_TURN && window < HALF_TURN
    ensures NearPosition(observed, reference, window) <==> Abs(best - reference) <= window
    ensures NearFits(observed, reference, window) <==> Abs(best - reference) <= window && IsInt32(best)
  {
    forall x: int | ReadsAs(x, observed) && Abs(x - reference) <= window ensures x == best {
      NearestIsUnique(x, best, observed, reference, window);
    }
    if Abs(best - reference) <= window && IsInt32(best) {
      var x: int32 := best;
      assert ReadsAs(x, observed);
    }
  }

  // ---- updating ----

  function Update(s: State, observed: u16): (State, Result) {
    if !s.bound then (s, ReferenceTooFar)
    else if observed >= MODULUS then (s, RawOutOfRange)
    else
      var delta: int := observed - s.previous as int;
      if delta == HALF_TURN || delta == -HALF_TURN then (s, AmbiguousDelta)
      else
        var wrapped := if delta > HALF_TURN then delta - MODULUS
                       else if delta < -HALF_TURN then delta + MODULUS else delta;
        if !IsInt32(s.unwrapped + wrapped) then (s, PositionOverflow)
        else (State(true, observed, s.unwrapped + wrapped), UnwrapOk)
  }

  /** A bound state agrees with the reading it was last given. */
  predicate Consistent(s: State) {
    s.bound ==> ReadsAs(s.unwrapped, s.previous)
  }

  lemma BindConsistent(s: State, observed: u16, reference: int32, window: u16)
    requires Consistent(s)
    ensures Consistent(Bind(s, observed, reference, window).0)
  {
    if observed < MODULUS && 0 < window < HALF_TURN { ScanFindsNearest(observed, reference); }
  }

  /** An update succeeds exactly when the one position that reads as observed within less than half a turn of
      the last exists and fits 32 bits, and that position is the result. */
  lemma UpdateIff(s: State, observed: u16)
    requires s.bound && Consistent(s) && observed < MODULUS
    ensures var (next, r) := Update(s, observed);
      && Consistent(next)
      && (r == UnwrapOk <==> exists x: int32 :: ReadsAs(x, observed) && Abs(x - s.unwrapped) < HALF_TURN)
      && (r == UnwrapOk ==>
            && next == State(true, observed, next.unwrapped)
            && forall x: int32 :: ReadsAs(x, observed) && Abs(x - s.unwrapped) < HALF_TURN <==> x == next.unwrapped)
      && (r != UnwrapOk ==> next == s)
  {
    var (next, r) := Update(s, observed);
    if r == UnwrapOk {
      assert ReadsAs(next.unwrapped, observed);
      forall x: int32 | ReadsAs(x, observed) && Abs(x - s.unwrapped) < HALF_TURN ensures x == next.unwrapped {
        NearestIsUnique(x, next.unwrapped, observed, s.unwrapped, HALF_TURN - 1);
      }
    } else {
      forall x: int32 | ReadsAs(x, observed) && Abs(x - s.unwrapped) < HALF_TURN ensures false {
        OnlyCandidate(x, s, observed);
      }
    }
  }

  lemma OnlyCandidate(x: int32, s: State, observed: u16)
    requires s.bound && Consistent(s) && observed < MODULUS
    requires ReadsAs(x, observed) && Abs(x - s.unwrapped) < HALF_TURN
    ensures Update(s, observed) == (State(true, observed, x), UnwrapOk)
  {
    var moved: int := x - s.unwrapped as int;
    var delta: int := observed - s.previous as int;
    assert (moved - delta) % MODULUS == 0;
  }

  /** The reading of a position. */
  function Reading(x: int): u16 {
    x % MODULUS
  }

  function UpdateAll(s: State, readings: seq<u16>): (State, seq<(Result, int32)>)
    decreases |readings|
  {
    if readings == [] then (s, [])
    else
      var (next, r) := Update(s, readings[0]);
      var (last, rest) := UpdateAll(next, readings[1..]);
      (last, [(r, next.unwrapped)] + rest)
  }

  /** A trajectory a joint can follow between samples: never half a turn or more at once, always in 32 bits. */
  predicate Trackable(from: int32, path: seq<int32>)
    decreases |path|
  {
    path != [] ==> Gap(path[0], from) < HALF_TURN && Trackable(path[0], path[1..])
  }

  /** Multi-turn reconstruction: from a correct position, readings of any trackable trajectory give back the
      trajectory itself, position by position. */
  lemma {:induction false} TrajectoryIsRebuilt(s: State, path: seq<int32>)
    requires s.bound && Consistent(s) && Trackable(s.unwrapped, path)
    ensures UpdateAll(s, seq(|path|, i requires 0 <= i < |path| => Reading(path[i]))).1 ==
            seq(|path|, i requires 0 <= i < |path| => (UnwrapOk, path[i]))
    decreases |path|
  {
    if path != [] {
      var readings := seq(|path|, i requires 0 <= i < |path| => Reading(path[i]));
      var tail := path[1..];
      OnlyCandidate(path[0], s, Reading(path[0]));
      assert readings[1..] == seq(|tail|, i requires 0 <= i < |tail| => Reading(tail[i]));
      TrajectoryIsRebuilt(State(true, Reading(path[0]), path[0]), tail);
    }
  }

  // ---- unit conversion ----

  datatype Converted<+T> = Done(value: T) | Failed(why: Result)

  datatype Limit = Limit(minimum: int32, maximum: int32)

  function RawToUrad(zero: u16, direction: int, raw: int32): Converted<int32> {
    if zero >= MODULUS then Failed(RawOutOfRange)
    else if direction != 1 && direction != -1 then Failed(BadDirection)
    else
      var urad := ToUrad((raw - zero as int) * direction);
      if !IsInt32(urad) then Failed(PositionOverflow) else Done(urad)
  }

  /** The unwrapped position and its reading. */
  function UradToRaw(zero: u16, direction: int, urad: int32, limit: Limit): Converted<(int32, u16)> {
    if zero >= MODULUS then Failed(RawOutOfRange)
    else if direction != 1 && direction != -1 then Failed(BadDirection)
    else if limit.minimum > limit.maximum then Failed(LimitViolation)
    else
      var candidate := zero + direction * ToCounts(urad);
      if !IsInt32(candidate) then Failed(PositionOverflow)
      else if candidate < limit.minimum as int || candidate > limit.maximum as int then Failed(LimitViolation)
      else Done((candidate, Reading(candidate)))
  }

  /** What an update that fails reports. */
  lemma UpdateReports(s: State, observed: u16)
    ensures var r := Update(s, observed).1;
      && (r == ReferenceTooFar <==> !s.bound) && (r == RawOutOfRange <==> s.bound && observed >= 4096)
      && (r == AmbiguousDelta <==> s.bound && observed < 4096 && Gap(observed, s.previous) == 2048)
      && r in {UnwrapOk, ReferenceTooFar, RawOutOfRange, AmbiguousDelta, PositionOverflow}
  {
  }

  /** A raw position converts exactly when zero and direction are sane and its angle fits 32 bits; the angle is that
      of its distance from zero, turned with the direction. */
  lemma RawToUradIff(zero: u16, direction: int, raw: int32)
    ensures var angle := ToUrad(if direction == 1 then raw - zero as int else zero - raw as int);
      RawToUrad(zero, direction, raw) ==
        if zero >= 4096 then Failed(RawOutOfRange)
        else if direction !in {1, -1} then Failed(BadDirection)
        else if -0x8000_0000 <= angle <= 0x7FFF_FFFF then Done(angle) else Failed(PositionOverflow)
  {
  }

  /** An angle converts exactly when zero, direction and limits are sane and the position it comes to lies within
      the limits. */
  lemma UradToRawIff(zero: u16, direction: int, urad: int32, limit: Limit)
    ensures var at := if direction == 1 then zero + ToCounts(urad) else zero - ToCounts(urad);
      UradToRaw(zero, direction, urad, limit) ==
        if zero >= 4096 then Failed(RawOutOfRange)
        else if direction !in {1, -1} then Failed(BadDirection)
        else if limit.minimum <= at <= limit.maximum then Done((at, at % 4096))
        else if limit.minimum <= limit.maximum && !(-0x8000_0000 <= at <= 0x7FFF_FFFF) then Failed(PositionOverflow)
        else Failed(LimitViolation)
  {
  }

  /** A raw position within the limits survives the trip through micro-radians whenever it converts at all. */
  lemma RawRoundTrip(zero: u16, direction: int, raw: int32, limit: Limit)
    requires RawToUrad(zero, direction, raw).Done? && limit.minimum <= raw <= limit.maximum
    ensures UradToRaw(zero, direction, RawToUrad(zero, direction, raw).value, limit) == Done((raw, Reading(raw)))
  {
    CountsRoundTrip((raw - zero as int) * direction);
  }

  /** An angle that converts comes back within 767 micro-radians whenever it comes back at all. */
  lemma UradRoundTripError(zero: u16, direction: int, urad: int32, limit: Limit)
    requires UradToRaw(zero, direction, urad, limit).Done?
    ensures var back := RawToUrad(zero, direction, UradToRaw(zero, direction, urad, limit).value.0);
      back.Done? ==> Gap(back.value, urad) <= 767
  {
    UradRoundTrip(urad);
    var raw := UradToRaw(zero, direction, urad, limit).value.0;
    assert (raw - zero as int) * direction == ToCounts(urad);
  }

  // ---- the unwrapper as the firmware keeps it ----

  class Unwrapper {
    var bound: bool
    var previous: u16
    var unwrapped: int32

    ghost function View(): State
      reads this
    {
      State(bound, previous, unwrapped)
    }

    method Reset()
      modifies this
      ensures View() == State(false, 0, 0)
    {
      bound, previous, unwrapped := false, 0, 0;
    }

    /** `bind`: tries the turn below, the same turn and the turn above. */
    method BindTo(observed: u16, reference: int32, window: u16) returns (r: Result)
      modifies this
      ensures (View(), r) == Bind(old(View()), observed, reference, window)
    {
      var turn := TruncDiv(reference - observed as int, MODULUS);
      if observed >= MODULUS {
        return RawOutOfRange;
      }
      if window == 0 || window >= HALF_TURN {
        return BadReferenceWindow;
      }
      var best, distance, tied := 0, FAR, false;
      var offset := -1;
      while offset <= 1
        invariant -1 <= offset <= 2
        invariant Scan(observed, turn, reference, offset, best, distance, tied) ==
                  Scan(observed, turn, reference, -1, 0, FAR, false)
      {
        var candidate := observed + (turn + offset) * MODULUS;
        var away := Abs(candidate - reference);
        if away < distance {
          best, distance, tied := candidate, away, false;
        } else if away == distance {
          tied := true;
        }
        offset := offset + 1;
      }
      if tied {
        return AmbiguousDelta;
      }
      if distance > window {
        return ReferenceTooFar;
      }
      if !IsInt32(best) {
        return PositionOverflow;
      }
      bound, previous, unwrapped := true, observed, best;
      r := UnwrapOk;
    }

    method UpdateWith(observed: u16) returns (r: Result, position: int32)
      modifies this
      ensures (View(), r) == Update(old(View()), observed)
      ensures r == UnwrapOk ==> position == unwrapped
    {
      position := 0;
      if !bound {
        return ReferenceTooFar, position;
      }
      if observed >= MODULUS {
        return RawOutOfRange, position;
      }
      var delta: int := observed - previous as int;
      if delta == HALF_TURN || delta == -HALF_TURN {
        return AmbiguousDelta, position;
      }
      if delta > HALF_TURN {
        delta := delta - MODULUS;
      } else if delta < -HALF_TURN {
        delta := delta + MODULUS;
      }
      var updated: int := unwrapped + delta;
      if !IsInt32(updated) {
        return PositionOverflow, position;
      }
      previous, unwrapped := observed, updated;
      return UnwrapOk, unwrapped;
    }
  }
}
