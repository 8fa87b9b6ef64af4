/** The safety state machine and what every history of it guarantees. */
module Safety {
  import opened Words

  datatype State = Boot | SafeDisabled | Armed | Active | Hold | Fault | Estopped

  datatype Reply =
    | ReplyOk | BadState | HealthFailed | ConfigMismatch | EstopAsserted | HeartbeatMissing | HeartbeatStale

  datatype Core = Core(
    state: State, timeout: u32, lastHeartbeat: u32, fault: u16, heartbeatSeen: bool,
    holdRequested: bool, torqueDisabled: bool, estop: bool)

  datatype Event =
    | CompleteBoot(healthy: bool)
    | Heartbeat(now: u32)
    | RequestArm(healthy: bool, matching: bool)
    | RequestEnable(now: u32)
    | RequestHold
    | RequestDisable
    | ReportFault(code: u16)
    | SetEstop(asserted: bool)
    | ClearLatchedStop(healthy: bool)
    | Tick(now: u32)

  const BOOT_FAULT: u16 := 0xFF01

  function Init(timeout: u32): Core {
    Core(Boot, timeout, 0, 0, false, false, true, false)
  }

  predicate Fresh(s: Core, now: u32) {
    s.heartbeatSeen && Diff(now, s.lastHeartbeat) <= s.timeout
  }

  function Apply(s: Core, ev: Event): (Core, Reply) {
    match ev
    case CompleteBoot(healthy) =>
      if s.state != Boot then (s, BadState)
      else if !healthy then (s.(state := Fault, fault := BOOT_FAULT), HealthFailed)
      else (s.(state := SafeDisabled), ReplyOk)
    case Heartbeat(now) => (s.(lastHeartbeat := now, heartbeatSeen := true), ReplyOk)
    case RequestArm(healthy, matching) =>
      if s.state != SafeDisabled then (s, BadState)
      else if s.estop then (s, EstopAsserted)
      else if !healthy then (s, HealthFailed)
      else if !matching then (s, ConfigMismatch)
      else (s.(state := Armed, holdRequested := false, torqueDisabled := true), ReplyOk)
    case RequestEnable(now) =>
      if s.state != Armed then (s, BadState)
      else if s.estop then (s, EstopAsserted)
      else if !s.heartbeatSeen then (s, HeartbeatMissing)
      else if !Fresh(s, now) then (s, HeartbeatStale)
      else (s.(state := Active, holdRequested := false, torqueDisabled := false), ReplyOk)
    case RequestHold =>
      if s.state != Active then (s, BadState) else (s.(state := Hold, holdRequested := true), ReplyOk)
    case RequestDisable =>
      if s.state == Boot || s.state == Fault || s.state == Estopped then (s, BadState)
      else (s.(state := SafeDisabled, holdRequested := false, torqueDisabled := true, heartbeatSeen := false), ReplyOk)
    case ReportFault(code) =>
      (s.(state := if s.estop then s.state else Fault, fault := code, holdRequested := false, torqueDisabled := true),
       ReplyOk)
    case SetEstop(asserted) =>
      (if asserted then s.(estop := true, state := Estopped, holdRequested := false, torqueDisabled := true)
       else s.(estop := false), ReplyOk)
    case ClearLatchedStop(healthy) =>
      if s.state != Fault && s.state != Estopped then (s, BadState)
      else if s.estop then (s, EstopAsserted)
      else if !healthy then (s, HealthFailed)
      else (s.(state := SafeDisabled, fault := 0, heartbeatSeen := false, holdRequested := false,
               torqueDisabled := true), ReplyOk)
    case Tick(now) =>
      (if s.state == Active && !Fresh(s, now) then s.(state := Hold, holdRequested := true) else s, ReplyOk)
  }

  predicate AcceptsSetpoint(s: Core) {
    s.state == Active && !s.estop && !s.torqueDisabled
  }

  // ---- histories ----

  /** The machine after a history of events, the oldest first. */
  function After(timeout: u32, h: seq<Event>): Core
    decreases |h|
  {
    if h == [] then Init(timeout) else Apply(After(timeout, h[..|h| - 1]), h[|h| - 1]).0
  }

  /** The machine just before event i of a history. */
  function Before(timeout: u32, h: seq<Event>, i: nat): Core
    requires i <= |h|
  {
    After(timeout, h[..i])
  }

  lemma StepOfHistory(timeout: u32, h: seq<Event>, i: nat)
    requires i < |h|
    ensures Before(timeout, h, i + 1) == Apply(Before(timeout, h, i), h[i]).0
  {
    assert h[..i + 1][..i] == h[..i];
  }

  predicate Accepted(timeout: u32, h: seq<Event>, i: nat)
    requires i < |h|
  {
    Apply(Before(timeout, h, i), h[i]).1 == ReplyOk
  }

  /** What holds of the machine at every point of every history. */
  predicate Coherent(s: Core) {
    && (s.estop ==> s.state == Estopped)
    && (!s.torqueDisabled <==> s.state == Active || s.state == Hold)
    && (s.holdRequested <==> s.state == Hold)
    && (s.state == Active ==> s.heartbeatSeen)
  }

  lemma ApplyCoherent(s: Core, ev: Event)
    requires Coherent(s)
    ensures Coherent(Apply(s, ev).0) && Apply(s, ev).0.timeout == s.timeout
  {
  }

  /** An asserted emergency stop means Estopped; torque is permitted exactly in Active and Hold; setpoints are
      accepted exactly in Active. */
  lemma {:induction false} HistoryCoherent(timeout: u32, h: seq<Event>)
    ensures var s := After(timeout, h);
      Coherent(s) && s.timeout == timeout && (AcceptsSetpoint(s) <==> s.state == Active)
    decreases |h|
  {
    if h != [] {
      HistoryCoherent(timeout, h[..|h| - 1]);
      ApplyCoherent(After(timeout, h[..|h| - 1]), h[|h| - 1]);
    }
  }

  /** After the watchdog has looked at tick now, an active machine has a fresh heartbeat. */
  lemma WatchdogHolds(timeout: u32, h: seq<Event>, now: u32)
    ensures var s := After(timeout, h + [Tick(now)]); s.state == Active ==> Fresh(s, now)
  {
    assert (h + [Tick(now)])[..|h|] == h;
  }

  // ---- why a machine is active ----

  /** An event that takes an active machine out of Active. */
  predicate Demotes(s: Core, ev: Event) {
    match ev
    case RequestHold => true
    case RequestDisable => true
    case ReportFault(_) => true
    case SetEstop(asserted) => asserted
    case Tick(now) => !Fresh(s, now)
    case _ => false
  }

  /** Event i of the history is an enable with a fresh heartbeat in an armed machine, and nothing since has
      demoted it. */
  predicate EnabledAt(timeout: u32, h: seq<Event>, i: nat)
    requires i < |h|
  {
    && h[i].RequestEnable? && Before(timeout, h, i).state == Armed && Fresh(Before(timeout, h, i), h[i].now)
    && forall k :: i < k < |h| ==> !Demotes(Before(timeout, h, k), h[k])
  }

  lemma {:induction false} EnabledIsActive(timeout: u32, h: seq<Event>, i: nat)
    requires i < |h| && EnabledAt(timeout, h, i)
    ensures After(timeout, h).state == Active
    decreases |h|
  {
    var n := |h| - 1;
    assert h[..|h|] == h;
    StepOfHistory(timeout, h, n);
    HistoryCoherent(timeout, h[..n]);
    if i < n {
      var front := h[..n];
      assert front[..i] == h[..i];
      forall k | i < k < n ensures !Demotes(Before(timeout, front, k), front[k]) {
        assert front[..k] == h[..k] && front[k] == h[k];
      }
      EnabledIsActive(timeout, front, i);
    }
  }

  /** What the event before an active machine can have been. */
  lemma BecameActive(s: Core, ev: Event)
    requires Coherent(s) && Apply(s, ev).0.state == Active
    ensures !Demotes(s, ev)
    ensures s.state != Active ==> ev.RequestEnable? && s.state == Armed && Fresh(s, ev.now)
  {
  }

  lemma {:induction false} ActiveWasEnabled(timeout: u32, h: seq<Event>) returns (i: nat)
    requires After(timeout, h).state == Active
    ensures i < |h| && EnabledAt(timeout, h, i)
    decreases |h|
  {
    var n := |h| - 1;
    var front := h[..n];
    HistoryCoherent(timeout, front);
    BecameActive(After(timeout, front), h[n]);
    if After(timeout, front).state != Active {
      i := n;
    } else {
      i := ActiveWasEnabled(timeout, front);
      assert front[..i] == h[..i];
      forall k | i < k < |h| ensures !Demotes(Before(timeout, h, k), h[k]) {
        if k < n {
          assert front[..k] == h[..k] && front[k] == h[k];
          assert !Demotes(Before(timeout, front, k), front[k]);
        }
      }
    }
  }

  /** Setpoints are accepted exactly when, somewhere in the past, an armed machine with a fresh heartbeat was
      enabled, and since then there has been no hold, disable, fault or emergency stop, and no watchdog look
      without a fresh heartbeat. */
  lemma AcceptsIffEnabled(timeout: u32, h: seq<Event>)
    ensures AcceptsSetpoint(After(timeout, h)) <==> exists i: nat :: i < |h| && EnabledAt(timeout, h, i)
  {
    HistoryCoherent(timeout, h);
    if After(timeout, h).state == Active {
      var i := ActiveWasEnabled(timeout, h);
    }
    if exists i: nat :: i < |h| && EnabledAt(timeout, h, i) {
      var i: nat :| i < |h| && EnabledAt(timeout, h, i);
      EnabledIsActive(timeout, h, i);
    }
  }

  // ---- what arming and a heartbeat rest on ----

  /** An event that stops an armed machine. */
  predicate Stops(ev: Event) {
    ev.RequestDisable? || ev.ReportFault? || (ev.SetEstop? && ev.asserted)
  }

  /** Event i is a healthy arm with matching configuration, and nothing has stopped the machine since. */
  predicate ArmedAt(timeout: u32, h: seq<Event>, i: nat)
    requires i < |h|
  {
    && h[i] == RequestArm(true, true) && Accepted(timeout, h, i)
    && forall k :: i < k < |h| ==> !Stops(h[k])
  }

  predicate Engaged(state: State) {
    state == Armed || state == Active || state == Hold
  }

  lemma BecameEngaged(s: Core, ev: Event)
    requires Coherent(s) && Engaged(Apply(s, ev).0.state)
    ensures !Stops(ev)
    ensures !Engaged(s.state) ==> ev == RequestArm(true, true) && Apply(s, ev).1 == ReplyOk
  {
  }

  /** A machine that is armed, active or holding was armed, healthy and matching, and not stopped since. */
  lemma {:induction false} WasArmed(timeout: u32, h: seq<Event>) returns (i: nat)
    requires Engaged(After(timeout, h).state)
    ensures i < |h| && ArmedAt(timeout, h, i)
    decreases |h|
  {
    var n := |h| - 1;
    var front := h[..n];
    HistoryCoherent(timeout, front);
    BecameEngaged(After(timeout, front), h[n]);
    if Engaged(After(timeout, front).state) {
      i := WasArmed(timeout, front);
      assert front[..i] == h[..i] && front[i] == h[i];
      forall k | i < k < |h| ensures !Stops(h[k]) {
        if k < n { assert front[k] == h[k] && !Stops(front[k]); }
      }
    } else {
      i := n;
    }
  }

  /** An event that makes the machine forget its heartbeat, in the state it meets. */
  predicate Forgets(timeout: u32, h: seq<Event>, k: nat)
    requires k < |h|
  {
    (h[k].RequestDisable? || h[k].ClearLatchedStop?) && Accepted(timeout, h, k)
  }

  /** Event i is the last heartbeat, and no accepted disable or clear has come after it. */
  predicate HeardAt(timeout: u32, h: seq<Event>, i: nat)
    requires i < |h|
  {
    && h[i].Heartbeat?
    && forall k :: i < k < |h| ==> !h[k].Heartbeat? && !Forgets(timeout, h, k)
  }

  /** A remembered heartbeat is the last one received, after the last init, disable or clear. */
  lemma {:induction false} WasHeard(timeout: u32, h: seq<Event>) returns (i: nat)
    requires After(timeout, h).heartbeatSeen
    ensures i < |h| && HeardAt(timeout, h, i) && h[i].now == After(timeout, h).lastHeartbeat
    decreases |h|
  {
    var n := |h| - 1;
    var front := h[..n];
    if h[n].Heartbeat? {
      i := n;
    } else {
      i := WasHeard(timeout, front);
      assert front[i] == h[i];
      forall k | i < k < |h| ensures !h[k].Heartbeat? && !Forgets(timeout, h, k) {
        if k < n { assert front[k] == h[k] && front[..k] == h[..k] && !Forgets(timeout, front, k); }
      }
    }
  }

  /** The whole story of an accepted setpoint: a healthy matching arm not stopped since, a heartbeat not
      forgotten since, and between them an enable at which that machine was armed and a heartbeat fresh. */
  lemma AcceptedSetpointStory(timeout: u32, h: seq<Event>) returns (arm: nat, enable: nat, beat: nat)
    requires AcceptsSetpoint(After(timeout, h))
    ensures arm < enable < |h| && EnabledAt(timeout, h, enable)
    ensures h[arm] == RequestArm(true, true) && Accepted(timeout, h, arm)
    ensures forall k :: arm < k < |h| ==> !Stops(h[k])
    ensures beat < enable && HeardAt(timeout, h[..enable], beat) && Diff(h[enable].now, h[beat].now) <= timeout
  {
    enable := ActiveWasEnabled(timeout, h);
    var front := h[..enable];
    arm := WasArmed(timeout, front);
    assert front[..arm] == h[..arm] && front[arm] == h[arm];
    forall k | arm < k < |h| ensures !Stops(h[k]) {
      if k < enable {
        assert front[k] == h[k] && !Stops(front[k]);
      } else if k > enable {
        assert !Demotes(Before(timeout, h, k), h[k]);
      }
    }
    beat := WasHeard(timeout, front);
    assert front[beat] == h[beat];
    HistoryCoherent(timeout, front);
  }

  // ---- what every state rests on ----

  /** Some event in the past did `enter`, and none since has done `leave`, each judged in the state it met. */
  predicate Since(timeout: u32, h: seq<Event>, enter: (Core, Event) -> bool, leave: (Core, Event) -> bool) {
    exists i: nat :: i < |h| && SinceAt(timeout, h, enter, leave, i)
  }

  predicate SinceAt(timeout: u32, h: seq<Event>, enter: (Core, Event) -> bool, leave: (Core, Event) -> bool, i: nat)
    requires i < |h|
  {
    enter(Before(timeout, h, i), h[i]) && forall k :: i < k < |h| ==> !leave(Before(timeout, h, k), h[k])
  }

  /** What begins with `enter`, and with nothing else, and ends with `leave`, holds exactly since some `enter`. */
  lemma {:induction false} HoldsSince(timeout: u32, h: seq<Event>, holds: Core -> bool,
                                      enter: (Core, Event) -> bool, leave: (Core, Event) -> bool)
    requires !holds(Init(timeout))
    requires forall s: Core, ev: Event :: Coherent(s) ==>
      (holds(Apply(s, ev).0) <==> enter(s, ev) || (holds(s) && !leave(s, ev)))
    ensures holds(After(timeout, h)) <==> Since(timeout, h, enter, leave)
    decreases |h|
  {
    if h != [] {
      var n := |h| - 1;
      var front := h[..n];
      HistoryCoherent(timeout, front);
      HoldsSince(timeout, front, holds, enter, leave);
      OneMoreSince(timeout, h, front, n, enter, leave);
    }
  }

  lemma OneMoreSince(timeout: u32, h: seq<Event>, front: seq<Event>, n: nat, enter: (Core, Event) -> bool,
                     leave: (Core, Event) -> bool)
    requires h != [] && n == |h| - 1 && front == h[..n]
    ensures Since(timeout, h, enter, leave) <==>
      enter(After(timeout, front), h[n]) ||
      (Since(timeout, front, enter, leave) && !leave(After(timeout, front), h[n]))
  {
    if Since(timeout, h, enter, leave) {
      var i: nat :| i < |h| && SinceAt(timeout, h, enter, leave, i);
      if i < n { SinceShorter(timeout, h, front, n, enter, leave, i); }
    }
    if enter(After(timeout, front), h[n]) {
      assert SinceAt(timeout, h, enter, leave, n);
    } else if Since(timeout, front, enter, leave) && !leave(After(timeout, front), h[n]) {
      var i: nat :| i < |front| && SinceAt(timeout, front, enter, leave, i);
      SinceLonger(timeout, h, front, n, enter, leave, i);
    }
  }

  lemma SinceShorter(timeout: u32, h: seq<Event>, front: seq<Event>, n: nat, enter: (Core, Event) -> bool,
                     leave: (Core, Event) -> bool, i: nat)
    requires h != [] && i < n == |h| - 1 && front == h[..n] && SinceAt(timeout, h, enter, leave, i)
    ensures SinceAt(timeout, front, enter, leave, i) && !leave(After(timeout, front), h[n])
  {
    assert front[..i] == h[..i];
    forall k | i < k < n ensures !leave(Before(timeout, front, k), front[k]) {
      assert front[..k] == h[..k] && !leave(Before(timeout, h, k), h[k]);
    }
    assert !leave(Before(timeout, h, n), h[n]);
  }

  lemma SinceLonger(timeout: u32, h: seq<Event>, front: seq<Event>, n: nat, enter: (Core, Event) -> bool,
                    leave: (Core, Event) -> bool, i: nat)
    requires h != [] && i < n == |h| - 1 && front == h[..n]
    requires SinceAt(timeout, front, enter, leave, i) && !leave(After(timeout, front), h[n])
    ensures SinceAt(timeout, h, enter, leave, i)
  {
    assert front[..i] == h[..i];
    forall k | i < k < |h| ensures !leave(Before(timeout, h, k), h[k]) {
      if k < n { assert front[..k] == h[..k] && !leave(Before(timeout, front, k), front[k]); }
    }
  }

  // ---- the latched stops ----

  /** A failed boot check, or a fault reported while no emergency stop is asserted. */
  predicate Fails(s: Core, ev: Event) {
    (ev == CompleteBoot(false) && s.state == Boot) || (ev.ReportFault? && !s.estop)
  }

  /** A healthy clear of a latched stop, once the emergency stop is released. */
  predicate Clears(s: Core, ev: Event) {
    ev == ClearLatchedStop(true) && (s.state == Fault || s.state == Estopped) && !s.estop
  }

  predicate Stopping(s: Core, ev: Event) {
    ev == SetEstop(true)
  }

  predicate ClearsOrStops(s: Core, ev: Event) {
    Clears(s, ev) || Stopping(s, ev)
  }

  predicate ClearsOrFails(s: Core, ev: Event) {
    Clears(s, ev) || Fails(s, ev)
  }

  /** The machine is in Fault exactly when it has failed, and since then no clear was accepted and no emergency stop
      asserted. */
  lemma FaultIff(timeout: u32, h: seq<Event>)
    ensures After(timeout, h).state == Fault <==> Since(timeout, h, Fails, ClearsOrStops)
  {
    HoldsSince(timeout, h, (s: Core) => s.state == Fault, Fails, ClearsOrStops);
  }

  /** It is in Estopped exactly when the emergency stop was asserted, and since then no clear was accepted and no
      fault reported with the stop released. Releasing the stop alone does not end it. */
  lemma EstoppedIff(timeout: u32, h: seq<Event>)
    ensures After(timeout, h).state == Estopped <==> Since(timeout, h, Stopping, ClearsOrFails)
  {
    HoldsSince(timeout, h, (s: Core) => s.state == Estopped, Stopping, ClearsOrFails);
  }

  predicate Releases(s: Core, ev: Event) {
    ev == SetEstop(false)
  }

  /** The emergency stop is asserted exactly when it was last asserted and not released. */
  lemma EstopIff(timeout: u32, h: seq<Event>)
    ensures After(timeout, h).estop <==> Since(timeout, h, Stopping, Releases)
  {
    HoldsSince(timeout, h, (s: Core) => s.estop, Stopping, Releases);
  }

  predicate Latches(s: Core, ev: Event) {
    Fails(s, ev) || Stopping(s, ev)
  }

  /** Stopped, one way or the other, exactly since a failure or an emergency stop with no accepted clear after it. */
  lemma LatchedIff(timeout: u32, h: seq<Event>)
    ensures After(timeout, h).state in {Fault, Estopped} <==> Since(timeout, h, Latches, Clears)
  {
    HoldsSince(timeout, h, (s: Core) => s.state == Fault || s.state == Estopped, Latches, Clears);
  }

  /** Nothing but an accepted clear, an emergency stop or a fault moves a latched machine. */
  lemma LatchedStays(s: Core, ev: Event)
    requires Coherent(s) && (s.state == Fault || s.state == Estopped)
    requires !Clears(s, ev) && !Stopping(s, ev) && !Fails(s, ev)
    ensures Apply(s, ev).0.state == s.state
    ensures !ev.ReportFault? ==> Apply(s, ev).0.fault == s.fault
  {
  }

  /** The event brings fault code c. */
  predicate Brings(c: u16, ev: Event, s: Core) {
    ev == ReportFault(c) || (c == 0xFF01 && ev == CompleteBoot(false) && s.state == Boot)
  }

  /** The event brings another code, or clears. */
  predicate Replaces(c: u16, ev: Event, s: Core) {
    Clears(s, ev) || (ev.ReportFault? && ev.code != c) || (c != 0xFF01 && ev == CompleteBoot(false) && s.state == Boot)
  }

  /** The code on record is that of the last fault, until an accepted clear. */
  lemma FaultCodeIff(timeout: u32, h: seq<Event>, c: u16)
    requires c != 0
    ensures After(timeout, h).fault == c <==>
      Since(timeout, h, (s, ev) => Brings(c, ev, s), (s, ev) => Replaces(c, ev, s))
  {
    HoldsSince(timeout, h, (s: Core) => s.fault == c, (s, ev) => Brings(c, ev, s), (s, ev) => Replaces(c, ev, s));
  }

  // ---- the other states ----

  predicate Arms(s: Core, ev: Event) {
    ev == RequestArm(true, true) && s.state == SafeDisabled
  }

  predicate Enables(s: Core, ev: Event) {
    ev.RequestEnable? && s.state == Armed && Fresh(s, ev.now)
  }

  /** A hold requested of an active machine, or a stale heartbeat noticed. */
  predicate Holds(s: Core, ev: Event) {
    s.state == Active && (ev.RequestHold? || (ev.Tick? && !Fresh(s, ev.now)))
  }

  /** A disable outside Boot and the latched stops. */
  predicate Disables(s: Core, ev: Event) {
    ev.RequestDisable? && s.state != Boot && s.state != Fault && s.state != Estopped
  }

  predicate Boots(s: Core, ev: Event) {
    ev == CompleteBoot(true) && s.state == Boot
  }

  predicate Interrupts(s: Core, ev: Event) {
    Disables(s, ev) || Latches(s, ev)
  }

  predicate EnablesOrInterrupts(s: Core, ev: Event) {
    Enables(s, ev) || Interrupts(s, ev)
  }

  predicate HoldsOrInterrupts(s: Core, ev: Event) {
    Holds(s, ev) || Interrupts(s, ev)
  }

  predicate MakesSafe(s: Core, ev: Event) {
    Boots(s, ev) || Disables(s, ev) || Clears(s, ev)
  }

  predicate ArmsOrLatches(s: Core, ev: Event) {
    Arms(s, ev) || Latches(s, ev)
  }

  predicate AnyMove(s: Core, ev: Event) {
    Boots(s, ev) || Latches(s, ev)
  }

  /** Each remaining state, by what last led to it and what has not happened since. */
  lemma SafeDisabledIff(timeout: u32, h: seq<Event>)
    ensures After(timeout, h).state == SafeDisabled <==> Since(timeout, h, MakesSafe, ArmsOrLatches)
  {
    HoldsSince(timeout, h, (s: Core) => s.state == SafeDisabled, MakesSafe, ArmsOrLatches);
  }

  lemma ArmedIff(timeout: u32, h: seq<Event>)
    ensures After(timeout, h).state == Armed <==> Since(timeout, h, Arms, EnablesOrInterrupts)
  {
    HoldsSince(timeout, h, (s: Core) => s.state == Armed, Arms, EnablesOrInterrupts);
  }

  lemma ActiveIff(timeout: u32, h: seq<Event>)
    ensures After(timeout, h).state == Active <==> Since(timeout, h, Enables, HoldsOrInterrupts)
  {
    HoldsSince(timeout, h, (s: Core) => s.state == Active, Enables, HoldsOrInterrupts);
  }

  lemma HoldIff(timeout: u32, h: seq<Event>)
    ensures After(timeout, h).state == Hold <==> Since(timeout, h, Holds, Interrupts)
  {
    HoldsSince(timeout, h, (s: Core) => s.state == Hold, Holds, Interrupts);
  }

  predicate Never(s: Core, ev: Event) {
    false
  }

  /** The machine is past Boot exactly since its boot check, a fault or an emergency stop. */
  lemma BootedIff(timeout: u32, h: seq<Event>)
    ensures After(timeout, h).state != Boot <==> Since(timeout, h, AnyMove, Never)
  {
    HoldsSince(timeout, h, (s: Core) => s.state != Boot, AnyMove, Never);
  }

  predicate Beats(s: Core, ev: Event) {
    ev.Heartbeat?
  }

  predicate ClearsOrDisables(s: Core, ev: Event) {
    Clears(s, ev) || Disables(s, ev)
  }

  /** A heartbeat is remembered exactly since one came with no accepted disable or clear after it. */
  lemma HeartbeatIff(timeout: u32, h: seq<Event>)
    ensures After(timeout, h).heartbeatSeen <==> Since(timeout, h, Beats, ClearsOrDisables)
  {
    HoldsSince(timeout, h, (s: Core) => s.heartbeatSeen, Beats, ClearsOrDisables);
  }

  /** What each request answers: accepted exactly in its state, healthy and matching, and otherwise refused for the
      first thing that is wrong. */
  lemma Replies(s: Core, now: u32, healthy: bool, matching: bool)
    requires Coherent(s)
    ensures Apply(s, CompleteBoot(healthy)).1 ==
      if s.state != Boot then BadState else if healthy then ReplyOk else HealthFailed
    ensures Apply(s, RequestArm(healthy, matching)).1 ==
      if s.state != SafeDisabled then BadState else if !healthy then HealthFailed
      else if matching then ReplyOk else ConfigMismatch
    ensures Apply(s, RequestEnable(now)).1 ==
      if s.state != Armed then BadState else if !s.heartbeatSeen then HeartbeatMissing
      else if Diff(now, s.lastHeartbeat) <= s.timeout then ReplyOk else HeartbeatStale
    ensures Apply(s, RequestHold).1 == if s.state == Active then ReplyOk else BadState
    ensures Apply(s, RequestDisable).1 ==
      if s.state in {SafeDisabled, Armed, Active, Hold} then ReplyOk else BadState
    ensures Apply(s, ClearLatchedStop(healthy)).1 ==
      if s.state !in {Fault, Estopped} then BadState else if s.estop then EstopAsserted
      else if healthy then ReplyOk else HealthFailed
  {
  }

  /** A refused request changes nothing, but that a failed boot check is a fault. */
  lemma RefusalChangesNothing(s: Core, ev: Event)
    requires Apply(s, ev).1 != ReplyOk
    ensures Apply(s, ev).0 == s || (ev == CompleteBoot(false) && Apply(s, ev).0 == s.(state := Fault, fault := 0xFF01))
  {
  }

  // ---- the machine as the firmware keeps it ----

  class Machine {
    var state: State
    var timeout: u32
    var lastHeartbeat: u32
    var fault: u16
    var heartbeatSeen: bool
    var holdRequested: bool
    var torqueDisabled: bool
    var estop: bool

    ghost function View(): Core
      reads this
    {
      Core(state, timeout, lastHeartbeat, fault, heartbeatSeen, holdRequested, torqueDisabled, estop)
    }

    constructor (heartbeatTimeout: u32)
      ensures View() == Init(heartbeatTimeout)
    {
      state := Boot;
      timeout := heartbeatTimeout;
      lastHeartbeat := 0;
      fault := 0;
      heartbeatSeen, holdRequested, torqueDisabled, estop := false, false, true, false;
    }

    method OnCompleteBoot(healthy: bool) returns (r: Reply)
      modifies this
      ensures (View(), r) == Apply(old(View()), CompleteBoot(healthy))
    {
      if state != Boot {
        return BadState;
      }
      if !healthy {
        state := Fault;
        fault := BOOT_FAULT;
        return HealthFailed;
      }
      state := SafeDisabled;
      r := ReplyOk;
    }

    method OnHeartbeat(now: u32)
      modifies this
      ensures View() == Apply(old(View()), Heartbeat(now)).0
    {
      lastHeartbeat := now;
      heartbeatSeen := true;
    }

    method OnArm(healthy: bool, matching: bool) returns (r: Reply)
      modifies this
      ensures (View(), r) == Apply(old(View()), RequestArm(healthy, matching))
    {
      if state != SafeDisabled {
        return BadState;
      }
      if estop {
        return EstopAsserted;
      }
      if !healthy {
        return HealthFailed;
      }
      if !matching {
        return ConfigMismatch;
      }
      state := Armed;
      holdRequested := false;
      torqueDisabled := true;
      r := ReplyOk;
    }

    method OnEnable(now: u32) returns (r: Reply)
      modifies this
      ensures (View(), r) == Apply(old(View()), RequestEnable(now))
    {
      if state != Armed {
        return BadState;
      }
      if estop {
        return EstopAsserted;
      }
      if !heartbeatSeen {
        return HeartbeatMissing;
      }
      if Diff(now, lastHeartbeat) > timeout {
        return HeartbeatStale;
      }
      state := Active;
      holdRequested := false;
      torqueDisabled := false;
      r := ReplyOk;
    }

    method OnHold() returns (r: Reply)
      modifies this
      ensures (View(), r) == Apply(old(View()), RequestHold)
    {
      if state != Active {
        return BadState;
      }
      state := Hold;
      holdRequested := true;
      r := ReplyOk;
    }

    method OnDisable() returns (r: Reply)
      modifies this
      ensures (View(), r) == Apply(old(View()), RequestDisable)
    {
      if state == Boot || state == Fault || state == Estopped {
        return BadState;
      }
      state := SafeDisabled;
      holdRequested := false;
      torqueDisabled := true;
      heartbeatSeen := false;
      r := ReplyOk;
    }

    method OnFault(code: u16)
      modifies this
      ensures View() == Apply(old(View()), ReportFault(code)).0
    {
      if !estop {
        state := Fault;
      }
      fault := code;
      holdRequested := false;
      torqueDisabled := true;
    }

    method OnEstop(asserted: bool)
      modifies this
      ensures View() == Apply(old(View()), SetEstop(asserted)).0
    {
      estop := asserted;
      if asserted {
        state := Estopped;
        holdRequested := false;
        torqueDisabled := true;
      }
    }

    method OnClear(healthy: bool) returns (r: Reply)
      modifies this
      ensures (View(), r) == Apply(old(View()), ClearLatchedStop(healthy))
    {
      if state != Fault && state != Estopped {
        return BadState;
      }
      if estop {
        return EstopAsserted;
      }
      if !healthy {
        return HealthFailed;
      }
      state := SafeDisabled;
      fault := 0;
      heartbeatSeen := false;
      holdRequested := false;
      torqueDisabled := true;
      r := ReplyOk;
    }

    method OnTick(now: u32)
      modifies this
      ensures View() == Apply(old(View()), Tick(now)).0
    {
      if state == Active && !(heartbeatSeen && Diff(now, lastHeartbeat) <= timeout) {
        state := Hold;
        holdRequested := true;
      }
    }
  }
}
