/** The circuit breaker under interleaving: any number of callers, each advancing one atomic
    access at a time over the shared fields, with sequentially consistent memory and a clock that
    never runs backwards. Reading the clock and storing the error time is one access. */
module DiskHealthThreads {
  import opened Common
  import opened DiskHealth

  /** A bypass query runs on its own or as the first part of `try_operation`. */
  datatype Purpose = Peek | Try

  /** Where a caller is. Names give the next access; parameters are values already read. */
  datatype PC =
    | Outside
    | QueryClock(use: Purpose)
    | QueryLast(use: Purpose, now: nat)
    | QueryReset(use: Purpose)
    | QueryFlag(use: Purpose)
    | CheckClock
    | CheckLast(now: nat)
    | Reserve
    | RecheckClock
    | RecheckLast(now: nat)
    | Refuse
    | ErrorStamp
    | ErrorClearSuccess
    | ErrorCount
    | ErrorTrip
    | SuccessCount
    | SuccessFlag
    | SuccessOpen
    | SuccessClearError
    | SuccessClearSuccess

  /** `owned` is the operation the caller holds, as its `probe` flag. */
  datatype Caller = Caller(pc: PC, owned: Option<bool>)

  datatype State = State(clock: nat, shared: Shared, callers: map<nat, Caller>)

  datatype Request = CallQuery | CallTry | CallError | CallSuccess

  datatype Action =
    | Tick(seconds: nat)
    | Begin(caller: nat, call: Request)
    | Advance(caller: nat, clockReadable: bool)
    | DropOwned(caller: nat)

  function Entry(call: Request): PC {
    match call
    case CallQuery => QueryClock(Peek)
    case CallTry => QueryClock(Try)
    case CallError => ErrorStamp
    case CallSuccess => SuccessCount
  }

  predicate Waited(lastErrorTime: nat, now: nat) {
    SaturatingSub(now, lastErrorTime) > RESET_WINDOW_SECS
  }

  /** One atomic access of one caller. */
  function Access(h: Shared, clock: nat, c: Caller, clockReadable: bool): (Shared, Caller) {
    match c.pc
    case Outside => (h, c)
    case QueryClock(use) => (h, c.(pc := if clockReadable then QueryLast(use, clock) else QueryFlag(use)))
    case QueryLast(use, now) =>
      (h, c.(pc := if h.lastErrorTime > 0 && Waited(h.lastErrorTime, now) then QueryReset(use) else QueryFlag(use)))
    case QueryReset(use) => (h.(errorCount := 0), c.(pc := QueryFlag(use)))
    case QueryFlag(Peek) => (h, c.(pc := Outside))
    case QueryFlag(Try) => (h, if h.bypassed then c.(pc := CheckClock) else Caller(Outside, Some(false)))
    case CheckClock => (h, c.(pc := if clockReadable then CheckLast(clock) else Outside))
    case CheckLast(now) => (h, c.(pc := if Waited(h.lastErrorTime, now) then Reserve else Outside))
    case Reserve =>
      if h.probeInflight then (h, c.(pc := Outside))
      else (h.(probeInflight := true), Caller(RecheckClock, Some(true)))
    case RecheckClock => (h, c.(pc := if clockReadable then RecheckLast(clock) else Refuse))
    case RecheckLast(now) => (h, c.(pc := if Waited(h.lastErrorTime, now) then Outside else Refuse))
    case Refuse => (h.(probeInflight := false), Caller(Outside, None))
    case ErrorStamp =>
      (if clockReadable then h.(lastErrorTime := clock) else h, c.(pc := ErrorClearSuccess))
    case ErrorClearSuccess => (h.(successCount := 0), c.(pc := ErrorCount))
    case ErrorCount =>
      var count := Increment(h.errorCount);
      (h.(errorCount := count), c.(pc := if count >= ERROR_THRESHOLD then ErrorTrip else Outside))
    case ErrorTrip => (h.(bypassed := true), c.(pc := Outside))
    case SuccessCount =>
      var count := Increment(h.successCount);
      (h.(successCount := count), c.(pc := if count >= RECOVERY_THRESHOLD then SuccessFlag else Outside))
    case SuccessFlag => (h, c.(pc := if h.bypassed then SuccessOpen else Outside))
    case SuccessOpen => (h.(bypassed := false), c.(pc := SuccessClearError))
    case SuccessClearError => (h.(errorCount := 0), c.(pc := SuccessClearSuccess))
    case SuccessClearSuccess => (h.(successCount := 0), c.(pc := Outside))
  }

  /** The state after an action; an action that is not enabled changes nothing. A caller asks for
      an operation only while it owns none, and drops one only between calls. */
  function Next(s: State, a: Action): State {
    match a
    case Tick(seconds) => s.(clock := s.clock + seconds)
    case Begin(t, call) =>
      if t in s.callers && s.callers[t].pc.Outside? && (call.CallTry? ==> s.callers[t].owned.None?)
      then s.(callers := s.callers[t := s.callers[t].(pc := Entry(call))]) else s
    case Advance(t, clockReadable) =>
      if t in s.callers then
        var (h, c) := Access(s.shared, s.clock, s.callers[t], clockReadable);
        State(s.clock, h, s.callers[t := c])
      else s
    case DropOwned(t) =>
      if t in s.callers && s.callers[t].pc.Outside? && s.callers[t].owned.Some? then
        State(s.clock,
              if s.callers[t].owned.value then s.shared.(probeInflight := false) else s.shared,
              s.callers[t := Caller(Outside, None)])
      else s
  }

  /** Nobody is inside a call or owns an operation; the counters and the bypass flag are whatever
      earlier calls left. A new breaker is such a state. */
  predicate Initial(s: State) {
    && !s.shared.probeInflight
    && s.shared.lastErrorTime <= s.clock
    && forall t :: t in s.callers ==> s.callers[t] == Caller(Outside, None)
  }

  /** `states` is a run that takes `actions` in order. */
  predicate IsRun(states: seq<State>, actions: seq<Action>) {
    && |states| == |actions| + 1
    && Initial(states[0])
    && forall i :: 0 <= i < |actions| ==> states[i + 1] == Next(states[i], actions[i])
  }

  predicate Reserves(s: State, t: nat) {
    t in s.callers && s.callers[t].owned == Some(true)
  }

  // ------------------------------------------------------------- one reservation, one probe

  predicate AfterReservation(pc: PC) {
    pc.RecheckClock? || pc.RecheckLast? || pc.Refuse?
  }

  predicate BeforeAdmission(pc: PC) {
    ((pc.QueryClock? || pc.QueryLast? || pc.QueryReset? || pc.QueryFlag?) && pc.use.Try?)
    || pc.CheckClock? || pc.CheckLast? || pc.Reserve?
  }

  ghost predicate SlotInv(s: State) {
    && (s.shared.probeInflight <==> exists t :: Reserves(s, t))
    && (forall t, u :: Reserves(s, t) && Reserves(s, u) ==> t == u)
    && (forall t :: t in s.callers && AfterReservation(s.callers[t].pc) ==> Reserves(s, t))
    && (forall t :: t in s.callers && BeforeAdmission(s.callers[t].pc) ==> s.callers[t].owned.None?)
  }

  /** What one access may do to the probe flag and to its caller's reservation. */
  lemma {:induction false} AccessKeepsSlot(h: Shared, clock: nat, c: Caller, clockReadable: bool)
    requires AfterReservation(c.pc) ==> c.owned == Some(true)
    requires BeforeAdmission(c.pc) ==> c.owned.None?
    ensures var (h', c') := Access(h, clock, c, clockReadable);
            && (AfterReservation(c'.pc) ==> c'.owned == Some(true))
            && (BeforeAdmission(c'.pc) ==> c'.owned.None?)
            && SlotChange(h.probeInflight, c.owned, h'.probeInflight, c'.owned)
  {
  }

  /** The flag and the reservation change together: both taken, both given back, or neither. */
  predicate SlotChange(flag: bool, owned: Option<bool>, flag': bool, owned': Option<bool>) {
    if owned == Some(true) then flag' == (flag && owned' == Some(true))
    else if owned' == Some(true) then !flag && flag' else flag' == flag
  }

  lemma {:induction false} SlotInvStep(s: State, a: Action)
    requires SlotInv(s)
    ensures SlotInv(Next(s, a))
  {
    var s' := Next(s, a);
    if a.Tick? || a.caller !in s.callers {
      assert s'.callers == s.callers;
      assert forall t :: Reserves(s', t) <==> Reserves(s, t);
    } else {
      var t := a.caller;
      var c, c' := s.callers[t], s'.callers[t];
      if a.Advance? {
        AccessKeepsSlot(s.shared, s.clock, c, a.clockReadable);
      }
      assert Reserves(s, t) ==> s.shared.probeInflight;
      assert SlotChange(s.shared.probeInflight, c.owned, s'.shared.probeInflight, c'.owned);
      OneCallerMoves(s, s', t);
    }
  }

  lemma {:induction false} OneCallerMoves(s: State, s': State, t: nat)
    requires SlotInv(s) && t in s.callers && t in s'.callers && s'.callers == s.callers[t := s'.callers[t]]
    requires AfterReservation(s'.callers[t].pc) ==> Reserves(s', t)
    requires BeforeAdmission(s'.callers[t].pc) ==> s'.callers[t].owned.None?
    requires SlotChange(s.shared.probeInflight, s.callers[t].owned, s'.shared.probeInflight, s'.callers[t].owned)
    ensures SlotInv(s')
  {
    assert forall u :: u != t ==> (Reserves(s', u) <==> Reserves(s, u));
    if Reserves(s, t) || Reserves(s', t) {
      assert s'.shared.probeInflight ==> Reserves(s', t);
    } else if s.shared.probeInflight {
      var u :| Reserves(s, u);
      assert Reserves(s', u);
    }
  }

  lemma {:induction false} SlotInvRun(states: seq<State>, actions: seq<Action>, i: nat)
    requires IsRun(states, actions) && i < |states|
    ensures SlotInv(states[i])
  {
    if i > 0 {
      SlotInvRun(states, actions, i - 1);
      SlotInvStep(states[i - 1], actions[i - 1]);
    }
  }

  /** In every interleaving the probe flag is set exactly while one caller owns a reservation, and
      never two callers do. The flag is clear again right after any step that ends a reservation,
      whether the holder dropped it or the recheck refused it. */
  lemma {:induction false} ProbeSlotIsExact(states: seq<State>, actions: seq<Action>, i: nat)
    requires IsRun(states, actions) && i < |states|
    ensures states[i].shared.probeInflight <==> exists t :: Reserves(states[i], t)
    ensures forall t, u :: Reserves(states[i], t) && Reserves(states[i], u) ==> t == u
    ensures forall t :: i > 0 && Reserves(states[i - 1], t) && !Reserves(states[i], t) ==>
                          !states[i].shared.probeInflight
  {
    SlotInvRun(states, actions, i);
    if i > 0 {
      SlotInvRun(states, actions, i - 1);
      var s, a := states[i - 1], actions[i - 1];
      forall t | Reserves(s, t) && !Reserves(states[i], t)
        ensures !states[i].shared.probeInflight
      {
        assert states[i] == Next(s, a);
        assert a.Tick? || t == a.caller;
      }
    }
  }

  // ------------------------------------------------------------- no probe inside the window

  /** Step `j` records an error at the current second. */
  predicate StampsError(states: seq<State>, actions: seq<Action>, j: nat)
    requires IsRun(states, actions) && j < |actions|
  {
    var s, a := states[j], actions[j];
    a.Advance? && a.caller in s.callers && s.callers[a.caller].pc.ErrorStamp? && a.clockReadable
  }

  /** Step `j` ends a `try_operation` and hands its caller a probe. */
  predicate AdmitsProbe(states: seq<State>, actions: seq<Action>, j: nat)
    requires IsRun(states, actions) && j < |actions|
  {
    var s, a := states[j], actions[j];
    && a.Advance? && a.caller in s.callers
    && (BeforeAdmission(s.callers[a.caller].pc) || AfterReservation(s.callers[a.caller].pc))
    && states[j + 1].callers[a.caller] == Caller(Outside, Some(true))
  }

  predicate ClockInv(s: State) {
    && s.shared.lastErrorTime <= s.clock
    && forall t :: t in s.callers && s.callers[t].pc.RecheckLast? ==> s.callers[t].pc.now <= s.clock
  }

  lemma {:induction false} TimesOnlyGrow(states: seq<State>, actions: seq<Action>, i: nat, j: nat)
    requires IsRun(states, actions) && i <= j < |states|
    ensures ClockInv(states[j])
    ensures states[i].clock <= states[j].clock
    ensures states[i].shared.lastErrorTime <= states[j].shared.lastErrorTime
    decreases j
  {
    if j > 0 {
      TimesOnlyGrow(states, actions, if i < j then i else j - 1, j - 1);
      assert states[j] == Next(states[j - 1], actions[j - 1]);
    }
  }

  /** No probe is ever admitted within the cooldown window after an error recorded earlier in the
      run, by whomever, even when its caller passed the first cooldown check before that error. In
      particular, after a probe that recorded an error and was dropped, the next probe waits. */
  lemma {:induction false} ProbesWaitOutTheWindow(states: seq<State>, actions: seq<Action>, i: nat, j: nat)
    requires IsRun(states, actions) && i < j < |actions|
    requires StampsError(states, actions, i) && AdmitsProbe(states, actions, j)
    ensures states[j].clock > states[i].clock + 60
  {
    assert states[i + 1] == Next(states[i], actions[i]);
    TimesOnlyGrow(states, actions, i + 1, j);
    SlotInvRun(states, actions, j);
    assert states[j + 1] == Next(states[j], actions[j]);
  }

  // ------------------------------------------------------------- uninterrupted calls

  function Remaining(pc: PC): nat {
    match pc
    case Outside => 0
    case QueryClock(_) => 10
    case QueryLast(_, _) => 9
    case QueryReset(_) => 8
    case QueryFlag(_) => 7
    case CheckClock => 6
    case CheckLast(_) => 5
    case Reserve => 4
    case RecheckClock => 3
    case RecheckLast(_) => 2
    case Refuse => 1
    case ErrorStamp => 4
    case ErrorClearSuccess => 3
    case ErrorCount => 2
    case ErrorTrip => 1
    case SuccessCount => 5
    case SuccessFlag => 4
    case SuccessOpen => 3
    case SuccessClearError => 2
    case SuccessClearSuccess => 1
  }

  /** One caller runs its accesses to the end of the call with nobody in between, and with a clock
      that it can read every time or never. */
  function Alone(h: Shared, clock: Clock, c: Caller): (Shared, Caller)
    decreases Remaining(c.pc)
  {
    if c.pc.Outside? then (h, c) else
    var (h', c') := Access(h, if clock.Some? then clock.value else 0, c, clock.Some?);
    Alone(h', clock, c')
  }

  function AfterTry(h: Shared, clock: Clock): (Shared, Caller) {
    var op := Admitted(h, clock, clock);
    (h.(probeInflight := h.probeInflight || op == Some(true)), Caller(Outside, op))
  }

  /** Run alone, the access sequences are the whole calls of the breaker class, and each takes at
      most ten accesses. */
  lemma {:induction false} UninterruptedCallsAgree(h: Shared, clock: Clock, owned: Option<bool>)
    ensures Alone(h, clock, Caller(Entry(CallError), owned))
         == (AfterError(h, clock), Caller(Outside, owned))
    ensures Alone(h, clock, Caller(Entry(CallSuccess), owned)) == (AfterSuccess(h), Caller(Outside, owned))
    ensures Alone(h, clock, Caller(Entry(CallQuery), owned))
         == (AfterQuery(h, clock), Caller(Outside, owned))
    ensures Alone(h, clock, Caller(Entry(CallTry), None)) == AfterTry(AfterQuery(h, clock), clock)
  {
    AloneError(h, clock, owned);
    AloneSuccess(h, clock, owned);
    AloneQuery(h, clock, Peek, owned);
    AloneQuery(h, clock, Try, None);
    AloneTry(AfterQuery(h, clock), clock);
  }

  lemma {:induction false} AloneError(h: Shared, clock: Clock, owned: Option<bool>)
    ensures Alone(h, clock, Caller(ErrorStamp, owned)) == (AfterError(h, clock), Caller(Outside, owned))
  {
    var h1 := if clock.Some? then h.(lastErrorTime := clock.value) else h;
    var h2 := h1.(successCount := 0);
    var h3 := h2.(errorCount := Increment(h.errorCount));
    assert Alone(h, clock, Caller(ErrorStamp, owned)) == Alone(h1, clock, Caller(ErrorClearSuccess, owned));
    assert Alone(h1, clock, Caller(ErrorClearSuccess, owned)) == Alone(h2, clock, Caller(ErrorCount, owned));
    if h3.errorCount >= ERROR_THRESHOLD {
      assert Alone(h2, clock, Caller(ErrorCount, owned)) == Alone(h3, clock, Caller(ErrorTrip, owned));
      assert Alone(h3, clock, Caller(ErrorTrip, owned)) == (h3.(bypassed := true), Caller(Outside, owned));
    } else {
      assert Alone(h2, clock, Caller(ErrorCount, owned)) == (h3, Caller(Outside, owned));
    }
  }

  lemma {:induction false} AloneSuccess(h: Shared, clock: Clock, owned: Option<bool>)
    ensures Alone(h, clock, Caller(SuccessCount, owned)) == (AfterSuccess(h), Caller(Outside, owned))
  {
    var h1 := h.(successCount := Increment(h.successCount));
    var h2 := h1.(bypassed := false);
    var h3 := h2.(errorCount := 0);
    assert Alone(h3, clock, Caller(SuccessClearSuccess, owned)) == (h3.(successCount := 0), Caller(Outside, owned));
    assert Alone(h, clock, Caller(SuccessCount, owned)) ==
           if h1.successCount >= RECOVERY_THRESHOLD then Alone(h1, clock, Caller(SuccessFlag, owned))
           else (h1, Caller(Outside, owned));
    if h1.bypassed {
      assert Alone(h1, clock, Caller(SuccessFlag, owned)) == Alone(h2, clock, Caller(SuccessClearError, owned));
    } else {
      assert Alone(h1, clock, Caller(SuccessFlag, owned)) == (h1, Caller(Outside, owned));
    }
  }

  lemma {:induction false} AloneQuery(h: Shared, clock: Clock, use: Purpose, owned: Option<bool>)
    ensures Alone(h, clock, Caller(QueryClock(use), owned))
         == Alone(AfterQuery(h, clock), clock, Caller(QueryFlag(use), owned))
    ensures Alone(h, clock, Caller(QueryFlag(Peek), owned)) == (h, Caller(Outside, owned))
  {
    if clock.Some? {
      var last := Caller(QueryLast(use, clock.value), owned);
      assert Alone(h, clock, Caller(QueryClock(use), owned)) == Alone(h, clock, last);
      if WindowLapsed(h.lastErrorTime, clock) {
        assert Alone(h, clock, last) == Alone(h, clock, Caller(QueryReset(use), owned));
      }
    }
  }

  lemma {:induction false} AloneTry(h: Shared, clock: Clock)
    ensures Alone(h, clock, Caller(QueryFlag(Try), None)) == AfterTry(h, clock)
  {
    if h.bypassed && clock.Some? {
      var last := Caller(CheckLast(clock.value), None);
      assert Alone(h, clock, Caller(QueryFlag(Try), None)) == Alone(h, clock, last);
      if Waited(h.lastErrorTime, clock.value) && !h.probeInflight {
        var h1 := h.(probeInflight := true);
        assert Alone(h, clock, last) == Alone(h1, clock, Caller(RecheckClock, Some(true)));
        assert Alone(h1, clock, Caller(RecheckClock, Some(true))) == (h1, Caller(Outside, Some(true)));
      }
    }
  }

  // ------------------------------------------------------------- what interleaving breaks

  /** Two callers, numbered 0 and 1, at second 100. */
  function Two(h: Shared, c0: Caller, c1: Caller): State {
    State(100, h, map[0 := c0, 1 := c1])
  }

  lemma {:induction false} TwoAdvance(h: Shared, c0: Caller, c1: Caller)
    ensures var (h', c') := Access(h, 100, c0, true); Next(Two(h, c0, c1), Advance(0, true)) == Two(h', c', c1)
    ensures var (h', c') := Access(h, 100, c1, true); Next(Two(h, c0, c1), Advance(1, true)) == Two(h', c0, c')
  {
    var s := Two(h, c0, c1);
    assert s.callers[0 := Access(h, 100, c0, true).1] == map[0 := Access(h, 100, c0, true).1, 1 := c1];
    assert s.callers[1 := Access(h, 100, c1, true).1] == map[0 := c0, 1 := Access(h, 100, c1, true).1];
  }

  /** A schedule, as the actions in reverse order, and the state it leads to. */
  datatype Schedule = Start(s: State) | Then(before: Schedule, a: Action)

  function End(p: Schedule): State {
    match p
    case Start(s) => s
    case Then(before, a) => Next(End(before), a)
  }

  function First(p: Schedule): State {
    if p.Start? then p.s else First(p.before)
  }

  lemma {:induction false} ScheduleIsRun(p: Schedule) returns (states: seq<State>, actions: seq<Action>)
    requires Initial(First(p))
    ensures IsRun(states, actions) && states[|actions|] == End(p)
    ensures p.Then? ==> |actions| > 0 && states[|actions| - 1] == End(p.before)
  {
    if p.Start? {
      states, actions := [p.s], [];
    } else {
      states, actions := ScheduleIsRun(p.before);
      states, actions := states + [End(p)], actions + [p.a];
    }
  }

  lemma {:induction false} AdvanceTwo(p: Schedule, t: nat, h: Shared, c0: Caller, c1: Caller) returns (p': Schedule)
    requires End(p) == Two(h, c0, c1) && t < 2
    ensures First(p') == First(p)
    ensures t == 0 ==> var (h', c') := Access(h, 100, c0, true); End(p') == Two(h', c', c1)
    ensures t == 1 ==> var (h', c') := Access(h, 100, c1, true); End(p') == Two(h', c0, c')
  {
    TwoAdvance(h, c0, c1);
    p' := Then(p, Advance(t, true));
  }

  lemma {:induction false} BeginTwo(p: Schedule, t: nat, call: Request, h: Shared, c0: Caller, c1: Caller) returns (p': Schedule)
    requires End(p) == Two(h, c0, c1) && t < 2 && (if t == 0 then c0 else c1) == Caller(Outside, None)
    ensures First(p') == First(p)
    ensures t == 0 ==> End(p') == Two(h, Caller(Entry(call), None), c1)
    ensures t == 1 ==> End(p') == Two(h, c0, Caller(Entry(call), None))
  {
    var s := Two(h, c0, c1);
    p' := Then(p, Begin(t, call));
    assert s.callers[0 := Caller(Entry(call), None)] == map[0 := Caller(Entry(call), None), 1 := c1];
    assert s.callers[1 := Caller(Entry(call), None)] == map[0 := c0, 1 := Caller(Entry(call), None)];
  }

  lemma {:induction false} Query(h: Shared) returns (p: Schedule)
    requires h == Shared(3, 0, true, false, 20)
    ensures First(p) == Two(h, Caller(Outside, None), Caller(Outside, None))
    ensures End(p) == Two(h.(errorCount := 0), Caller(Outside, None), Caller(QueryFlag(Try), None))
  {
    var idle := Caller(Outside, None);
    p := Start(Two(h, idle, idle));
    p := BeginTwo(p, 1, CallTry, h, idle, idle);
    p := AdvanceTwo(p, 1, h, idle, Caller(QueryClock(Try), None));
    p := AdvanceTwo(p, 1, h, idle, Caller(QueryLast(Try, 100), None));
    p := AdvanceTwo(p, 1, h, idle, Caller(QueryReset(Try), None));
  }

  lemma {:induction false} StaleReservation(h: Shared) returns (p: Schedule)
    requires h == Shared(0, 0, true, false, 20)
    ensures Initial(First(p))
    ensures End(p) == Two(h.(lastErrorTime := 100, probeInflight := true),
                          Caller(ErrorClearSuccess, None), Caller(RecheckClock, Some(true)))
  {
    var idle := Caller(Outside, None);
    var ready := Caller(Reserve, None);
    p := Query(h.(errorCount := 3));
    p := AdvanceTwo(p, 1, h, idle, Caller(QueryFlag(Try), None));
    p := AdvanceTwo(p, 1, h, idle, Caller(CheckClock, None));
    p := AdvanceTwo(p, 1, h, idle, Caller(CheckLast(100), None));
    p := BeginTwo(p, 0, CallError, h, idle, ready);
    p := AdvanceTwo(p, 0, h, Caller(ErrorStamp, None), ready);
    p := AdvanceTwo(p, 1, h.(lastErrorTime := 100), Caller(ErrorClearSuccess, None), ready);
  }

  /** The preflight alone is not enough: a run in which a caller holds its reservation although an
      error was recorded this very second. Only the recheck still refuses it. */
  lemma {:induction false} PreflightGoesStale() returns (states: seq<State>, actions: seq<Action>)
    ensures IsRun(states, actions)
    ensures Reserves(states[|actions|], 1)
    ensures states[|actions|].shared.lastErrorTime == states[|actions|].clock > 0
  {
    var p := StaleReservation(Shared(0, 0, true, false, 20));
    states, actions := ScheduleIsRun(p);
  }

  lemma {:induction false} LateSuccess(h: Shared) returns (p: Schedule)
    requires h == Shared(3, 9, true, false, 20)
    ensures First(p) == Two(h, Caller(Outside, None), Caller(Outside, None))
    ensures End(p) == Two(h.(successCount := 10), Caller(SuccessOpen, None), Caller(Outside, None))
  {
    var idle := Caller(Outside, None);
    p := Start(Two(h, idle, idle));
    p := BeginTwo(p, 0, CallSuccess, h, idle, idle);
    p := AdvanceTwo(p, 0, h, Caller(SuccessCount, None), idle);
    p := AdvanceTwo(p, 0, h.(successCount := 10), Caller(SuccessFlag, None), idle);
  }

  lemma {:induction false} OtherCounts(h: Shared) returns (p: Schedule)
    requires h == Shared(3, 9, true, false, 20)
    ensures First(p) == Two(h, Caller(Outside, None), Caller(Outside, None))
    ensures End(p) == Two(h.(successCount := 11), Caller(SuccessOpen, None), Caller(SuccessOpen, None))
  {
    var late := Caller(SuccessOpen, None);
    p := LateSuccess(h);
    p := BeginTwo(p, 1, CallSuccess, h.(successCount := 10), late, Caller(Outside, None));
    p := AdvanceTwo(p, 1, h.(successCount := 10), late, Caller(SuccessCount, None));
    p := AdvanceTwo(p, 1, h.(successCount := 11), late, Caller(SuccessFlag, None));
  }

  /** Caller 1 makes a whole success call that ends the bypass before caller 0 gets to it. */
  lemma {:induction false} OtherRecovers(h: Shared) returns (p: Schedule)
    requires h == Shared(3, 9, true, false, 20)
    ensures First(p) == Two(h, Caller(Outside, None), Caller(Outside, None))
    ensures End(p) == Two(Shared(0, 0, false, false, 20), Caller(SuccessOpen, None), Caller(Outside, None))
  {
    var late := Caller(SuccessOpen, None);
    p := OtherCounts(h);
    p := AdvanceTwo(p, 1, h.(successCount := 11), late, Caller(SuccessOpen, None));
    p := AdvanceTwo(p, 1, h.(successCount := 11, bypassed := false), late, Caller(SuccessClearError, None));
    p := AdvanceTwo(p, 1, h.(successCount := 11, bypassed := false, errorCount := 0), late, Caller(SuccessClearSuccess, None));
  }

  /** Caller 1 makes an error call, up to the point where it may trip the breaker. */
  lemma {:induction false} ErrorCounted(before: Schedule, n: nat, time: nat) returns (p: Schedule)
    requires n < 3 && End(before) == Two(Shared(n, 0, false, false, time), Caller(SuccessOpen, None), Caller(Outside, None))
    ensures First(p) == First(before)
    ensures End(p) == Two(Shared(n + 1, 0, false, false, 100), Caller(SuccessOpen, None),
                          Caller(if n + 1 >= 3 then ErrorTrip else Outside, None))
  {
    var late, h := Caller(SuccessOpen, None), Shared(n, 0, false, false, time);
    p := BeginTwo(before, 1, CallError, h, late, Caller(Outside, None));
    p := AdvanceTwo(p, 1, h, late, Caller(ErrorStamp, None));
    p := AdvanceTwo(p, 1, h.(lastErrorTime := 100), late, Caller(ErrorClearSuccess, None));
    p := AdvanceTwo(p, 1, h.(lastErrorTime := 100), late, Caller(ErrorCount, None));
  }

  lemma {:induction false} ErrorsCounted() returns (p: Schedule)
    ensures Initial(First(p))
    ensures End(p) == Two(Shared(3, 0, false, false, 100), Caller(SuccessOpen, None), Caller(ErrorTrip, None))
  {
    p := OtherRecovers(Shared(3, 9, true, false, 20));
    p := ErrorCounted(p, 0, 20);
    p := ErrorCounted(p, 1, 100);
    p := ErrorCounted(p, 2, 100);
  }

  /** The tenth-success rule of whole calls does not survive interleaving: a run whose last step starts
      a bypass, at the third of three whole error calls, and in which a success counted before all of
      them ends it at once. */
  lemma {:induction false} LateRecoveryUndoesTrip() returns (states: seq<State>, actions: seq<Action>)
    ensures IsRun(states, actions) && |actions| > 0
    ensures !states[|actions| - 1].shared.bypassed && states[|actions|].shared.bypassed
    ensures states[|actions|].shared.successCount == 0 && states[|actions|].shared.errorCount == 3
    ensures !Next(states[|actions|], Advance(0, true)).shared.bypassed
  {
    var p := ErrorsCounted();
    var h, late, tripping := Shared(3, 0, false, false, 100), Caller(SuccessOpen, None), Caller(ErrorTrip, None);
    TwoAdvance(h, late, tripping);
    states, actions := ScheduleIsRun(Then(p, Advance(1, true)));
    assert states[|actions|] == Two(h.(bypassed := true), late, Caller(Outside, None));
  }

  // ------------------------------------------------------------- when a recovery is earned

  /** The access clears the counted successes because of an error. */
  predicate Clears(s: State, a: Action) {
    a.Advance? && a.caller in s.callers && s.callers[a.caller].pc.ErrorClearSuccess?
  }

  predicate Counts(s: State, a: Action) {
    a.Advance? && a.caller in s.callers && s.callers[a.caller].pc.SuccessCount?
  }

  /** The successes counted up to step `i` that no error among the first `k` steps came after. */
  function Surviving(states: seq<State>, actions: seq<Action>, i: nat, k: nat): nat
    requires k <= |actions| < |states|
  {
    if k == 0 then states[0].shared.successCount
    else if Clears(states[k - 1], actions[k - 1]) then 0
    else Surviving(states, actions, i, k - 1) + if k - 1 <= i && Counts(states[k - 1], actions[k - 1]) then 1 else 0
  }

  /** Caller `t` counts a success at step `i` and, in the same call, ends a bypass at step `j`. */
  predicate Recovery(states: seq<State>, actions: seq<Action>, t: nat, i: nat, j: nat)
    requires IsRun(states, actions)
  {
    && i < j < |actions| && actions[i].Advance? && actions[j].Advance? && actions[i].caller == actions[j].caller == t
    && t in states[i].callers && states[i].callers[t].pc.SuccessCount?
    && t in states[j].callers && states[j].callers[t].pc.SuccessOpen?
    && forall k :: i < k <= j ==> t in states[k].callers && Recovering(states[k].callers[t].pc)
  }

  predicate Recovering(pc: PC) {
    pc.SuccessFlag? || pc.SuccessOpen?
  }

  /** Every step that ends a bypass belongs to such a call. */
  lemma {:induction false} RecoveryBegins(states: seq<State>, actions: seq<Action>, t: nat, j: nat) returns (i: nat)
    requires IsRun(states, actions) && j < |actions| && actions[j].Advance? && actions[j].caller == t
    requires t in states[j].callers && states[j].callers[t].pc.SuccessOpen?
    ensures Recovery(states, actions, t, i, j)
  {
    i := RecoveringSince(states, actions, t, j);
  }

  lemma {:induction false} RecoveringSince(states: seq<State>, actions: seq<Action>, t: nat, j: nat) returns (i: nat)
    requires IsRun(states, actions) && j < |states| && t in states[j].callers && Recovering(states[j].callers[t].pc)
    ensures i < j && actions[i].Advance? && actions[i].caller == t
    ensures t in states[i].callers && states[i].callers[t].pc.SuccessCount?
    ensures forall k :: i < k <= j ==> t in states[k].callers && Recovering(states[k].callers[t].pc)
  {
    RecoveringStep(states, actions, t, j);
    if Recovering(states[j - 1].callers[t].pc) {
      i := RecoveringSince(states, actions, t, j - 1);
    } else {
      i := j - 1;
    }
  }

  lemma {:induction false} RecoveringStep(states: seq<State>, actions: seq<Action>, t: nat, j: nat)
    requires IsRun(states, actions) && j < |states| && t in states[j].callers && Recovering(states[j].callers[t].pc)
    ensures j > 0 && t in states[j - 1].callers
    ensures Recovering(states[j - 1].callers[t].pc)
            || (actions[j - 1].Advance? && actions[j - 1].caller == t && states[j - 1].callers[t].pc.SuccessCount?)
  {
    assert t in states[0].callers ==> states[0].callers[t].pc.Outside?;
    assert states[j - 1 + 1] == Next(states[j - 1], actions[j - 1]);
  }

  /** The counter never runs ahead of the surviving successes. */
  lemma {:induction false} CounterIsEarned(states: seq<State>, actions: seq<Action>, i: nat, k: nat)
    requires IsRun(states, actions) && k <= |actions| && k <= i + 1
    ensures states[k].shared.successCount <= Surviving(states, actions, i, k)
  {
    if k > 0 {
      CounterIsEarned(states, actions, i, k - 1);
      CounterStep(states[k - 1], actions[k - 1]);
      assert states[k - 1 + 1] == Next(states[k - 1], actions[k - 1]);
    }
  }

  lemma {:induction false} CounterStep(s: State, a: Action)
    ensures Next(s, a).shared.successCount <=
            if Clears(s, a) then 0 else s.shared.successCount + if Counts(s, a) then 1 else 0
  {
  }

  lemma {:induction false} SurvivingLater(states: seq<State>, actions: seq<Action>, i: nat, k: nat)
    requires IsRun(states, actions) && i < k <= |actions|
    ensures Surviving(states, actions, i, k) ==
            if exists m :: i < m < k && Clears(states[m], actions[m]) then 0 else Surviving(states, actions, i, i + 1)
  {
    if i + 1 < k {
      SurvivingLater(states, actions, i, k - 1);
    }
  }

  /** In every interleaving, a recovery that counted its success at step `i` and ends the bypass at step
      `j` has ten successes behind it that no error came after, counted up to `i`, exactly when no error
      cleared the successes between the two steps. */
  lemma {:induction false} RecoveryIsEarned(states: seq<State>, actions: seq<Action>, t: nat, i: nat, j: nat)
    requires IsRun(states, actions) && Recovery(states, actions, t, i, j)
    ensures Surviving(states, actions, i, j) >= RECOVERY_THRESHOLD <==>
            !exists k :: i < k < j && Clears(states[k], actions[k])
  {
    CounterIsEarned(states, actions, i, i + 1);
    assert states[i + 1] == Next(states[i], actions[i]) && Recovering(states[i + 1].callers[t].pc);
    SurvivingLater(states, actions, i, j);
  }
}
