/** The disk-cache circuit breaker: its shared fields and whole, uninterrupted calls.
    `DiskHealthThreads.dfy` interleaves the same operations one atomic access at a time. */
module DiskHealth {
  import opened Common

  const ERROR_THRESHOLD := 3
  const RECOVERY_THRESHOLD := 10
  const RESET_WINDOW_SECS := 60

  /** The breaker's atomic fields. */
  datatype Shared = Shared(
    errorCount: nat, successCount: nat, bypassed: bool, probeInflight: bool, lastErrorTime: nat)

  const Fresh := Shared(0, 0, false, false, 0)

  /** A clock reading in seconds; `None` when the system clock is before the epoch. */
  type Clock = Option<nat>

  function Increment(count: nat): nat {
    (count + 1) % U64_RANGE
  }

  /** The reset inside a bypass query: a stale error window forgets the counted errors. */
  predicate WindowLapsed(lastErrorTime: nat, now: Clock) {
    now.Some? && lastErrorTime > 0 && SaturatingSub(now.value, lastErrorTime) > RESET_WINDOW_SECS
  }

  predicate CooldownElapsed(lastErrorTime: nat, now: Clock) {
    now.Some? && SaturatingSub(now.value, lastErrorTime) > RESET_WINDOW_SECS
  }

  function AfterQuery(h: Shared, now: Clock): Shared {
    if WindowLapsed(h.lastErrorTime, now) then h.(errorCount := 0) else h
  }

  function AfterError(h: Shared, now: Clock): Shared {
    var count := Increment(h.errorCount);
    Shared(count, 0, h.bypassed || count >= ERROR_THRESHOLD, h.probeInflight,
           if now.Some? then now.value else h.lastErrorTime)
  }

  function AfterSuccess(h: Shared): Shared {
    var count := Increment(h.successCount);
    if count >= RECOVERY_THRESHOLD && h.bypassed
    then h.(bypassed := false, errorCount := 0, successCount := 0)
    else h.(successCount := count)
  }

  /** The operation an uninterrupted `TryOperation` admits, as its `probe` flag. `first` and
      `again` are the clock readings of the check before and after the reservation. */
  function Admitted(h: Shared, first: Clock, again: Clock): Option<bool> {
    if !h.bypassed then Some(false)
    else if h.probeInflight then None
    else if CooldownElapsed(h.lastErrorTime, first) && CooldownElapsed(h.lastErrorTime, again)
    then Some(true) else None
  }

  class Breaker {
    var errorCount: nat
    var successCount: nat
    var bypassed: bool
    var probeInflight: bool
    var lastErrorTime: nat

    function View(): Shared
      reads this
    {
      Shared(errorCount, successCount, bypassed, probeInflight, lastErrorTime)
    }

    constructor ()
      ensures View() == Fresh
    {
      errorCount, successCount, bypassed, probeInflight, lastErrorTime := 0, 0, false, false, 0;
    }

    method IsBypassed(now: Clock) returns (b: bool)
      modifies this
      ensures View() == AfterQuery(old(View()), now)
      ensures errorCount == if now.Some? && 0 < old(lastErrorTime) < now.value - 60 then 0 else old(errorCount)
      ensures b == old(bypassed)
    {
      if now.Some? {
        var last := lastErrorTime;
        if last > 0 && SaturatingSub(now.value, last) > RESET_WINDOW_SECS {
          errorCount := 0;
        }
      }
      b := bypassed;
    }

    /** The cheap preflight predicts exactly what `TryOperation` would answer, as long as the
        clock is not read again in between. */
    method CanAttempt(now: Clock, first: Clock) returns (ok: bool)
      modifies this
      ensures View() == AfterQuery(old(View()), now)
      ensures ok <==> Admitted(old(View()), first, first).Some?
    {
      var b := IsBypassed(now);
      ok := !b || (CooldownElapsed(lastErrorTime, first) && !probeInflight);
    }

    method TryOperation(now: Clock, first: Clock, again: Clock) returns (op: Option<bool>)
      modifies this
      ensures op == Admitted(old(View()), first, again)
      ensures op == Some(false) <==> !old(bypassed)
      ensures op == Some(true) <==>
              && old(bypassed) && !old(probeInflight) && first.Some? && again.Some?
              && first.value > old(lastErrorTime) + 60 && again.value > old(lastErrorTime) + 60
      ensures View() == AfterQuery(old(View()), now).(
                          probeInflight := old(probeInflight) || op == Some(true))
    {
      var probe := IsBypassed(now);
      if probe {
        if !CooldownElapsed(lastErrorTime, first) || probeInflight {
          return None;
        }
        probeInflight := true;
      }
      op := Some(probe);
      if probe && !CooldownElapsed(lastErrorTime, again) {
        DropOperation(probe);
        op := None;
      }
    }

    method DropOperation(probe: bool)
      modifies this
      ensures View() == old(View()).(probeInflight := !probe && old(probeInflight))
    {
      if probe {
        probeInflight := false;
      }
    }

    method RecordError(now: Clock)
      modifies this
      ensures View() == AfterError(old(View()), now)
    {
      if now.Some? {
        lastErrorTime := now.value;
      }
      successCount := 0;
      errorCount := Increment(errorCount);
      if errorCount >= ERROR_THRESHOLD {
        bypassed := true;
      }
    }

    method RecordSuccess()
      modifies this
      ensures View() == AfterSuccess(old(View()))
    {
      var count := Increment(successCount);
      successCount := count;
      if count >= RECOVERY_THRESHOLD && bypassed {
        bypassed := false;
        errorCount := 0;
        successCount := 0;
      }
    }
  }

  // ---------------------------------------------------------------- whole-call histories

  datatype Call =
    | Query(now: Clock)
    | Attempt(now: Clock, first: Clock, again: Clock)
    | Release(probe: bool)
    | Failure(now: Clock)
    | Success

  function Apply(h: Shared, c: Call): Shared {
    match c
    case Query(now) => AfterQuery(h, now)
    case Attempt(now, first, again) =>
      AfterQuery(h, now).(probeInflight := h.probeInflight || Admitted(h, first, again) == Some(true))
    case Release(probe) => h.(probeInflight := !probe && h.probeInflight)
    case Failure(now) => AfterError(h, now)
    case Success => AfterSuccess(h)
  }

  function After(calls: seq<Call>): Shared {
    if calls == [] then Fresh else Apply(After(calls[..|calls| - 1]), calls[|calls| - 1])
  }

  /** Time of the last error whose clock could be read; zero when there is none. */
  function LastStamp(calls: seq<Call>): nat {
    if calls == [] then 0 else
    var last := calls[|calls| - 1];
    if last.Failure? && last.now.Some? then last.now.value else LastStamp(calls[..|calls| - 1])
  }

  /** How many successes followed the most recent error. */
  function SuccessesSinceError(calls: seq<Call>): nat {
    if calls == [] then 0 else
    var earlier := calls[..|calls| - 1];
    match calls[|calls| - 1]
    case Failure(_) => 0
    case Success => 1 + SuccessesSinceError(earlier)
    case _ => SuccessesSinceError(earlier)
  }

  /** The call at the end of `earlier + [c]` comes more than sixty seconds after the last error. */
  predicate ResetsWindow(earlier: seq<Call>, c: Call) {
    (c.Query? || c.Attempt?) && c.now.Some? && 0 < LastStamp(earlier) < c.now.value - 60
  }

  /** How many errors followed the last lapsed window or recovery. */
  function ErrorsSinceReset(calls: seq<Call>): nat
    decreases |calls|, 0
  {
    if calls == [] then 0 else
    var earlier, c := calls[..|calls| - 1], calls[|calls| - 1];
    if ResetsWindow(earlier, c) || Recovers(earlier, c) then 0
    else ErrorsSinceReset(earlier) + if c.Failure? then 1 else 0
  }

  /** Call `c` is the tenth success since the most recent error, made in bypass. */
  predicate Recovers(earlier: seq<Call>, c: Call)
    decreases |earlier|, 2
  {
    c.Success? && SuccessesSinceError(earlier) + 1 == 10 && InBypass(earlier)
  }

  /** Bypass told from the history alone, without counters: it starts at the third error since
      the last reset and ends at the tenth success since the last error. */
  predicate InBypass(calls: seq<Call>)
    decreases |calls|, 1
  {
    calls != [] &&
    var earlier, c := calls[..|calls| - 1], calls[|calls| - 1];
    if InBypass(earlier) then !Recovers(earlier, c)
    else c.Failure? && ErrorsSinceReset(earlier) + 1 >= 3
  }

  /** The breaker's counters compute the history definition, for every sequence of calls. The
      error counter may wrap at 64 bits; bypass still starts and ends at the same calls. */
  lemma {:induction false} CountersRefineHistory(calls: seq<Call>)
    ensures After(calls).bypassed == InBypass(calls)
    ensures After(calls).lastErrorTime == LastStamp(calls)
    ensures After(calls).errorCount == ErrorsSinceReset(calls) % U64_RANGE
    ensures ErrorsSinceReset(calls) >= 3 ==> InBypass(calls)
    ensures InBypass(calls) ==> After(calls).successCount == SuccessesSinceError(calls) < 10
  {
    if calls != [] {
      var earlier, c := calls[..|calls| - 1], calls[|calls| - 1];
      CountersRefineHistory(earlier);
      assert After(calls) == Apply(After(earlier), c);
      match c {
        case Failure(_) => IncrementWraps(ErrorsSinceReset(earlier));
        case Success =>
        case Release(_) =>
        case Query(_) =>
        case Attempt(_, _, _) =>
      }
    }
  }

  lemma {:induction false} IncrementWraps(n: nat)
    ensures Increment(n % U64_RANGE) == (n + 1) % U64_RANGE
    ensures n + 1 < ERROR_THRESHOLD ==> Increment(n % U64_RANGE) < ERROR_THRESHOLD
    ensures n + 1 == ERROR_THRESHOLD ==> Increment(n % U64_RANGE) == ERROR_THRESHOLD
  {
  }

  /** Bypass ends at a call exactly when that call is the tenth success since the most recent
      error, whatever window resets, probes and failed probes came in between. */
  lemma {:induction false} RecoveryIsExact(calls: seq<Call>, c: Call)
    requires After(calls).bypassed
    ensures After(calls).successCount < 10
    ensures !After(calls + [c]).bypassed <==> c.Success? && SuccessesSinceError(calls + [c]) == 10
  {
    assert (calls + [c])[..|calls|] == calls;
    CountersRefineHistory(calls);
    CountersRefineHistory(calls + [c]);
  }

  /** Bypass starts at a call exactly when that call is an error that makes three since the last
      reset. */
  lemma {:induction false} BypassEntryIsExact(calls: seq<Call>, c: Call)
    requires !After(calls).bypassed
    ensures After(calls + [c]).bypassed <==> c.Failure? && ErrorsSinceReset(calls + [c]) == 3
  {
    assert (calls + [c])[..|calls|] == calls;
    CountersRefineHistory(calls);
    CountersRefineHistory(calls + [c]);
  }

  /** Call `i` is not a look more than sixty seconds after the last stamped error, and ends no bypass. */
  predicate Calm(calls: seq<Call>, i: nat)
    requires i < |calls|
  {
    && ((calls[i].Query? || calls[i].Attempt?) && calls[i].now.Some? ==>
          LastStamp(calls[..i]) == 0 || calls[i].now.value <= LastStamp(calls[..i]) + 60)
    && (After(calls[..i]).bypassed ==> After(calls[..i + 1]).bypassed)
  }

  /** How many of the calls `a` up to `c` are errors. */
  function ErrorsBetween(calls: seq<Call>, a: nat, c: nat): nat
    requires a <= c <= |calls|
  {
    if a == c then 0 else ErrorsBetween(calls, a, c - 1) + if calls[c - 1].Failure? then 1 else 0
  }

  lemma {:induction false} CalmKeepsErrors(calls: seq<Call>, i: nat)
    requires i < |calls| && (Calm(calls, i) || calls[i].Failure?)
    ensures ErrorsSinceReset(calls[..i + 1]) >= ErrorsSinceReset(calls[..i]) + if calls[i].Failure? then 1 else 0
  {
    assert calls[..i + 1][..i] == calls[..i];
    if calls[i].Success? {
      CountersRefineHistory(calls[..i]);
      CountersRefineHistory(calls[..i + 1]);
    }
  }

  lemma {:induction false} ErrorsAddUp(calls: seq<Call>, a: nat, c: nat)
    requires a < c <= |calls| && calls[a].Failure? && forall i :: a < i < c ==> Calm(calls, i)
    ensures ErrorsSinceReset(calls[..c]) >= ErrorsBetween(calls, a, c)
  {
    CalmKeepsErrors(calls, c - 1);
    if a + 1 < c {
      ErrorsAddUp(calls, a, c - 1);
    }
  }

  /** Three errors put the breaker into bypass, and keep it there up to the third, whenever no look
      in between comes more than sixty seconds after the error before it and no recovery ends a
      bypass in between. */
  lemma {:induction false} ThreeErrorsTrip(calls: seq<Call>, a: nat, b: nat, c: nat)
    requires a < b < c < |calls| && calls[a].Failure? && calls[b].Failure? && calls[c].Failure?
    requires forall i :: a < i < c ==> Calm(calls, i)
    ensures After(calls[..c + 1]).bypassed
  {
    ErrorsAddUp(calls, a, c);
    OneBetween(calls, a, b, c);
    assert calls[..c + 1][..c] == calls[..c];
    CountersRefineHistory(calls[..c]);
    CountersRefineHistory(calls[..c + 1]);
  }

  lemma {:induction false} OneBetween(calls: seq<Call>, a: nat, b: nat, c: nat)
    requires a < b < c < |calls| && calls[a].Failure? && calls[b].Failure?
    ensures ErrorsBetween(calls, a, c) >= 2
  {
    if b + 1 < c {
      OneBetween(calls, a, b, c - 1);
    } else {
      FirstCounts(calls, a, b);
    }
  }

  lemma {:induction false} FirstCounts(calls: seq<Call>, a: nat, b: nat)
    requires a < b <= |calls| && calls[a].Failure?
    ensures ErrorsBetween(calls, a, b) >= 1
  {
    if a + 1 < b {
      FirstCounts(calls, a, b - 1);
    }
  }

  /** A look more than sixty seconds after the last stamped error forgets the counted errors, so the
      next error alone starts no bypass; any other look changes nothing. */
  lemma {:induction false} LateLookForgets(calls: seq<Call>, now: Clock)
    ensures var h, h' := After(calls), After(calls + [Query(now)]);
            if now.Some? && 0 < LastStamp(calls) < now.value - 60 then h' == h.(errorCount := 0) else h' == h
  {
    assert (calls + [Query(now)])[..|calls|] == calls;
    CountersRefineHistory(calls);
  }
}
