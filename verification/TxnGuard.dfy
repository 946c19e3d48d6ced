/** The guard that owns a transaction until it reaches a terminal state. Commit and rollback calls
    succeed, fail, or are cancelled while waiting, which drops the guard with its future. */
module TxnGuard {

  /** How an awaited call ends. */
  datatype Reply = Succeeds | Errors | Cancelled

  datatype Operation = Commit(reply: Reply) | Rollback(reply: Reply) | Finish

  /** What happened to the transaction. `Scheduled` is the rollback action running from `drop`. */
  datatype Event = Committed | RolledBack | Finished | Scheduled | NotScheduled | Panicked

  /** The guard is done with the transaction. */
  predicate Terminal(e: Event) {
    e == Committed || e == RolledBack || e == Finished
  }

  predicate Settled(log: seq<Event>) {
    exists i :: 0 <= i < |log| && Terminal(log[i])
  }

  function Count(log: seq<Event>, e: Event): nat {
    if log == [] then 0 else Count(log[..|log| - 1], e) + if log[|log| - 1] == e then 1 else 0
  }

  lemma {:induction false} AddEvent(log: seq<Event>, x: Event, e: Event)
    ensures Count(log + [x], e) == Count(log, e) + (if x == e then 1 else 0)
    ensures Settled(log + [x]) <==> Settled(log) || Terminal(x)
  {
    var longer := log + [x];
    assert longer[..|log|] == log;
    assert longer[|log|] == x;
    if Settled(log) {
      var i :| 0 <= i < |log| && Terminal(log[i]);
      assert longer[i] == log[i];
    }
  }

  class Guard {
    /** The two options of the guard: the transaction, and the action that would roll it back. */
    var transaction: bool
    var rollback: bool
    var dropped: bool
    ghost var log: seq<Event>

    constructor ()
      ensures Valid() && !dropped && log == []
    {
      transaction, rollback, dropped, log := true, true, false, [];
    }

    /** Until it is dropped, the guard holds the transaction and the action exactly while the
        transaction has not settled, and nothing was scheduled. */
    ghost predicate Valid()
      reads this
    {
      && transaction == rollback
      && (dropped ==> !transaction)
      && (!dropped ==> (transaction <==> !Settled(log)) && Count(log, Scheduled) == 0 && Count(log, NotScheduled) == 0)
      && (dropped ==> Count(log, Scheduled) + Count(log, NotScheduled) <= 1)
    }

    method Record(ghost e: Event)
      modifies this`log
      ensures log == old(log) + [e]
    {
      log := log + [e];
    }

    /** `finish` disarms the fallback. */
    method FinishTransaction(ghost e: Event)
      requires Valid() && !dropped && Terminal(e)
      modifies this
      ensures Valid() && !dropped && !transaction && log == old(log) + [e]
    {
      transaction, rollback := false, false;
      AddEvent(log, e, Scheduled);
      AddEvent(log, e, NotScheduled);
      Record(e);
    }

    /** One operation of the owner. It returns false when the owner's future ends here: cancelled while
        waiting, or using a transaction that is already settled. */
    method Perform(op: Operation) returns (goesOn: bool)
      requires Valid() && !dropped
      modifies this
      ensures Valid() && !dropped
      ensures goesOn <==> op == Finish || (old(transaction) && op.reply != Cancelled)
      ensures old(transaction) && op == Commit(Succeeds) ==> log == old(log) + [Committed]
      ensures old(transaction) && op == Rollback(Succeeds) ==> log == old(log) + [RolledBack]
      ensures op == Finish ==> log == old(log) + [Finished]
      ensures !op.Finish? && !old(transaction) ==> log == old(log) + [Panicked]
      ensures !op.Finish? && old(transaction) && op.reply != Succeeds ==> log == old(log)
    {
      if op == Finish {
        FinishTransaction(Finished);
        return true;
      }
      if !transaction {
        AddEvent(log, Panicked, Scheduled);
        AddEvent(log, Panicked, NotScheduled);
        Record(Panicked);
        return false;
      }
      match op.reply {
        case Succeeds =>
          FinishTransaction(if op.Commit? then Committed else RolledBack);
        case Errors =>
        case Cancelled =>
          return false;
      }
      goesOn := true;
    }

    /** `drop`: an unsettled transaction goes to its rollback action, which is spawned if there is a
        runtime. */
    method Drop(runtime: bool)
      requires Valid() && !dropped
      modifies this
      ensures Valid() && dropped
      ensures log == old(log) + (if Settled(old(log)) then [] else [if runtime then Scheduled else NotScheduled])
    {
      ghost var before := log;
      dropped := true;
      if !transaction {
        return;
      }
      transaction := false;
      if !rollback {
        return;
      }
      rollback := false;
      ghost var e := if runtime then Scheduled else NotScheduled;
      AddEvent(before, e, Scheduled);
      AddEvent(before, e, NotScheduled);
      Record(e);
    }
  }

  /** The operation left the transaction as it was and its owner went on. */
  predicate Erred(op: Operation) {
    !op.Finish? && op.reply == Errors
  }

  /** How many operations err before the first one that does not. */
  function FirstDecisive(script: seq<Operation>): nat {
    if script == [] || !Erred(script[0]) then 0 else 1 + FirstDecisive(script[1..])
  }

  lemma {:induction false} DecidedAt(script: seq<Operation>, i: nat)
    requires i <= |script| && (forall j :: 0 <= j < i ==> Erred(script[j])) && (i < |script| ==> !Erred(script[i]))
    ensures FirstDecisive(script) == i
    ensures Settlement(script) == if i < |script| then Effect(script[i]) else []
  {
    if i > 0 {
      DecidedAt(script[1..], i - 1);
    }
  }

  /** The event by which an operation settles a transaction, if it does. */
  function Effect(op: Operation): seq<Event> {
    match op
    case Finish => [Finished]
    case Commit(reply) => if reply == Succeeds then [Committed] else []
    case Rollback(reply) => if reply == Succeeds then [RolledBack] else []
  }

  /** What the first operation that does not err does to the transaction, if it settles it. */
  function Settlement(script: seq<Operation>): seq<Event> {
    if FirstDecisive(script) < |script| then Effect(script[FirstDecisive(script)]) else []
  }

  /** The owner's operations, up to the one that ends it. */
  method Operate(guard: Guard, script: seq<Operation>, ghost decided: seq<Event>)
    requires guard.Valid() && !guard.dropped && guard.transaction && guard.log == [] && decided == Settlement(script)
    modifies guard
    ensures guard.Valid() && !guard.dropped
    ensures guard.transaction ==> guard.log == [] && decided == []
    ensures !guard.transaction ==> decided != [] && decided <= guard.log
  {
    var i := 0;
    while i < |script|
      invariant 0 <= i <= |script| && guard.Valid() && !guard.dropped
      invariant guard.transaction ==> guard.log == [] && forall j :: 0 <= j < i ==> Erred(script[j])
      invariant !guard.transaction ==> decided != [] && decided <= guard.log
    {
      if guard.transaction && !Erred(script[i]) {
        DecidedAt(script, i);
      }
      var goesOn := guard.Perform(script[i]);
      if !goesOn {
        return;
      }
      i := i + 1;
    }
    if guard.transaction {
      DecidedAt(script, i);
    }
  }

  /** Any sequence of operations, cut short by cancellation or a panic, and then the drop that ends
      every owner. The first operation that does not err decides: if it settles the transaction, that is
      what happened to it first and nothing is scheduled; if it is cancelled or there is none, the
      rollback action runs, exactly once, if there is a runtime. */
  method Lifetime(script: seq<Operation>, runtime: bool) returns (guard: Guard)
    ensures fresh(guard) && guard.Valid() && guard.dropped
    ensures Settled(guard.log) <==> Settlement(script) != []
    ensures Settlement(script) <= guard.log
    ensures Settlement(script) == [] ==> guard.log == [if runtime then Scheduled else NotScheduled]
    ensures Count(guard.log, Scheduled) == if !Settled(guard.log) && runtime then 1 else 0
    ensures Count(guard.log, NotScheduled) == if !Settled(guard.log) && !runtime then 1 else 0
    ensures Committed in guard.log ==> Scheduled !in guard.log
    ensures Scheduled in guard.log ==> guard.log[|guard.log| - 1] == Scheduled
  {
    guard := new Guard();
    Operate(guard, script, Settlement(script));
    ghost var before := guard.log;
    guard.Drop(runtime);
    DropDecides(before, runtime, guard.log);
  }

  lemma {:induction false} NeverCounted(log: seq<Event>, e: Event)
    requires Count(log, e) == 0
    ensures e !in log
  {
    if log != [] {
      NeverCounted(log[..|log| - 1], e);
      assert log == log[..|log| - 1] + [log[|log| - 1]];
    }
  }

  lemma {:induction false} DropDecides(before: seq<Event>, runtime: bool, log: seq<Event>)
    requires Count(before, Scheduled) == 0 && Count(before, NotScheduled) == 0
    requires log == before + (if Settled(before) then [] else [if runtime then Scheduled else NotScheduled])
    ensures Settled(log) <==> Settled(before)
    ensures Count(log, Scheduled) == if !Settled(log) && runtime then 1 else 0
    ensures Count(log, NotScheduled) == if !Settled(log) && !runtime then 1 else 0
    ensures Committed in log ==> Scheduled !in log
    ensures Scheduled in log ==> log[|log| - 1] == Scheduled
  {
    NeverCounted(before, Scheduled);
    if Settled(before) {
      assert log == before;
    } else {
      AddEvent(before, if runtime then Scheduled else NotScheduled, Scheduled);
      AddEvent(before, if runtime then Scheduled else NotScheduled, NotScheduled);
    }
  }
}
