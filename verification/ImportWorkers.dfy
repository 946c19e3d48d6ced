/** The worker protocol that guards are meant for: workers lock a file, may be cancelled while they
    hold the lock, import the file and commit. A cancelled guard's rollback runs later, at any time,
    in a task of its own. */
module ImportWorkers {
  import opened Arithmetic

  datatype Setup = Setup(files: nat, workers: nat)

  /** A worker waits for a file's lock, holds it, or has imported the file and not yet committed. */
  datatype Worker = Waiting(file: nat) | Holding(file: nat) | Saved(file: nat) | Done

  /** `pending` are rollbacks that were scheduled; `lost` are files whose rollback could not be. */
  datatype State = State(workers: seq<Worker>, locks: set<nat>, pending: multiset<nat>, lost: set<nat>,
                         imports: seq<nat>, completed: nat)

  datatype Action =
    | Acquire(worker: nat)
    | Cancel(worker: nat)
    | CancelWithoutRuntime(worker: nat)
    | CancelWhileWaiting(worker: nat)
    | Save(worker: nat)
    | Commit(worker: nat)
    | RunRollback(file: nat)

  function StartOf(setup: Setup, file: nat): Worker {
    if file < setup.files then Waiting(file) else Done
  }

  /** A step of worker `w`; it does nothing when the worker is not at that point. */
  function WorkerStep(setup: Setup, s: State, a: Action, w: nat): State
    requires w < |s.workers| && !a.RunRollback?
  {
    match (a, s.workers[w])
    case (Acquire(_), Waiting(file)) =>
      if file in s.locks then s
      else s.(locks := s.locks + {file}, workers := s.workers[w := Holding(file)])
    case (Cancel(_), Holding(file)) =>
      s.(pending := s.pending + multiset{file}, workers := s.workers[w := Waiting(file)])
    case (CancelWithoutRuntime(_), Holding(file)) =>
      s.(lost := s.lost + {file}, workers := s.workers[w := Waiting(file)])
    case (CancelWhileWaiting(_), Waiting(file)) =>
      s.(pending := s.pending + multiset{file})
    case (Save(_), Holding(file)) =>
      s.(imports := s.imports + [file], workers := s.workers[w := Saved(file)])
    case (Commit(_), Saved(file)) =>
      s.(locks := s.locks - {file}, completed := s.completed + 1,
         workers := s.workers[w := StartOf(setup, file + setup.workers)])
    case _ => s
  }

  function Next(setup: Setup, s: State, a: Action): State {
    if a.RunRollback? then
      if a.file in s.pending then s.(pending := s.pending - multiset{a.file}, locks := s.locks - {a.file}) else s
    else if a.worker < |s.workers| then WorkerStep(setup, s, a, a.worker) else s
  }

  predicate IsStart(setup: Setup, s: State) {
    && |s.workers| == setup.workers
    && (forall w :: 0 <= w < setup.workers ==> s.workers[w] == StartOf(setup, w))
    && s.locks == {} && s.pending == multiset{} && s.lost == {} && s.imports == [] && s.completed == 0
  }

  predicate IsRun(setup: Setup, states: seq<State>, actions: seq<Action>) {
    && |states| == |actions| + 1 && IsStart(setup, states[0])
    && forall i :: 0 <= i < |actions| ==> states[i + 1] == Next(setup, states[i], actions[i])
  }

  // ---------------------------------------------------------------- who works on which file

  /** Files are dealt out round robin. */
  function OwnerOf(setup: Setup, file: nat): nat
    requires setup.workers > 0
  {
    Rem(file, setup.workers)
  }

  /** The next file of a worker is `workers` further, and there is none in between. */
  lemma {:induction false} NoneBetween(file: nat, other: nat, d: nat)
    requires d > 0 && Rem(file, d) == Rem(other, d) && file < other
    ensures other >= file + d
  {
    if file >= d {
      NoneBetween(file - d, other - d, d);
    } else if other >= d {
      if other - d < file {
        SmallerRem(other - d, d);
      }
    }
  }

  lemma {:induction false} SmallerRem(x: nat, d: nat)
    requires d > 0
    ensures Rem(x, d) <= x
  {
    if x >= d {
      SmallerRem(x - d, d);
    }
  }

  // ---------------------------------------------------------------- invariants

  predicate InSection(p: Worker, file: nat) {
    p == Holding(file) || p == Saved(file)
  }

  /** A worker has imported exactly its files before the current one, and the current one once saved. */
  predicate HasImported(p: Worker, file: nat) {
    match p
    case Waiting(current) => file < current
    case Holding(current) => file < current
    case Saved(current) => file <= current
    case Done => true
  }

  /** What holds for one file and its worker `p`, whatever was cancelled: only a worker at this file can
      have left its lock taken, a lock that its worker waits for has a rollback due or lost, and the
      file is imported exactly when the worker got that far. */
  predicate FileInv(p: Worker, s: State, file: nat) {
    && (file in s.locks ==> p == Waiting(file) || InSection(p, file))
    && (file in s.locks && p == Waiting(file) ==> file in s.pending || file in s.lost)
    && (file in s.imports <==> HasImported(p, file))
  }

  predicate WorkerInv(setup: Setup, w: nat, p: Worker)
    requires setup.workers > 0
  {
    p.Done? || (p.file < setup.files && OwnerOf(setup, p.file) == w)
  }

  ghost predicate Inv(setup: Setup, s: State) {
    && setup.workers > 0 && |s.workers| == setup.workers
    && (forall w :: 0 <= w < setup.workers ==> WorkerInv(setup, w, s.workers[w]))
    && (forall file :: 0 <= file < setup.files ==> FileInv(s.workers[OwnerOf(setup, file)], s, file))
    && (forall file :: file in s.locks || file in s.pending || file in s.lost || file in s.imports ==> file < setup.files)
    && (forall i, j :: 0 <= i < j < |s.imports| ==> s.imports[i] != s.imports[j])
  }

  lemma {:induction false} StartKeepsInv(setup: Setup, s: State)
    requires setup.workers > 0 && IsStart(setup, s)
    ensures Inv(setup, s)
  {
    forall file | 0 <= file < setup.files
      ensures FileInv(s.workers[OwnerOf(setup, file)], s, file)
    {
      SmallerRem(file, setup.workers);
    }
  }

  lemma {:induction false} AcquireKeepsInv(setup: Setup, s: State, w: nat)
    requires Inv(setup, s) && w < setup.workers && s.workers[w].Waiting? && s.workers[w].file !in s.locks
    ensures Inv(setup, WorkerStep(setup, s, Acquire(w), w))
  {
    var t := WorkerStep(setup, s, Acquire(w), w);
    forall file | 0 <= file < setup.files
      ensures FileInv(t.workers[OwnerOf(setup, file)], t, file)
    {
      assert FileInv(s.workers[OwnerOf(setup, file)], s, file);
    }
  }

  lemma {:induction false} CancelKeepsInv(setup: Setup, s: State, a: Action)
    requires Inv(setup, s) && (a.Cancel? || a.CancelWithoutRuntime? || a.CancelWhileWaiting?)
    requires a.worker < setup.workers
    requires if a.CancelWhileWaiting? then s.workers[a.worker].Waiting? else s.workers[a.worker].Holding?
    ensures Inv(setup, WorkerStep(setup, s, a, a.worker))
  {
    var t := WorkerStep(setup, s, a, a.worker);
    forall file | 0 <= file < setup.files
      ensures FileInv(t.workers[OwnerOf(setup, file)], t, file)
    {
      assert FileInv(s.workers[OwnerOf(setup, file)], s, file);
    }
  }

  lemma {:induction false} SaveKeepsInv(setup: Setup, s: State, w: nat)
    requires Inv(setup, s) && w < setup.workers && s.workers[w].Holding?
    ensures Inv(setup, WorkerStep(setup, s, Save(w), w))
  {
    var t := WorkerStep(setup, s, Save(w), w);
    var saved := s.workers[w].file;
    assert FileInv(s.workers[OwnerOf(setup, saved)], s, saved);
    forall file | 0 <= file < setup.files
      ensures FileInv(t.workers[OwnerOf(setup, file)], t, file)
    {
      assert FileInv(s.workers[OwnerOf(setup, file)], s, file);
      assert file in t.imports <==> file in s.imports || file == saved;
    }
  }

  lemma {:induction false} CommitKeepsInv(setup: Setup, s: State, w: nat)
    requires Inv(setup, s) && w < setup.workers && s.workers[w].Saved?
    ensures Inv(setup, WorkerStep(setup, s, Commit(w), w))
  {
    var t := WorkerStep(setup, s, Commit(w), w);
    var saved := s.workers[w].file;
    assert OwnerOf(setup, saved + setup.workers) == w;
    forall file | 0 <= file < setup.files
      ensures FileInv(t.workers[OwnerOf(setup, file)], t, file)
    {
      assert FileInv(s.workers[OwnerOf(setup, file)], s, file);
      if OwnerOf(setup, file) == w && saved < file {
        NoneBetween(saved, file, setup.workers);
      }
    }
  }

  lemma {:induction false} RollbackKeepsInv(setup: Setup, s: State, f: nat)
    requires Inv(setup, s) && f in s.pending
    ensures Inv(setup, Next(setup, s, RunRollback(f)))
  {
    var t := Next(setup, s, RunRollback(f));
    forall file | 0 <= file < setup.files
      ensures FileInv(t.workers[OwnerOf(setup, file)], t, file)
    {
      assert FileInv(s.workers[OwnerOf(setup, file)], s, file);
    }
  }

  lemma {:induction false} StepKeepsInv(setup: Setup, s: State, a: Action)
    requires Inv(setup, s)
    ensures Inv(setup, Next(setup, s, a))
  {
    match a
    case RunRollback(f) =>
      if f in s.pending {
        RollbackKeepsInv(setup, s, f);
      }
    case Acquire(w) =>
      if w < setup.workers && s.workers[w].Waiting? && s.workers[w].file !in s.locks {
        AcquireKeepsInv(setup, s, w);
      }
    case Cancel(w) =>
      if w < setup.workers && s.workers[w].Holding? {
        CancelKeepsInv(setup, s, a);
      }
    case CancelWithoutRuntime(w) =>
      if w < setup.workers && s.workers[w].Holding? {
        CancelKeepsInv(setup, s, a);
      }
    case CancelWhileWaiting(w) =>
      if w < setup.workers && s.workers[w].Waiting? {
        CancelKeepsInv(setup, s, a);
      }
    case Save(w) =>
      if w < setup.workers && s.workers[w].Holding? {
        SaveKeepsInv(setup, s, w);
      }
    case Commit(w) =>
      if w < setup.workers && s.workers[w].Saved? {
        CommitKeepsInv(setup, s, w);
      }
  }

  lemma {:induction false} RunKeepsInv(setup: Setup, states: seq<State>, actions: seq<Action>, i: nat)
    requires setup.workers > 0 && IsRun(setup, states, actions) && i < |states|
    ensures Inv(setup, states[i])
  {
    if i == 0 {
      StartKeepsInv(setup, states[0]);
    } else {
      RunKeepsInv(setup, states, actions, i - 1);
      StepKeepsInv(setup, states[i - 1], actions[i - 1]);
    }
  }

  predicate AllDone(s: State) {
    forall w :: 0 <= w < |s.workers| ==> s.workers[w].Done?
  }

  /** Once every worker has ended, however cancellations and rollbacks fell, every file was imported and
      committed exactly once and no lock is left. */
  lemma {:induction false} EveryFileImportedOnce(setup: Setup, states: seq<State>, actions: seq<Action>)
    requires setup.workers > 0 && IsRun(setup, states, actions) && AllDone(states[|actions|])
    ensures var s := states[|actions|];
            && s.locks == {}
            && (forall file: nat :: file < setup.files <==> file in s.imports)
            && |s.imports| == setup.files == s.completed
  {
    var s := states[|actions|];
    RunKeepsInv(setup, states, actions, |actions|);
    RunBalances(setup, states, actions, |actions|);
    NoneSaved(s.workers);
    forall file | 0 <= file < setup.files
      ensures file in s.imports && file !in s.locks
    {
      assert FileInv(s.workers[OwnerOf(setup, file)], s, file);
    }
    CountDistinct(s.imports, setup.files);
  }

  /** A list without repetition of exactly the numbers below `n` has length `n`. */
  lemma {:induction false} CountDistinct(list: seq<nat>, n: nat)
    requires forall i, j :: 0 <= i < j < |list| ==> list[i] != list[j]
    requires forall x: nat :: x < n <==> x in list
    ensures |list| == n
  {
    if list == [] {
      assert 0 < n <==> 0 in list;
    } else {
      assert list[0] in list;
      assert n - 1 in list;
      var k :| 0 <= k < |list| && list[k] == n - 1;
      var rest := list[..k] + list[k + 1..];
      forall x: nat
        ensures x < n - 1 <==> x in rest
      {
        WithoutOne(list, k, x);
        assert x < n <==> x in list;
      }
      CountDistinct(rest, n - 1);
    }
  }

  lemma {:induction false} WithoutOne(list: seq<nat>, k: nat, x: nat)
    requires k < |list| && forall i, j :: 0 <= i < j < |list| ==> list[i] != list[j]
    ensures x in list[..k] + list[k + 1..] <==> x in list && x != list[k]
  {
    var rest := list[..k] + list[k + 1..];
    if x in list && x != list[k] {
      var i :| 0 <= i < |list| && list[i] == x;
      assert rest[if i < k then i else i - 1] == x;
    }
    if x in rest {
      var i :| 0 <= i < |rest| && rest[i] == x;
      var j := if i < k then i else i + 1;
      assert list[j] == x && j != k;
    }
  }

  // ---------------------------------------------------------------- counting commits

  function SavedCount(workers: seq<Worker>): nat {
    if workers == [] then 0
    else SavedCount(workers[..|workers| - 1]) + if workers[|workers| - 1].Saved? then 1 else 0
  }

  lemma {:induction false} SavedAfter(workers: seq<Worker>, w: nat, p: Worker)
    requires w < |workers|
    ensures SavedCount(workers[w := p]) + (if workers[w].Saved? then 1 else 0)
         == SavedCount(workers) + (if p.Saved? then 1 else 0)
  {
    var last := |workers| - 1;
    if w == last {
      assert workers[w := p][..last] == workers[..last];
    } else {
      assert workers[w := p][..last] == workers[..last][w := p];
      SavedAfter(workers[..last], w, p);
    }
  }

  lemma {:induction false} NoneSaved(workers: seq<Worker>)
    requires forall w :: 0 <= w < |workers| ==> workers[w].Done?
    ensures SavedCount(workers) == 0
  {
    if workers != [] {
      NoneSaved(workers[..|workers| - 1]);
    }
  }

  /** Every import is committed or about to be. */
  predicate Balanced(s: State) {
    |s.imports| == s.completed + SavedCount(s.workers)
  }

  lemma {:induction false} StepBalances(setup: Setup, s: State, a: Action)
    requires Balanced(s)
    ensures Balanced(Next(setup, s, a))
  {
    if !a.RunRollback? && a.worker < |s.workers| {
      var p := Next(setup, s, a).workers[a.worker];
      SavedAfter(s.workers, a.worker, p);
      assert s.workers[a.worker := s.workers[a.worker]] == s.workers;
    }
  }

  lemma {:induction false} RunBalances(setup: Setup, states: seq<State>, actions: seq<Action>, i: nat)
    requires IsRun(setup, states, actions) && i < |states|
    ensures Balanced(states[i])
  {
    if i == 0 {
      StartsUnsaved(setup, states[0].workers);
    } else {
      RunBalances(setup, states, actions, i - 1);
      StepBalances(setup, states[i - 1], actions[i - 1]);
    }
  }

  lemma {:induction false} StartsUnsaved(setup: Setup, workers: seq<Worker>)
    requires forall w :: 0 <= w < |workers| ==> workers[w] == StartOf(setup, w)
    ensures SavedCount(workers) == 0
  {
    if workers != [] {
      StartsUnsaved(setup, workers[..|workers| - 1]);
    }
  }

  // ---------------------------------------------------------------- what early drops leave behind

  /** What happened to one file: guards dropped while their worker was waiting, rollbacks that found no
      lock, rollbacks that could not be scheduled, and commits that found their lock gone. */
  datatype Ledger = Ledger(early: nat, wasted: nat, unscheduled: nat, bare: nat)

  function Booked(l: Ledger, s: State, a: Action, file: nat): Ledger {
    match a
    case CancelWhileWaiting(w) =>
      if w < |s.workers| && s.workers[w] == Waiting(file) then l.(early := l.early + 1) else l
    case CancelWithoutRuntime(w) =>
      if w < |s.workers| && s.workers[w] == Holding(file) then l.(unscheduled := l.unscheduled + 1) else l
    case Commit(w) =>
      if w < |s.workers| && s.workers[w] == Saved(file) && file !in s.locks then l.(bare := l.bare + 1) else l
    case RunRollback(f) =>
      if f == file && file in s.pending && file !in s.locks then l.(wasted := l.wasted + 1) else l
    case _ => l
  }

  /** The ledger of a file over the first `i` steps. */
  function LedgerOf(states: seq<State>, actions: seq<Action>, i: nat, file: nat): Ledger
    requires i <= |actions| < |states|
  {
    if i == 0 then Ledger(0, 0, 0, 0)
    else Booked(LedgerOf(states, actions, i - 1, file), states[i - 1], actions[i - 1], file)
  }

  /** The conservation law of one file: every early drop is still due as a rollback, or was wasted, or
      stands in for a lost one, or made a commit find its lock gone; a lock left by a cancelled worker
      counts for one more, and a section without its lock for one less. */
  predicate Conserved(p: Worker, s: State, l: Ledger, file: nat) {
    && s.pending[file] + l.wasted + l.unscheduled + l.bare + (if InSection(p, file) && file !in s.locks then 1 else 0)
       == l.early + (if p == Waiting(file) && file in s.locks then 1 else 0)
    && (file in s.lost <==> l.unscheduled > 0)
  }

  /** Steps of other workers do not touch the file. */
  lemma {:induction false} OthersConserve(setup: Setup, s: State, a: Action, l: Ledger, file: nat)
    requires Inv(setup, s) && file < setup.files && Conserved(s.workers[OwnerOf(setup, file)], s, l, file)
    requires !a.RunRollback? && a.worker < setup.workers && a.worker != OwnerOf(setup, file)
    ensures Booked(l, s, a, file) == l
    ensures Conserved(WorkerStep(setup, s, a, a.worker).workers[OwnerOf(setup, file)], WorkerStep(setup, s, a, a.worker), l, file)
  {
    var p := s.workers[a.worker];
    assert WorkerInv(setup, a.worker, p);
    assert p.Done? || p.file != file;
    var t := WorkerStep(setup, s, a, a.worker);
    assert t.pending[file] == s.pending[file];
    assert file in t.locks <==> file in s.locks;
  }

  lemma {:induction false} OwnerConserves(setup: Setup, s: State, a: Action, l: Ledger, file: nat)
    requires Inv(setup, s) && file < setup.files && Conserved(s.workers[OwnerOf(setup, file)], s, l, file)
    requires !a.RunRollback? && a.worker == OwnerOf(setup, file)
    ensures Conserved(WorkerStep(setup, s, a, a.worker).workers[a.worker], WorkerStep(setup, s, a, a.worker),
                      Booked(l, s, a, file), file)
  {
    assert FileInv(s.workers[a.worker], s, file);
    var t := WorkerStep(setup, s, a, a.worker);
    match a
    case Acquire(_) =>
    case Cancel(_) => assert t.pending[file] == s.pending[file] + if s.workers[a.worker] == Holding(file) then 1 else 0;
    case CancelWithoutRuntime(_) =>
    case CancelWhileWaiting(_) => assert t.pending[file] == s.pending[file] + if s.workers[a.worker] == Waiting(file) then 1 else 0;
    case Save(_) =>
    case Commit(_) =>
  }

  lemma {:induction false} RollbackConserves(setup: Setup, s: State, f: nat, l: Ledger, file: nat)
    requires Inv(setup, s) && file < setup.files && Conserved(s.workers[OwnerOf(setup, file)], s, l, file)
    ensures var t := Next(setup, s, RunRollback(f));
            Conserved(t.workers[OwnerOf(setup, file)], t, Booked(l, s, RunRollback(f), file), file)
  {
    assert FileInv(s.workers[OwnerOf(setup, file)], s, file);
  }

  lemma {:induction false} StepConserves(setup: Setup, s: State, a: Action, t: State, l: Ledger, file: nat)
    requires Inv(setup, s) && file < setup.files && Conserved(s.workers[OwnerOf(setup, file)], s, l, file)
    requires t == Next(setup, s, a)
    ensures |t.workers| == setup.workers
    ensures Conserved(t.workers[OwnerOf(setup, file)], t, Booked(l, s, a, file), file)
  {
    if a.RunRollback? {
      RollbackConserves(setup, s, a.file, l, file);
    } else if a.worker == OwnerOf(setup, file) {
      OwnerConserves(setup, s, a, l, file);
    } else if a.worker < setup.workers {
      OthersConserve(setup, s, a, l, file);
    }
  }

  lemma {:induction false} WorkersStay(setup: Setup, states: seq<State>, actions: seq<Action>, i: nat)
    requires setup.workers > 0 && IsRun(setup, states, actions) && i < |states|
    ensures |states[i].workers| == setup.workers
  {
    RunKeepsInv(setup, states, actions, i);
  }

  lemma {:induction false} RunStepConserves(setup: Setup, states: seq<State>, actions: seq<Action>, i: nat, l: Ledger, file: nat)
    requires setup.workers > 0 && IsRun(setup, states, actions) && i < |actions| && file < setup.files
    requires |states[i].workers| == setup.workers && Conserved(states[i].workers[OwnerOf(setup, file)], states[i], l, file)
    ensures |states[i + 1].workers| == setup.workers
    ensures Conserved(states[i + 1].workers[OwnerOf(setup, file)], states[i + 1], Booked(l, states[i], actions[i], file), file)
  {
    RunKeepsInv(setup, states, actions, i);
    StepConserves(setup, states[i], actions[i], states[i + 1], l, file);
  }

  /** The law holds at every point of every run. */
  lemma {:induction false} RollbacksAreConserved(setup: Setup, states: seq<State>, actions: seq<Action>, i: nat, file: nat)
    requires setup.workers > 0 && IsRun(setup, states, actions) && i < |states| && file < setup.files
    ensures |states[i].workers| == setup.workers
    ensures Conserved(states[i].workers[OwnerOf(setup, file)], states[i], LedgerOf(states, actions, i, file), file)
  {
    if i == 0 {
      WorkersStay(setup, states, actions, 0);
      StartIsOutside(setup, states[0], OwnerOf(setup, file), file);
    } else {
      RollbacksAreConserved(setup, states, actions, i - 1, file);
      RunStepConserves(setup, states, actions, i - 1, LedgerOf(states, actions, i - 1, file), file);
    }
  }

  /** After the last worker has ended, the rollbacks of a file that are still due are exactly its early
      drops without the wasted and lost rollbacks and the commit that found its lock gone. Without an
      early drop nothing is due and nothing was lost. */
  lemma {:induction false} LeftoversAreEarlyDrops(setup: Setup, states: seq<State>, actions: seq<Action>, file: nat)
    requires setup.workers > 0 && IsRun(setup, states, actions) && AllDone(states[|actions|]) && file < setup.files
    ensures var s, l := states[|actions|], LedgerOf(states, actions, |actions|, file);
            && s.pending[file] == l.early - l.wasted - l.unscheduled - l.bare
            && (l.early == 0 ==> file !in s.pending && file !in s.lost)
  {
    RollbacksAreConserved(setup, states, actions, |actions|, file);
  }

  /** Worker `w` entered its section on `file` with step `a` and was in it ever since. */
  predicate InSectionSince(states: seq<State>, actions: seq<Action>, w: nat, file: nat, a: nat, i: nat) {
    && a < i < |states| && |states| == |actions| + 1 && actions[a] == Acquire(w)
    && w < |states[a].workers| && states[a].workers[w] == Waiting(file) && file !in states[a].locks
    && forall k :: a < k <= i ==> w < |states[k].workers| && InSection(states[k].workers[w], file)
  }

  lemma {:induction false} SectionEntry(setup: Setup, s: State, a: Action, w: nat, file: nat)
    requires w < |s.workers| == |Next(setup, s, a).workers|
    requires !InSection(s.workers[w], file) && InSection(Next(setup, s, a).workers[w], file)
    ensures a == Acquire(w) && s.workers[w] == Waiting(file) && file !in s.locks
  {
  }

  lemma {:induction false} StartIsOutside(setup: Setup, s: State, w: nat, file: nat)
    requires IsStart(setup, s) && w < |s.workers|
    ensures !InSection(s.workers[w], file)
  {
  }

  lemma {:induction false} SectionGoesOn(states: seq<State>, actions: seq<Action>, w: nat, file: nat, a: nat, i: nat)
    requires InSectionSince(states, actions, w, file, a, i) && i + 1 < |states|
    requires w < |states[i + 1].workers| && InSection(states[i + 1].workers[w], file)
    ensures InSectionSince(states, actions, w, file, a, i + 1)
  {
  }

  /** Every section has a beginning. */
  lemma {:induction false} SectionStarts(setup: Setup, states: seq<State>, actions: seq<Action>, w: nat, file: nat, i: nat)
    returns (a: nat)
    requires setup.workers > 0 && IsRun(setup, states, actions) && i < |states|
    requires w < |states[i].workers| && InSection(states[i].workers[w], file)
    ensures InSectionSince(states, actions, w, file, a, i)
  {
    WorkersStay(setup, states, actions, 0);
    WorkersStay(setup, states, actions, i);
    StartIsOutside(setup, states[0], w, file);
    WorkersStay(setup, states, actions, i - 1);
    assert states[i - 1 + 1] == Next(setup, states[i - 1], actions[i - 1]);
    if InSection(states[i - 1].workers[w], file) {
      a := SectionStarts(setup, states, actions, w, file, i - 1);
      SectionGoesOn(states, actions, w, file, a, i - 1);
    } else {
      a := i - 1;
      SectionEntry(setup, states[a], actions[a], w, file);
    }
  }

  /** Step `k` runs a rollback of `file`. */
  predicate RollsBack(states: seq<State>, actions: seq<Action>, file: nat, k: nat)
    requires k < |actions| < |states|
  {
    actions[k] == RunRollback(file) && file in states[k].pending
  }

  /** The action drops a guard of `file` that schedules its rollback. */
  predicate DropsGuard(s: State, a: Action, file: nat) {
    || (a.Cancel? && a.worker < |s.workers| && s.workers[a.worker] == Holding(file))
    || (a.CancelWhileWaiting? && a.worker < |s.workers| && s.workers[a.worker] == Waiting(file))
  }

  function Drops(states: seq<State>, actions: seq<Action>, i: nat, file: nat): nat
    requires i <= |actions| < |states|
  {
    if i == 0 then 0
    else Drops(states, actions, i - 1, file) + if DropsGuard(states[i - 1], actions[i - 1], file) then 1 else 0
  }

  function RollbacksRun(states: seq<State>, actions: seq<Action>, i: nat, file: nat): nat
    requires i <= |actions| < |states|
  {
    if i == 0 then 0
    else RollbacksRun(states, actions, i - 1, file) + if RollsBack(states, actions, file, i - 1) then 1 else 0
  }

  /** Each dropped guard schedules one rollback, each rollback runs once, and no other one runs. */
  lemma {:induction false} RollbacksMatchDrops(setup: Setup, states: seq<State>, actions: seq<Action>, i: nat, file: nat)
    requires IsRun(setup, states, actions) && i < |states|
    ensures states[i].pending[file] + RollbacksRun(states, actions, i, file) == Drops(states, actions, i, file)
  {
    if i > 0 {
      RollbacksMatchDrops(setup, states, actions, i - 1, file);
      StepMatches(setup, states[i - 1], actions[i - 1], file);
      assert states[i - 1 + 1] == Next(setup, states[i - 1], actions[i - 1]);
    }
  }

  lemma {:induction false} StepMatches(setup: Setup, s: State, a: Action, file: nat)
    ensures Next(setup, s, a).pending[file] + (if a == RunRollback(file) && file in s.pending then 1 else 0)
         == s.pending[file] + (if DropsGuard(s, a, file) then 1 else 0)
  {
  }

  /** In every run, a worker in its section lacks its lock exactly when a rollback of the file ran since
      it acquired the lock. */
  lemma {:induction false} LockIsLostToRollbacks(setup: Setup, states: seq<State>, actions: seq<Action>,
                                                 w: nat, file: nat, a: nat, i: nat)
    requires setup.workers > 0 && IsRun(setup, states, actions) && InSectionSince(states, actions, w, file, a, i)
    ensures file !in states[i].locks <==> exists k :: a < k < i && RollsBack(states, actions, file, k)
    decreases i
  {
    RunKeepsInv(setup, states, actions, i - 1);
    assert states[i] == Next(setup, states[i - 1], actions[i - 1]);
    if a < i - 1 {
      LockIsLostToRollbacks(setup, states, actions, w, file, a, i - 1);
      OnlyRollbacksUnlock(setup, states[i - 1], actions[i - 1], w, file);
      if file !in states[i].locks && file in states[i - 1].locks {
        assert RollsBack(states, actions, file, i - 1);
      }
    }
  }

  /** While a worker is in its section, only a rollback of its file changes whether the file is locked. */
  lemma {:induction false} OnlyRollbacksUnlock(setup: Setup, s: State, a: Action, w: nat, file: nat)
    requires Inv(setup, s) && w < setup.workers && InSection(s.workers[w], file)
    requires InSection(Next(setup, s, a).workers[w], file)
    ensures if a == RunRollback(file) && file in s.pending then file !in Next(setup, s, a).locks
            else file in Next(setup, s, a).locks <==> file in s.locks
  {
    assert WorkerInv(setup, w, s.workers[w]);
    if !a.RunRollback? && a.worker < setup.workers {
      assert WorkerInv(setup, a.worker, s.workers[a.worker]);
    }
  }

  /** No early drop of the file: then its worker's section always has its lock. */
  lemma {:induction false} SectionsAreLocked(setup: Setup, states: seq<State>, actions: seq<Action>, i: nat, file: nat)
    requires setup.workers > 0 && IsRun(setup, states, actions) && i < |states| && file < setup.files
    requires LedgerOf(states, actions, i, file).early == 0
    ensures |states[i].workers| == setup.workers
    ensures var s, p := states[i], states[i].workers[OwnerOf(setup, file)];
            && (file in s.locks <==> InSection(p, file) || file in s.pending || file in s.lost)
            && !(InSection(p, file) && (file in s.pending || file in s.lost))
  {
    RunKeepsInv(setup, states, actions, i);
    RollbacksAreConserved(setup, states, actions, i, file);
    assert FileInv(states[i].workers[OwnerOf(setup, file)], states[i], file);
  }

  // ---------------------------------------------------------------- progress and its limits

  /** While every rollback could be scheduled, the workers never get stuck: a file that a worker waits
      for in vain has a rollback due. */
  lemma {:induction false} NeverStuck(setup: Setup, s: State, w: nat) returns (a: Action)
    requires Inv(setup, s) && s.lost == {} && w < setup.workers && !s.workers[w].Done?
    ensures !a.CancelWhileWaiting? && Next(setup, s, a) != s
  {
    var p := s.workers[w];
    assert WorkerInv(setup, w, p);
    assert FileInv(s.workers[OwnerOf(setup, p.file)], s, p.file);
    match p
    case Waiting(file) =>
      if file in s.locks {
        a := RunRollback(file);
        assert file in s.pending && Next(setup, s, a).pending[file] != s.pending[file];
      } else {
        a := Acquire(w);
        assert Next(setup, s, a).workers[w] != p;
      }
    case Holding(_) =>
      a := Save(w);
      assert Next(setup, s, a).workers[w] != p;
    case Saved(_) =>
      a := Commit(w);
      assert Next(setup, s, a).completed != s.completed;
  }

  /** A rollback that could not be scheduled blocks its file for good unless an early drop lends it one:
      as long as there is none, the file stays locked and unimported and its worker waits. */
  lemma {:induction false} LostIsForGood(setup: Setup, states: seq<State>, actions: seq<Action>, i: nat, file: nat)
    requires setup.workers > 0 && IsRun(setup, states, actions) && i < |states| && file < setup.files
    requires file in states[i].lost && LedgerOf(states, actions, i, file).early == 0
    ensures file in states[i].locks && file !in states[i].imports
    ensures |states[i].workers| == setup.workers && states[i].workers[OwnerOf(setup, file)] == Waiting(file)
  {
    RunKeepsInv(setup, states, actions, i);
    RollbacksAreConserved(setup, states, actions, i, file);
    assert FileInv(states[i].workers[OwnerOf(setup, file)], states[i], file);
  }

  /** What an early drop can do: its rollback frees the lock its worker took since. One worker and one
      file are enough. */
  lemma {:induction false} EarlyDropFreesALock() returns (setup: Setup, states: seq<State>, actions: seq<Action>)
    ensures setup.workers > 0 && IsRun(setup, states, actions)
    ensures var s := states[|actions|]; s.workers == [Holding(0)] && 0 !in s.locks
  {
    setup := Setup(1, 1);
    actions := [CancelWhileWaiting(0), Acquire(0), RunRollback(0)];
    var s0 := State([Waiting(0)], {}, multiset{}, {}, [], 0);
    var s1 := Next(setup, s0, actions[0]);
    var s2 := Next(setup, s1, actions[1]);
    var s3 := Next(setup, s2, actions[2]);
    states := [s0, s1, s2, s3];
  }
}
