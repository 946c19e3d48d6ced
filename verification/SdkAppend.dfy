/** Concurrent append-mode writers of the SDK. A registry of weak references hands every writer of a
    path the same lock; under it a writer stats the file and writes at its end. Writers move one
    backend call at a time, writes may be short, calls may fail and writers may be cancelled. The
    lookup and the insert of `append_lock_for` are one step. No one else writes these files. Locks
    belong to path strings, and several strings can name one file. */
module SdkAppend {
  import opened Common

  type Bytes = seq<byte>

  const CLEANUP_THRESHOLD := 4096

  /** Where a writer is; every state but the first and the last owns a strong reference to `lock`. */
  datatype PC =
    | Ready
    | Waiting(lock: nat)
    | Locked(lock: nat)
    | Sized(lock: nat, size: nat)
    | Wrote(lock: nat, failed: bool)
    | Unlocked(lock: nat, failed: bool)
    | Ended(complete: bool)

  /** A `write_all` in append mode: `done` bytes of `data` have been written. */
  datatype Writer = Writer(path: string, data: Bytes, done: nat, pc: PC)

  datatype Piece = Piece(writer: nat, file: nat, bytes: Bytes)

  /** `inode` names the file behind each path string, and `log` lists the pieces in write order. */
  datatype State = State(
    inode: map<string, nat>, files: map<nat, Bytes>, registry: map<string, nat>, nextLock: nat,
    writers: map<nat, Writer>, log: seq<Piece>)

  datatype Action = Move(writer: nat, ok: bool, limit: nat) | Cancel(writer: nat)

  predicate Owns(w: Writer, lock: nat) {
    !w.pc.Ready? && !w.pc.Ended? && w.pc.lock == lock
  }

  predicate Holds(w: Writer, lock: nat) {
    (w.pc.Locked? || w.pc.Sized? || w.pc.Wrote?) && w.pc.lock == lock
  }

  /** A weak reference can be upgraded while someone owns a strong one. */
  predicate Alive(writers: map<nat, Writer>, lock: nat) {
    exists t :: t in writers && Owns(writers[t], lock)
  }

  predicate Free(writers: map<nat, Writer>, lock: nat) {
    forall t :: t in writers ==> !Holds(writers[t], lock)
  }

  /** A positioned write; a gap behind the end is filled with zeros. */
  function WriteAt(file: Bytes, offset: nat, data: Bytes): Bytes {
    var padded := if offset <= |file| then file else file + seq(offset - |file|, i => 0);
    padded[..offset] + data + (if offset + |data| <= |file| then file[offset + |data|..] else [])
  }

  function At(s: State, t: nat, pc: PC): State
    requires t in s.writers
  {
    s.(writers := s.writers[t := s.writers[t].(pc := pc)])
  }

  /** `append_lock_for`: the live lock of the path, or a new one; an oversized registry forgets the
      entries nobody owns any more. */
  function TakeLock(s: State, t: nat): State
    requires t in s.writers
  {
    var path := s.writers[t].path;
    if path in s.registry && Alive(s.writers, s.registry[path]) then At(s, t, Waiting(s.registry[path]))
    else
      var s' := At(s.(registry := s.registry[path := s.nextLock], nextLock := s.nextLock + 1), t, Waiting(s.nextLock));
      if |s'.registry| > CLEANUP_THRESHOLD
      then s'.(registry := map p | p in s'.registry && Alive(s'.writers, s'.registry[p]) :: s'.registry[p])
      else s'
  }

  function WritePiece(s: State, t: nat, lock: nat, size: nat, piece: Bytes): State
    requires t in s.writers && s.writers[t].path in s.inode && s.inode[s.writers[t].path] in s.files
  {
    var w := s.writers[t];
    var file := s.inode[w.path];
    s.(files := s.files[file := WriteAt(s.files[file], size, piece)],
       log := s.log + [Piece(t, file, piece)],
       writers := s.writers[t := w.(done := w.done + |piece|, pc := Wrote(lock, piece == []))])
  }

  /** The next call of writer `t`. */
  function Step(s: State, t: nat, ok: bool, limit: nat): State
    requires t in s.writers
  {
    var w := s.writers[t];
    match w.pc
    case Ready => if w.done >= |w.data| then At(s, t, Ended(true)) else TakeLock(s, t)
    case Waiting(lock) => if Free(s.writers, lock) then At(s, t, Locked(lock)) else s
    case Locked(lock) =>
      if ok && w.path in s.inode && s.inode[w.path] in s.files
      then At(s, t, Sized(lock, |s.files[s.inode[w.path]]|)) else At(s, t, Wrote(lock, true))
    case Sized(lock, size) =>
      if ok && w.done <= |w.data| && w.path in s.inode && s.inode[w.path] in s.files then
        WritePiece(s, t, lock, size, w.data[w.done..w.done + Min(limit, |w.data| - w.done)])
      else At(s, t, Wrote(lock, true))
    case Wrote(lock, failed) => At(s, t, Unlocked(lock, failed))
    case Unlocked(lock, failed) => At(s, t, if failed then Ended(false) else Ready)
    case Ended(_) => s
  }

  function Next(s: State, a: Action): State {
    if a.writer !in s.writers then s
    else match a
      case Move(t, ok, limit) => Step(s, t, ok, limit)
      case Cancel(t) => if s.writers[t].pc.Ended? then s else At(s, t, Ended(false))
  }

  /** Nobody has started; the paths of writers name existing files, several perhaps the same one, and
      the registry may hold stale entries. */
  predicate Initial(s: State) {
    && (forall t :: t in s.writers ==> s.writers[t].done == 0 && s.writers[t].pc.Ready?)
    && (forall t :: t in s.writers ==> s.writers[t].path in s.inode && s.inode[s.writers[t].path] in s.files)
    && (forall p :: p in s.registry ==> s.registry[p] < s.nextLock)
    && s.log == []
  }

  predicate IsRun(states: seq<State>, actions: seq<Action>) {
    && |states| == |actions| + 1
    && Initial(states[0])
    && forall i :: 0 <= i < |actions| ==> states[i + 1] == Next(states[i], actions[i])
  }

  // ---------------------------------------------------------------- one lock per path

  /** Between the lookup and the end of the write the writer owns a strong reference. */
  predicate Active(w: Writer) {
    !w.pc.Ready? && !w.pc.Ended?
  }

  predicate Inside(w: Writer) {
    w.pc.Locked? || w.pc.Sized? || w.pc.Wrote?
  }

  /** Every strong reference is the one the registry hands out for its owner's path, and a lock is
      held by at most one writer. */
  ghost predicate LockInv(s: State) {
    && (forall t :: t in s.writers && Active(s.writers[t]) ==>
                      s.writers[t].path in s.registry && s.registry[s.writers[t].path] == s.writers[t].pc.lock)
    && (forall p :: p in s.registry ==> s.registry[p] < s.nextLock)
    && (forall t, u :: InsideTogether(s.writers, t, u) ==> t == u)
  }

  predicate InsideTogether(writers: map<nat, Writer>, t: nat, u: nat) {
    && t in writers && u in writers && Inside(writers[t]) && Inside(writers[u])
    && writers[t].pc.lock == writers[u].pc.lock
  }

  lemma {:induction false} TakeLockKeepsInv(s: State, t: nat)
    requires LockInv(s) && t in s.writers && s.writers[t].pc.Ready?
    ensures LockInv(TakeLock(s, t))
  {
    var path := s.writers[t].path;
    var s' := TakeLock(s, t);
    if !(path in s.registry && Alive(s.writers, s.registry[path])) {
      forall u | u in s'.writers && Active(s'.writers[u])
        ensures s'.writers[u].path in s'.registry && s'.registry[s'.writers[u].path] == s'.writers[u].pc.lock
      {
        assert Owns(s'.writers[u], s'.writers[u].pc.lock);
        assert u != t ==> Owns(s.writers[u], s.registry[s.writers[u].path]);
      }
    }
    assert forall u, v :: InsideTogether(s'.writers, u, v) ==> InsideTogether(s.writers, u, v);
  }

  predicate TakesLock(s: State, a: Action) {
    && a.Move? && a.writer in s.writers && s.writers[a.writer].pc.Ready?
    && s.writers[a.writer].done < |s.writers[a.writer].data|
  }

  /** A step of `t` that does not look up a lock: it keeps its lock or lets it go. */
  predicate KeepsLock(s: State, s': State, t: nat) {
    && t in s.writers && t in s'.writers && s'.writers == s.writers[t := s'.writers[t]]
    && s'.registry == s.registry && s'.nextLock == s.nextLock && s'.writers[t].path == s.writers[t].path
    && (Active(s'.writers[t]) ==> Active(s.writers[t]) && s'.writers[t].pc.lock == s.writers[t].pc.lock)
    && (Inside(s'.writers[t]) ==> Inside(s.writers[t]) || Free(s.writers, s'.writers[t].pc.lock))
  }

  lemma {:induction false} MoveKeepsLockInv(s: State, s': State, t: nat)
    requires LockInv(s) && KeepsLock(s, s', t)
    ensures LockInv(s')
  {
    forall u, v | InsideTogether(s'.writers, u, v)
      ensures u == v
    {
      if (u != t && v != t) || Inside(s.writers[t]) {
        assert InsideTogether(s.writers, u, v);
      } else if u != v {
        assert false;
      }
    }
  }

  lemma {:induction false} AtKeepsLock(s: State, t: nat, pc: PC)
    requires t in s.writers
    requires Active(Writer("", [], 0, pc)) ==> Active(s.writers[t]) && pc.lock == s.writers[t].pc.lock
    requires Inside(Writer("", [], 0, pc)) ==> Inside(s.writers[t]) || Free(s.writers, pc.lock)
    ensures KeepsLock(s, At(s, t, pc), t)
  {
  }

  lemma {:induction false} OtherStepsKeepLock(s: State, a: Action)
    requires a.writer in s.writers && !TakesLock(s, a)
    ensures KeepsLock(s, Next(s, a), a.writer)
  {
    var t, w := a.writer, s.writers[a.writer];
    AtKeepsLock(s, t, Ended(false));
    assert s.writers == s.writers[t := w];
    if a.Move? {
      match w.pc
      case Ready => AtKeepsLock(s, t, Ended(true));
      case Waiting(lock) => if Free(s.writers, lock) { AtKeepsLock(s, t, Locked(lock)); }
      case Locked(lock) =>
        AtKeepsLock(s, t, Wrote(lock, true));
        if w.path in s.inode && s.inode[w.path] in s.files {
          AtKeepsLock(s, t, Sized(lock, |s.files[s.inode[w.path]]|));
        }
      case Sized(lock, _) => AtKeepsLock(s, t, Wrote(lock, true));
      case Wrote(lock, failed) => AtKeepsLock(s, t, Unlocked(lock, failed));
      case Unlocked(_, failed) => AtKeepsLock(s, t, Ready);
      case Ended(_) =>
    }
  }

  lemma {:induction false} NextKeepsLockInv(s: State, a: Action)
    requires LockInv(s)
    ensures LockInv(Next(s, a))
  {
    if TakesLock(s, a) {
      TakeLockKeepsInv(s, a.writer);
    } else if a.writer in s.writers {
      OtherStepsKeepLock(s, a);
      MoveKeepsLockInv(s, Next(s, a), a.writer);
    }
  }

  // ---------------------------------------------------------------- contents

  /** The bytes of all pieces written to a file, in order. */
  function Appended(log: seq<Piece>, file: nat): Bytes {
    if log == [] then []
    else
      var last := log[|log| - 1];
      Appended(log[..|log| - 1], file) + if last.file == file then last.bytes else []
  }

  /** The bytes of all pieces of one writer, in order. */
  function WrittenBy(log: seq<Piece>, t: nat): Bytes {
    if log == [] then []
    else
      var last := log[|log| - 1];
      WrittenBy(log[..|log| - 1], t) + if last.writer == t then last.bytes else []
  }

  lemma {:induction false} LogGrowth(log: seq<Piece>, x: Piece, file: nat, t: nat)
    ensures Appended(log + [x], file) == Appended(log, file) + if x.file == file then x.bytes else []
    ensures WrittenBy(log + [x], t) == WrittenBy(log, t) + if x.writer == t then x.bytes else []
  {
    assert (log + [x])[..|log|] == log;
  }

  /** What holds for a writer in every run: its path and data never change, its pieces are its data from
      the front in order, and the size it read is at most the size of its file. */
  predicate WriterInv(first: State, s: State, t: nat)
    requires t in s.writers
  {
    var w := s.writers[t];
    && t in first.writers && w.path == first.writers[t].path && w.data == first.writers[t].data
    && w.path in s.inode && s.inode[w.path] in s.files
    && w.done <= |w.data| && WrittenBy(s.log, t) == w.data[..w.done]
    && (w.pc.Sized? ==> w.pc.size <= |s.files[s.inode[w.path]]|)
    && (w.pc.Ended? && w.pc.complete ==> w.done == |w.data|)
    && (Active(w) ==> w.data != [])
  }

  predicate BaseInv(first: State, s: State) {
    && s.inode == first.inode && s.files.Keys == first.files.Keys && s.writers.Keys == first.writers.Keys
    && (forall t :: t in s.writers ==> WriterInv(first, s, t))
  }

  /** Action `a` is the write of a piece. */
  predicate Writes(s: State, a: Action) {
    && a.Move? && a.ok && a.writer in s.writers && s.writers[a.writer].pc.Sized?
    && s.writers[a.writer].done <= |s.writers[a.writer].data|
    && s.writers[a.writer].path in s.inode && s.inode[s.writers[a.writer].path] in s.files
  }

  /** A step of `t` that writes nothing. */
  predicate Quiet(s: State, s': State, t: nat) {
    && t in s.writers && t in s'.writers && s'.writers == s.writers[t := s.writers[t].(pc := s'.writers[t].pc)]
    && s'.inode == s.inode && s'.files == s.files && s'.log == s.log
    && (s'.writers[t].pc.Sized? ==>
          || s'.writers[t].pc == s.writers[t].pc
          || (s.writers[t].path in s.inode && s.inode[s.writers[t].path] in s.files
              && s'.writers[t].pc.size == |s.files[s.inode[s.writers[t].path]]|))
    && (s'.writers[t].pc.Ended? && s'.writers[t].pc.complete ==>
          s.writers[t].pc == s'.writers[t].pc || s.writers[t].done >= |s.writers[t].data|)
    && (Active(s'.writers[t]) ==> Active(s.writers[t]) || s.writers[t].done < |s.writers[t].data|)
  }

  lemma {:induction false} AtIsQuiet(s: State, t: nat, pc: PC)
    requires t in s.writers
    requires pc.Sized? ==> s.writers[t].path in s.inode && s.inode[s.writers[t].path] in s.files
                           && pc.size == |s.files[s.inode[s.writers[t].path]]|
    requires pc.Ended? && pc.complete ==> s.writers[t].done >= |s.writers[t].data|
    requires Active(Writer("", [], 0, pc)) ==> Active(s.writers[t]) || s.writers[t].done < |s.writers[t].data|
    ensures Quiet(s, At(s, t, pc), t)
  {
  }

  lemma {:induction false} StayingIsQuiet(s: State, t: nat)
    requires t in s.writers
    ensures Quiet(s, s, t)
  {
    assert s.writers == s.writers[t := s.writers[t]];
  }

  lemma {:induction false} OtherStepsAreQuiet(s: State, a: Action)
    requires a.writer in s.writers && !Writes(s, a)
    ensures Quiet(s, Next(s, a), a.writer)
  {
    var t, w := a.writer, s.writers[a.writer];
    StayingIsQuiet(s, t);
    if a.Cancel? {
      AtIsQuiet(s, t, Ended(false));
    } else {
      match w.pc
      case Ready => if w.done >= |w.data| { AtIsQuiet(s, t, Ended(true)); }
      case Waiting(lock) => AtIsQuiet(s, t, Locked(lock));
      case Locked(lock) =>
        AtIsQuiet(s, t, Wrote(lock, true));
        if w.path in s.inode && s.inode[w.path] in s.files {
          AtIsQuiet(s, t, Sized(lock, |s.files[s.inode[w.path]]|));
        }
      case Sized(lock, _) => AtIsQuiet(s, t, Wrote(lock, true));
      case Wrote(lock, failed) => AtIsQuiet(s, t, Unlocked(lock, failed));
      case Unlocked(_, failed) => AtIsQuiet(s, t, if failed then Ended(false) else Ready);
      case Ended(_) =>
    }
  }

  /** A write of `piece` by `t` at the size it read. */
  predicate Writing(s: State, s': State, t: nat, piece: Bytes) {
    && t in s.writers && s'.writers.Keys == s.writers.Keys && s'.inode == s.inode
    && var w, w' := s.writers[t], s'.writers[t];
    && w.pc.Sized? && w.path in s.inode && s.inode[w.path] in s.files
    && s'.files == s.files[s.inode[w.path] := WriteAt(s.files[s.inode[w.path]], w.pc.size, piece)]
    && s'.log == s.log + [Piece(t, s.inode[w.path], piece)]
    && (forall u :: u in s.writers && u != t ==> s'.writers[u] == s.writers[u])
    && w'.path == w.path && w'.data == w.data && w'.pc.Wrote?
    && w.done <= w'.done <= |w.data| && piece == w.data[w.done..w'.done]
  }

  lemma {:induction false} WritesEffect(s: State, a: Action) returns (s': State, piece: Bytes)
    requires Writes(s, a)
    ensures s' == Next(s, a) && Writing(s, s', a.writer, piece)
    ensures |piece| == Min(a.limit, |s.writers[a.writer].data| - s.writers[a.writer].done)
  {
    var w := s.writers[a.writer];
    s', piece := Next(s, a), w.data[w.done..w.done + Min(a.limit, |w.data| - w.done)];
    assert s' == WritePiece(s, a.writer, w.pc.lock, w.pc.size, piece);
  }

  lemma {:induction false} QuietKeepsBase(first: State, s: State, s': State, t: nat)
    requires BaseInv(first, s) && Quiet(s, s', t)
    ensures BaseInv(first, s')
  {
    forall u | u in s'.writers
      ensures WriterInv(first, s', u)
    {
      assert WriterInv(first, s, u);
    }
  }

  /** A write at or before the end never makes a file shorter. */
  lemma {:induction false} WriteAtLength(file: Bytes, size: nat, piece: Bytes)
    requires size <= |file|
    ensures |WriteAt(file, size, piece)| >= |file|
  {
  }

  lemma {:induction false} WritingKeepsWriter(first: State, s: State, s': State, t: nat, piece: Bytes, u: nat)
    requires t in s.writers && u in s.writers && Writing(s, s', t, piece)
    requires WriterInv(first, s, t) && WriterInv(first, s, u)
    ensures WriterInv(first, s', u)
  {
    var w := s.writers[t];
    LogGrowth(s.log, Piece(t, s.inode[w.path], piece), s.inode[w.path], u);
    WriteAtLength(s.files[s.inode[w.path]], w.pc.size, piece);
    assert w.data[..w.done] + piece == w.data[..s'.writers[t].done];
  }

  lemma {:induction false} WritingKeepsBase(first: State, s: State, s': State, t: nat, piece: Bytes)
    requires BaseInv(first, s) && Writing(s, s', t, piece)
    ensures BaseInv(first, s')
  {
    assert WriterInv(first, s, t);
    forall u | u in s'.writers
      ensures WriterInv(first, s', u)
    {
      assert WriterInv(first, s, u);
      WritingKeepsWriter(first, s, s', t, piece, u);
    }
  }

  lemma {:induction false} NextKeepsBase(first: State, s: State, a: Action)
    requires BaseInv(first, s)
    ensures BaseInv(first, Next(s, a))
  {
    if Writes(s, a) {
      var s', piece := WritesEffect(s, a);
      WritingKeepsBase(first, s, s', a.writer, piece);
    } else if a.writer in s.writers {
      OtherStepsAreQuiet(s, a);
      QuietKeepsBase(first, s, Next(s, a), a.writer);
    }
  }

  lemma {:induction false} InvRun(states: seq<State>, actions: seq<Action>, i: nat)
    requires IsRun(states, actions) && i < |states|
    ensures LockInv(states[i]) && BaseInv(states[0], states[i])
  {
    if i > 0 {
      InvRun(states, actions, i - 1);
      NextKeepsLockInv(states[i - 1], actions[i - 1]);
      NextKeepsBase(states[0], states[i - 1], actions[i - 1]);
    }
  }

  // ---------------------------------------------------------------- results over whole runs

  /** At most one lock per path string is alive, the registry still hands out exactly that one (so
      cleanup never dropped it), and at most one writer of a path is inside its critical section. */
  lemma {:induction false} OneLivingLockPerPath(states: seq<State>, actions: seq<Action>, i: nat, t: nat, u: nat)
    requires IsRun(states, actions) && i < |states|
    requires t in states[i].writers && u in states[i].writers && states[i].writers[t].path == states[i].writers[u].path
    requires Active(states[i].writers[t]) && Active(states[i].writers[u])
    ensures states[i].writers[t].pc.lock == states[i].writers[u].pc.lock
    ensures states[i].writers[t].path in states[i].registry
    ensures states[i].registry[states[i].writers[t].path] == states[i].writers[t].pc.lock
    ensures Inside(states[i].writers[t]) && Inside(states[i].writers[u]) ==> t == u
  {
    InvRun(states, actions, i);
    assert Inside(states[i].writers[t]) && Inside(states[i].writers[u]) ==> InsideTogether(states[i].writers, t, u);
  }

  /** In every run each writer's pieces are its data from the front, in order, and all of it once it
      ended well. */
  lemma {:induction false} PiecesAreInOrder(states: seq<State>, actions: seq<Action>, i: nat, t: nat)
    requires IsRun(states, actions) && i < |states| && t in states[0].writers
    ensures t in states[i].writers && states[i].writers[t].done <= |states[0].writers[t].data|
    ensures WrittenBy(states[i].log, t) == states[0].writers[t].data[..states[i].writers[t].done]
    ensures states[i].writers[t].pc == Ended(true) ==> WrittenBy(states[i].log, t) == states[0].writers[t].data
  {
    InvRun(states, actions, i);
    assert WriterInv(states[0], states[i], t);
  }

  // ---------------------------------------------------------------- every writer gets its answer

  /** The action takes writer `t` off its way: a cancellation, a failing call, or a write of nothing. */
  predicate Failing(s: State, a: Action, t: nat) {
    && a.writer == t && t in s.writers
    && var pc := s.writers[t].pc;
    match a
    case Cancel(_) => !pc.Ended?
    case Move(_, ok, limit) => (pc.Locked? && !ok) || (pc.Sized? && (!ok || limit == 0))
  }

  predicate Troubled(pc: PC) {
    pc == Ended(false) || (pc.Wrote? && pc.failed) || (pc.Unlocked? && pc.failed)
  }

  /** How many moves that changed something a writer can have made by now: six for every byte. */
  function Spent(w: Writer): int {
    6 * w.done +
    match w.pc
    case Ready => 0
    case Waiting(_) => 1
    case Locked(_) => 2
    case Sized(_, _) => 3
    case Wrote(_, failed) => if failed then 4 else -2
    case Unlocked(_, failed) => if failed then 5 else -1
    case Ended(_) => 0
  }

  /** A writer on its way to a write, or back from one that failed, has something left to write. */
  predicate Unfinished(w: Writer) {
    w.pc.Waiting? || w.pc.Locked? || w.pc.Sized? || (Troubled(w.pc) && !w.pc.Ended?) ==> w.done < |w.data|
  }

  /** What one action does to the progress of writer `t`. */
  predicate Advances(s: State, a: Action, s': State, t: nat)
    requires t in s.writers
  {
    && t in s'.writers && Unfinished(s'.writers[t])
    && var w, w' := s.writers[t], s'.writers[t];
    && (Troubled(w'.pc) <==> Troubled(w.pc) || Failing(s, a, t))
    && (!w'.pc.Ended? ==>
          !w.pc.Ended? && Spent(w') >= Spent(w) + if a.writer == t && s' != s then 1 else 0)
  }

  lemma {:induction false} OthersStay(s: State, a: Action, t: nat)
    requires t in s.writers && a.writer != t
    ensures t in Next(s, a).writers && Next(s, a).writers[t] == s.writers[t]
  {
    if a.writer in s.writers && a.Move? {
      match s.writers[a.writer].pc
      case Ready =>
      case Sized(_, _) =>
      case _ =>
    }
  }

  lemma {:induction false} MoveAdvances(s: State, a: Action, t: nat)
    requires t in s.writers && a.Move? && a.writer == t && Unfinished(s.writers[t])
    requires s.writers[t].path in s.inode && s.inode[s.writers[t].path] in s.files
    ensures Advances(s, a, Next(s, a), t)
  {
    match s.writers[t].pc
    case Ready =>
    case Sized(_, _) =>
    case _ =>
  }

  lemma {:induction false} ActionAdvances(s: State, a: Action, t: nat)
    requires t in s.writers && Unfinished(s.writers[t])
    requires s.writers[t].path in s.inode && s.inode[s.writers[t].path] in s.files
    ensures Advances(s, a, Next(s, a), t)
  {
    if a.writer != t {
      OthersStay(s, a, t);
    } else if a.Move? {
      MoveAdvances(s, a, t);
    }
  }

  /** How many of the first `i` actions were of writer `t` and changed something. */
  function OwnMoves(states: seq<State>, actions: seq<Action>, i: nat, t: nat): nat
    requires i <= |actions| < |states|
  {
    if i == 0 then 0
    else OwnMoves(states, actions, i - 1, t) + if actions[i - 1].writer == t && states[i] != states[i - 1] then 1 else 0
  }

  lemma {:induction false} ProgressRun(states: seq<State>, actions: seq<Action>, i: nat, t: nat)
    requires IsRun(states, actions) && i < |states| && t in states[0].writers
    ensures t in states[i].writers && Unfinished(states[i].writers[t])
    ensures Troubled(states[i].writers[t].pc) <==> exists k :: 0 <= k < i && Failing(states[k], actions[k], t)
    ensures !states[i].writers[t].pc.Ended? ==> OwnMoves(states, actions, i, t) <= Spent(states[i].writers[t])
  {
    if i > 0 {
      ProgressRun(states, actions, i - 1, t);
      assert states[i - 1].writers[t].path in states[i - 1].inode
             && states[i - 1].inode[states[i - 1].writers[t].path] in states[i - 1].files by {
        InvRun(states, actions, i - 1);
        assert WriterInv(states[0], states[i - 1], t);
      }
      ActionAdvances(states[i - 1], actions[i - 1], t);
      assert states[i - 1 + 1] == Next(states[i - 1], actions[i - 1]);
    }
  }

  /** A writer has its answer after at most six moves of its own for every byte and one more, not
      counting tries for a lock that is taken. It fails exactly when it was cancelled, a call of its own
      failed or a write wrote nothing; otherwise all of its data was written. */
  lemma {:induction false} WritersAreAnswered(states: seq<State>, actions: seq<Action>, i: nat, t: nat)
    requires IsRun(states, actions) && i < |states| && t in states[0].writers
    ensures t in states[i].writers
    ensures OwnMoves(states, actions, i, t) > 6 * |states[0].writers[t].data| ==>
              && states[i].writers[t].pc.Ended?
              && (states[i].writers[t].pc.complete <==> forall k :: 0 <= k < i ==> !Failing(states[k], actions[k], t))
              && (states[i].writers[t].pc.complete ==> WrittenBy(states[i].log, t) == states[0].writers[t].data)
  {
    ProgressRun(states, actions, i, t);
    PiecesAreInOrder(states, actions, i, t);
    assert states[i].writers[t].data == states[0].writers[t].data by {
      InvRun(states, actions, i);
      assert WriterInv(states[0], states[i], t);
    }
  }

  /** While a writer has not ended, some writer can move. */
  lemma {:induction false} WritersNeverStick(s: State, t: nat) returns (u: nat)
    requires t in s.writers && !s.writers[t].pc.Ended?
    ensures u in s.writers && Next(s, Move(u, true, 1)) != s
  {
    u := t;
    if s.writers[t].pc.Waiting? && !Free(s.writers, s.writers[t].pc.lock) {
      u :| u in s.writers && Holds(s.writers[u], s.writers[t].pc.lock);
    }
    MoveChanges(s, u);
  }

  lemma {:induction false} MoveChanges(s: State, u: nat)
    requires u in s.writers && !s.writers[u].pc.Ended?
    requires s.writers[u].pc.Waiting? ==> Free(s.writers, s.writers[u].pc.lock)
    ensures var s' := Next(s, Move(u, true, 1)); u in s'.writers && s'.writers[u].pc != s.writers[u].pc
  {
    match s.writers[u].pc
    case Ready =>
    case Sized(_, _) =>
    case _ =>
  }

  /** Taking a lock hands out the living one, or adds a new one; a registry of more than 4096 entries then
      keeps the living ones only, and a smaller one keeps all. */
  lemma {:induction false} RegistryIsSwept(s: State, t: nat)
    requires t in s.writers && s.writers[t].pc.Ready?
    ensures var s', path := TakeLock(s, t), s.writers[t].path;
            if path in s.registry && Alive(s.writers, s.registry[path])
            then s'.registry == s.registry && t in s'.writers && s'.writers[t].pc == Waiting(s.registry[path])
            else
              var grown := s.registry[path := s.nextLock];
              && t in s'.writers && s'.writers[t].pc == Waiting(s.nextLock)
              && (forall p :: p in s'.registry <==> p in grown && (|grown| <= 4096 || Alive(s'.writers, grown[p])))
              && (forall p :: p in s'.registry ==> s'.registry[p] == grown[p])
  {
  }

  // ---------------------------------------------------------------- two strings for one file

  /** Two writers with data that reach one file by different strings. */
  predicate Aliased(s: State, t: nat, u: nat) {
    && t in s.writers && u in s.writers && s.writers[t].data != [] && s.writers[u].data != []
    && s.writers[t].path != s.writers[u].path && s.writers[t].path in s.inode && s.writers[u].path in s.inode
    && s.inode[s.writers[t].path] == s.inode[s.writers[u].path]
  }

  predicate NoAliases(s: State) {
    forall t, u :: t in s.writers && u in s.writers ==> !Aliased(s, t, u)
  }

  /** Inside their sections, two writers of one file use different strings for it. */
  lemma {:induction false} OnlyAliasesMeet(first: State, s: State, t: nat, u: nat)
    requires LockInv(s) && BaseInv(first, s) && t in s.writers && u in s.writers && u != t
    requires s.writers[t].pc.Sized? && s.writers[u].pc.Sized?
    requires s.inode[s.writers[t].path] == s.inode[s.writers[u].path]
    ensures Aliased(first, t, u)
  {
    assert WriterInv(first, s, t) && WriterInv(first, s, u);
    if s.writers[u].path == s.writers[t].path {
      assert InsideTogether(s.writers, t, u);
    }
  }

  /** Every file is its first contents followed by the pieces written to it, and nobody holds a stale
      size. */
  predicate OnlyAppended(first: State, s: State) {
    forall f :: f in first.files ==> f in s.files && s.files[f] == first.files[f] + Appended(s.log, f)
  }

  predicate UpToDate(s: State, t: nat)
    requires t in s.writers
  {
    var w := s.writers[t];
    w.pc.Sized? && w.path in s.inode && s.inode[w.path] in s.files ==> w.pc.size == |s.files[s.inode[w.path]]|
  }

  predicate ExactInv(first: State, s: State) {
    OnlyAppended(first, s) && forall t :: t in s.writers ==> UpToDate(s, t)
  }

  lemma {:induction false} WritingAppends(first: State, s: State, s': State, t: nat, piece: Bytes)
    requires BaseInv(first, s) && ExactInv(first, s) && Writing(s, s', t, piece)
    ensures OnlyAppended(first, s')
  {
    assert WriterInv(first, s, t) && UpToDate(s, t);
    var file := s.inode[s.writers[t].path];
    assert WriteAt(s.files[file], |s.files[file]|, piece) == s.files[file] + piece;
    forall f | f in first.files
      ensures f in s'.files && s'.files[f] == first.files[f] + Appended(s'.log, f)
    {
      LogGrowth(s.log, Piece(t, file, piece), f, t);
      Reassociate(first.files[f], Appended(s.log, f), piece);
    }
  }

  lemma {:induction false} WritingKeepsExact(first: State, s: State, s': State, t: nat, piece: Bytes)
    requires NoAliases(first) && LockInv(s) && BaseInv(first, s) && ExactInv(first, s) && Writing(s, s', t, piece)
    ensures ExactInv(first, s')
  {
    WritingAppends(first, s, s', t, piece);
    forall u | u in s'.writers
      ensures UpToDate(s', u)
    {
      assert UpToDate(s, u) && WriterInv(first, s, u) && WriterInv(first, s, t);
      if u != t && s.writers[u].pc.Sized? && s.inode[s.writers[u].path] == s.inode[s.writers[t].path] {
        OnlyAliasesMeet(first, s, t, u);
      }
    }
  }

  lemma {:induction false} NextKeepsExact(first: State, s: State, a: Action)
    requires NoAliases(first) && LockInv(s) && BaseInv(first, s) && ExactInv(first, s)
    ensures ExactInv(first, Next(s, a))
  {
    if Writes(s, a) {
      var s', piece := WritesEffect(s, a);
      WritingKeepsExact(first, s, s', a.writer, piece);
    } else if a.writer in s.writers {
      OtherStepsAreQuiet(s, a);
      var s' := Next(s, a);
      forall u | u in s'.writers
        ensures UpToDate(s', u)
      {
        assert UpToDate(s, u);
      }
    }
  }

  /** Without two strings for one file, every run only appends. */
  lemma {:induction false} AppendersOnlyAppend(states: seq<State>, actions: seq<Action>, i: nat)
    requires IsRun(states, actions) && i < |states| && NoAliases(states[0])
    ensures ExactInv(states[0], states[i])
  {
    if i > 0 {
      AppendersOnlyAppend(states, actions, i - 1);
      InvRun(states, actions, i - 1);
      NextKeepsExact(states[0], states[i - 1], actions[i - 1]);
    }
  }

  // ---------------------------------------------------------------- files that only grow

  /** Aliased writers that cannot be told apart: all their bytes are the same. */
  predicate Harmless(s: State) {
    forall t, u :: t in s.writers && u in s.writers && Aliased(s, t, u) ==> SameBytes(s.writers[t].data, s.writers[u].data)
  }

  predicate SameBytes(a: Bytes, b: Bytes) {
    forall i, j :: 0 <= i < |a| && 0 <= j < |b| ==> a[i] == b[j]
  }

  /** What was written behind the size a writer read looks like its own data. */
  predicate Fits(s: State, t: nat)
    requires t in s.writers
  {
    var w := s.writers[t];
    w.pc.Sized? && w.path in s.inode && s.inode[w.path] in s.files && w.pc.size <= |s.files[s.inode[w.path]]| ==>
      SameBytes(s.files[s.inode[w.path]][w.pc.size..], w.data)
  }

  lemma {:induction false} WriteAtGrows(file: Bytes, size: nat, piece: Bytes)
    requires size <= |file| && SameBytes(file[size..], piece)
    ensures file <= WriteAt(file, size, piece)
    ensures forall k :: |file| <= k < |WriteAt(file, size, piece)| ==> WriteAt(file, size, piece)[k] in piece
  {
    var after := WriteAt(file, size, piece);
    forall k | 0 <= k < |file|
      ensures after[k] == file[k]
    {
      if size <= k < size + |piece| {
        assert file[size..][k - size] == piece[k - size];
      }
    }
    forall k | |file| <= k < |after|
      ensures after[k] in piece
    {
      assert after[k] == piece[k - size];
    }
  }

  lemma {:induction false} PartOfSame(a: Bytes, b: Bytes, piece: Bytes)
    requires SameBytes(a, b) && forall x :: x in piece ==> x in b
    ensures SameBytes(a, piece)
  {
    forall i, j | 0 <= i < |a| && 0 <= j < |piece|
      ensures a[i] == piece[j]
    {
      assert piece[j] in piece;
      var k :| 0 <= k < |b| && b[k] == piece[j];
      assert a[i] == b[k];
    }
  }

  /** A write of a writer whose view fits lets its file grow, by bytes of its data. */
  lemma {:induction false} WritingGrows(first: State, s: State, s': State, t: nat, piece: Bytes)
    requires t in s.writers && WriterInv(first, s, t) && Fits(s, t) && Writing(s, s', t, piece)
    ensures var f := s.inode[s.writers[t].path];
            && s.files[f] <= s'.files[f]
            && forall k :: |s.files[f]| <= k < |s'.files[f]| ==> s'.files[f][k] in s.writers[t].data
  {
    var w := s.writers[t];
    var file := s.files[s.inode[w.path]];
    PartOfSame(file[w.pc.size..], w.data, piece);
    WriteAtGrows(file, w.pc.size, piece);
  }

  lemma {:induction false} WritingKeepsFit(first: State, s: State, s': State, t: nat, piece: Bytes, u: nat)
    requires Harmless(first) && LockInv(s) && BaseInv(first, s) && t in s.writers && u in s.writers
    requires Fits(s, t) && Fits(s, u) && Writing(s, s', t, piece)
    ensures Fits(s', u)
  {
    assert WriterInv(first, s, t) && WriterInv(first, s, u);
    if u != t && s.writers[u].pc.Sized? && s.inode[s.writers[u].path] == s.inode[s.writers[t].path] {
      OnlyAliasesMeet(first, s, t, u);
      WritingGrows(first, s, s', t, piece);
      var f, size, data := s.inode[s.writers[t].path], s.writers[u].pc.size, s.writers[u].data;
      var before, after := s.files[f], s'.files[f];
      forall i, j | 0 <= i < |after[size..]| && 0 <= j < |data|
        ensures after[size..][i] == data[j]
      {
        if size + i < |before| {
          assert before[size..][i] == data[j];
        } else {
          var k :| 0 <= k < |s.writers[t].data| && s.writers[t].data[k] == after[size + i];
          assert first.writers[t].data[k] == first.writers[u].data[j];
        }
      }
    }
  }

  lemma {:induction false} NextKeepsFit(first: State, s: State, a: Action)
    requires Harmless(first) && LockInv(s) && BaseInv(first, s) && forall t :: t in s.writers ==> Fits(s, t)
    ensures forall t :: t in Next(s, a).writers ==> Fits(Next(s, a), t)
  {
    if Writes(s, a) {
      var s', piece := WritesEffect(s, a);
      forall u | u in s'.writers
        ensures Fits(s', u)
      {
        WritingKeepsFit(first, s, s', a.writer, piece, u);
      }
    } else if a.writer in s.writers {
      OtherStepsAreQuiet(s, a);
      var s' := Next(s, a);
      forall u | u in s'.writers
        ensures Fits(s', u)
      {
        assert Fits(s, u) && WriterInv(first, s, u);
      }
    }
  }

  lemma {:induction false} FitRun(states: seq<State>, actions: seq<Action>, i: nat)
    requires IsRun(states, actions) && i < |states| && Harmless(states[0])
    ensures forall t :: t in states[i].writers ==> Fits(states[i], t)
  {
    if i > 0 {
      FitRun(states, actions, i - 1);
      InvRun(states, actions, i - 1);
      NextKeepsFit(states[0], states[i - 1], actions[i - 1]);
    }
  }

  predicate Grown(s: State, s': State) {
    forall f :: f in s.files ==> f in s'.files && s.files[f] <= s'.files[f]
  }

  lemma {:induction false} StepGrows(first: State, s: State, a: Action)
    requires BaseInv(first, s) && forall t :: t in s.writers ==> Fits(s, t)
    ensures Grown(s, Next(s, a))
  {
    if Writes(s, a) {
      var s', piece := WritesEffect(s, a);
      assert WriterInv(first, s, a.writer) && Fits(s, a.writer);
      WritingGrows(first, s, s', a.writer, piece);
    } else if a.writer in s.writers {
      OtherStepsAreQuiet(s, a);
    }
  }

  /** While aliased writers write one and the same byte, what a file once held stays its prefix. */
  lemma {:induction false} FilesOnlyGrow(states: seq<State>, actions: seq<Action>, i: nat, j: nat)
    requires IsRun(states, actions) && i <= j < |states| && Harmless(states[0])
    ensures Grown(states[i], states[j])
    decreases j
  {
    if i < j {
      FilesOnlyGrow(states, actions, i, j - 1);
      InvRun(states, actions, j - 1);
      FitRun(states, actions, j - 1);
      StepGrows(states[0], states[j - 1], actions[j - 1]);
    }
  }

  // ---------------------------------------------------------------- what aliases can do

  /** A schedule, and the state it leads to. */
  datatype Schedule = Start(s: State) | Then(before: Schedule, a: Action)

  function End(p: Schedule): State {
    match p
    case Start(s) => s
    case Then(before, a) => Next(End(before), a)
  }

  function First(p: Schedule): State {
    if p.Start? then p.s else First(p.before)
  }

  lemma {:induction false} ScheduleIsRun(p: Schedule) returns (states: seq<State>, actions: seq<Action>)
    requires Initial(First(p))
    ensures IsRun(states, actions) && states[0] == First(p) && states[|actions|] == End(p)
    ensures p.Then? ==> |actions| > 0 && states[|actions| - 1] == End(p.before)
  {
    if p.Start? {
      states, actions := [p.s], [];
    } else {
      states, actions := ScheduleIsRun(p.before);
      states, actions := states + [End(p)], actions + [p.a];
    }
  }

  /** Locks are numbered in order of creation, and writer `t` is about to write to an existing file. */
  predicate Prepared(s: State, t: nat) {
    && (forall q :: q in s.registry ==> s.registry[q] < s.nextLock)
    && (forall v :: v in s.writers && Active(s.writers[v]) ==> s.writers[v].pc.lock < s.nextLock)
    && t in s.writers && s.writers[t].pc.Ready? && s.writers[t].done < |s.writers[t].data|
    && s.writers[t].path in s.inode && s.inode[s.writers[t].path] in s.files
  }

  /** From `s` to `s'` only writer `t` moved, into its section with a new lock. */
  predicate Enters(s: State, s': State, t: nat, pc: PC) {
    && t in s.writers && s'.writers == s.writers[t := s.writers[t].(pc := pc)]
    && s'.inode == s.inode && s'.files == s.files && s'.log == s.log && s'.nextLock == s.nextLock + 1
    && (forall q :: q in s'.registry ==> s'.registry[q] < s'.nextLock)
    && (forall q :: q in s'.registry && q != s.writers[t].path ==> s'.registry[q] < s.nextLock)
  }

  lemma {:induction false} DeadLock(s: State, t: nat)
    requires Prepared(s, t)
    requires s.writers[t].path in s.registry ==> !Alive(s.writers, s.registry[s.writers[t].path])
    ensures Enters(s, Next(s, Move(t, true, 1)), t, Waiting(s.nextLock))
  {
    assert Next(s, Move(t, true, 1)) == TakeLock(s, t);
  }

  lemma {:induction false} GetsLock(s: State, s': State, t: nat, pc: PC)
    requires Prepared(s, t) && Enters(s, s', t, pc) && pc == Waiting(s.nextLock)
    ensures Enters(s, Next(s', Move(t, true, 1)), t, Locked(s.nextLock))
  {
    assert Free(s'.writers, s.nextLock);
    assert Next(s', Move(t, true, 1)) == At(s', t, Locked(s.nextLock));
    var locked := Locked(s.nextLock);
    assert s'.writers[t := s'.writers[t].(pc := locked)] == s.writers[t := s.writers[t].(pc := locked)];
  }

  lemma {:induction false} ReadsSize(s: State, s': State, t: nat)
    requires Prepared(s, t) && Enters(s, s', t, Locked(s.nextLock))
    ensures var size := |s.files[s.inode[s.writers[t].path]]|;
            Enters(s, Next(s', Move(t, true, 1)), t, Sized(s.nextLock, size))
  {
    var pc := Sized(s.nextLock, |s.files[s.inode[s.writers[t].path]]|);
    assert Next(s', Move(t, true, 1)) == At(s', t, pc);
    assert s'.writers[t := s'.writers[t].(pc := pc)] == s.writers[t := s.writers[t].(pc := pc)];
  }

  lemma {:induction false} Goes(p: Schedule, s: State, a: Action) returns (p': Schedule, s': State)
    requires End(p) == s
    ensures p' == Then(p, a) && End(p') == s' == Next(s, a) && First(p') == First(p)
  {
    p', s' := Then(p, a), Next(s, a);
  }

  /** A writer whose path has no live lock gets as far as knowing the size of its file. */
  lemma {:induction false} GetsInside(p: Schedule, t: nat) returns (p': Schedule)
    requires Prepared(End(p), t)
    requires var s := End(p); s.writers[t].path in s.registry ==> !Alive(s.writers, s.registry[s.writers[t].path])
    ensures First(p') == First(p)
    ensures var s := End(p);
            Enters(s, End(p'), t, Sized(s.nextLock, |s.files[s.inode[s.writers[t].path]]|))
  {
    var s, step := End(p), Move(t, true, 1);
    DeadLock(s, t);
    var p1, s1 := Goes(p, s, step);
    GetsLock(s, s1, t, Waiting(s.nextLock));
    var p2, s2 := Goes(p1, s1, step);
    ReadsSize(s, s2, t);
    var s3;
    p', s3 := Goes(p2, s2, step);
  }

  /** One write of at most `n` bytes. */
  lemma {:induction false} WritesPiece(p: Schedule, t: nat, n: nat) returns (p': Schedule, piece: Bytes)
    requires var s := End(p);
             && t in s.writers && s.writers[t].pc.Sized? && s.writers[t].done + n <= |s.writers[t].data|
             && s.writers[t].path in s.inode && s.inode[s.writers[t].path] in s.files
    ensures p' == Then(p, Move(t, true, n)) && Writing(End(p), End(p'), t, piece) && |piece| == n
  {
    var s': State;
    s', piece := WritesEffect(End(p), Move(t, true, n));
    p' := Then(p, Move(t, true, n));
  }

  /** Nobody is between lookup and end of a write. */
  predicate Idle(s: State) {
    && (forall v :: v in s.writers ==> !Active(s.writers[v]))
    && (forall q :: q in s.registry ==> s.registry[q] < s.nextLock)
  }

  /** Both writers know the size of the file they share. */
  predicate BothSized(s: State, s2: State, t: nat, u: nat) {
    && Aliased(s, t, u) && s.inode[s.writers[t].path] in s.files
    && s2.inode == s.inode && s2.files == s.files && s2.log == s.log && t in s2.writers && u in s2.writers
    && var size := |s.files[s.inode[s.writers[t].path]]|;
    && s2.writers[t].pc.Sized? && s2.writers[t] == s.writers[t].(pc := Sized(s2.writers[t].pc.lock, size))
    && s2.writers[u].pc.Sized? && s2.writers[u] == s.writers[u].(pc := Sized(s2.writers[u].pc.lock, size))
  }

  lemma {:induction false} BothInside(p: Schedule, s: State, t: nat, u: nat) returns (p2: Schedule)
    requires End(p) == s && Idle(s) && Aliased(s, t, u) && Prepared(s, t) && Prepared(s, u)
    ensures First(p2) == First(p) && BothSized(s, End(p2), t, u)
  {
    var p1 := GetsInside(p, t);
    var s1 := End(p1);
    assert s.writers[u].path in s1.registry ==> !Alive(s1.writers, s1.registry[s.writers[u].path]);
    p2 := GetsInside(p1, u);
  }

  /** The second write lands where the first one did. */
  lemma {:induction false} SecondOverwrites(s: State, s2: State, s3: State, s4: State, t: nat, u: nat, a: Bytes, b: Bytes)
    requires BothSized(s, s2, t, u) && Writing(s2, s3, t, a) && Writing(s3, s4, u, b) && |a| == |b| == 1
    ensures var f := s.inode[s.writers[t].path];
            && f in s3.files && s3.files[f] == s.files[f] + a
            && f in s4.files && s4.files[f] == s.files[f] + b
            && s4.log == s.log + [Piece(t, f, a)] + [Piece(u, f, b)]
  {
    Overwrites(s.files[s.inode[s.writers[t].path]], a, b);
  }

  /** Two aliased writers both read the size before either writes one byte: the second overwrites the
      byte of the first. */
  lemma {:induction false} Overlap(p: Schedule, s: State, t: nat, u: nat) returns (p': Schedule, a: Bytes, b: Bytes)
    requires End(p) == s && Idle(s) && Aliased(s, t, u) && Prepared(s, t) && Prepared(s, u)
    ensures First(p') == First(p) && p'.Then?
    ensures a == s.writers[t].data[s.writers[t].done..s.writers[t].done + 1]
    ensures b == s.writers[u].data[s.writers[u].done..s.writers[u].done + 1]
    ensures var f := s.inode[s.writers[t].path];
            && f in End(p'.before).files && End(p'.before).files[f] == s.files[f] + a
            && f in End(p').files && End(p').files[f] == s.files[f] + b
            && End(p').log == s.log + [Piece(t, f, a)] + [Piece(u, f, b)]
  {
    var p2 := BothInside(p, s, t, u);
    var p3;
    p3, a := WritesPiece(p2, t, 1);
    p', b := WritesPiece(p3, u, 1);
    SecondOverwrites(s, End(p2), End(p3), End(p'), t, u, a, b);
  }

  lemma {:induction false} Overwrites(file: Bytes, a: Bytes, b: Bytes)
    requires |a| == |b| == 1
    ensures WriteAt(file, |file|, a) == file + a
    ensures WriteAt(file + a, |file|, b) == file + b
  {
  }

  lemma {:induction false} InitialIsReady(s: State, t: nat)
    requires Initial(s) && t in s.writers && s.writers[t].data != []
    ensures Idle(s) && Prepared(s, t)
  {
  }

  /** Some run from a start with aliased writers loses a byte: two were written, the file grew by one. */
  lemma {:induction false} AliasesLoseBytes(first: State, t: nat, u: nat) returns (states: seq<State>, actions: seq<Action>)
    requires Initial(first) && Aliased(first, t, u)
    ensures IsRun(states, actions) && states[0] == first && !OnlyAppended(first, states[|actions|])
  {
    InitialIsReady(first, t);
    InitialIsReady(first, u);
    var p, a, b := Overlap(Start(first), first, t, u);
    states, actions := ScheduleIsRun(p);
    var f := first.inode[first.writers[t].path];
    LogGrowth([], Piece(t, f, a), f, t);
    LogGrowth([Piece(t, f, a)], Piece(u, f, b), f, t);
    assert first.log + [Piece(t, f, a)] == [Piece(t, f, a)] == [] + [Piece(t, f, a)];
    assert |Appended(End(p).log, f)| == 2;
  }

  /** For instance writers of `/a` and `//a`. */
  lemma {:induction false} TwoSpellingsLoseBytes() returns (states: seq<State>, actions: seq<Action>)
    ensures IsRun(states, actions) && states[0].inode == map["/a" := 7, "//a" := 7]
    ensures states[0].writers == map[0 := Writer("/a", [1], 0, Ready), 1 := Writer("//a", [2], 0, Ready)]
    ensures !OnlyAppended(states[0], states[|actions|])
  {
    var first := State(map["/a" := 7, "//a" := 7], map[7 := []], map[], 0,
                       map[0 := Writer("/a", [1], 0, Ready), 1 := Writer("//a", [2], 0, Ready)], []);
    assert |"/a"| != |"//a"|;
    states, actions := AliasesLoseBytes(first, 0, 1);
  }

  /** Every run from `first` only appends. */
  ghost predicate AlwaysAppends(first: State) {
    forall states, actions, i :: IsRun(states, actions) && states[0] == first && 0 <= i < |states| ==>
      OnlyAppended(first, states[i])
  }

  /** All runs from a start only append, with nothing overwritten, exactly when no two writers with data
      reach one file by different strings. */
  lemma {:induction false} AppendingIsExact(first: State)
    requires Initial(first)
    ensures AlwaysAppends(first) <==> NoAliases(first)
  {
    if NoAliases(first) {
      forall states, actions, i | IsRun(states, actions) && states[0] == first && 0 <= i < |states|
        ensures OnlyAppended(first, states[i])
      {
        AppendersOnlyAppend(states, actions, i);
      }
    } else {
      var t, u :| t in first.writers && u in first.writers && Aliased(first, t, u);
      var states, actions := AliasesLoseBytes(first, t, u);
      assert !OnlyAppended(first, states[|actions|]);
    }
  }

  // ---------------------------------------------------------------- when files only grow

  /** Writer `t` wrote its first `n` bytes alone; everyone is idle again. */
  predicate WroteAlone(first: State, s: State, t: nat, n: nat) {
    && Idle(s) && t in first.writers && n <= |first.writers[t].data|
    && s.inode == first.inode && s.files.Keys == first.files.Keys
    && s.writers == first.writers[t := first.writers[t].(done := n)]
  }

  lemma {:induction false} LeavesSection(s: State, s': State, t: nat)
    requires t in s.writers && s.writers[t].pc.Wrote? && !s.writers[t].pc.failed
    requires s' == Next(Next(s, Move(t, true, 1)), Move(t, true, 1))
    ensures s'.inode == s.inode && s'.files == s.files && s'.log == s.log && s'.registry == s.registry
    ensures s'.nextLock == s.nextLock && s'.writers == s.writers[t := s.writers[t].(pc := Ready)]
  {
    var s1 := Next(s, Move(t, true, 1));
    assert s1.writers[t := s1.writers[t].(pc := Ready)] == s.writers[t := s.writers[t].(pc := Ready)];
  }

  lemma {:induction false} WriteAlone(first: State, t: nat, n: nat) returns (p: Schedule)
    requires Initial(first) && t in first.writers && n < |first.writers[t].data|
    ensures First(p) == first && WroteAlone(first, End(p), t, n)
  {
    if n == 0 {
      p := Start(first);
      InitialIsReady(first, t);
      assert first.writers == first.writers[t := first.writers[t].(done := 0)];
    } else {
      InitialIsReady(first, t);
      assert first.writers[t].path in first.registry ==> !Alive(first.writers, first.registry[first.writers[t].path]);
      var p1 := GetsInside(Start(first), t);
      var p2, piece := WritesPiece(p1, t, n);
      var p3, s3 := Goes(p2, End(p2), Move(t, true, 1));
      var s4;
      p, s4 := Goes(p3, s3, Move(t, true, 1));
      WroteAndLeft(first, End(p1), End(p2), s4, t, n, piece);
    }
  }

  lemma {:induction false} WroteAndLeft(first: State, s1: State, s2: State, s4: State, t: nat, n: nat, piece: Bytes)
    requires Initial(first) && t in first.writers && 0 < n < |first.writers[t].data|
    requires first.writers[t].path in first.inode && first.inode[first.writers[t].path] in first.files
    requires Enters(first, s1, t, Sized(first.nextLock, |first.files[first.inode[first.writers[t].path]]|))
    requires s2 == Next(s1, Move(t, true, n)) && Writing(s1, s2, t, piece) && |piece| == n
    requires s4 == Next(Next(s2, Move(t, true, 1)), Move(t, true, 1))
    ensures WroteAlone(first, s4, t, n)
  {
    assert s2.writers[t].pc == Wrote(first.nextLock, false);
    LeavesSection(s2, s4, t);
    assert s4.writers == first.writers[t := first.writers[t].(done := n)];
  }

  /** Aliased writers whose data differ somewhere can overwrite a byte by a different one. */
  lemma {:induction false} DifferentBytesClash(first: State, t: nat, u: nat, n: nat)
    returns (states: seq<State>, actions: seq<Action>)
    requires Initial(first) && Aliased(first, t, u)
    requires n < |first.writers[t].data| && first.writers[t].data[n] != first.writers[u].data[0]
    ensures IsRun(states, actions) && states[0] == first && |actions| > 0
    ensures !Grown(states[|actions| - 1], states[|actions|])
  {
    InitialIsReady(first, u);
    var p := WriteAlone(first, t, n);
    var s := End(p);
    assert Prepared(s, t) && Prepared(s, u) && Aliased(s, t, u);
    var p', a, b := Overlap(p, s, t, u);
    var f := s.inode[s.writers[t].path];
    LastByte(s.files[f], a, b);
    states, actions := ScheduleIsRun(p');
  }

  lemma {:induction false} LastByte(file: Bytes, a: Bytes, b: Bytes)
    requires |a| == |b| == 1 && a[0] != b[0]
    ensures !(file + a <= file + b)
  {
    assert (file + a)[|file|] == a[0] && (file + b)[|file|] == b[0];
  }

  /** Data that differ somewhere differ from the first byte of the other. */
  lemma {:induction false} DifferenceAtFirst(a: Bytes, b: Bytes) returns (n: nat)
    requires a != [] && b != [] && !SameBytes(a, b)
    ensures (n < |a| && a[n] != b[0]) || (n < |b| && b[n] != a[0])
  {
    var i, j :| 0 <= i < |a| && 0 <= j < |b| && a[i] != b[j];
    if a[i] != b[0] {
      n := i;
    } else if b[j] != a[0] {
      n := j;
    } else {
      n := 0;
    }
  }

  /** In every run from `first` files only grow. */
  ghost predicate AlwaysGrows(first: State) {
    forall states, actions, i, j :: IsRun(states, actions) && states[0] == first && 0 <= i <= j < |states| ==>
      Grown(states[i], states[j])
  }

  /** What a file once held stays its prefix, in all runs from a start, exactly when aliased writers have
      nothing but one and the same byte to write. */
  lemma {:induction false} GrowingIsExact(first: State)
    requires Initial(first)
    ensures AlwaysGrows(first) <==> Harmless(first)
  {
    if Harmless(first) {
      forall states, actions, i, j | IsRun(states, actions) && states[0] == first && 0 <= i <= j < |states|
        ensures Grown(states[i], states[j])
      {
        FilesOnlyGrow(states, actions, i, j);
      }
    } else {
      var t, u :| t in first.writers && u in first.writers && Aliased(first, t, u)
                  && !SameBytes(first.writers[t].data, first.writers[u].data);
      var n := DifferenceAtFirst(first.writers[t].data, first.writers[u].data);
      var states, actions;
      if n < |first.writers[t].data| && first.writers[t].data[n] != first.writers[u].data[0] {
        states, actions := DifferentBytesClash(first, t, u, n);
      } else {
        states, actions := DifferentBytesClash(first, u, t, n);
      }
      assert !Grown(states[|actions| - 1], states[|actions|]);
    }
  }
}
