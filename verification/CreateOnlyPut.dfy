/** Create-only object publication on a local directory: write a temporary file, hard-link it to the
    object path, compare on collision. Any number of puts to any keys run interleaved, one system
    call at a time; every call may fail, writes and reads may be short, and a put may be cancelled
    between calls. Temporary names are unique; nothing else writes or deletes objects. */
module CreateOnlyPut {
  import opened Common

  type Bytes = seq<byte>

  datatype LinkResult = Linked | AlreadyExists | LinkFailed

  datatype Result = Stored | Conflict | IoFailed

  datatype PC =
    | Creating
    | Writing(pos: nat)
    | Discarding
    | Linking
    | Unlinking(link: LinkResult)
    | Opening
    | Comparing(file: nat, seen: Bytes)
    | Done(result: Result)
    | Cancelled

  /** One call of `put_object_create_only`. */
  datatype Put = Put(key: string, bytes: Bytes, pc: PC)

  /** `files` holds the contents of every inode; `objects` and `temps` are the two parts of the
      directory, object paths and the temporary name of each put. */
  datatype State = State(
    files: seq<Bytes>, objects: map<string, nat>, temps: map<nat, nat>, puts: map<nat, Put>)

  /** The answer to a system call: whether it succeeds, and how many bytes it moves. */
  datatype Answer = Answer(ok: bool, amount: nat)

  datatype Action = Call(put: nat, answer: Answer) | Cancel(put: nat)

  /** A short transfer: at least one byte, at most `limit`. */
  function Transfer(amount: nat, limit: nat): (n: nat)
    requires limit > 0
    ensures 0 < n <= limit && (amount >= limit ==> n == limit)
  {
    Min(amount + 1, limit)
  }

  function At(s: State, id: nat, pc: PC): State
    requires id in s.puts
  {
    s.(puts := s.puts[id := s.puts[id].(pc := pc)])
  }

  /** The next system call of put `id`. A call on a name or inode that is not there fails. */
  function Step(s: State, id: nat, a: Answer): State
    requires id in s.puts
  {
    var p := s.puts[id];
    match p.pc
    case Creating =>
      if !a.ok || id in s.temps then At(s, id, Done(IoFailed))
      else At(s.(files := s.files + [[]], temps := s.temps[id := |s.files|]), id, Writing(0))
    case Writing(pos) =>
      if !a.ok || id !in s.temps || s.temps[id] >= |s.files| then At(s, id, Discarding)
      else if pos < |p.bytes| then
        var n := Transfer(a.amount, |p.bytes| - pos);
        var file := s.temps[id];
        At(s.(files := s.files[file := s.files[file] + p.bytes[pos..pos + n]]), id, Writing(pos + n))
      else At(s, id, Linking)
    case Discarding => At(if a.ok then s.(temps := s.temps - {id}) else s, id, Done(IoFailed))
    case Linking =>
      if !a.ok || id !in s.temps then At(s, id, Unlinking(LinkFailed))
      else if p.key in s.objects then At(s, id, Unlinking(AlreadyExists))
      else At(s.(objects := s.objects[p.key := s.temps[id]]), id, Unlinking(Linked))
    case Unlinking(link) =>
      At(if a.ok then s.(temps := s.temps - {id}) else s, id,
         match link
         case Linked => Done(Stored)
         case AlreadyExists => Opening
         case LinkFailed => Done(IoFailed))
    case Opening =>
      if !a.ok || p.key !in s.objects then At(s, id, Done(IoFailed))
      else At(s, id, Comparing(s.objects[p.key], []))
    case Comparing(file, seen) =>
      if !a.ok || file >= |s.files| then At(s, id, Done(IoFailed))
      else if |seen| < |s.files[file]| then
        var n := Transfer(a.amount, |s.files[file]| - |seen|);
        At(s, id, Comparing(file, seen + s.files[file][|seen|..|seen| + n]))
      else At(s, id, Done(if seen == p.bytes then Stored else Conflict))
    case Done(_) => s
    case Cancelled => s
  }

  function Next(s: State, a: Action): State {
    if a.put !in s.puts then s
    else match a
      case Call(id, answer) => Step(s, id, answer)
      case Cancel(id) => if s.puts[id].pc.Done? then s else At(s, id, Cancelled)
  }

  /** Some objects may already be there; no put has started. */
  predicate Initial(s: State) {
    && s.temps == map[]
    && (forall k :: k in s.objects ==> s.objects[k] < |s.files|)
    && (forall id :: id in s.puts ==> s.puts[id].pc.Creating?)
  }

  predicate IsRun(states: seq<State>, actions: seq<Action>) {
    && |states| == |actions| + 1
    && Initial(states[0])
    && forall i :: 0 <= i < |actions| ==> states[i + 1] == Next(states[i], actions[i])
  }

  // ---------------------------------------------------------------- the write-once register

  /** What a reader of an object finds. */
  function Register(s: State, key: string): Option<Bytes> {
    if key in s.objects && s.objects[key] < |s.files| then Some(s.files[s.objects[key]]) else None
  }

  /** The specification: a step leaves every register alone or fills one that was empty with the
      whole of one put's data, by a link that this put then knows to be its own. */
  ghost predicate RegisterStep(s: State, s': State, id: nat) {
    || (forall k :: Register(s', k) == Register(s, k))
    || (id in s.puts && id in s'.puts && s'.puts[id].pc == Unlinking(Linked)
        && Register(s, s.puts[id].key).None? && Register(s', s.puts[id].key) == Some(s.puts[id].bytes)
        && forall k :: k != s.puts[id].key ==> Register(s', k) == Register(s, k))
  }

  // ---------------------------------------------------------------- invariant

  /** The file behind the temporary name of `id` has no other name. */
  predicate Private(s: State, id: nat) {
    id in s.temps
    && (forall k :: k in s.objects ==> s.objects[k] != s.temps[id])
  }

  predicate PutInv(s: State, id: nat)
    requires id in s.puts
  {
    var p := s.puts[id];
    match p.pc
    case Creating => id !in s.temps
    case Writing(pos) =>
      pos <= |p.bytes| && Private(s, id) && s.temps[id] < |s.files| && s.files[s.temps[id]] == p.bytes[..pos]
    case Discarding => true
    case Linking => Private(s, id) && s.temps[id] < |s.files| && s.files[s.temps[id]] == p.bytes
    case Unlinking(Linked) => Register(s, p.key) == Some(p.bytes)
    case Unlinking(AlreadyExists) => Register(s, p.key).Some?
    case Unlinking(LinkFailed) => true
    case Opening => Register(s, p.key).Some?
    case Comparing(file, seen) =>
      Register(s, p.key).Some? && s.objects[p.key] == file && seen <= s.files[file]
    case Done(Stored) => Register(s, p.key) == Some(p.bytes)
    case Done(Conflict) => Register(s, p.key).Some? && Register(s, p.key).value != p.bytes
    case Done(IoFailed) => true
    case Cancelled => true
  }

  predicate Inv(s: State) {
    && (forall k :: k in s.objects ==> s.objects[k] < |s.files|)
    && (forall id :: id in s.temps ==> id in s.puts && s.temps[id] < |s.files|)
    && (forall id, other :: id in s.temps && other in s.temps && s.temps[id] == s.temps[other] ==> id == other)
    && (forall id :: id in s.puts ==> PutInv(s, id))
  }

  /** What a step of put `id` may do to the directory and the files, and nothing else: fill a file
      of its own, link it under its own key once it is complete, drop its temporary name. */
  ghost predicate Effect(s: State, s': State, id: nat) {
    && id in s.puts && s'.puts.Keys == s.puts.Keys
    && (forall other :: other in s.puts && other != id ==> s'.puts[other] == s.puts[other])
    && s'.puts[id].key == s.puts[id].key && s'.puts[id].bytes == s.puts[id].bytes
    && |s.files| <= |s'.files|
    && (forall f :: 0 <= f < |s.files| && (Private(s, id) ==> f != s.temps[id]) ==> s'.files[f] == s.files[f])
    && (forall k :: k in s.objects ==> k in s'.objects && s'.objects[k] == s.objects[k])
    && (forall k :: k in s'.objects && k !in s.objects ==>
                      && k == s.puts[id].key && s'.puts[id].pc == Unlinking(Linked)
                      && id in s.temps && s'.objects[k] == s.temps[id] && s'.files == s.files
                      && s.temps[id] < |s.files| && s.files[s.temps[id]] == s.puts[id].bytes)
    && (forall other :: other != id ==> (other in s'.temps <==> other in s.temps))
    && (forall other :: other != id && other in s.temps ==> s'.temps[other] == s.temps[other])
    && (id in s'.temps ==>
          if id in s.temps then s'.temps[id] == s.temps[id]
          else s'.temps[id] == |s.files| < |s'.files|)
  }

  lemma {:induction false} StepEffect(s: State, id: nat, a: Answer)
    requires Inv(s) && id in s.puts
    ensures Effect(s, Step(s, id, a), id)
  {
    match s.puts[id].pc
    case Creating => CreatingEffect(s, id, a);
    case Writing(_) => WritingEffect(s, id, a);
    case Linking => LinkingEffect(s, id, a);
    case _ =>
      var s' := Step(s, id, a);
      assert s'.temps == s.temps || s'.temps == s.temps - {id};
      QuietEffect(s, s', id);
  }

  lemma {:induction false} QuietEffect(s: State, s': State, id: nat)
    requires Inv(s) && id in s.puts && id in s'.puts && s'.files == s.files && s'.objects == s.objects
    requires s'.temps == s.temps || s'.temps == s.temps - {id}
    requires s'.puts == s.puts[id := s'.puts[id]]
    requires s'.puts[id].key == s.puts[id].key && s'.puts[id].bytes == s.puts[id].bytes
    ensures Effect(s, s', id)
  {
  }

  lemma {:induction false} CreatingEffect(s: State, id: nat, a: Answer)
    requires Inv(s) && id in s.puts && s.puts[id].pc.Creating?
    ensures Effect(s, Step(s, id, a), id)
  {
  }

  lemma {:induction false} WritingEffect(s: State, id: nat, a: Answer)
    requires Inv(s) && id in s.puts && s.puts[id].pc.Writing?
    ensures Effect(s, Step(s, id, a), id)
  {
    assert PutInv(s, id);
  }

  lemma {:induction false} LinkingEffect(s: State, id: nat, a: Answer)
    requires Inv(s) && id in s.puts && s.puts[id].pc.Linking?
    ensures Effect(s, Step(s, id, a), id)
  {
    assert PutInv(s, id);
    var p := s.puts[id];
    if !a.ok || p.key in s.objects {
      QuietEffect(s, Step(s, id, a), id);
    }
  }

  lemma {:induction false} EffectFillsRegisters(s: State, s': State, id: nat)
    requires Inv(s) && Effect(s, s', id)
    ensures RegisterStep(s, s', id)
  {
    var key := s.puts[id].key;
    forall k | k in s.objects
      ensures Register(s', k) == Register(s, k)
    {
    }
  }

  lemma {:induction false} OthersKeepInv(s: State, s': State, id: nat, other: nat)
    requires Inv(s) && Effect(s, s', id) && other in s.puts && other != id
    ensures PutInv(s', other)
  {
    var p := s.puts[other];
    assert PutInv(s, other);
    EffectFillsRegisters(s, s', id);
    if Register(s, p.key).Some? {
      assert Register(s', p.key) == Register(s, p.key);
    }
  }

  lemma {:induction false} EffectKeepsInv(s: State, s': State, id: nat)
    requires Inv(s) && Effect(s, s', id) && PutInv(s', id)
    ensures Inv(s')
  {
    forall other | other in s'.puts
      ensures PutInv(s', other)
    {
      if other != id {
        OthersKeepInv(s, s', id, other);
      }
    }
  }

  lemma {:induction false} WriterKeepsInv(s: State, id: nat, a: Answer)
    requires Inv(s) && id in s.puts && s.puts[id].pc.Writing?
    ensures var s' := Step(s, id, a); id in s'.puts && PutInv(s', id)
  {
    assert PutInv(s, id);
    var p := s.puts[id];
    var pos := p.pc.pos;
    if a.ok && pos < |p.bytes| {
      var n := Transfer(a.amount, |p.bytes| - pos);
      assert p.bytes[..pos] + p.bytes[pos..pos + n] == p.bytes[..pos + n];
    } else {
      assert p.bytes[..|p.bytes|] == p.bytes;
    }
  }

  lemma {:induction false} MoverKeepsInv(s: State, id: nat, a: Answer)
    requires Inv(s) && id in s.puts
    ensures var s' := Step(s, id, a); id in s'.puts && PutInv(s', id)
  {
    assert PutInv(s, id);
    var p := s.puts[id];
    match p.pc
    case Writing(pos) => WriterKeepsInv(s, id, a);
    case Comparing(file, seen) =>
      if a.ok && |seen| < |s.files[file]| {
        var n := Transfer(a.amount, |s.files[file]| - |seen|);
        assert seen + s.files[file][|seen|..|seen| + n] == s.files[file][..|seen| + n];
      } else if a.ok {
        assert seen == s.files[file];
      }
    case _ =>
  }

  lemma {:induction false} CancelKeepsInv(s: State, id: nat)
    requires Inv(s) && id in s.puts
    ensures Effect(s, At(s, id, Cancelled), id) && Inv(At(s, id, Cancelled))
  {
    EffectKeepsInv(s, At(s, id, Cancelled), id);
  }

  lemma {:induction false} NextKeepsInv(s: State, a: Action)
    requires Inv(s)
    ensures Inv(Next(s, a)) && (Next(s, a) == s || Effect(s, Next(s, a), a.put))
  {
    if a.put in s.puts {
      if a.Call? {
        StepEffect(s, a.put, a.answer);
        MoverKeepsInv(s, a.put, a.answer);
        EffectKeepsInv(s, Step(s, a.put, a.answer), a.put);
      } else {
        CancelKeepsInv(s, a.put);
      }
    }
  }

  lemma {:induction false} InvRun(states: seq<State>, actions: seq<Action>, i: nat)
    requires IsRun(states, actions) && i < |states|
    ensures Inv(states[i])
  {
    if i > 0 {
      InvRun(states, actions, i - 1);
      NextKeepsInv(states[i - 1], actions[i - 1]);
    }
  }

  // ---------------------------------------------------------------- results over whole runs

  /** Every run refines the write-once register: each step leaves all registers as they are or fills
      an empty one with the complete data of the put that moved. */
  lemma {:induction false} RunsRefineRegister(states: seq<State>, actions: seq<Action>, i: nat)
    requires IsRun(states, actions) && i < |actions|
    ensures RegisterStep(states[i], states[i + 1], actions[i].put)
  {
    InvRun(states, actions, i);
    NextKeepsInv(states[i], actions[i]);
    if states[i + 1] != states[i] {
      EffectFillsRegisters(states[i], states[i + 1], actions[i].put);
    }
  }

  /** A history of states as the register and the set of puts see it. */
  ghost predicate IsHistory(states: seq<State>) {
    states != [] && forall i :: 0 <= i < |states| - 1 ==> Moves(states[i], states[i + 1])
  }

  ghost predicate Moves(s: State, s': State) {
    && (exists id :: RegisterStep(s, s', id))
    && SameCalls(s, s')
  }

  predicate SameCalls(s: State, s': State) {
    s'.puts.Keys == s.puts.Keys
    && forall id :: id in s.puts ==> s'.puts[id].key == s.puts[id].key && s'.puts[id].bytes == s.puts[id].bytes
  }

  lemma {:induction false} RunIsHistory(states: seq<State>, actions: seq<Action>)
    requires IsRun(states, actions)
    ensures IsHistory(states)
  {
    forall i | 0 <= i < |states| - 1
      ensures Moves(states[i], states[i + 1])
    {
      InvRun(states, actions, i);
      NextMoves(states[i], actions[i]);
    }
  }

  lemma {:induction false} NextMoves(s: State, a: Action)
    requires Inv(s)
    ensures Moves(s, Next(s, a))
  {
    NextKeepsInv(s, a);
    if Next(s, a) == s {
      assert RegisterStep(s, s, 0);
    } else {
      EffectMoves(s, Next(s, a), a.put);
    }
  }

  lemma {:induction false} EffectMoves(s: State, s': State, id: nat)
    requires Inv(s) && Effect(s, s', id)
    ensures Moves(s, s')
  {
    EffectFillsRegisters(s, s', id);
  }

  /** An object's bytes never change once a reader could see them. */
  lemma {:induction false} ObjectsNeverChange(states: seq<State>, actions: seq<Action>, i: nat, j: nat, key: string)
    requires IsRun(states, actions) && i <= j < |states| && Register(states[i], key).Some?
    ensures Register(states[j], key) == Register(states[i], key)
  {
    RunIsHistory(states, actions);
    StaysInHistory(states, i, j, key);
  }

  lemma {:induction false} StaysInHistory(states: seq<State>, i: nat, j: nat, key: string)
    requires IsHistory(states) && i <= j < |states| && Register(states[i], key).Some?
    ensures Register(states[j], key) == Register(states[i], key)
    decreases j
  {
    if i < j {
      StaysInHistory(states, i, j - 1, key);
      RegisterStays(states[j - 1], states[j - 1 + 1], key);
    }
  }

  lemma {:induction false} RegisterStays(s: State, s': State, key: string)
    requires Moves(s, s') && Register(s, key).Some?
    ensures Register(s', key) == Register(s, key)
  {
    var id :| RegisterStep(s, s', id);
  }

  // ---------------------------------------------------------------- every put gets its answer

  /** A call that a put cannot do without fails; whether the temporary name could be removed does not
      matter to it. */
  predicate Failing(s: State, a: Action, id: nat) {
    && a.Call? && a.put == id && !a.answer.ok && id in s.puts
    && var pc := s.puts[id].pc;
    (pc.Creating? || pc.Writing? || pc.Linking? || pc.Opening? || pc.Comparing?)
  }

  predicate Troubled(pc: PC) {
    pc == Discarding || pc == Unlinking(LinkFailed) || pc == Done(IoFailed)
  }

  lemma {:induction false} TroubleStep(s: State, a: Action, id: nat)
    requires Inv(s) && id in s.puts && id in Next(s, a).puts && !Next(s, a).puts[id].pc.Cancelled?
    ensures !s.puts[id].pc.Cancelled?
    ensures Troubled(Next(s, a).puts[id].pc) <==> Troubled(s.puts[id].pc) || Failing(s, a, id)
  {
    if a.put != id {
      OthersStay(s, a, id);
    } else if a.Call? {
      CallTroubles(s, id, a.answer);
    }
  }

  lemma {:induction false} OthersStay(s: State, a: Action, id: nat)
    requires id in s.puts && a.put != id
    ensures id in Next(s, a).puts && Next(s, a).puts[id] == s.puts[id]
  {
    if a.put in s.puts && a.Call? {
      match s.puts[a.put].pc
      case Writing(_) =>
      case Comparing(_, _) =>
      case _ =>
    }
  }

  lemma {:induction false} CallTroubles(s: State, id: nat, answer: Answer)
    requires Inv(s) && id in s.puts
    ensures id in Step(s, id, answer).puts
    ensures var pc, pc' := s.puts[id].pc, Step(s, id, answer).puts[id].pc;
            && (pc'.Cancelled? <==> pc.Cancelled?)
            && (Troubled(pc') <==> Troubled(pc) || Failing(s, Call(id, answer), id))
  {
    assert PutInv(s, id);
    match s.puts[id].pc
    case Writing(_) =>
    case Comparing(_, _) =>
    case _ =>
  }

  /** In every run a put is on its way to an I/O failure exactly when one of the calls it needs failed. */
  lemma {:induction false} FailuresAreEarned(states: seq<State>, actions: seq<Action>, i: nat, id: nat)
    requires IsRun(states, actions) && i < |states| && id in states[i].puts && !states[i].puts[id].pc.Cancelled?
    ensures Troubled(states[i].puts[id].pc) <==> exists k :: 0 <= k < i && Failing(states[k], actions[k], id)
  {
    if i > 0 {
      PutsStay(states, actions, i - 1, id);
      InvRun(states, actions, i - 1);
      assert states[i - 1 + 1] == Next(states[i - 1], actions[i - 1]);
      TroubleStep(states[i - 1], actions[i - 1], id);
      FailuresAreEarned(states, actions, i - 1, id);
    }
  }

  lemma {:induction false} PutsStay(states: seq<State>, actions: seq<Action>, i: nat, id: nat)
    requires IsRun(states, actions) && i < |actions| && id in states[i + 1].puts
    ensures id in states[i].puts
  {
    InvRun(states, actions, i);
    NextKeepsInv(states[i], actions[i]);
    assert states[i + 1] == Next(states[i], actions[i]);
  }

  /** A put that ended reports an I/O failure exactly when one of the calls it needs failed. Otherwise it
      reports success exactly when its data is what the object holds, now and for the rest of the run,
      and a conflict exactly when the object holds other bytes. */
  lemma {:induction false} ResultTellsStoredBytes(states: seq<State>, actions: seq<Action>, i: nat, j: nat, id: nat)
    requires IsRun(states, actions) && i <= j < |states| && id in states[i].puts && states[i].puts[id].pc.Done?
    ensures var p := states[i].puts[id];
            && (p.pc.result.IoFailed? <==> exists k :: 0 <= k < i && Failing(states[k], actions[k], id))
            && (!p.pc.result.IoFailed? ==>
                  && Register(states[j], p.key).Some?
                  && (p.pc.result.Stored? <==> Register(states[j], p.key) == Some(p.bytes)))
  {
    InvRun(states, actions, i);
    assert PutInv(states[i], id);
    FailuresAreEarned(states, actions, i, id);
    if !states[i].puts[id].pc.result.IoFailed? {
      ObjectsNeverChange(states, actions, i, j, states[i].puts[id].key);
    }
  }

  /** How many of the first `i` actions are calls of put `id`. */
  function OwnCalls(actions: seq<Action>, i: nat, id: nat): nat
    requires i <= |actions|
  {
    if i == 0 then 0
    else OwnCalls(actions, i - 1, id) + if actions[i - 1].Call? && actions[i - 1].put == id then 1 else 0
  }

  /** The most calls a put can have made by the time it is at its present point. */
  function Spent(p: Put): nat {
    match p.pc
    case Creating => 0
    case Writing(pos) => 1 + pos
    case Discarding => 2 + |p.bytes|
    case Linking => 2 + |p.bytes|
    case Unlinking(_) => 3 + |p.bytes|
    case Opening => 4 + |p.bytes|
    case Comparing(_, seen) => 5 + |p.bytes| + |seen|
    case Done(_) => 0
    case Cancelled => 0
  }

  predicate UnderWay(p: Put) {
    !p.pc.Done? && !p.pc.Cancelled?
  }

  lemma {:induction false} CallAdvances(s: State, a: Action, id: nat)
    requires Inv(s) && id in s.puts && id in Next(s, a).puts && UnderWay(Next(s, a).puts[id])
    ensures UnderWay(s.puts[id])
    ensures Spent(Next(s, a).puts[id]) >= Spent(s.puts[id]) + if a.Call? && a.put == id then 1 else 0
  {
    if a.put != id {
      OthersStay(s, a, id);
    } else if a.Call? {
      CallSpends(s, id, a.answer);
    }
  }

  lemma {:induction false} CallSpends(s: State, id: nat, answer: Answer)
    requires Inv(s) && id in s.puts
    ensures id in Step(s, id, answer).puts
    ensures var p, p' := s.puts[id], Step(s, id, answer).puts[id];
            UnderWay(p') ==> UnderWay(p) && Spent(p') > Spent(p)
  {
    assert PutInv(s, id);
    match s.puts[id].pc
    case Writing(_) =>
    case Comparing(_, _) =>
    case _ =>
  }

  lemma {:induction false} CallsAreSpent(states: seq<State>, actions: seq<Action>, i: nat, id: nat)
    requires IsRun(states, actions) && i < |states| && id in states[i].puts && UnderWay(states[i].puts[id])
    ensures OwnCalls(actions, i, id) <= Spent(states[i].puts[id])
  {
    if i > 0 {
      PutsStay(states, actions, i - 1, id);
      InvRun(states, actions, i - 1);
      assert states[i - 1 + 1] == Next(states[i - 1], actions[i - 1]);
      CallAdvances(states[i - 1], actions[i - 1], id);
      CallsAreSpent(states, actions, i - 1, id);
    }
  }

  /** How many bytes the object of a key has. */
  function RegisterSize(s: State, key: string): nat {
    if Register(s, key).Some? then |Register(s, key).value| else 0
  }

  /** A put that is not cancelled has its answer after at most six calls more than the bytes it writes
      and compares, whatever the other puts do; and if none of the calls it needs failed, the object's
      bytes decide which answer. */
  lemma {:induction false} PutsAreAnswered(states: seq<State>, actions: seq<Action>, i: nat, id: nat)
    requires IsRun(states, actions) && i < |states| && id in states[i].puts && !states[i].puts[id].pc.Cancelled?
    ensures var p := states[i].puts[id];
            OwnCalls(actions, i, id) >= 6 + |p.bytes| + RegisterSize(states[i], p.key) ==>
              && p.pc.Done?
              && ((forall k :: 0 <= k < i ==> !Failing(states[k], actions[k], id)) ==>
                    && Register(states[i], p.key).Some?
                    && p.pc == Done(if Register(states[i], p.key).value == p.bytes then Stored else Conflict))
  {
    InvRun(states, actions, i);
    assert PutInv(states[i], id);
    if UnderWay(states[i].puts[id]) {
      CallsAreSpent(states, actions, i, id);
    } else {
      ResultTellsStoredBytes(states, actions, i, i, id);
    }
  }

  /** A put that linked its own file succeeds at its next call, whatever that call answers and whoever
      else moves, unless it is cancelled first. */
  lemma {:induction false} LinkedPutsAreStored(states: seq<State>, actions: seq<Action>, i: nat, j: nat, id: nat)
    requires IsRun(states, actions) && i < j < |states| && id in states[i].puts && actions[i].put == id
    requires var key := states[i].puts[id].key; Register(states[i], key).None? && Register(states[i + 1], key).Some?
    ensures id in states[j].puts
    ensures var pc := states[j].puts[id].pc;
            if OwnCalls(actions, j, id) > OwnCalls(actions, i + 1, id) then pc == Done(Stored) || pc == Cancelled
            else pc == Unlinking(Linked) || pc == Cancelled
  {
    LinkShows(states, actions, i, id);
    forall k | i < k < j
      ensures LinkedMove(states[k], actions[k], states[k + 1], id)
    {
      LinkedStep(states[k], actions[k], states[k + 1], id);
    }
    LinkedChain(states, actions, i + 1, j, id);
  }

  lemma {:induction false} LinkShows(states: seq<State>, actions: seq<Action>, i: nat, id: nat)
    requires IsRun(states, actions) && i < |actions| && id in states[i].puts && actions[i].put == id
    requires var key := states[i].puts[id].key; Register(states[i], key).None? && Register(states[i + 1], key).Some?
    ensures id in states[i + 1].puts && states[i + 1].puts[id].pc == Unlinking(Linked)
  {
    RunsRefineRegister(states, actions, i);
  }

  /** What a step does to a put that has linked its file, or ended. */
  predicate LinkedMove(s: State, a: Action, s': State, id: nat) {
    id in s.puts ==>
      && id in s'.puts
      && var pc, pc' := s.puts[id].pc, s'.puts[id].pc;
      && (pc == Done(Stored) || pc == Cancelled ==> pc' == pc)
      && (pc == Unlinking(Linked) ==> pc' == if a.put != id then pc else if a.Call? then Done(Stored) else Cancelled)
  }

  lemma {:induction false} LinkedStep(s: State, a: Action, s': State, id: nat)
    requires s' == Next(s, a)
    ensures LinkedMove(s, a, s', id)
  {
    if id in s.puts && a.put != id {
      OthersStay(s, a, id);
    }
  }

  lemma {:induction false} LinkedChain(states: seq<State>, actions: seq<Action>, i: nat, j: nat, id: nat)
    requires |states| == |actions| + 1 && i <= j < |states|
    requires id in states[i].puts && states[i].puts[id].pc == Unlinking(Linked)
    requires forall k :: i <= k < j ==> LinkedMove(states[k], actions[k], states[k + 1], id)
    ensures id in states[j].puts && OwnCalls(actions, i, id) <= OwnCalls(actions, j, id)
    ensures var pc := states[j].puts[id].pc;
            if OwnCalls(actions, j, id) > OwnCalls(actions, i, id) then pc == Done(Stored) || pc == Cancelled
            else pc == Unlinking(Linked) || pc == Cancelled
  {
    if i < j {
      LinkedChain(states, actions, i, j - 1, id);
      assert LinkedMove(states[j - 1], actions[j - 1], states[j - 1 + 1], id);
    }
  }

  /** The put has its temporary name, and may still remove it. */
  predicate Owning(pc: PC) {
    pc.Writing? || pc.Discarding? || pc.Linking? || pc.Unlinking?
  }

  /** The call that would remove the temporary name of put `id` fails. */
  predicate LeavesName(s: State, a: Action, id: nat) {
    a.Call? && a.put == id && !a.answer.ok && id in s.puts && (s.puts[id].pc.Discarding? || s.puts[id].pc.Unlinking?)
  }

  /** In every run, a put that was not cancelled has a temporary name exactly while it works on the file
      behind it, and afterwards exactly when the call to remove it failed. */
  lemma {:induction false} TemporaryNamesGo(states: seq<State>, actions: seq<Action>, i: nat, id: nat)
    requires IsRun(states, actions) && i < |states| && id in states[i].puts && !states[i].puts[id].pc.Cancelled?
    ensures id in states[i].temps <==>
            Owning(states[i].puts[id].pc) || exists k :: 0 <= k < i && LeavesName(states[k], actions[k], id)
    ensures Owning(states[i].puts[id].pc) || states[i].puts[id].pc.Creating? ==>
              forall k :: 0 <= k < i ==> !LeavesName(states[k], actions[k], id)
  {
    forall k | 0 <= k < i
      ensures NameMove(states[k], actions[k], states[k + 1], id)
    {
      InvRun(states, actions, k);
      NameStep(states[k], actions[k], states[k + 1], id);
    }
    SamePuts(states, actions, i);
    NameChain(states, actions, i, id);
  }

  lemma {:induction false} SamePuts(states: seq<State>, actions: seq<Action>, i: nat)
    requires IsRun(states, actions) && i < |states|
    ensures forall k :: 0 <= k <= i ==> states[k].puts.Keys == states[0].puts.Keys
  {
    RunIsHistory(states, actions);
    forall k | 0 <= k <= i
      ensures states[k].puts.Keys == states[0].puts.Keys
    {
      CallsStay(states, k);
    }
  }

  /** What a step does to the temporary name of a put. */
  predicate NameMove(s: State, a: Action, s': State, id: nat) {
    id in s.puts && id in s'.puts && !s'.puts[id].pc.Cancelled? ==>
      var pc, pc' := s.puts[id].pc, s'.puts[id].pc;
      && !pc.Cancelled? && (pc'.Creating? ==> pc.Creating?)
      && (Owning(pc') || pc'.Creating? ==> !LeavesName(s, a, id))
      && (Owning(pc') ==> Owning(pc) || pc.Creating?)
      && ((Owning(pc) ==> id in s.temps) ==>
            && (Owning(pc') ==> id in s'.temps)
            && (!Owning(pc') ==> (id in s'.temps <==> if Owning(pc) then LeavesName(s, a, id) else id in s.temps)))
  }

  lemma {:induction false} NameChain(states: seq<State>, actions: seq<Action>, i: nat, id: nat)
    requires |states| == |actions| + 1 && i < |states| && id in states[i].puts && !states[i].puts[id].pc.Cancelled?
    requires forall k :: 0 <= k <= i ==> states[k].puts.Keys == states[0].puts.Keys
    requires states[0].puts[id].pc.Creating? && id !in states[0].temps
    requires forall k :: 0 <= k < i ==> NameMove(states[k], actions[k], states[k + 1], id)
    ensures id in states[i].temps <==>
            Owning(states[i].puts[id].pc) || exists k :: 0 <= k < i && LeavesName(states[k], actions[k], id)
    ensures Owning(states[i].puts[id].pc) || states[i].puts[id].pc.Creating? ==>
              forall k :: 0 <= k < i ==> !LeavesName(states[k], actions[k], id)
  {
    if i > 0 {
      assert NameMove(states[i - 1], actions[i - 1], states[i - 1 + 1], id);
      NameChain(states, actions, i - 1, id);
    }
  }

  lemma {:induction false} NamesOfOthers(s: State, a: Action, id: nat)
    requires Inv(s) && a.put != id
    ensures id in Next(s, a).temps <==> id in s.temps
  {
    NextKeepsInv(s, a);
  }

  lemma {:induction false} CallNames(s: State, answer: Answer, s': State, id: nat)
    requires id in s.puts && s' == Step(s, id, answer) && PutInv(s, id)
    ensures NameMove(s, Call(id, answer), s', id)
  {
    match s.puts[id].pc
    case Writing(_) =>
    case Comparing(_, _) =>
    case _ =>
  }

  lemma {:induction false} NameStep(s: State, a: Action, s': State, id: nat)
    requires Inv(s) && s' == Next(s, a)
    ensures NameMove(s, a, s', id)
  {
    if id in s.puts {
      assert PutInv(s, id);
      if a.put != id {
        OthersStay(s, a, id);
        NamesOfOthers(s, a, id);
      } else if a.Call? {
        CallNames(s, a.answer, s', id);
      }
    }
  }

  predicate HasPut(s: State, key: string, bytes: Bytes) {
    exists id :: id in s.puts && s.puts[id].key == key && s.puts[id].bytes == bytes
  }

  /** Whatever an object holds is what it held at the start or the whole data of one of the puts to
      its key; no prefix and no mixture is ever visible. */
  lemma {:induction false} ObjectsAreComplete(states: seq<State>, actions: seq<Action>, i: nat, key: string)
    requires IsRun(states, actions) && i < |states| && Register(states[i], key).Some?
    ensures Register(states[0], key) == Register(states[i], key) || HasPut(states[0], key, Register(states[i], key).value)
  {
    RunIsHistory(states, actions);
    CompleteInHistory(states, i, key);
  }

  lemma {:induction false} CompleteInHistory(states: seq<State>, i: nat, key: string)
    requires IsHistory(states) && i < |states| && Register(states[i], key).Some?
    ensures Register(states[0], key) == Register(states[i], key) || HasPut(states[0], key, Register(states[i], key).value)
  {
    if i > 0 {
      var s, s' := states[i - 1], states[i - 1 + 1];
      if Register(s, key).Some? {
        CompleteInHistory(states, i - 1, key);
        RegisterStays(s, s', key);
      } else {
        FilledByPut(s, s', key);
        CallsStay(states, i - 1);
        assert HasPut(states[0], key, Register(s', key).value);
      }
    }
  }

  lemma {:induction false} FilledByPut(s: State, s': State, key: string)
    requires Moves(s, s') && Register(s, key).None? && Register(s', key).Some?
    ensures HasPut(s, key, Register(s', key).value)
  {
    var id :| RegisterStep(s, s', id);
  }

  lemma {:induction false} CallsStay(states: seq<State>, i: nat)
    requires IsHistory(states) && i < |states|
    ensures SameCalls(states[0], states[i])
  {
    if i > 0 {
      CallsStay(states, i - 1);
      assert Moves(states[i - 1], states[i - 1 + 1]);
    }
  }
}
