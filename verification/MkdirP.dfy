/** `mkdir_p` over a metadata store that nobody else writes to. Every metadata call may fail; the
    permission check and the attributes a store gives a new directory come from outside. */
module MkdirP {
  import opened Common
  import opened PathNames

  const ROOT: nat := 1

  datatype Kind = Dir | NotDir

  datatype Attr = Attr(kind: Kind, mode: nat, uid: nat, gid: nat)

  /** Directory entries: parent inode and name to inode. */
  type Links = map<(nat, string), nat>

  /** The metadata store: entries, attributes, and the next free inode. */
  datatype Store = Store(links: Links, attrs: map<nat, Attr>, next: nat)

  /** Inodes in use lie below `next`, the root is a directory, and only directories have entries. */
  predicate Sound(s: Store) {
    && ROOT in s.attrs && s.attrs[ROOT].kind == Dir
    && (forall ino :: ino in s.attrs ==> ino < s.next)
    && (forall key :: key in s.links ==>
          key.0 in s.attrs && s.attrs[key.0].kind == Dir && s.links[key] in s.attrs)
  }

  // ---------------------------------------------------------------- following a path

  function Follow(e: Links, parts: seq<string>): Option<nat> {
    if parts == [] then Some(ROOT)
    else
      var last := |parts| - 1;
      var parent := Follow(e, parts[..last]);
      if parent.Some? && (parent.value, parts[last]) in e then Some(e[(parent.value, parts[last])]) else None
  }

  lemma {:induction false} FollowStep(e: Links, parts: seq<string>, i: nat)
    requires i < |parts|
    ensures Follow(e, parts[..i + 1]) ==
            (var parent := Follow(e, parts[..i]);
             if parent.Some? && (parent.value, parts[i]) in e then Some(e[(parent.value, parts[i])]) else None)
  {
    assert parts[..i + 1][..i] == parts[..i];
  }

  lemma {:induction false} FollowInto(e: Links, parts: seq<string>, i: nat, p: nat, q: nat)
    requires i < |parts| && Follow(e, parts[..i]) == Some(p) && (p, parts[i]) in e && e[(p, parts[i])] == q
    ensures Follow(e, parts[..i + 1]) == Some(q)
  {
    FollowStep(e, parts, i);
  }

  /** Nothing follows a missing directory. */
  lemma {:induction false} MissingStaysMissing(e: Links, parts: seq<string>, i: nat, j: nat)
    requires i <= j <= |parts| && Follow(e, parts[..i]).None?
    ensures Follow(e, parts[..j]).None?
  {
    if i < j {
      MissingStaysMissing(e, parts, i, j - 1);
      FollowStep(e, parts, j - 1);
    }
  }

  lemma {:induction false} FollowIsKnown(s: Store, parts: seq<string>)
    requires Sound(s) && Follow(s.links, parts).Some?
    ensures Follow(s.links, parts).value in s.attrs
  {
    if parts != [] {
      FollowIsKnown(s, parts[..|parts| - 1]);
    }
  }

  lemma {:induction false} FollowKeeps(e: Links, f: Links, parts: seq<string>)
    requires forall key :: key in e ==> key in f && f[key] == e[key]
    requires Follow(e, parts).Some?
    ensures Follow(f, parts) == Follow(e, parts)
  {
    if parts != [] {
      FollowKeeps(e, f, parts[..|parts| - 1]);
    }
  }

  predicate DirAt(s: Store, parts: seq<string>) {
    var ino := Follow(s.links, parts);
    ino.Some? && ino.value in s.attrs && s.attrs[ino.value].kind == Dir
  }

  /** Everything above a directory is a directory. */
  lemma {:induction false} PrefixesAreDirs(s: Store, parts: seq<string>, i: nat)
    requires Sound(s) && DirAt(s, parts) && i <= |parts|
    ensures DirAt(s, parts[..i])
  {
    if i == |parts| {
      assert parts[..i] == parts;
    } else {
      var last := |parts| - 1;
      PrefixesAreDirs(s, parts[..last], i);
      assert parts[..last][..i] == parts[..i];
    }
  }

  // ---------------------------------------------------------------- where a call starts

  /** The store at the call, the components of the path, how many of them exist, and the inode of the
      deepest one that does. */
  datatype Start = Start(store: Store, parts: seq<string>, existing: nat, base: nat)

  ghost predicate Starts(s: Start) {
    && Sound(s.store)
    && s.existing <= |s.parts|
    && Follow(s.store.links, s.parts[..s.existing]) == Some(s.base) && s.base in s.store.attrs
    && (s.existing < |s.parts| ==> (s.base, s.parts[s.existing]) !in s.store.links)
  }

  /** Every call has exactly one start. */
  lemma {:induction false} StartExists(store: Store, parts: seq<string>, i: nat) returns (s: Start)
    requires Sound(store) && i <= |parts| && Follow(store.links, parts[..i]).Some?
    ensures Starts(s) && s.store == store && s.parts == parts
    decreases |parts| - i
  {
    var ino := Follow(store.links, parts[..i]).value;
    FollowIsKnown(store, parts[..i]);
    if i < |parts| && (ino, parts[i]) in store.links {
      FollowStep(store.links, parts, i);
      s := StartExists(store, parts, i + 1);
    } else {
      s := Start(store, parts, i, ino);
    }
  }

  lemma {:induction false} StartIsUnique(s: Start, t: Start)
    requires Starts(s) && Starts(t) && s.store == t.store && s.parts == t.parts
    ensures s == t
  {
    NotBeyond(s, t);
    NotBeyond(t, s);
  }

  lemma {:induction false} NotBeyond(s: Start, t: Start)
    requires Starts(s) && Starts(t) && s.store == t.store && s.parts == t.parts
    ensures s.existing <= t.existing
  {
    if t.existing < s.existing {
      FollowStep(t.store.links, t.parts, t.existing);
      MissingStaysMissing(t.store.links, t.parts, t.existing + 1, s.existing);
    }
  }

  // ---------------------------------------------------------------- growing a chain

  /** The directory that the `m`-th missing component goes into. */
  function Tip(s: Start, m: nat): nat {
    if m == 0 then s.base else s.store.next + m - 1
  }

  /** The entries after creating the first `c` missing components, each in the one before it. */
  function Chain(s: Start, c: nat): Links
    requires s.existing + c <= |s.parts|
  {
    if c == 0 then s.store.links
    else Chain(s, c - 1)[(Tip(s, c - 1), s.parts[s.existing + c - 1]) := s.store.next + c - 1]
  }

  /** A chain keeps every entry and adds exactly its own. */
  lemma {:induction false} ChainOnlyAdds(s: Start, c: nat, key: (nat, string))
    requires Starts(s) && s.existing + c <= |s.parts|
    ensures key in s.store.links ==> key in Chain(s, c) && Chain(s, c)[key] == s.store.links[key]
    ensures key in Chain(s, c) && key !in s.store.links ==>
              exists m :: 0 <= m < c && key == (Tip(s, m), s.parts[s.existing + m]) && Chain(s, c)[key] == s.store.next + m
  {
    if c > 0 {
      ChainOnlyAdds(s, c - 1, key);
      assert (Tip(s, c - 1), s.parts[s.existing + c - 1]) !in s.store.links;
    }
  }

  lemma {:induction false} ChainHas(s: Start, c: nat, m: nat)
    requires s.base < s.store.next && m < c && s.existing + c <= |s.parts|
    ensures (Tip(s, m), s.parts[s.existing + m]) in Chain(s, c)
    ensures Chain(s, c)[(Tip(s, m), s.parts[s.existing + m])] == s.store.next + m
  {
    if m < c - 1 {
      ChainHas(s, c - 1, m);
    }
  }

  /** The existing part of the path stays as it was. */
  lemma {:induction false} FollowOld(s: Start, c: nat, i: nat)
    requires Starts(s) && s.existing + c <= |s.parts| && i <= s.existing
    ensures Follow(s.store.links, s.parts[..i]).Some?
    ensures Follow(Chain(s, c), s.parts[..i]) == Follow(s.store.links, s.parts[..i])
  {
    if Follow(s.store.links, s.parts[..i]).None? {
      MissingStaysMissing(s.store.links, s.parts, i, s.existing);
    }
    forall key | key in s.store.links
      ensures key in Chain(s, c) && Chain(s, c)[key] == s.store.links[key]
    {
      ChainOnlyAdds(s, c, key);
    }
    FollowKeeps(s.store.links, Chain(s, c), s.parts[..i]);
  }

  /** Entries that link the missing components below the base, numbered in order, are followed. */
  lemma {:induction false} FollowLinks(e: Links, s: Start, c: nat)
    requires s.existing + c <= |s.parts| && Follow(e, s.parts[..s.existing]) == Some(s.base)
    requires forall m :: 0 <= m < c ==>
               (Tip(s, m), s.parts[s.existing + m]) in e && e[(Tip(s, m), s.parts[s.existing + m])] == s.store.next + m
    ensures Follow(e, s.parts[..s.existing + c]) == Some(Tip(s, c))
  {
    if c > 0 {
      FollowLinks(e, s, c - 1);
      FollowInto(e, s.parts, s.existing + c - 1, Tip(s, c - 1), s.store.next + c - 1);
    }
  }

  /** After `c` creations `c` more components exist. */
  lemma {:induction false} FollowNew(s: Start, c: nat)
    requires Starts(s) && s.existing + c <= |s.parts|
    ensures Follow(Chain(s, c), s.parts[..s.existing + c]) == Some(Tip(s, c))
  {
    FollowOld(s, c, s.existing);
    forall m | 0 <= m < c
      ensures (Tip(s, m), s.parts[s.existing + m]) in Chain(s, c)
      ensures Chain(s, c)[(Tip(s, m), s.parts[s.existing + m])] == s.store.next + m
    {
      ChainHas(s, c, m);
    }
    FollowLinks(Chain(s, c), s, c);
  }

  /** The component after the chain is still missing. */
  lemma {:induction false} NextIsMissing(s: Start, c: nat)
    requires Starts(s) && s.existing + c < |s.parts|
    ensures (Tip(s, c), s.parts[s.existing + c]) !in Chain(s, c)
  {
    ChainOnlyAdds(s, c, (Tip(s, c), s.parts[s.existing + c]));
  }

  /** What a call may have done after creating `c` directories: the chain of the first `c` missing
      components, with attributes for its directories, and nothing else. */
  predicate Grown(s: Start, c: nat, t: Store) {
    && s.existing + c <= |s.parts|
    && t.links == Chain(s, c)
    && t.next == s.store.next + c
    && (forall ino :: ino in s.store.attrs ==> ino in t.attrs && t.attrs[ino] == s.store.attrs[ino])
    && (forall ino :: ino in t.attrs ==> ino in s.store.attrs || s.store.next <= ino < t.next)
    && (forall ino :: s.store.next <= ino < t.next ==> ino in t.attrs && t.attrs[ino].kind == Dir)
  }

  lemma {:induction false} GrownIsSound(s: Start, c: nat, t: Store)
    requires Starts(s) && Grown(s, c, t) && (c > 0 ==> s.store.attrs[s.base].kind == Dir)
    ensures Sound(t)
  {
    forall key | key in t.links
      ensures key.0 in t.attrs && t.attrs[key.0].kind == Dir && t.links[key] in t.attrs
    {
      ChainOnlyAdds(s, c, key);
    }
  }

  /** The store after creating the next missing component with attributes `attr`. */
  function Extend(s: Start, c: nat, t: Store, attr: Attr): Store
    requires s.existing + c < |s.parts|
  {
    Store(t.links[(Tip(s, c), s.parts[s.existing + c]) := t.next], t.attrs[t.next := attr], t.next + 1)
  }

  lemma {:induction false} GrowStep(s: Start, c: nat, t: Store, attr: Attr)
    requires Starts(s) && Grown(s, c, t) && s.existing + c < |s.parts| && attr.kind == Dir
    ensures Grown(s, c + 1, Extend(s, c, t, attr))
  {
    var u := Extend(s, c, t, attr);
    assert u.links == Chain(s, c + 1);
  }

  // ---------------------------------------------------------------- the operation

  datatype Access = Write | Exec

  /** What comes from outside: the configuration, the permission check, the attributes a store gives a
      directory created in a parent, and which metadata calls fail. */
  datatype Env = Env(enforce: bool, uid: nat, gid: nat, allow: (Attr, Access) -> bool, template: Attr -> Attr,
                     fault: nat -> bool)

  /** `check_access` for one access. */
  predicate Permits(env: Env, attr: Attr, access: Access) {
    !env.enforce || env.allow(attr, access)
  }

  ghost predicate Quiet(env: Env) {
    forall k :: !env.fault(k)
  }

  /** A set-group-id parent hands down its group. */
  function DesiredGid(parent: Attr, current: nat): nat {
    if parent.mode / 1024 % 2 != 0 then parent.gid else current
  }

  /** A directory created in `parent` and given to the caller. */
  function NewDir(env: Env, parent: Attr): Attr {
    env.template(parent).(kind := Dir, uid := env.uid, gid := DesiredGid(parent, env.gid))
  }

  datatype Error = NotADirectory | PermissionDenied | Backend

  datatype Result<T> = Ok(value: T) | Err(error: Error)

  /** The attributes of the parent of the `m`-th created directory. */
  function ParentAttr(s: Start, t: Store, m: nat): Attr {
    if Tip(s, m) in t.attrs then t.attrs[Tip(s, m)] else Attr(NotDir, 0, 0, 0)
  }

  predicate AllowedAt(env: Env, s: Start, t: Store, m: nat) {
    Permits(env, ParentAttr(s, t, m), Write) && Permits(env, ParentAttr(s, t, m), Exec)
  }

  /** The first `c` created directories were allowed by their parents' permissions. */
  predicate Allowed(env: Env, s: Start, t: Store, c: nat) {
    forall m :: 0 <= m < c ==> AllowedAt(env, s, t, m)
  }

  predicate OwnedAt(env: Env, s: Start, t: Store, m: nat) {
    s.store.next + m in t.attrs && t.attrs[s.store.next + m] == NewDir(env, ParentAttr(s, t, m))
  }

  /** The first `c` created directories have the caller as owner and the right group. */
  predicate Owned(env: Env, s: Start, t: Store, c: nat) {
    forall m :: 0 <= m < c ==> OwnedAt(env, s, t, m)
  }

  /** Attributes of the `i`-th existing component. */
  function AttrAt(s: Start, i: nat): Attr
    requires i <= |s.parts|
  {
    var ino := Follow(s.store.links, s.parts[..i]);
    if ino.Some? && ino.value in s.store.attrs then s.store.attrs[ino.value] else Attr(NotDir, 0, 0, 0)
  }

  /** The first `i` components are directories that may be searched. */
  predicate Entered(env: Env, s: Start, i: nat)
    requires i <= |s.parts|
  {
    forall j :: 0 < j <= i ==> AttrAt(s, j).kind == Dir && Permits(env, AttrAt(s, j), Exec)
  }

  /** What was done after `c` creations, `o` of them with their owner: only the chain, as permitted. */
  predicate Made(env: Env, s: Start, c: nat, o: nat, t: Store) {
    && Grown(s, c, t) && Allowed(env, s, t, c) && Owned(env, s, t, o)
    && (c > 0 ==> s.base in s.store.attrs && s.store.attrs[s.base].kind == Dir)
  }

  /** Where the walk stands after `i` components: in directory `cur`, having created the missing ones
      among them. */
  predicate Standing(env: Env, s: Start, i: nat, t: Store, cur: nat, attr: Attr) {
    && i <= |s.parts| && Made(env, s, SaturatingSub(i, s.existing), SaturatingSub(i, s.existing), t)
    && Follow(t.links, s.parts[..i]) == Some(cur) && cur in t.attrs && t.attrs[cur] == attr && attr.kind == Dir
    && Entered(env, s, Min(i, s.existing))
  }

  /** Why a call ends early while handling component `i`, and what it has done by then. */
  ghost predicate Stopped(env: Env, s: Start, i: nat, made: bool, t: Store, error: Error) {
    var c := SaturatingSub(i, s.existing);
    && i < |s.parts| && Made(env, s, if made then c + 1 else c, c, t)
    && (made ==> error == Backend)
    && match error
       case NotADirectory => i + 1 == s.existing && AttrAt(s, i + 1).kind != Dir
       case PermissionDenied =>
         if i < s.existing then !Permits(env, AttrAt(s, i + 1), Exec)
         else !(Permits(env, ParentAttr(s, t, c), Write) && Permits(env, ParentAttr(s, t, c), Exec))
       case Backend => !Quiet(env)
  }

  lemma {:induction false} FoundExisted(env: Env, s: Start, i: nat, t: Store, cur: nat, attr: Attr)
    requires Starts(s) && Standing(env, s, i, t, cur, attr) && i < |s.parts| && (cur, s.parts[i]) in t.links
    ensures i < s.existing
  {
    if i >= s.existing {
      FollowNew(s, i - s.existing);
      NextIsMissing(s, i - s.existing);
    }
  }

  /** A component that is found was there before the call. */
  lemma {:induction false} Found(env: Env, s: Start, i: nat, t: Store, cur: nat, attr: Attr)
    requires Starts(s) && Standing(env, s, i, t, cur, attr) && i < |s.parts| && (cur, s.parts[i]) in t.links
    ensures var ino := t.links[(cur, s.parts[i])];
            && i < s.existing && t.links == s.store.links && ino in t.attrs
            && Follow(t.links, s.parts[..i + 1]) == Some(ino) && AttrAt(s, i + 1) == t.attrs[ino]
  {
    var ino := t.links[(cur, s.parts[i])];
    FoundExisted(env, s, i, t, cur, attr);
    assert t.links == Chain(s, 0) == s.store.links;
    FollowInto(t.links, s.parts, i, cur, ino);
    FollowIsKnown(s.store, s.parts[..i + 1]);
  }

  /** Only the last existing component can be a file. */
  lemma {:induction false} InnerIsDir(s: Start, i: nat)
    requires Starts(s) && i < s.existing
    ensures AttrAt(s, i).kind == Dir
  {
    FollowOld(s, 0, i + 1);
    FollowStep(s.store.links, s.parts, i);
  }

  /** A component that is missing was missing before the call, and comes next in the chain. */
  lemma {:induction false} Missed(env: Env, s: Start, i: nat, t: Store, cur: nat, attr: Attr)
    requires Starts(s) && Standing(env, s, i, t, cur, attr) && i < |s.parts| && (cur, s.parts[i]) !in t.links
    ensures i >= s.existing && cur == Tip(s, i - s.existing) && ParentAttr(s, t, i - s.existing) == attr
    ensures s.store.attrs[s.base].kind == Dir
  {
    if i < s.existing {
      FollowOld(s, 0, i + 1);
      FollowStep(t.links, s.parts, i);
    }
    FollowNew(s, i - s.existing);
  }

  lemma {:induction false} EnterStep(env: Env, s: Start, i: nat, t: Store, cur: nat, attr: Attr, ino: nat)
    requires Starts(s) && Standing(env, s, i, t, cur, attr) && i < |s.parts|
    requires (cur, s.parts[i]) in t.links && t.links[(cur, s.parts[i])] == ino && ino in t.attrs
    ensures t.attrs[ino].kind == Dir && Permits(env, t.attrs[ino], Exec) ==>
              Standing(env, s, i + 1, t, ino, t.attrs[ino])
    ensures t.attrs[ino].kind != Dir ==> Stopped(env, s, i, false, t, NotADirectory)
    ensures t.attrs[ino].kind == Dir && !Permits(env, t.attrs[ino], Exec) ==> Stopped(env, s, i, false, t, PermissionDenied)
  {
    Found(env, s, i, t, cur, attr);
    if i + 1 < s.existing {
      InnerIsDir(s, i + 1);
    }
  }

  lemma {:induction false} FaultStops(env: Env, s: Start, i: nat, t: Store, cur: nat, attr: Attr)
    requires Standing(env, s, i, t, cur, attr) && i < |s.parts| && !Quiet(env)
    ensures Stopped(env, s, i, false, t, Backend)
  {
  }

  lemma {:induction false} DenialStops(env: Env, s: Start, i: nat, t: Store, cur: nat, attr: Attr)
    requires Starts(s) && Standing(env, s, i, t, cur, attr) && i < |s.parts| && (cur, s.parts[i]) !in t.links
    requires !(Permits(env, attr, Write) && Permits(env, attr, Exec))
    ensures Stopped(env, s, i, false, t, PermissionDenied)
  {
    Missed(env, s, i, t, cur, attr);
  }

  lemma {:induction false} KeepsParents(s: Start, c: nat, t: Store, u: Store, m: nat)
    requires Starts(s) && Grown(s, c, t) && m <= c
    requires forall ino :: ino in t.attrs ==> ino in u.attrs && u.attrs[ino] == t.attrs[ino]
    ensures ParentAttr(s, u, m) == ParentAttr(s, t, m)
  {
    assert Tip(s, m) in t.attrs;
  }

  /** Creating the next missing component keeps the record of what was done. */
  lemma {:induction false} MadeStep(env: Env, s: Start, c: nat, t: Store, u: Store, attr: Attr)
    requires Starts(s) && Made(env, s, c, c, t) && s.existing + c < |s.parts| && attr.kind == Dir
    requires s.store.attrs[s.base].kind == Dir && u == Extend(s, c, t, attr)
    requires Permits(env, ParentAttr(s, t, c), Write) && Permits(env, ParentAttr(s, t, c), Exec)
    ensures Made(env, s, c + 1, c, u)
    ensures attr == NewDir(env, ParentAttr(s, t, c)) ==> Made(env, s, c + 1, c + 1, u)
  {
    GrowStep(s, c, t, attr);
    KeepsParents(s, c, t, u, c);
    forall m | 0 <= m < c
      ensures AllowedAt(env, s, u, m) && OwnedAt(env, s, u, m)
    {
      KeepsParents(s, c, t, u, m);
      assert AllowedAt(env, s, t, m) && OwnedAt(env, s, t, m);
    }
  }

  lemma {:induction false} CreateStep(env: Env, s: Start, c: nat, u: Store, attr: Attr)
    requires Starts(s) && Made(env, s, c + 1, c, u) && Entered(env, s, s.existing)
    requires u.next - 1 in u.attrs && u.attrs[u.next - 1] == attr && attr.kind == Dir
    ensures Made(env, s, c + 1, c + 1, u) ==> Standing(env, s, s.existing + c + 1, u, u.next - 1, attr)
    ensures !Quiet(env) ==> Stopped(env, s, s.existing + c, true, u, Backend)
  {
    FollowNew(s, c + 1);
    assert Tip(s, c + 1) == u.next - 1 && Follow(u.links, s.parts[..s.existing + c + 1]) == Some(u.next - 1);
  }

  /** Why a call failed. */
  ghost predicate Explained(env: Env, s: Start, c: nat, t: Store, error: Error) {
    match error
    case NotADirectory => c == 0 && 0 < s.existing <= |s.parts| && AttrAt(s, s.existing).kind != Dir
    case PermissionDenied =>
      || (exists i :: 0 < i <= s.existing <= |s.parts| && !Permits(env, AttrAt(s, i), Exec))
      || !(Permits(env, ParentAttr(s, t, c), Write) && Permits(env, ParentAttr(s, t, c), Exec))
    case Backend => !Quiet(env)
  }

  /** How a call ends after creating `c` directories. */
  ghost predicate Outcome(env: Env, s: Start, c: nat, t: Store, r: Result<nat>) {
    && Sound(t)
    && match r
       case Ok(ino) =>
         && Made(env, s, c, c, t) && s.existing + c == |s.parts|
         && Follow(t.links, s.parts) == Some(ino)
         && (forall i :: 0 <= i <= |s.parts| ==> DirAt(t, s.parts[..i]))
         && (c > 0 ==> Entered(env, s, s.existing))
       case Err(error) =>
         Made(env, s, c, SaturatingSub(c, 1), t) && Explained(env, s, c, t, error)
  }

  lemma {:induction false} FewerOwned(env: Env, s: Start, c: nat, o: nat, p: nat, t: Store)
    requires Made(env, s, c, o, t) && p <= o
    ensures Made(env, s, c, p, t)
  {
  }

  lemma {:induction false} StopEnds(env: Env, s: Start, i: nat, made: bool, t: Store, error: Error)
    requires Starts(s) && Stopped(env, s, i, made, t, error)
    ensures Outcome(env, s, SaturatingSub(i, s.existing) + (if made then 1 else 0), t, Err(error))
  {
    var c := SaturatingSub(i, s.existing);
    GrownIsSound(s, if made then c + 1 else c, t);
    FewerOwned(env, s, if made then c + 1 else c, c, if made then c else SaturatingSub(c, 1), t);
  }

  lemma {:induction false} WalkEnds(env: Env, s: Start, t: Store, cur: nat, attr: Attr)
    requires Starts(s) && Standing(env, s, |s.parts|, t, cur, attr)
    ensures Outcome(env, s, |s.parts| - s.existing, t, Ok(cur))
  {
    assert s.parts[..|s.parts|] == s.parts;
    GrownIsSound(s, |s.parts| - s.existing, t);
    AllDirs(t, s.parts);
  }

  lemma {:induction false} ExtendedBy(env: Env, s: Start, c: nat, t: Store, u: Store, attr: Attr, made: Attr)
    requires Starts(s) && Made(env, s, c, c, t) && s.existing + c < |s.parts| && Entered(env, s, s.existing)
    requires s.store.attrs[s.base].kind == Dir && ParentAttr(s, t, c) == attr && u == Extend(s, c, t, made)
    requires made.kind == Dir && Permits(env, attr, Write) && Permits(env, attr, Exec)
    ensures made == NewDir(env, attr) ==> Standing(env, s, s.existing + c + 1, u, t.next, made)
    ensures !Quiet(env) ==> Stopped(env, s, s.existing + c, true, u, Backend)
  {
    MadeStep(env, s, c, t, u, made);
    CreateStep(env, s, c, u, made);
  }

  lemma {:induction false} Extended(env: Env, s: Start, i: nat, t: Store, cur: nat, attr: Attr, u: Store, made: Attr)
    requires Starts(s) && Standing(env, s, i, t, cur, attr) && i < |s.parts| && (cur, s.parts[i]) !in t.links
    requires u == Store(t.links[(cur, s.parts[i]) := t.next], t.attrs[t.next := made], t.next + 1)
    requires made.kind == Dir && Permits(env, attr, Write) && Permits(env, attr, Exec)
    ensures made == NewDir(env, attr) ==> Standing(env, s, i + 1, u, t.next, made)
    ensures !Quiet(env) ==> Stopped(env, s, i, true, u, Backend)
  {
    Missed(env, s, i, t, cur, attr);
    var c := i - s.existing;
    assert Made(env, s, c, c, t) && u == Extend(s, c, t, made) && Entered(env, s, s.existing);
    ExtendedBy(env, s, c, t, u, attr, made);
  }

  lemma {:induction false} Unchanged(env: Env, s: Start)
    requires Starts(s)
    ensures Made(env, s, 0, 0, s.store)
  {
  }

  /** The components the loop walks over, taken from the normalised path. */
  function PathParts(normal: string): seq<string> {
    NonEmpty(Split(TrimStart(normal)))
  }

  lemma {:induction false} PathPartsAreComponents(path: string)
    ensures PathParts(Normalize(path)) == Components(path)
    ensures Normalize(path) == "/" ==> Components(path) == []
  {
    TrimKeepsComponents(Normalize(path));
    NormalizeKeepsComponents(path);
    LeadingSlash("");
    assert "/" + "" == "/";
  }

  lemma {:induction false} WholePathExists(s: Start)
    requires Starts(s) && Follow(s.store.links, s.parts).Some?
    ensures s.existing == |s.parts| && AttrAt(s, s.existing) == s.store.attrs[Follow(s.store.links, s.parts).value]
  {
    assert s.parts[..|s.parts|] == s.parts;
    if s.existing < |s.parts| {
      FollowStep(s.store.links, s.parts, s.existing);
      MissingStaysMissing(s.store.links, s.parts, s.existing + 1, |s.parts|);
    }
  }

  lemma {:induction false} AllDirs(t: Store, parts: seq<string>)
    requires Sound(t) && DirAt(t, parts)
    ensures forall i :: 0 <= i <= |parts| ==> DirAt(t, parts[..i])
  {
    forall i | 0 <= i <= |parts|
      ensures DirAt(t, parts[..i])
    {
      PrefixesAreDirs(t, parts, i);
    }
  }

  lemma {:induction false} StandsAtRoot(env: Env, s: Start)
    requires Starts(s)
    ensures Standing(env, s, 0, s.store, ROOT, s.store.attrs[ROOT])
  {
    Unchanged(env, s);
  }

  /** With no failing call and no permission checks, a call succeeds exactly when the deepest existing
      component is a directory. */
  lemma {:induction false} OnlyFilesBlock(env: Env, s: Start, c: nat, t: Store, r: Result<nat>)
    requires Starts(s) && Outcome(env, s, c, t, r) && Quiet(env) && !env.enforce
    ensures r.Ok? <==> AttrAt(s, s.existing).kind == Dir
  {
    if r.Ok? {
      FollowOld(s, c, s.existing);
      assert DirAt(t, s.parts[..s.existing]);
    }
  }

  /** The `m`-th created directory was made below a parent that the caller may write and search. */
  predicate MayCreateAt(env: Env, s: Start, t: Store, m: nat) {
    env.enforce ==> env.allow(ParentAttr(s, t, m), Write) && env.allow(ParentAttr(s, t, m), Exec)
  }

  /** The `m`-th created directory belongs to the caller, and to the group of a set-group-id parent. */
  predicate BelongsAt(env: Env, s: Start, t: Store, m: nat) {
    && s.store.next + m in t.attrs
    && var attr, parent := t.attrs[s.store.next + m], ParentAttr(s, t, m);
    && attr.kind == Dir && attr.uid == env.uid
    && attr.gid == if (parent.mode / 1024) % 2 == 1 then parent.gid else env.gid
  }

  /** Permission checks and ownership, as the caller sees them. Every directory that was created, on
      success and on failure, was created below a parent that may be written and searched; a success that
      created something has searched every component that was there; and a refusal names a check that
      the permissions in force deny. */
  lemma {:induction false} AccessIsChecked(env: Env, s: Start, c: nat, t: Store, r: Result<nat>)
    requires Starts(s) && Outcome(env, s, c, t, r)
    ensures forall m :: 0 <= m < c ==> MayCreateAt(env, s, t, m)
    ensures forall m :: 0 <= m < (if r.Ok? then c else c - 1) ==> BelongsAt(env, s, t, m)
    ensures r.Ok? && c > 0 && env.enforce ==>
              forall i :: 0 < i <= s.existing ==> env.allow(AttrAt(s, i), Exec)
    ensures r == Err(PermissionDenied) ==>
              && env.enforce
              && (|| (exists i :: 0 < i <= s.existing && !env.allow(AttrAt(s, i), Exec))
                  || !env.allow(ParentAttr(s, t, c), Write) || !env.allow(ParentAttr(s, t, c), Exec))
  {
    forall m | 0 <= m < c
      ensures MayCreateAt(env, s, t, m)
    {
      assert AllowedAt(env, s, t, m);
    }
    forall m | 0 <= m < if r.Ok? then c else c - 1
      ensures BelongsAt(env, s, t, m)
    {
      assert OwnedAt(env, s, t, m);
    }
  }

  /** A path that exists as a whole is only looked up. */
  lemma {:induction false} LookupEnds(env: Env, s: Start, ino: nat)
    requires Starts(s) && Follow(s.store.links, s.parts) == Some(ino) && ino in s.store.attrs
    ensures s.store.attrs[ino].kind == Dir ==> Outcome(env, s, 0, s.store, Ok(ino))
    ensures s.store.attrs[ino].kind != Dir ==> Outcome(env, s, 0, s.store, Err(NotADirectory))
  {
    Unchanged(env, s);
    WholePathExists(s);
    if s.store.attrs[ino].kind == Dir {
      AllDirs(s.store, s.parts);
    }
  }

  class FileSystem {
    const env: Env
    var store: Store
    var calls: nat

    constructor (env: Env)
      ensures Sound(store) && this.env == env
    {
      this.env := env;
      store, calls := Store(map[], map[ROOT := Attr(Dir, 0, 0, 0)], 2), 0;
    }

    /** Every metadata call may fail without effect. */
    method Fails() returns (failed: bool)
      modifies this`calls
      ensures failed == env.fault(old(calls)) && calls == old(calls) + 1
      ensures failed ==> !Quiet(env)
    {
      failed := env.fault(calls);
      calls := calls + 1;
    }

    /** `lookup_path` of the database store: a file inside the path hides what would come after it,
        and in a sound store nothing does. */
    method LookupPath(parts: seq<string>) returns (r: Result<Option<(nat, Kind)>>)
      requires Sound(store)
      modifies this`calls
      ensures r.Err? ==> r.error == Backend && !Quiet(env)
      ensures r.Ok? && r.value.None? ==> Follow(store.links, parts).None?
      ensures r.Ok? && r.value.Some? ==>
                Follow(store.links, parts) == Some(r.value.value.0) && r.value.value.0 in store.attrs
                && r.value.value.1 == store.attrs[r.value.value.0].kind
    {
      var failed := Fails();
      if failed {
        return Err(Backend);
      }
      var links := store.links;
      var current := ROOT;
      for i := 0 to |parts|
        invariant Follow(links, parts[..i]) == Some(current) && current in store.attrs && store.attrs[current].kind == Dir
      {
        FollowStep(links, parts, i);
        if (current, parts[i]) !in links {
          MissingStaysMissing(links, parts, i + 1, |parts|);
          assert parts[..|parts|] == parts;
          return Ok(None);
        }
        var ino := links[(current, parts[i])];
        if store.attrs[ino].kind == Dir {
          current := ino;
        } else if i == |parts| - 1 {
          assert parts[..i + 1] == parts;
          return Ok(Some((ino, store.attrs[ino].kind)));
        } else {
          FollowStep(links, parts, i + 1);
          MissingStaysMissing(links, parts, i + 2, |parts|);
          assert parts[..|parts|] == parts;
          return Ok(None);
        }
      }
      assert parts[..|parts|] == parts;
      r := Ok(Some((current, Dir)));
    }

    /** An existing component must be a directory that may be searched. */
    method Enter(ino: nat) returns (r: Result<Attr>)
      requires ino in store.attrs
      modifies this`calls
      ensures r.Ok? ==> r.value == store.attrs[ino] && r.value.kind == Dir && Permits(env, r.value, Exec)
      ensures r == Err(NotADirectory) ==> store.attrs[ino].kind != Dir
      ensures r == Err(PermissionDenied) ==> store.attrs[ino].kind == Dir && !Permits(env, store.attrs[ino], Exec)
      ensures r == Err(Backend) <==> env.fault(old(calls))
      ensures r == Err(Backend) ==> !Quiet(env)
    {
      var failed := Fails();
      if failed {
        return Err(Backend);
      }
      var attr := store.attrs[ino];
      if attr.kind != Dir {
        return Err(NotADirectory);
      }
      if !Permits(env, attr, Exec) {
        return Err(PermissionDenied);
      }
      r := Ok(attr);
    }

    /** A missing component: make the directory, give it its owner, and read it back. */
    method Create(cur: nat, curAttr: Attr, part: string) returns (r: Result<(nat, Attr)>, ghost made: bool)
      modifies this
      ensures made ==>
                && Permits(env, curAttr, Write) && Permits(env, curAttr, Exec)
                && old(store.next) in store.attrs && store.attrs[old(store.next)].kind == Dir
                && store == Store(old(store.links)[(cur, part) := old(store.next)],
                                  old(store.attrs)[old(store.next) := store.attrs[old(store.next)]], old(store.next) + 1)
      ensures !made ==> store == old(store)
      ensures r.Ok? ==> made && r.value == (old(store.next), NewDir(env, curAttr))
                        && store.attrs[old(store.next)] == NewDir(env, curAttr)
      ensures r == Err(Backend) <==>
              && Permits(env, curAttr, Write) && Permits(env, curAttr, Exec)
              && (env.fault(old(calls)) || env.fault(old(calls) + 1) || env.fault(old(calls) + 2))
      ensures r.Err? ==>
                || (r.error == Backend && !Quiet(env))
                || (r.error == PermissionDenied && !made && !(Permits(env, curAttr, Write) && Permits(env, curAttr, Exec)))
    {
      made := false;
      if !Permits(env, curAttr, Write) || !Permits(env, curAttr, Exec) {
        return Err(PermissionDenied), made;
      }
      var failed := Fails();
      if failed {
        return Err(Backend), made;
      }
      var ino := store.next;
      store := Store(store.links[(cur, part) := ino], store.attrs[ino := env.template(curAttr).(kind := Dir)], ino + 1);
      made := true;
      failed := Fails();
      if failed {
        return Err(Backend), made;
      }
      var owned := store.attrs[ino].(uid := env.uid, gid := DesiredGid(curAttr, env.gid));
      store := store.(attrs := store.attrs[ino := owned]);
      failed := Fails();
      if failed {
        return Err(Backend), made;
      }
      r := Ok((ino, store.attrs[ino]));
    }

    /** One component that exists. */
    method Descend(ghost s: Start, parts: seq<string>, i: nat, cur: nat, curAttr: Attr)
      returns (r: Result<(nat, Attr)>)
      requires Starts(s) && s.parts == parts && i < |parts| && Standing(env, s, i, store, cur, curAttr)
      requires (cur, parts[i]) in store.links
      modifies this`calls
      ensures r.Ok? ==> Standing(env, s, i + 1, store, r.value.0, r.value.1)
      ensures r.Err? ==> Stopped(env, s, i, false, store, r.error)
    {
      var ino := store.links[(cur, parts[i])];
      Found(env, s, i, store, cur, curAttr);
      EnterStep(env, s, i, store, cur, curAttr, ino);
      var entered := Enter(ino);
      if entered == Err(Backend) {
        FaultStops(env, s, i, store, cur, curAttr);
      }
      r := if entered.Ok? then Ok((ino, entered.value)) else Err(entered.error);
    }

    /** One component that is missing. */
    method Extends(ghost s: Start, parts: seq<string>, i: nat, cur: nat, curAttr: Attr)
      returns (r: Result<(nat, Attr)>, ghost made: bool)
      requires Starts(s) && s.parts == parts && i < |parts| && Standing(env, s, i, store, cur, curAttr)
      requires (cur, parts[i]) !in store.links
      modifies this
      ensures r.Ok? ==> Standing(env, s, i + 1, store, r.value.0, r.value.1)
      ensures r.Err? ==> Stopped(env, s, i, made, store, r.error)
    {
      ghost var t := store;
      r, made := Create(cur, curAttr, parts[i]);
      if made {
        Extended(env, s, i, t, cur, curAttr, store, store.attrs[t.next]);
      } else if r.error == PermissionDenied {
        DenialStops(env, s, i, t, cur, curAttr);
      } else {
        FaultStops(env, s, i, t, cur, curAttr);
      }
    }

    /** One component: look it up, then enter or create it. */
    method Advance(ghost s: Start, parts: seq<string>, i: nat, cur: nat, curAttr: Attr)
      returns (r: Result<(nat, Attr)>, ghost made: bool)
      requires Starts(s) && s.parts == parts && i < |parts| && Standing(env, s, i, store, cur, curAttr)
      modifies this
      ensures r.Ok? ==> Standing(env, s, i + 1, store, r.value.0, r.value.1)
      ensures r.Err? ==> Stopped(env, s, i, made, store, r.error)
    {
      made := false;
      var failed := Fails();
      if failed {
        FaultStops(env, s, i, store, cur, curAttr);
        r := Err(Backend);
      } else if (cur, parts[i]) in store.links {
        r := Descend(s, parts, i, cur, curAttr);
      } else {
        r, made := Extends(s, parts, i, cur, curAttr);
      }
    }

    /** The walk starts by reading the root's attributes. */
    method StatRoot(ghost s: Start) returns (r: Result<Attr>)
      requires Starts(s) && s.parts != [] && s.store == store
      modifies this`calls
      ensures r.Ok? ==> Standing(env, s, 0, store, ROOT, r.value)
      ensures r.Err? ==> Stopped(env, s, 0, false, store, r.error)
    {
      StandsAtRoot(env, s);
      var failed := Fails();
      if failed {
        FaultStops(env, s, 0, store, ROOT, store.attrs[ROOT]);
        return Err(Backend);
      }
      r := Ok(store.attrs[ROOT]);
    }

    /** The loop over the components. It stops at component `last` or gets to the end. */
    method WalkDown(ghost s: Start, parts: seq<string>)
      returns (r: Result<nat>, ghost last: nat, ghost made: bool, ghost attr: Attr)
      requires Starts(s) && s.parts == parts && parts != [] && s.store == store
      modifies this
      ensures r.Ok? ==> Standing(env, s, |parts|, store, r.value, attr)
      ensures r.Err? ==> Stopped(env, s, last, made, store, r.error)
    {
      var cur, curAttr := ROOT, Attr(NotDir, 0, 0, 0);
      made, last, attr := false, 0, curAttr;
      var root := StatRoot(s);
      if root.Err? {
        return Err(root.error), last, made, attr;
      }
      curAttr := root.value;
      for i := 0 to |parts|
        invariant Standing(env, s, i, store, cur, curAttr)
      {
        var step;
        last := i;
        step, made := Advance(s, parts, i, cur, curAttr);
        if step.Err? {
          return Err(step.error), last, made, attr;
        }
        cur, curAttr := step.value.0, step.value.1;
      }
      r, attr := Ok(cur), curAttr;
    }

    method Walk(ghost s: Start, parts: seq<string>) returns (r: Result<nat>, ghost created: nat)
      requires Starts(s) && s.parts == parts && parts != [] && s.store == store
      modifies this
      ensures Outcome(env, s, created, store, r)
    {
      ghost var last, made, attr;
      r, last, made, attr := WalkDown(s, parts);
      if r.Ok? {
        WalkEnds(env, s, store, r.value, attr);
        created := |parts| - s.existing;
      } else {
        StopEnds(env, s, last, made, store, r.error);
        created := SaturatingSub(last, s.existing) + (if made then 1 else 0);
      }
    }

    /** The body of `mkdir_p`. */
    method Resolve(path: string) returns (r: Result<nat>, ghost s: Start, ghost created: nat)
      requires Sound(store)
      modifies this
      ensures Starts(s) && s.store == old(store) && s.parts == Components(path)
      ensures Outcome(env, s, created, store, r)
    {
      var normal := Normalize(path);
      PathPartsAreComponents(path);
      var parts := PathParts(normal);
      s := StartExists(store, parts, 0);
      created := 0;
      if normal == "/" {
        LookupEnds(env, s, ROOT);
        return Ok(ROOT), s, created;
      }
      var looked := LookupPath(parts);
      if looked.Err? {
        Unchanged(env, s);
        return Err(Backend), s, created;
      }
      if looked.value.Some? {
        LookupEnds(env, s, looked.value.value.0);
        if looked.value.value.1 != Dir {
          return Err(NotADirectory), s, created;
        }
        return Ok(looked.value.value.0), s, created;
      }
      r, created := Walk(s, parts);
    }

    /** `mkdir_p`. On success the whole path exists as directories and the result is its last inode;
        exactly the missing components were created, each permitted by its parent and owned by the
        caller. On failure the created directories are still a chain along the path, and the error
        names its cause. */
    method MakePath(path: string) returns (r: Result<nat>, ghost s: Start, ghost created: nat)
      requires Sound(store)
      modifies this
      ensures Starts(s) && s.store == old(store) && s.parts == Components(path)
      ensures Outcome(env, s, created, store, r)
      ensures env.enforce ==> forall m :: 0 <= m < created ==>
                env.allow(ParentAttr(s, store, m), Write) && env.allow(ParentAttr(s, store, m), Exec)
      ensures r == Err(PermissionDenied) ==> env.enforce
    {
      r, s, created := Resolve(path);
      AccessIsChecked(env, s, created, store, r);
      forall m | 0 <= m < created && env.enforce
        ensures env.allow(ParentAttr(s, store, m), Write) && env.allow(ParentAttr(s, store, m), Exec)
      {
        assert MayCreateAt(env, s, store, m);
      }
    }
  }
}
