/** Namespace rows of the packed-metadata fixture: inode rows and directory entries, kept in one table
    that refuses duplicate keys. */
module FrozenRows {
  import Arithmetic
  import FixtureTree

  const ROOT: nat := 1

  /** Names of generated directories and files, and fixed names. */
  datatype Name = DirNo(index: nat) | FileNo(index: nat) | Named(text: string)

  const FIXED := ["bench", "verify", "hardlink", "symlink", "fifo", "socket", "char", "block", "read.bin"]

  predicate Usual(n: Name) {
    n.Named? ==> n.text in FIXED
  }

  function Render(n: Name): string {
    match n
    case DirNo(index) => "d" + FixtureTree.Padded(index, 3)
    case FileNo(index) => "f" + FixtureTree.Padded(index, 5)
    case Named(text) => text
  }

  /** No fixed name looks like a generated one. */
  lemma {:induction false} FixedLooksDifferent(text: string)
    requires text in FIXED
    ensures |text| > 1 && text[0] != 'd' && !('0' <= text[1] <= '9')
  {
  }

  lemma {:induction false} GeneratedLooks(n: Name)
    requires !n.Named?
    ensures |Render(n)| > 1 && '0' <= Render(n)[1] <= '9' && Render(n)[0] == if n.DirNo? then 'd' else 'f'
  {
    FixtureTree.PaddedIsDigits(n.index, if n.DirNo? then 3 else 5);
  }

  /** Generated names are a letter with three digits for a directory and five for a file, as long as the
      number fits. */
  lemma {:induction false} RenderSpells(n: Name, width: nat)
    requires !n.Named? && width == (if n.DirNo? then 3 else 5) && n.index < Arithmetic.Pow(10, width)
    ensures FixtureTree.Spells(Render(n), if n.DirNo? then 'd' else 'f', width, n.index)
  {
    FixtureTree.PrefixedSpells(if n.DirNo? then 'd' else 'f', n.index, width);
  }

  /** Different names of the fixture render differently. */
  lemma {:induction false} RenderApart(a: Name, b: Name)
    requires Usual(a) && Usual(b) && Render(a) == Render(b)
    ensures a == b
  {
    if a.Named? {
      FixedLooksDifferent(a.text);
      if !b.Named? {
        GeneratedLooks(b);
      }
    } else if b.Named? {
      FixedLooksDifferent(b.text);
      GeneratedLooks(a);
    } else {
      GeneratedLooks(a);
      GeneratedLooks(b);
      var width := if a.DirNo? then 3 else 5;
      assert Render(a)[1..] == FixtureTree.Padded(a.index, width) && Render(b)[1..] == FixtureTree.Padded(b.index, width);
      FixtureTree.PaddedIsInjective(a.index, b.index, width);
    }
  }

  datatype Key = InodeKey(ino: nat) | DentryKey(parent: nat, name: Name)

  datatype Row = Inode(dir: bool, size: nat, nlink: nat, parent: nat) | Target(ino: nat)

  type Rows = map<Key, Row>

  // ---------------------------------------------------------------- links

  /** The entries that name an inode. */
  function LinkSet(rows: Rows, ino: nat): set<Key> {
    set key | key in rows && rows[key] == Target(ino)
  }

  lemma {:induction false} AddLink(rows: Rows, key: Key, ino: nat, other: nat)
    requires key !in rows
    ensures |LinkSet(rows[key := Target(ino)], other)| == |LinkSet(rows, other)| + if other == ino then 1 else 0
  {
    var more := LinkSet(rows[key := Target(ino)], other);
    if other == ino {
      assert more == LinkSet(rows, other) + {key};
    } else {
      assert more == LinkSet(rows, other);
    }
  }

  lemma {:induction false} AddInodeRow(rows: Rows, key: Key, row: Row, other: nat)
    requires key !in rows && row.Inode?
    ensures LinkSet(rows[key := row], other) == LinkSet(rows, other)
  {
  }

  // ---------------------------------------------------------------- one tree

  /** Inodes `1..next` have rows and nothing else does. */
  ghost predicate Numbered(rows: Rows, next: nat) {
    && next > ROOT
    && (forall i :: 0 < i < next ==> InodeKey(i) in rows && rows[InodeKey(i)].Inode?)
    && (forall i: nat :: InodeKey(i) in rows ==> 0 < i < next)
  }

  ghost predicate EntryInv(rows: Rows, next: nat, p: nat, n: Name)
    requires Numbered(rows, next) && DentryKey(p, n) in rows
  {
    && Usual(n) && 0 < p < next && rows[InodeKey(p)].dir
    && rows[DentryKey(p, n)].Target? && ROOT < rows[DentryKey(p, n)].ino < next
    && (rows[InodeKey(rows[DentryKey(p, n)].ino)].dir ==> p == rows[InodeKey(rows[DentryKey(p, n)].ino)].parent)
  }

  /** A directory below the root has one entry and an older parent; anything else has as many entries
      as its link count says, with one still to come for `owed`. */
  ghost predicate InodeInv(rows: Rows, next: nat, owed: nat, i: nat)
    requires Numbered(rows, next) && 0 < i < next
  {
    var row := rows[InodeKey(i)];
    if row.dir then
      if i == ROOT then |LinkSet(rows, i)| == 0 else |LinkSet(rows, i)| == 1 && 0 < row.parent < i
    else
      |LinkSet(rows, i)| + (if i == owed then 1 else 0) == row.nlink
  }

  ghost predicate WellFormed(rows: Rows, next: nat, owed: nat) {
    && Numbered(rows, next) && rows[InodeKey(ROOT)].dir
    && (forall p, n :: DentryKey(p, n) in rows ==> EntryInv(rows, next, p, n))
    && (forall i :: 0 < i < next ==> InodeInv(rows, next, owed, i))
  }

  ghost predicate Empty(rows: Rows, p: nat) {
    forall n :: DentryKey(p, n) !in rows
  }

  /** A new inode and its entry. */
  function WithChild(rows: Rows, next: nat, p: nat, n: Name, row: Row): Rows {
    rows[InodeKey(next) := row][DentryKey(p, n) := Target(next)]
  }

  lemma {:induction false} NoLinksAhead(rows: Rows, next: nat, owed: nat)
    requires WellFormed(rows, next, owed)
    ensures LinkSet(rows, next) == {}
  {
    forall key | key in rows
      ensures rows[key] != Target(next)
    {
      match key
      case InodeKey(i) => assert rows[InodeKey(i)].Inode?;
      case DentryKey(p, n) => assert EntryInv(rows, next, p, n);
    }
  }

  lemma {:induction false} ChildLinks(rows: Rows, next: nat, owed: nat, p: nat, n: Name, row: Row, i: nat)
    requires WellFormed(rows, next, owed) && DentryKey(p, n) !in rows && row.Inode?
    ensures |LinkSet(WithChild(rows, next, p, n, row), i)| == |LinkSet(rows, i)| + if i == next then 1 else 0
  {
    AddInodeRow(rows, InodeKey(next), row, i);
    AddLink(rows[InodeKey(next) := row], DentryKey(p, n), next, i);
  }

  /** Adding a directory, or a file with the link count it gets, keeps the tree. */
  lemma {:induction false} ChildKeeps(rows: Rows, next: nat, owed: nat, p: nat, n: Name, row: Row, owed': nat)
    requires WellFormed(rows, next, owed) && 0 < p < next && rows[InodeKey(p)].dir && DentryKey(p, n) !in rows
    requires row.Inode? && row.parent == p && Usual(n)
    requires if row.dir || row.nlink == 1 then owed' == owed < next else row.nlink == 2 && owed' == next && owed == 0
    ensures WellFormed(WithChild(rows, next, p, n, row), next + 1, owed')
  {
    var more, after := WithChild(rows, next, p, n, row), next + 1;
    NoLinksAhead(rows, next, owed);
    forall i | 0 < i < after
      ensures InodeInv(more, after, owed', i)
    {
      ChildLinks(rows, next, owed, p, n, row, i);
      if i < next {
        assert InodeInv(rows, next, owed, i);
      }
    }
    forall q, m | DentryKey(q, m) in more
      ensures EntryInv(more, after, q, m)
    {
      if DentryKey(q, m) in rows {
        assert EntryInv(rows, next, q, m);
      }
    }
  }

  /** A second entry for the inode that was owed one settles the link count. */
  lemma {:induction false} HardlinkKeeps(rows: Rows, next: nat, owed: nat, p: nat, n: Name)
    requires WellFormed(rows, next, owed) && ROOT < owed < next && !rows[InodeKey(owed)].dir
    requires 0 < p < next && rows[InodeKey(p)].dir && DentryKey(p, n) !in rows && Usual(n)
    ensures WellFormed(rows[DentryKey(p, n) := Target(owed)], next, 0)
  {
    var more := rows[DentryKey(p, n) := Target(owed)];
    forall i | 0 < i < next
      ensures InodeInv(more, next, 0, i)
    {
      AddLink(rows, DentryKey(p, n), owed, i);
      assert InodeInv(rows, next, owed, i);
    }
    forall q, m | DentryKey(q, m) in more
      ensures EntryInv(more, next, q, m)
    {
      if DentryKey(q, m) in rows {
        assert EntryInv(rows, next, q, m);
      }
    }
  }

  /** Two entries of one directory never share a name. */
  lemma {:induction false} EntriesRenderApart(rows: Rows, next: nat, owed: nat, p: nat, a: Name, b: Name)
    requires WellFormed(rows, next, owed) && DentryKey(p, a) in rows && DentryKey(p, b) in rows
    ensures Render(a) == Render(b) <==> a == b
  {
    assert EntryInv(rows, next, p, a) && EntryInv(rows, next, p, b);
    if Render(a) == Render(b) {
      RenderApart(a, b);
    }
  }

  /** Every directory below the root is named once, in its parent, which has a smaller inode: following
      parents leads to the root. */
  lemma {:induction false} OneWayUp(rows: Rows, next: nat, owed: nat, i: nat) returns (n: Name)
    requires WellFormed(rows, next, owed) && ROOT < i < next && rows[InodeKey(i)].dir
    ensures var p := rows[InodeKey(i)].parent;
            && 0 < p < i && rows[InodeKey(p)].dir
            && DentryKey(p, n) in rows && rows[DentryKey(p, n)] == Target(i)
            && forall q, m :: DentryKey(q, m) in rows && rows[DentryKey(q, m)] == Target(i) ==> q == p && m == n
  {
    assert InodeInv(rows, next, owed, i);
    var links := LinkSet(rows, i);
    var key :| key in links;
    assert key.DentryKey?;
    n := key.name;
    assert EntryInv(rows, next, key.parent, n);
    forall q, m | DentryKey(q, m) in rows && rows[DentryKey(q, m)] == Target(i)
      ensures DentryKey(q, m) == key
    {
      assert DentryKey(q, m) in links;
      OnlyOne(links, key, DentryKey(q, m));
    }
  }

  lemma {:induction false} OnlyOne(s: set<Key>, a: Key, b: Key)
    requires |s| == 1 && a in s && b in s
    ensures a == b
  {
    assert |s - {a}| == 0;
    assert a == b || b in s - {a};
  }

  // ---------------------------------------------------------------- totals

  function Size(rows: Rows, i: nat): nat {
    if InodeKey(i) in rows && rows[InodeKey(i)].Inode? && !rows[InodeKey(i)].dir then rows[InodeKey(i)].size else 0
  }

  predicate IsDir(rows: Rows, i: nat) {
    InodeKey(i) in rows && rows[InodeKey(i)].Inode? && rows[InodeKey(i)].dir
  }

  /** Directories, other inodes, and bytes among the inodes below `n`. */
  datatype Totals = Totals(dirs: nat, files: nat, bytes: nat)

  function TotalsOf(rows: Rows, n: nat): Totals {
    if n <= ROOT then Totals(0, 0, 0)
    else
      var t := TotalsOf(rows, n - 1);
      if IsDir(rows, n - 1) then Totals(t.dirs + 1, t.files, t.bytes)
      else Totals(t.dirs, t.files + 1, t.bytes + Size(rows, n - 1))
  }

  lemma {:induction false} TotalsKeep(rows: Rows, more: Rows, n: nat)
    requires forall i :: 0 < i < n ==> InodeKey(i) in rows && InodeKey(i) in more && more[InodeKey(i)] == rows[InodeKey(i)]
    ensures TotalsOf(more, n) == TotalsOf(rows, n)
  {
    if n > ROOT {
      TotalsKeep(rows, more, n - 1);
    }
  }

  lemma {:induction false} TotalsGrow(rows: Rows, next: nat, p: nat, n: Name, row: Row)
    requires Numbered(rows, next) && row.Inode?
    ensures var t, u := TotalsOf(rows, next), TotalsOf(WithChild(rows, next, p, n, row), next + 1);
            if row.dir then u == Totals(t.dirs + 1, t.files, t.bytes) else u == Totals(t.dirs, t.files + 1, t.bytes + row.size)
  {
    TotalsKeep(rows, WithChild(rows, next, p, n, row), next);
  }

  // ---------------------------------------------------------------- growing below one directory

  /** Rows were only added, and new entries lie in `p` or in new directories. */
  ghost predicate Grows(rows: Rows, next: nat, more: Rows, after: nat, p: nat) {
    && next <= after
    && (forall key :: key in rows ==> key in more && more[key] == rows[key])
    && (forall q, m :: DentryKey(q, m) in more && DentryKey(q, m) !in rows ==> q == p || next <= q)
  }

  /** Directories without entries, in order of their inodes, none below `from`. */
  ghost predicate AreLeaves(rows: Rows, next: nat, leaves: seq<nat>, from: nat) {
    && (forall i :: 0 <= i < |leaves| ==> from <= leaves[i] < next && IsDir(rows, leaves[i]) && Empty(rows, leaves[i]))
    && (forall i, j :: 0 <= i < j < |leaves| ==> leaves[i] < leaves[j])
  }

  lemma {:induction false} NewIsEmpty(rows: Rows, next: nat, owed: nat, i: nat)
    requires WellFormed(rows, next, owed) && i >= next
    ensures Empty(rows, i)
  {
  }

  /** Growth below one new child of `p` is growth below `p`. */
  lemma {:induction false} GrowsOn(r0: Rows, n0: nat, r1: Rows, n1: nat, r2: Rows, n2: nat, p: nat, child: nat)
    requires Grows(r0, n0, r1, n1, p) && Grows(r1, n1, r2, n2, child) && n0 <= child
    ensures Grows(r0, n0, r2, n2, p)
  {
  }

  lemma {:induction false} ChildGrows(r0: Rows, n0: nat, rows: Rows, next: nat, p: nat, n: Name, row: Row)
    requires Grows(r0, n0, rows, next, p) && InodeKey(next) !in rows && DentryKey(p, n) !in rows
    ensures Grows(r0, n0, WithChild(rows, next, p, n, row), next + 1, p)
  {
  }

  /** Leaves stay leaves while only later directories get entries. */
  lemma {:induction false} LeavesStay(rows: Rows, next: nat, leaves: seq<nat>, from: nat, more: Rows, after: nat, p: nat)
    requires AreLeaves(rows, next, leaves, from) && Grows(rows, next, more, after, p)
    requires p !in leaves
    ensures AreLeaves(more, after, leaves, from)
  {
    forall i | 0 <= i < |leaves|
      ensures Empty(more, leaves[i])
    {
      assert leaves[i] != p;
      assert Empty(rows, leaves[i]);
      assert leaves[i] < next;
    }
  }

  lemma {:induction false} LeavesJoin(rows: Rows, next: nat, a: seq<nat>, from: nat, b: seq<nat>, mid: nat)
    requires AreLeaves(rows, next, a, from) && AreLeaves(rows, next, b, mid) && from <= mid
    requires forall i :: 0 <= i < |a| ==> a[i] < mid
    ensures AreLeaves(rows, next, a + b, from)
  {
  }

  /** Rows were only added, and new entries lie in the directories `ps` or in new ones. */
  ghost predicate GrowsWithin(rows: Rows, next: nat, more: Rows, after: nat, ps: seq<nat>) {
    && next <= after
    && (forall key :: key in rows ==> key in more && more[key] == rows[key])
    && (forall q, m :: DentryKey(q, m) in more && DentryKey(q, m) !in rows ==> q in ps || next <= q)
  }

  lemma {:induction false} GrowsWithinOn(r0: Rows, n0: nat, r1: Rows, n1: nat, r2: Rows, n2: nat, ps: seq<nat>, p: nat)
    requires GrowsWithin(r0, n0, r1, n1, ps) && Grows(r1, n1, r2, n2, p) && p in ps
    ensures GrowsWithin(r0, n0, r2, n2, ps)
  {
  }

  lemma {:induction false} OthersStayEmpty(rows: Rows, next: nat, more: Rows, after: nat, ps: seq<nat>, p: nat)
    requires GrowsWithin(rows, next, more, after, ps) && IsDir(rows, p) && Empty(rows, p) && p < next && p !in ps
    ensures IsDir(more, p) && Empty(more, p)
  {
  }
}
