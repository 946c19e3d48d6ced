/** The packed-metadata fixture: a directory tree of small files, a few special files, and one large
    file, written as rows that must not collide. Counters are unbounded. */
module FrozenFixture {
  import opened Common
  import opened Arithmetic
  import opened FrozenRows
  import opened FrozenExtents

  function DirRow(parent: nat): Row {
    Inode(true, 0, 2, parent)
  }

  ghost predicate OpenDir(rows: Rows, p: nat) {
    IsDir(rows, p) && Empty(rows, p)
  }

  predicate IsSmall(rows: Rows, l: Layout, i: nat) {
    InodeKey(i) in rows && rows[InodeKey(i)].Inode? && !rows[InodeKey(i)].dir && rows[InodeKey(i)].size == l.smallSize
  }

  /** The first `g` small files have rows of the right size. */
  ghost predicate AllSmall(rows: Rows, l: Layout, g: nat) {
    forall i :: l.firstSmall <= i < l.firstSmall + g ==> IsSmall(rows, l, i)
  }

  lemma {:induction false} SmallStays(rows: Rows, l: Layout, g: nat, more: Rows)
    requires AllSmall(rows, l, g) && forall key :: key in rows ==> key in more && more[key] == rows[key]
    ensures AllSmall(more, l, g)
    ensures IsSmall(more, l, l.firstSmall + g) ==> AllSmall(more, l, g + 1)
  {
    forall i | l.firstSmall <= i < l.firstSmall + g
      ensures IsSmall(more, l, i)
    {
      assert IsSmall(rows, l, i);
    }
  }

  /** The number of directories in a tree of `levels` levels, without its top. */
  function Below(levels: nat, fanout: nat): nat {
    if levels == 0 then 0 else Times(fanout, 1 + Below(levels - 1, fanout))
  }

  /** The fixture under construction. */
  class Snapshot {
    var rows: Rows
    var data: Extents
    var next: nat

    constructor ()
      ensures WellFormed(rows, next, 0) && next == 2 && rows == map[InodeKey(ROOT) := DirRow(0)] && data == map[]
    {
      rows, data, next := map[InodeKey(ROOT) := DirRow(0)], map[], 2;
      new;
      assert LinkSet(rows, ROOT) == {};
    }

    /** `row`: false when the key was taken. */
    method AddRow(key: Key, row: Row) returns (inserted: bool)
      modifies this`rows
      ensures inserted <==> key !in old(rows)
      ensures rows == old(rows)[key := row]
    {
      inserted := key !in rows;
      rows := rows[key := row];
    }

    method AddExtent(key: ExtentKey, extent: Extent) returns (inserted: bool)
      modifies this`data
      ensures inserted <==> key !in old(data)
      ensures data == old(data)[key := extent]
    {
      inserted := key !in data;
      data := data[key := extent];
    }

    /** A new inode with its entry in `p`; neither row collides. */
    method AddChild(p: nat, n: Name, row: Row, ghost owed: nat, ghost owed': nat) returns (ino: nat, ok: bool)
      requires WellFormed(rows, next, owed) && 0 < p < next && rows[InodeKey(p)].dir && DentryKey(p, n) !in rows
      requires row.Inode? && row.parent == p && Usual(n)
      requires if row.dir || row.nlink == 1 then owed' == owed < next else row.nlink == 2 && owed' == next && owed == 0
      modifies this`rows, this`next
      ensures ok && ino == old(next) && next == old(next) + 1
      ensures rows == WithChild(old(rows), old(next), p, n, row) && WellFormed(rows, next, owed')
      ensures var t := TotalsOf(old(rows), old(next));
              TotalsOf(rows, next) ==
                if row.dir then Totals(t.dirs + 1, t.files, t.bytes) else Totals(t.dirs, t.files + 1, t.bytes + row.size)
    {
      ChildKeeps(rows, next, owed, p, n, row, owed');
      TotalsGrow(rows, next, p, n, row);
      ino := next;
      next := next + 1;
      var inodeFresh := AddRow(InodeKey(ino), row);
      var entryFresh := AddRow(DentryKey(p, n), Target(ino));
      ok := inodeFresh && entryFresh;
    }

    /** `build_directory_tree`: the directories below `parent`, and the leaves among them in order. */
    method BuildDirectoryTree(parent: nat, level: nat, levels: nat, fanout: nat) returns (ok: bool, leaves: seq<nat>)
      requires WellFormed(rows, next, 0) && 0 < parent < next && rows[InodeKey(parent)].dir && Empty(rows, parent)
      requires level <= levels
      modifies this`rows, this`next
      ensures ok && WellFormed(rows, next, 0) && Grows(old(rows), old(next), rows, next, parent)
      ensures AreLeaves(rows, next, leaves, if level == levels then parent else old(next))
      ensures level == levels ==> leaves == [parent]
      ensures |leaves| == Pow(fanout, levels - level) && next == old(next) + Below(levels - level, fanout)
      ensures var t := TotalsOf(old(rows), old(next));
              TotalsOf(rows, next) == Totals(t.dirs + (next - old(next)), t.files, t.bytes)
      ensures level < levels ==> forall n :: DentryKey(parent, n) in rows ==> n.DirNo? && n.index < fanout
      decreases levels - level, 0
    {
      if level == levels {
        return true, [parent];
      }
      ok, leaves := true, [];
      ghost var r0, n0 := rows, next;
      for c := 0 to fanout
        invariant ok && WellFormed(rows, next, 0) && Grows(r0, n0, rows, next, parent)
        invariant forall n :: DentryKey(parent, n) in rows ==> n.DirNo? && n.index < c
        invariant AreLeaves(rows, next, leaves, n0) && |leaves| == Times(c, Pow(fanout, levels - level - 1))
        invariant next == n0 + Times(c, 1 + Below(levels - level - 1, fanout))
        invariant var t := TotalsOf(r0, n0); TotalsOf(rows, next) == Totals(t.dirs + (next - n0), t.files, t.bytes)
      {
        ok, leaves := AddSubtree(parent, level, levels, fanout, c, r0, n0, ok, leaves);
      }
    }

    /** One child of `parent` and everything below it. */
    method AddSubtree(parent: nat, level: nat, levels: nat, fanout: nat, c: nat, ghost r0: Rows, ghost n0: nat,
                      ok: bool, leaves: seq<nat>)
      returns (ok': bool, leaves': seq<nat>)
      requires ok && WellFormed(rows, next, 0) && Grows(r0, n0, rows, next, parent)
      requires 0 < parent < n0 && rows[InodeKey(parent)].dir && level < levels
      requires forall n :: DentryKey(parent, n) in rows ==> n.DirNo? && n.index < c
      requires AreLeaves(rows, next, leaves, n0)
      modifies this`rows, this`next
      ensures ok' && WellFormed(rows, next, 0) && Grows(r0, n0, rows, next, parent)
      ensures forall n :: DentryKey(parent, n) in rows ==> n.DirNo? && n.index < c + 1
      ensures AreLeaves(rows, next, leaves', n0) && |leaves'| == |leaves| + Pow(fanout, levels - level - 1)
      ensures next == old(next) + 1 + Below(levels - level - 1, fanout)
      ensures var t := TotalsOf(old(rows), old(next));
              TotalsOf(rows, next) == Totals(t.dirs + (next - old(next)), t.files, t.bytes)
      decreases levels - level - 1, 1
    {
      ghost var r1, n1 := rows, next;
      NewIsEmpty(r1, n1, 0, n1);
      ChildGrows(r0, n0, r1, n1, parent, DirNo(c), DirRow(parent));
      ChildGrows(r1, n1, r1, n1, parent, DirNo(c), DirRow(parent));
      var inode, added := AddChild(parent, DirNo(c), DirRow(parent), 0, 0);
      ghost var r2, n2 := rows, next;
      LeavesStay(r1, n1, leaves, n0, r2, n2, parent);
      var built, below := BuildDirectoryTree(inode, level + 1, levels, fanout);
      LeavesStay(r2, n2, leaves, n0, rows, next, inode);
      LeavesJoin(rows, next, leaves, n0, below, inode);
      GrowsOn(r0, n0, r2, n2, rows, next, parent, inode);
      ok', leaves' := ok && added && built, leaves + below;
    }

    /** What holds while small files are added: `g` of them so far, in inodes counted from the first;
        the first one is owed its second link. */
    ghost predicate SmallInv(l: Layout, g: nat, t: Totals)
      reads this
    {
      && LayoutOk(l) && next == l.firstSmall + g && l.firstSmall > ROOT && g <= l.smallCount
      && WellFormed(rows, next, if g == 0 then 0 else l.firstSmall)
      && Holds(l, data, g, 0)
      && AllSmall(rows, l, g)
      && TotalsOf(rows, next) == Totals(t.dirs, t.files + g, t.bytes + Times(g, l.smallSize))
    }

    /** One small file, number `g` of the fixture: inode, entry and extent. */
    method AddSmallFile(l: Layout, leaf: nat, file: nat, g: nat, ghost t: Totals) returns (ok: bool)
      requires SmallInv(l, g, t) && g < l.smallCount
      requires 0 < leaf < next && rows[InodeKey(leaf)].dir && DentryKey(leaf, FileNo(file)) !in rows
      modifies this
      ensures ok && SmallInv(l, g + 1, t)
      ensures rows == WithChild(old(rows), old(next), leaf, FileNo(file),
                                Inode(false, l.smallSize, if g == 0 then 2 else 1, leaf))
    {
      var nlink := if next == l.firstSmall then 2 else 1;
      AddSmall(l, data, g);
      var inode, added := AddChild(leaf, FileNo(file), Inode(false, l.smallSize, nlink, leaf),
                                   if g == 0 then 0 else l.firstSmall, l.firstSmall);
      SmallStays(old(rows), l, g, rows);
      var inserted := AddExtent(ExtentKey(inode, 0, 0), Extent(l.smallSize, l.smallSlices + g, 0));
      ok := added && inserted;
    }

    /** The files of one leaf directory. */
    method AddLeafFiles(l: Layout, leaf: nat, base: nat, filesPerDir: nat, ghost t: Totals) returns (ok: bool)
      requires SmallInv(l, base, t) && base + filesPerDir <= l.smallCount
      requires 0 < leaf < next && rows[InodeKey(leaf)].dir && Empty(rows, leaf)
      modifies this
      ensures ok && SmallInv(l, base + filesPerDir, t)
      ensures Grows(old(rows), old(next), rows, next, leaf)
    {
      ghost var r0, n0 := rows, next;
      ok := true;
      for file := 0 to filesPerDir
        invariant ok && SmallInv(l, base + file, t)
        invariant Grows(r0, n0, rows, next, leaf)
        invariant forall n :: DentryKey(leaf, n) in rows ==> n.FileNo? && n.index < file
      {
        ChildGrows(r0, n0, rows, next, leaf, FileNo(file),
                   Inode(false, l.smallSize, if base + file == 0 then 2 else 1, leaf));
        var added := AddSmallFile(l, leaf, file, base + file, t);
        ok := ok && added;
      }
    }

    /** The files of all leaf directories. */
    method AddSmallFiles(l: Layout, leaves: seq<nat>, filesPerDir: nat, ghost t: Totals) returns (ok: bool)
      requires SmallInv(l, 0, t) && l.smallCount == Times(|leaves|, filesPerDir) && AreLeaves(rows, next, leaves, 2)
      modifies this
      ensures ok && SmallInv(l, l.smallCount, t)
      ensures GrowsWithin(old(rows), old(next), rows, next, leaves)
    {
      ok := true;
      ghost var first, from := rows, next;
      assert leaves[0..] == leaves;
      for d := 0 to |leaves|
        invariant ok && SmallInv(l, Times(d, filesPerDir), t)
        invariant GrowsWithin(first, from, rows, next, leaves)
        invariant AreLeaves(rows, next, leaves[d..], 2)
      {
        ghost var r0, n0 := rows, next;
        assert leaves[d..][0] == leaves[d];
        LeavesTail(r0, n0, leaves, d);
        TimesIsMonotone(d, |leaves|, filesPerDir);
        var added := AddLeafFiles(l, leaves[d], Times(d, filesPerDir), filesPerDir, t);
        LeavesStay(r0, n0, leaves[d + 1..], 2, rows, next, leaves[d]);
        GrowsWithinOn(first, from, r0, n0, rows, next, leaves, leaves[d]);
        ok := ok && added;
      }
    }

    /** A file with a fixed name in `dir`, which holds only the names `used`. */
    method AddNamed(dir: nat, name: string, size: nat, ghost used: seq<string>) returns (ok: bool)
      requires WellFormed(rows, next, 0) && 0 < dir < next && rows[InodeKey(dir)].dir
      requires name in FIXED && name !in used && forall n :: DentryKey(dir, n) in rows ==> n.Named? && n.text in used
      modifies this`rows, this`next
      ensures ok && WellFormed(rows, next, 0) && next == old(next) + 1
      ensures forall n :: DentryKey(dir, n) in rows ==> n.Named? && n.text in used + [name]
      ensures var t := TotalsOf(old(rows), old(next));
              TotalsOf(rows, next) == Totals(t.dirs, t.files + 1, t.bytes + size)
      ensures rows == WithChild(old(rows), old(next), dir, Named(name), Inode(false, size, 1, dir))
    {
      var ino, added := AddChild(dir, Named(name), Inode(false, size, 1, dir), 0, 0);
      ok := added;
    }

    /** The special files, next to the hard link and the symbolic link. */
    method AddSpecials(verify: nat) returns (ok: bool)
      requires WellFormed(rows, next, 0) && 0 < verify < next && rows[InodeKey(verify)].dir
      requires forall n :: DentryKey(verify, n) in rows ==> n.Named? && n.text in ["hardlink", "symlink"]
      modifies this`rows, this`next
      ensures ok && WellFormed(rows, next, 0) && next == old(next) + 4
      ensures var t := TotalsOf(old(rows), old(next)); TotalsOf(rows, next) == Totals(t.dirs, t.files + 4, t.bytes)
      ensures Grows(old(rows), old(next), rows, next, verify)
    {
      ghost var r0, n0 := rows, next;
      var names := ["fifo", "socket", "char", "block"];
      ghost var used := ["hardlink", "symlink"];
      ok := true;
      for i := 0 to |names|
        invariant ok && WellFormed(rows, next, 0) && next == n0 + i
        invariant used == ["hardlink", "symlink"] + names[..i]
        invariant forall n :: DentryKey(verify, n) in rows ==> n.Named? && n.text in used
        invariant var t := TotalsOf(r0, n0); TotalsOf(rows, next) == Totals(t.dirs, t.files + i, t.bytes)
        invariant Grows(r0, n0, rows, next, verify)
      {
        FixedNamesDiffer(names, i);
        ChildGrows(r0, n0, rows, next, verify, Named(names[i]), Inode(false, 0, 1, verify));
        var added := AddNamed(verify, names[i], 0, used);
        ok := ok && added;
        used := used + [names[i]];
      }
    }

    /** The second link of the first small file, the symbolic link, and the special files. */
    method AddShapes(verify: nat, owed: nat, targetLen: nat) returns (ok: bool)
      requires WellFormed(rows, next, owed) && ROOT < owed < next && !rows[InodeKey(owed)].dir
      requires 0 < verify < next && rows[InodeKey(verify)].dir && Empty(rows, verify)
      modifies this`rows, this`next
      ensures ok && WellFormed(rows, next, 0) && next == old(next) + 5
      ensures var t := TotalsOf(old(rows), old(next));
              TotalsOf(rows, next) == Totals(t.dirs, t.files + 5, t.bytes + targetLen)
      ensures Grows(old(rows), old(next), rows, next, verify)
    {
      ghost var r0, n0 := rows, next;
      assert FIXED[2] == "hardlink" && FIXED[3] == "symlink";
      HardlinkKeeps(rows, next, owed, verify, Named("hardlink"));
      ok := AddRow(DentryKey(verify, Named("hardlink")), Target(owed));
      TotalsKeep(r0, rows, next);
      ChildGrows(r0, n0, rows, next, verify, Named("symlink"), Inode(false, targetLen, 1, verify));
      var linked := AddNamed(verify, "symlink", targetLen, ["hardlink"]);
      ghost var r1, n1 := rows, next;
      var added := AddSpecials(verify);
      ok := ok && linked && added;
    }

    /** The extents of the large file, one per block. */
    method AddBlocks(l: Layout) returns (ok: bool)
      requires LayoutOk(l) && Holds(l, data, l.smallCount, 0)
      modifies this`data
      ensures ok && Holds(l, data, l.smallCount, l.blockCount)
    {
      ok := true;
      for b := 0 to l.blockCount
        invariant ok && Holds(l, data, l.smallCount, b)
      {
        AddBlock(l, data, b);
        var offset := b * l.block;
        TimesIsProduct(b, l.block);
        DivisionIsQuot(offset, l.chunkSize);
        var inserted := AddExtent(ExtentKey(l.bench, offset / l.chunkSize, offset % l.chunkSize),
                                  Extent(l.block, l.benchSlices + b, offset % l.chunkSize));
        ok := ok && inserted;
      }
    }
  }

  lemma {:induction false} FixedNamesDiffer(names: seq<string>, i: nat)
    requires names == ["fifo", "socket", "char", "block"] && i < |names|
    ensures names[i] !in ["hardlink", "symlink"] + names[..i] && names[i] in FIXED
  {
    assert names[i] == FIXED[i + 4];
    var before := ["hardlink", "symlink"] + names[..i];
    forall j | 0 <= j < |before|
      ensures before[j] != names[i]
    {
      assert before[j] == ["hardlink", "symlink", "fifo", "socket", "char", "block"][j];
      assert |before[j]| != |names[i]| || before[j][0] != names[i][0];
    }
  }

  lemma {:induction false} LeavesTail(rows: Rows, next: nat, leaves: seq<nat>, d: nat)
    requires d < |leaves| && AreLeaves(rows, next, leaves[d..], 2)
    ensures AreLeaves(rows, next, leaves[d + 1..], 2)
    ensures leaves[d] !in leaves[d + 1..]
  {
    var rest := leaves[d..];
    assert rest[0] == leaves[d] && leaves[d + 1..] == rest[1..];
  }

  // ---------------------------------------------------------------- the whole fixture

  datatype Args = Args(dirs: nat, dirLevels: nat, dirsPerLevel: nat, filesPerDir: nat, smallSize: nat,
                       fioSize: nat, chunkSize: nat, blockSize: nat)

  /** Levels and fanout; zero levels ask for the flat layout. */
  function Shape(args: Args): (nat, nat) {
    if args.dirLevels == 0 then (1, args.dirs) else (args.dirLevels, args.dirsPerLevel)
  }

  /** The argument checks of `main`. The small size fits a block and the block a chunk, so the later
      check that it fits one chunk never fails. */
  predicate Accepts(args: Args) {
    && args.smallSize > 0 && args.filesPerDir > 0
    && args.smallSize <= args.blockSize && args.smallSize <= 4 * 1024 * 1024
    && args.chunkSize >= args.blockSize
    && Rem(args.fioSize, args.blockSize) == 0 && Rem(args.fioSize, args.chunkSize) == 0
    && (if args.dirLevels == 0 then args.dirs > 0 else args.dirsPerLevel > 0) && args.dirLevels <= 32
  }

  datatype Refusal = SizesDoNotFit | NothingToWrite | NoDirectories | TooManyLevels | SmallFileTooLarge

  /** Division without a divisor: only zero is a multiple of zero. */
  predicate IsMultiple(n: nat, d: nat) {
    if d == 0 then n == 0 else n % d == 0
  }

  /** The checks in order; the first that fails decides. */
  method CheckArgs(args: Args) returns (refusal: Option<Refusal>)
    ensures refusal.None? <==> Accepts(args)
    ensures refusal == Some(SizesDoNotFit) <==>
            args.chunkSize < args.blockSize || !IsMultiple(args.fioSize, args.blockSize)
            || !IsMultiple(args.fioSize, args.chunkSize)
    ensures refusal == Some(NothingToWrite) ==> args.smallSize == 0 || args.filesPerDir == 0
    ensures refusal == Some(NoDirectories) ==> if args.dirLevels == 0 then args.dirs == 0 else args.dirsPerLevel == 0
    ensures refusal == Some(TooManyLevels) ==> args.dirLevels > 32
    ensures refusal == Some(SmallFileTooLarge) ==> args.smallSize > args.blockSize || args.smallSize > 4_194_304
  {
    if args.blockSize > 0 {
      DivisionIsQuot(args.fioSize, args.blockSize);
    }
    if args.chunkSize > 0 {
      DivisionIsQuot(args.fioSize, args.chunkSize);
    }
    if args.chunkSize < args.blockSize || !IsMultiple(args.fioSize, args.blockSize)
       || !IsMultiple(args.fioSize, args.chunkSize) {
      return Some(SizesDoNotFit);
    }
    if args.smallSize == 0 || args.filesPerDir == 0 {
      return Some(NothingToWrite);
    }
    var levels := args.dirLevels;
    if levels == 0 {
      if args.dirs == 0 {
        return Some(NoDirectories);
      }
      levels := 1;
    } else if args.dirsPerLevel == 0 {
      return Some(NoDirectories);
    }
    if levels > 32 {
      return Some(TooManyLevels);
    }
    if args.smallSize > args.blockSize || args.smallSize > 4 * 1024 * 1024 {
      return Some(SmallFileTooLarge);
    }
    refusal := None;
  }

  datatype Counters = Counters(files: nat, directories: nat, bytes: nat)

  /** A directory with a fixed name in the root, next to a tree whose leaves stay as they are. */
  method AddTopDirectory(snapshot: Snapshot, name: string, leaves: seq<nat>) returns (dir: nat, ok: bool)
    requires WellFormed(snapshot.rows, snapshot.next, 0) && AreLeaves(snapshot.rows, snapshot.next, leaves, 2)
    requires name in FIXED && DentryKey(ROOT, Named(name)) !in snapshot.rows
    modifies snapshot`rows, snapshot`next
    ensures ok && dir == old(snapshot.next) && snapshot.next == dir + 1
    ensures WellFormed(snapshot.rows, snapshot.next, 0) && AreLeaves(snapshot.rows, snapshot.next, leaves, 2)
    ensures OpenDir(snapshot.rows, dir) && dir !in leaves
    ensures snapshot.rows == WithChild(old(snapshot.rows), old(snapshot.next), ROOT, Named(name), DirRow(ROOT))
    ensures var t := TotalsOf(old(snapshot.rows), old(snapshot.next));
            TotalsOf(snapshot.rows, snapshot.next) == Totals(t.dirs + 1, t.files, t.bytes)
  {
    ghost var r, n := snapshot.rows, snapshot.next;
    ChildGrows(r, n, r, n, ROOT, Named(name), DirRow(ROOT));
    NewIsEmpty(r, n, 0, n);
    dir, ok := snapshot.AddChild(ROOT, Named(name), DirRow(ROOT), 0, 0);
    LeavesStay(r, n, leaves, 2, snapshot.rows, snapshot.next, ROOT);
  }

  /** The directory part: the corpus, `bench` and `verify`. */
  method BuildDirectories(levels: nat, fanout: nat)
    returns (snapshot: Snapshot, leaves: seq<nat>, bench: nat, verify: nat, ok: bool)
    requires levels > 0 && fanout > 0
    ensures ok && fresh(snapshot) && WellFormed(snapshot.rows, snapshot.next, 0) && snapshot.data == map[]
    ensures |leaves| == Pow(fanout, levels) && AreLeaves(snapshot.rows, snapshot.next, leaves, 2)
    ensures snapshot.next > 3 && bench == snapshot.next - 2 && verify == snapshot.next - 1
    ensures OpenDir(snapshot.rows, bench) && OpenDir(snapshot.rows, verify) && bench !in leaves && verify !in leaves
    ensures TotalsOf(snapshot.rows, snapshot.next) == Totals(snapshot.next - 1, 0, 0)
    ensures snapshot.next == 4 + Below(levels, fanout)
  {
    assert FIXED[0] == "bench" && FIXED[1] == "verify";
    snapshot := new Snapshot();
    assert TotalsOf(snapshot.rows, 2) == Totals(1, 0, 0);
    ok, leaves := snapshot.BuildDirectoryTree(ROOT, 0, levels, fanout);
    var added;
    bench, added := AddTopDirectory(snapshot, "bench", leaves);
    ok := ok && added;
    verify, added := AddTopDirectory(snapshot, "verify", leaves);
    ok := ok && added;
  }

  /** The number of leaf directories, and of all directories of the corpus; zero levels ask for the flat
      layout. */
  function LeafCount(args: Args): nat {
    if args.dirLevels == 0 then args.dirs else Pow(args.dirsPerLevel, args.dirLevels)
  }

  function DirectoryCount(args: Args): nat {
    if args.dirLevels == 0 then args.dirs else Below(args.dirLevels, args.dirsPerLevel)
  }

  lemma {:induction false} ShapeCounts(args: Args)
    ensures Pow(Shape(args).1, Shape(args).0) == LeafCount(args)
    ensures Below(Shape(args).0, Shape(args).1) == DirectoryCount(args)
  {
    if args.dirLevels == 0 {
      TimesIsProduct(args.dirs, 1);
      assert Pow(args.dirs, 1) == Times(args.dirs, Pow(args.dirs, 0));
      assert Below(1, args.dirs) == Times(args.dirs, 1 + Below(0, args.dirs));
    }
  }

  /** What the finished fixture is: one tree with right link counts, counters that match the rows, and
      the extents of every file, with slices counted on from the slice base. */
  ghost predicate Complete(args: Args, sliceBase: nat, targetLen: nat, rows: Rows, next: nat, data: Extents, l: Layout, c: Counters)
    requires Accepts(args)
  {
    && WellFormed(rows, next, 0) && TotalsOf(rows, next) == Totals(c.directories, c.files, c.bytes)
    && LayoutOk(l) && Holds(l, data, l.smallCount, l.blockCount)
    && l.smallCount == Times(LeafCount(args), args.filesPerDir) && l.smallSize == args.smallSize
    && l.smallSlices == sliceBase + 1 && l.benchSlices == sliceBase + l.smallCount + 2
    && c.directories == DirectoryCount(args) + 3
    && l.block == args.blockSize && l.chunkSize == args.chunkSize && Times(l.blockCount, l.block) == args.fioSize
    && AllSmall(rows, l, l.smallCount)
    && InodeKey(l.bench) in rows && rows[InodeKey(l.bench)].Inode? && rows[InodeKey(l.bench)].size == args.fioSize
    && c.files == l.smallCount + 6 && c.bytes == args.fioSize + Times(l.smallCount, l.smallSize) + targetLen
  }

  /** The parameters of the data rows, from the arguments and the first small inode. */
  function LayoutOf(args: Args, firstSmall: nat, smallCount: nat, sliceBase: nat): Layout
    requires args.blockSize > 0
  {
    Layout(firstSmall, smallCount, args.smallSize, sliceBase + 1, firstSmall + smallCount + 5,
           args.fioSize / args.blockSize, args.blockSize, args.chunkSize, sliceBase + 1 + smallCount + 1)
  }

  lemma {:induction false} LayoutFits(args: Args, firstSmall: nat, smallCount: nat, sliceBase: nat)
    requires Accepts(args)
    ensures var l := LayoutOf(args, firstSmall, smallCount, sliceBase);
            LayoutOk(l) && Times(l.blockCount, l.block) == args.fioSize && Holds(l, map[], 0, 0)
  {
    DivisionIsQuot(args.fioSize, args.blockSize);
    QuotRem(args.fioSize, args.blockSize);
  }

  /** The shapes and the large file, after the small files. */
  method AddRest(args: Args, snapshot: Snapshot, l: Layout, bench: nat, verify: nat, targetLen: nat, ghost t: Totals)
    returns (ok: bool)
    requires snapshot.SmallInv(l, l.smallCount, t) && l.smallCount > 0 && l.bench == l.firstSmall + l.smallCount + 5
    requires 0 < bench < l.firstSmall && 0 < verify < l.firstSmall && bench != verify
    requires OpenDir(snapshot.rows, bench) && OpenDir(snapshot.rows, verify)
    modifies snapshot
    ensures ok && WellFormed(snapshot.rows, snapshot.next, 0) && Holds(l, snapshot.data, l.smallCount, l.blockCount)
    ensures AllSmall(snapshot.rows, l, l.smallCount)
    ensures InodeKey(l.bench) in snapshot.rows && snapshot.rows[InodeKey(l.bench)] == Inode(false, args.fioSize, 1, bench)
    ensures TotalsOf(snapshot.rows, snapshot.next)
         == Totals(t.dirs, t.files + l.smallCount + 6, t.bytes + Times(l.smallCount, l.smallSize) + targetLen + args.fioSize)
  {
    ghost var r0 := snapshot.rows;
    assert IsSmall(snapshot.rows, l, l.firstSmall);
    ok := snapshot.AddShapes(verify, l.firstSmall, targetLen);
    assert FIXED[8] == "read.bin";
    var added := snapshot.AddNamed(bench, "read.bin", args.fioSize, []);
    SmallStays(r0, l, l.smallCount, snapshot.rows);
    ok := ok && added;
    added := snapshot.AddBlocks(l);
    ok := ok && added;
  }

  /** Everything after the directories. */
  method BuildFiles(args: Args, snapshot: Snapshot, leaves: seq<nat>, bench: nat, verify: nat, sliceBase: nat, targetLen: nat)
    returns (counters: Counters, ok: bool, ghost l: Layout)
    requires Accepts(args)
    requires WellFormed(snapshot.rows, snapshot.next, 0) && snapshot.data == map[]
    requires |leaves| == LeafCount(args) && snapshot.next == 4 + DirectoryCount(args) && AreLeaves(snapshot.rows, snapshot.next, leaves, 2)
    requires bench == snapshot.next - 2 && verify == snapshot.next - 1
    requires OpenDir(snapshot.rows, bench) && OpenDir(snapshot.rows, verify) && bench !in leaves && verify !in leaves
    requires TotalsOf(snapshot.rows, snapshot.next) == Totals(snapshot.next - 1, 0, 0) && |leaves| > 0
    modifies snapshot
    ensures ok && Complete(args, sliceBase, targetLen, snapshot.rows, snapshot.next, snapshot.data, l, counters)
  {
    var smallCount := Times(|leaves|, args.filesPerDir);
    var layout := LayoutOf(args, snapshot.next, smallCount, sliceBase);
    LayoutFits(args, snapshot.next, smallCount, sliceBase);
    TimesIsMonotone(0, |leaves|, args.filesPerDir);
    var corpusDirectories := snapshot.next - 4;
    ghost var t := TotalsOf(snapshot.rows, snapshot.next);
    ghost var r0, n0 := snapshot.rows, snapshot.next;
    ok := snapshot.AddSmallFiles(layout, leaves, args.filesPerDir, t);
    OthersStayEmpty(r0, n0, snapshot.rows, snapshot.next, leaves, verify);
    OthersStayEmpty(r0, n0, snapshot.rows, snapshot.next, leaves, bench);
    var added := AddRest(args, snapshot, layout, bench, verify, targetLen, t);
    ok := ok && added;
    counters := Counters(1 + smallCount + 5, corpusDirectories + 3,
                         args.fioSize + Times(smallCount, args.smallSize) + targetLen);
    l := layout;
  }

  /** The fixture builder: it accepts exactly the arguments that pass the checks, no row ever collides,
      and the result is complete. */
  method BuildFixture(args: Args, sliceBase: nat, targetLen: nat)
    returns (counters: Option<Counters>, snapshot: Snapshot, ghost l: Layout)
    ensures counters.Some? <==> Accepts(args)
    ensures counters.Some? ==>
              Complete(args, sliceBase, targetLen, snapshot.rows, snapshot.next, snapshot.data, l, counters.value)
  {
    l := Layout(0, 0, 0, 0, 0, 0, 0, 0, 0);
    var refusal := CheckArgs(args);
    if refusal.Some? {
      snapshot := new Snapshot();
      return None, snapshot, l;
    }
    var (levels, fanout) := Shape(args);
    ShapeCounts(args);
    PowPositive(fanout, levels);
    var leaves, bench, verify, built;
    snapshot, leaves, bench, verify, built := BuildDirectories(levels, fanout);
    var made, ok;
    made, ok, l := BuildFiles(args, snapshot, leaves, bench, verify, sliceBase, targetLen);
    counters := if built && ok then Some(made) else None;
  }

  // ---------------------------------------------------------------- chunk boundaries

  /** `main` asks that the large file is a whole number of blocks and of chunks, but not that blocks
      divide chunks. With accepted arguments its rows all stay inside one chunk exactly when they do,
      or when it is empty. */
  lemma {:induction false} AcceptedRowsStayInChunks(args: Args, firstSmall: nat, smallCount: nat, sliceBase: nat)
    requires Accepts(args)
    ensures var l := LayoutOf(args, firstSmall, smallCount, sliceBase);
            (forall b :: 0 <= b < l.blockCount ==> InsideChunk(l, b)) <==>
            args.fioSize == 0 || Rem(args.chunkSize, args.blockSize) == 0
  {
    var l := LayoutOf(args, firstSmall, smallCount, sliceBase);
    LayoutFits(args, firstSmall, smallCount, sliceBase);
    if args.fioSize == 0 {
      DivisionIsQuot(0, args.blockSize);
    } else {
      QuotRem(args.fioSize, args.chunkSize);
      RowsStayInChunks(l, Quot(args.fioSize, args.chunkSize));
    }
  }

  /** Accepted arguments whose second block crosses a chunk boundary: three blocks of two bytes in two
      chunks of three. */
  lemma {:induction false} CrossingExample() returns (args: Args)
    ensures Accepts(args) && LayoutOf(args, 5, 1, 0).blockCount == 3 && !InsideChunk(LayoutOf(args, 5, 1, 0), 1)
  {
    args := Args(1, 0, 1, 1, 1, 6, 3, 2);
    assert Rem(6, 2) == Rem(4, 2) == Rem(2, 2) == 0 && Rem(6, 3) == Rem(3, 3) == 0;
  }
}
