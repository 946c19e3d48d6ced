/** The producer that packs the generated corpus into groups of files per directory. It describes
    the same files as the producer that uploads one object per file. The optional extra corpora
    (cold attributes, hard links) are off. */
module FixturePacked {
  import opened Common
  import opened Arithmetic
  import opened FixtureTree
  import opened FixtureWalk
  import opened FixtureCorpus

  const MAX_GROUP_FILES := 256
  const FLUSH_BYTES := 8 * MIB

  datatype Item = SubDir(name: Component, inode: nat) | FileItem(name: Component, inode: nat, content: Content)

  /** A container: the directory's inode, the shard number inside it, and its items. */
  datatype Group = Group(dir: nat, shard: nat, items: seq<Item>)

  // ---------------------------------------------------------------- one leaf directory

  function ItemsOf(groups: seq<Group>): seq<Item> {
    if groups == [] then [] else ItemsOf(groups[..|groups| - 1]) + groups[|groups| - 1].items
  }

  function Weight(item: Item): nat {
    if item.FileItem? then item.content.size else 0
  }

  function SizeSum(items: seq<Item>): nat {
    if items == [] then 0 else SizeSum(items[..|items| - 1]) + Weight(items[|items| - 1])
  }

  /** The files of one leaf directory as items, in order. */
  function LeafItems(c: Corpus, first: nat, inode: nat, count: nat): seq<Item>
    requires Shaped(c)
  {
    if count == 0 then []
    else LeafItems(c, first, inode, count - 1) +
         [FileItem(FileNo(count - 1), inode + count - 1, ContentOf(c, first + count - 1))]
  }

  ghost predicate SmallFiles(c: Corpus) {
    forall g: nat :: c.sizeOf(g) <= MAX_FILE_SIZE
  }

  /** A shard is never empty, holds at most 256 files and less than 12 MiB. */
  predicate Bounded(items: seq<Item>) {
    0 < |items| <= MAX_GROUP_FILES && SizeSum(items) < FLUSH_BYTES + MAX_FILE_SIZE
  }

  /** Shards of one directory are numbered from zero and stay within the bounds. */
  predicate Shards(groups: seq<Group>, dir: nat) {
    forall i :: 0 <= i < |groups| ==> groups[i].dir == dir && groups[i].shard == i && Bounded(groups[i].items)
  }

  /** The closed shards followed by the open one hold `all`. */
  predicate Sharded(groups: seq<Group>, dir: nat, files: seq<Item>, all: seq<Item>) {
    && ItemsOf(groups) + files == all
    && Shards(groups, dir)
    && (files != [] ==> Bounded(files))
  }

  /** The bytes of the items that are small enough to be stored inline. */
  function InlineSum(items: seq<Item>, limit: nat): nat {
    if items == [] then 0
    else
      var size := Weight(items[|items| - 1]);
      InlineSum(items[..|items| - 1], limit) + if size <= limit then size else 0
  }

  /** The rule by which inline data forces a flush: what is stored inline so far, and the next size. */
  type FlushRule = (nat, nat) -> bool

  /** A group with these items cannot take the next one. */
  predicate Full(items: seq<Item>, next: Item, limit: nat, rule: FlushRule) {
    SizeSum(items) >= 8 * 1024 * 1024 || |items| >= 256 || rule(InlineSum(items, limit), Weight(next))
  }

  /** A group took each of its items only while it was not full. */
  predicate Filled(items: seq<Item>, limit: nat, rule: FlushRule) {
    |items| > 1 ==>
      var last := |items| - 1;
      Filled(items[..last], limit, rule) && !Full(items[..last], items[last], limit, rule)
  }

  /** Group `i` was started because the one before it, of the same directory, was full. */
  predicate StartsAfter(groups: seq<Group>, i: nat, limit: nat, rule: FlushRule)
    requires i < |groups|
  {
    && i > 0 && groups[i - 1].dir == groups[i].dir && groups[i].items != []
    && Full(groups[i - 1].items, groups[i].items[0], limit, rule)
  }

  /** No group was closed before it was full, and none was filled further: this decides how a list of
      items is split. */
  predicate Greedy(groups: seq<Group>, limit: nat, rule: FlushRule) {
    groups != [] ==>
      var last := |groups| - 1;
      && Greedy(groups[..last], limit, rule) && Filled(groups[last].items, limit, rule)
      && (last > 0 ==> StartsAfter(groups, last, limit, rule))
  }

  lemma {:induction false} GreedyAt(groups: seq<Group>, k: nat, limit: nat, rule: FlushRule)
    requires Greedy(groups, limit, rule) && k < |groups|
    ensures Filled(groups[k].items, limit, rule) && (k > 0 ==> StartsAfter(groups, k, limit, rule))
  {
    var last := |groups| - 1;
    if k < last {
      GreedyAt(groups[..last], k, limit, rule);
    }
  }

  lemma {:induction false} CloseShard(groups: seq<Group>, dir: nat, files: seq<Item>, all: seq<Item>)
    requires Sharded(groups, dir, files, all) && files != []
    ensures Sharded(groups + [Group(dir, |groups|, files)], dir, [], all)
  {
    var longer := groups + [Group(dir, |groups|, files)];
    assert longer[..|groups|] == groups;
    assert ItemsOf(longer) + [] == all;
  }

  lemma {:induction false} FillShard(groups: seq<Group>, dir: nat, files: seq<Item>, all: seq<Item>, item: Item, limit: nat)
    requires Sharded(groups, dir, files, all) && Weight(item) <= MAX_FILE_SIZE
    requires SizeSum(files) < FLUSH_BYTES && |files| < MAX_GROUP_FILES
    ensures Sharded(groups, dir, files + [item], all + [item])
    ensures SizeSum(files + [item]) == SizeSum(files) + Weight(item)
    ensures InlineSum(files + [item], limit) == InlineSum(files, limit) + if Weight(item) <= limit then Weight(item) else 0
  {
    Reassociate(ItemsOf(groups), files, [item]);
    assert (files + [item])[..|files|] == files;
  }

  /** The loop's variables after some files: the closed shards, the open one, and its running sums. */
  datatype Sharding = Sharding(groups: seq<Group>, files: seq<Item>, pending: nat, pendingInline: nat)

  predicate ShardedSoFar(x: Sharding, dir: nat, all: seq<Item>, limit: nat, rule: FlushRule) {
    && Sharded(x.groups, dir, x.files, all)
    && Greedy(x.groups, limit, rule) && Filled(x.files, limit, rule)
    && (x.groups != [] ==> x.files != [] && Full(x.groups[|x.groups| - 1].items, x.files[0], limit, rule))
    && x.pending == SizeSum(x.files) && x.pendingInline == InlineSum(x.files, limit)
  }

  lemma {:induction false} GreedyClose(x: Sharding, dir: nat, all: seq<Item>, limit: nat, rule: FlushRule)
    requires ShardedSoFar(x, dir, all, limit, rule) && x.files != []
    ensures Greedy(x.groups + [Group(dir, |x.groups|, x.files)], limit, rule)
  {
    var longer := x.groups + [Group(dir, |x.groups|, x.files)];
    assert longer[..|x.groups|] == x.groups;
  }

  lemma {:induction false} TakesItem(x: Sharding, dir: nat, all: seq<Item>, item: Item, limit: nat, rule: FlushRule)
    requires ShardedSoFar(x, dir, all, limit, rule) && Weight(item) <= MAX_FILE_SIZE
    requires x.files != [] ==> !Full(x.files, item, limit, rule)
    ensures ShardedSoFar(Sharding(x.groups, x.files + [item], x.pending + Weight(item),
                                  x.pendingInline + if Weight(item) <= limit then Weight(item) else 0),
                         dir, all + [item], limit, rule)
  {
    FillShard(x.groups, dir, x.files, all, item, limit);
    assert (x.files + [item])[..|x.files|] == x.files;
  }

  lemma {:induction false} ClosesShard(x: Sharding, dir: nat, all: seq<Item>, item: Item, limit: nat, rule: FlushRule)
    requires ShardedSoFar(x, dir, all, limit, rule) && Weight(item) <= MAX_FILE_SIZE
    requires x.files != [] && Full(x.files, item, limit, rule)
    ensures ShardedSoFar(Sharding(x.groups + [Group(dir, |x.groups|, x.files)], [item], Weight(item),
                                  if Weight(item) <= limit then Weight(item) else 0),
                         dir, all + [item], limit, rule)
  {
    var groups := x.groups + [Group(dir, |x.groups|, x.files)];
    CloseShard(x.groups, dir, x.files, all);
    GreedyClose(x, dir, all, limit, rule);
    FillShard(groups, dir, [], all, item, limit);
    assert [] + [item] == [item];
  }

  lemma {:induction false} FullByCounters(x: Sharding, dir: nat, all: seq<Item>, item: Item, limit: nat, rule: FlushRule)
    requires ShardedSoFar(x, dir, all, limit, rule)
    ensures Full(x.files, item, limit, rule) <==>
            x.pending >= FLUSH_BYTES || |x.files| >= MAX_GROUP_FILES || rule(x.pendingInline, Weight(item))
  {
  }

  /** One file of the loop. */
  method PlaceFile(x: Sharding, dir: nat, item: Item, inlineLimit: nat, needsFlush: FlushRule, ghost all: seq<Item>)
    returns (y: Sharding)
    requires ShardedSoFar(x, dir, all, inlineLimit, needsFlush) && item.FileItem? && Weight(item) <= MAX_FILE_SIZE
    ensures ShardedSoFar(y, dir, all + [item], inlineLimit, needsFlush)
  {
    FullByCounters(x, dir, all, item, inlineLimit, needsFlush);
    var size := item.content.size;
    y := x;
    if y.files != [] && (y.pending >= FLUSH_BYTES || |y.files| >= MAX_GROUP_FILES || needsFlush(y.pendingInline, size)) {
      ClosesShard(x, dir, all, item, inlineLimit, needsFlush);
      y := Sharding(y.groups + [Group(dir, |y.groups|, y.files)], [], 0, 0);
      assert y.files + [item] == [item];
    } else {
      TakesItem(x, dir, all, item, inlineLimit, needsFlush);
    }
    y := y.(files := y.files + [item], pending := y.pending + size);
    if size <= inlineLimit {
      y := y.(pendingInline := y.pendingInline + size);
    }
  }

  /** The shards once the open one is closed. */
  function Flushed(x: Sharding, dir: nat): seq<Group> {
    if x.files == [] then x.groups else x.groups + [Group(dir, |x.groups|, x.files)]
  }

  lemma {:induction false} FlushKeeps(x: Sharding, dir: nat, all: seq<Item>, limit: nat, rule: FlushRule)
    requires ShardedSoFar(x, dir, all, limit, rule)
    ensures ItemsOf(Flushed(x, dir)) == all && Shards(Flushed(x, dir), dir) && Greedy(Flushed(x, dir), limit, rule)
  {
    if x.files != [] {
      CloseShard(x.groups, dir, x.files, all);
      GreedyClose(x, dir, all, limit, rule);
    }
    assert ItemsOf(Flushed(x, dir)) + [] == ItemsOf(Flushed(x, dir));
  }

  /** The loop over the files of a leaf directory. */
  method PlaceFiles(c: Corpus, dir: nat, first: nat, inode: nat, inlineLimit: nat, needsFlush: FlushRule)
    returns (x: Sharding)
    requires Shaped(c) && SmallFiles(c)
    ensures ShardedSoFar(x, dir, LeafItems(c, first, inode, c.filesPerDir), inlineLimit, needsFlush)
  {
    x := Sharding([], [], 0, 0);
    ghost var all: seq<Item> := [];
    for index := 0 to c.filesPerDir
      invariant all == LeafItems(c, first, inode, index) && ShardedSoFar(x, dir, all, inlineLimit, needsFlush)
    {
      var item := FileItem(FileNo(index), inode + index, Generated(c.sizeOf(first + index), first + index));
      x := PlaceFile(x, dir, item, inlineLimit, needsFlush, all);
      all := all + [item];
    }
  }

  /** The sharding of a leaf directory, for any rule by which inline data forces a flush: every
      file lands in exactly one shard, in order, shards are numbered from zero, each one stays within the
      bounds, and a shard is closed exactly when it is full. */
  method ShardLeaf(c: Corpus, dir: nat, first: nat, inode: nat, inlineLimit: nat, needsFlush: FlushRule)
    returns (groups: seq<Group>)
    requires Shaped(c) && SmallFiles(c)
    ensures ItemsOf(groups) == LeafItems(c, first, inode, c.filesPerDir)
    ensures Shards(groups, dir) && Greedy(groups, inlineLimit, needsFlush)
  {
    var x := PlaceFiles(c, dir, first, inode, inlineLimit, needsFlush);
    FlushKeeps(x, dir, LeafItems(c, first, inode, c.filesPerDir), inlineLimit, needsFlush);
    groups := x.groups;
    if x.files != [] {
      groups := groups + [Group(dir, |groups|, x.files)];
    }
  }

  // ---------------------------------------------------------------- reading groups back

  /** The files among the items of a directory at `path`. */
  function EntriesOf(path: Path, items: seq<Item>): seq<Entry> {
    if items == [] then []
    else
      var last := items[|items| - 1];
      EntriesOf(path, items[..|items| - 1]) + if last.FileItem? then [Entry(path + [last.name], last.content)] else []
  }

  lemma {:induction false} AddFile(path: Path, items: seq<Item>, item: Item)
    requires item.FileItem?
    ensures EntriesOf(path, items + [item]) == EntriesOf(path, items) + [Entry(path + [item.name], item.content)]
  {
    assert (items + [item])[..|items|] == items;
  }

  lemma {:induction false} EntriesOfConcat(path: Path, a: seq<Item>, b: seq<Item>)
    ensures EntriesOf(path, a + b) == EntriesOf(path, a) + EntriesOf(path, b)
  {
    if b == [] {
      assert a + b == a;
    } else {
      EntriesOfConcat(path, a, b[..|b| - 1]);
      assert (a + b)[..|a + b| - 1] == a + b[..|b| - 1];
    }
  }

  /** Every group belongs to one of the first `n` directories. */
  predicate Within(groups: seq<Group>, n: nat) {
    forall i :: 0 <= i < |groups| ==> 0 < groups[i].dir <= n
  }

  function FilesIn(paths: seq<Path>, g: Group): seq<Entry> {
    if 0 < g.dir <= |paths| then EntriesOf(paths[g.dir - 1], g.items) else []
  }

  /** The files of all groups, when directory number `d` has path `paths[d - 1]`. */
  function FilesOf(paths: seq<Path>, groups: seq<Group>): seq<Entry> {
    if groups == [] then [] else FilesOf(paths, groups[..|groups| - 1]) + FilesIn(paths, groups[|groups| - 1])
  }

  lemma {:induction false} AddGroup(paths: seq<Path>, groups: seq<Group>, g: Group)
    ensures FilesOf(paths, groups + [g]) == FilesOf(paths, groups) + FilesIn(paths, g)
  {
    assert (groups + [g])[..|groups|] == groups;
  }

  lemma {:induction false} FilesOfConcat(paths: seq<Path>, a: seq<Group>, b: seq<Group>)
    ensures FilesOf(paths, a + b) == FilesOf(paths, a) + FilesOf(paths, b)
  {
    if b == [] {
      assert a + b == a;
    } else {
      var front, g := b[..|b| - 1], b[|b| - 1];
      calc {
        FilesOf(paths, a + b);
        { assert a + b == (a + front) + [g]; AddGroup(paths, a + front, g); }
        FilesOf(paths, a + front) + FilesIn(paths, g);
        { FilesOfConcat(paths, a, front); }
        (FilesOf(paths, a) + FilesOf(paths, front)) + FilesIn(paths, g);
        { Reassociate(FilesOf(paths, a), FilesOf(paths, front), FilesIn(paths, g)); }
        FilesOf(paths, a) + FilesOf(paths, b);
      }
    }
  }

  /** How a directory's items are split over shards does not matter. */
  lemma {:induction false} ShardsHoldFiles(paths: seq<Path>, groups: seq<Group>, dir: nat)
    requires 0 < dir <= |paths|
    requires forall i :: 0 <= i < |groups| ==> groups[i].dir == dir
    ensures FilesOf(paths, groups) == EntriesOf(paths[dir - 1], ItemsOf(groups))
  {
    if groups != [] {
      var last := |groups| - 1;
      ShardsHoldFiles(paths, groups[..last], dir);
      EntriesOfConcat(paths[dir - 1], ItemsOf(groups[..last]), groups[last].items);
    }
  }

  lemma {:induction false} LeafItemsAreFiles(c: Corpus, path: Path, base: nat, inode: nat, count: nat)
    requires Shaped(c)
    ensures EntriesOf(path, LeafItems(c, base, inode, count)) == EntriesIn(c, path, base, count)
  {
    if count > 0 {
      LeafItemsAreFiles(c, path, base, inode, count - 1);
      AddFile(path, LeafItems(c, base, inode, count - 1),
              FileItem(FileNo(count - 1), inode + count - 1, ContentOf(c, base + count - 1)));
    }
  }

  // ---------------------------------------------------------------- directory entries

  /** The subdirectories of directory `j` among the first `n` directories, in order. */
  function Children(dirs: seq<Directory>, j: nat, n: nat): seq<Item>
    requires j < |dirs| && n <= |dirs|
  {
    if n == 0 then []
    else Children(dirs, j, n - 1) +
         if dirs[n - 1].parent == dirs[j].inode then [SubDir(dirs[n - 1].name, dirs[n - 1].inode)] else []
  }

  lemma {:induction false} ChildrenListed(dirs: seq<Directory>, j: nat, n: nat, item: Item)
    requires j < |dirs| && n <= |dirs|
    ensures item in Children(dirs, j, n) <==>
            exists k :: 0 <= k < n && dirs[k].parent == dirs[j].inode && item == SubDir(dirs[k].name, dirs[k].inode)
  {
    if n > 0 {
      ChildrenListed(dirs, j, n - 1, item);
    }
  }

  lemma {:induction false} ChildlessIsEmpty(dirs: seq<Directory>, j: nat, n: nat)
    requires j < |dirs| && n <= |dirs|
    ensures Children(dirs, j, n) == [] <==> forall k :: 0 <= k < n ==> dirs[k].parent != dirs[j].inode
  {
    if n > 0 {
      ChildlessIsEmpty(dirs, j, n - 1);
    }
  }

  lemma {:induction false} ChildrenAreSubDirs(dirs: seq<Directory>, j: nat, n: nat, path: Path)
    requires j < |dirs| && n <= |dirs|
    ensures EntriesOf(path, Children(dirs, j, n)) == []
    ensures forall item :: item in Children(dirs, j, n) ==> item.SubDir?
  {
    if n > 0 {
      ChildrenAreSubDirs(dirs, j, n - 1, path);
      if dirs[n - 1].parent == dirs[j].inode {
        var items := Children(dirs, j, n);
        assert items[..|items| - 1] == Children(dirs, j, n - 1);
      } else {
        assert Children(dirs, j, n) == Children(dirs, j, n - 1);
      }
    }
  }

  method ListChildren(dirs: seq<Directory>, j: nat) returns (items: seq<Item>)
    requires j < |dirs|
    ensures items == Children(dirs, j, |dirs|)
    ensures forall item :: item in items <==>
              exists k :: 0 <= k < |dirs| && dirs[k].parent == dirs[j].inode && item == SubDir(dirs[k].name, dirs[k].inode)
  {
    items := [];
    for k := 0 to |dirs|
      invariant items == Children(dirs, j, k)
    {
      if dirs[k].parent == dirs[j].inode {
        items := items + [SubDir(dirs[k].name, dirs[k].inode)];
      }
    }
    forall item
      ensures item in items <==>
                exists k :: 0 <= k < |dirs| && dirs[k].parent == dirs[j].inode && item == SubDir(dirs[k].name, dirs[k].inode)
    {
      ChildrenListed(dirs, j, |dirs|, item);
    }
  }

  // ---------------------------------------------------------------- the whole snapshot

  predicate Before(a: Group, b: Group) {
    a.dir < b.dir || (a.dir == b.dir && a.shard < b.shard)
  }

  /** Groups come by directory and then by shard, so no two share both. */
  predicate Ordered(groups: seq<Group>) {
    forall i, k :: 0 <= i < k < |groups| ==> Before(groups[i], groups[k])
  }

  // ---------------------------------------------------------------- container identifiers

  const U32_RANGE := 0x1_0000_0000

  /** `(inode << 32) | shard` in 64 bits: the shift leaves the low 32 bits clear for the shard. */
  function GroupId(inode: nat, shard: nat): nat
    requires shard < U32_RANGE
  {
    (inode * U32_RANGE) % U64_RANGE + shard
  }

  lemma {:induction false} ShiftKeepsLowBits(inode: nat)
    ensures (inode * U32_RANGE) % U64_RANGE == (inode % U32_RANGE) * U32_RANGE
  {
    var q, r := inode / U32_RANGE, inode % U32_RANGE;
    assert inode * U32_RANGE == q * U64_RANGE + r * U32_RANGE;
  }

  /** While shard numbers fit 32 bits, two containers share an identifier exactly when their shards
      agree and their directories agree in the low 32 bits of the inode. */
  lemma {:induction false} GroupIdsAgree(a: Group, b: Group)
    requires a.shard < U32_RANGE && b.shard < U32_RANGE
    ensures GroupId(a.dir, a.shard) == GroupId(b.dir, b.shard) <==>
            a.shard == b.shard && a.dir % U32_RANGE == b.dir % U32_RANGE
  {
    ShiftKeepsLowBits(a.dir);
    ShiftKeepsLowBits(b.dir);
  }

  /** Directory inodes and shard numbers fit 32 bits. */
  predicate FitIdentifiers(groups: seq<Group>) {
    forall i :: 0 <= i < |groups| ==> groups[i].dir < U32_RANGE && groups[i].shard < U32_RANGE
  }

  predicate DistinctIdentifiers(groups: seq<Group>)
    requires FitIdentifiers(groups)
  {
    forall i, k :: 0 <= i < k < |groups| ==>
      GroupId(groups[i].dir, groups[i].shard) != GroupId(groups[k].dir, groups[k].shard)
  }

  /** Ordered groups that fit 32 bits have different identifiers. */
  lemma {:induction false} OrderedIdentifiersDiffer(groups: seq<Group>)
    requires Ordered(groups) && FitIdentifiers(groups)
    ensures DistinctIdentifiers(groups)
  {
    forall i, k | 0 <= i < k < |groups|
      ensures GroupId(groups[i].dir, groups[i].shard) != GroupId(groups[k].dir, groups[k].shard)
    {
      assert Before(groups[i], groups[k]);
      GroupIdsAgree(groups[i], groups[k]);
    }
  }

  // ---------------------------------------------------------------- after some directories

  /** After `j` directories, `m` of them leaves, the groups hold exactly the files of the first `m`
      leaves. */
  predicate Packed(c: Corpus, paths: seq<Path>, groups: seq<Group>, j: nat, m: nat)
    requires Shaped(c)
  {
    && j <= |paths| && Within(groups, j) && Ordered(groups)
    && FilesOf(paths, groups) == EntriesUpTo(c, Times(m, c.filesPerDir))
  }

  lemma {:induction false} AddOrdered(groups: seq<Group>, more: seq<Group>, j: nat)
    requires Within(groups, j) && Ordered(groups)
    requires forall i :: 0 <= i < |more| ==> more[i].dir == j + 1 && more[i].shard == i
    ensures Within(groups + more, j + 1) && Ordered(groups + more)
  {
  }

  lemma {:induction false} AddLeaf(c: Corpus, paths: seq<Path>, groups: seq<Group>, shards: seq<Group>, j: nat, m: nat, inode: nat)
    requires Shaped(c) && Packed(c, paths, groups, j, m) && j < |paths|
    requires paths[j] == LeafPath(m, c.levels, c.fanout) && Shards(shards, j + 1)
    requires ItemsOf(shards) == LeafItems(c, Times(m, c.filesPerDir), inode, c.filesPerDir)
    ensures Packed(c, paths, groups + shards, j + 1, m + 1)
  {
    AddOrdered(groups, shards, j);
    AddLeafFiles(c, paths, groups, shards, j, m, inode);
  }

  lemma {:induction false} AddLeafFiles(c: Corpus, paths: seq<Path>, groups: seq<Group>, shards: seq<Group>, j: nat, m: nat, inode: nat)
    requires Shaped(c) && j < |paths| && FilesOf(paths, groups) == EntriesUpTo(c, Times(m, c.filesPerDir))
    requires paths[j] == LeafPath(m, c.levels, c.fanout) && Shards(shards, j + 1)
    requires ItemsOf(shards) == LeafItems(c, Times(m, c.filesPerDir), inode, c.filesPerDir)
    ensures FilesOf(paths, groups + shards) == EntriesUpTo(c, Times(m + 1, c.filesPerDir))
  {
    var base := Times(m, c.filesPerDir);
    calc {
      FilesOf(paths, groups + shards);
      { FilesOfConcat(paths, groups, shards); }
      EntriesUpTo(c, base) + FilesOf(paths, shards);
      { ShardsHoldFiles(paths, shards, j + 1); }
      EntriesUpTo(c, base) + EntriesOf(paths[j], LeafItems(c, base, inode, c.filesPerDir));
      { LeafItemsAreFiles(c, paths[j], base, inode, c.filesPerDir); }
      EntriesUpTo(c, base) + EntriesIn(c, paths[j], base, c.filesPerDir);
      { LeafComesNext(c, m, base, c.filesPerDir); }
      EntriesUpTo(c, base + c.filesPerDir);
    }
  }

  lemma {:induction false} AddInner(c: Corpus, paths: seq<Path>, groups: seq<Group>, items: seq<Item>, j: nat, m: nat)
    requires Shaped(c) && Packed(c, paths, groups, j, m) && j < |paths|
    requires EntriesOf(paths[j], items) == []
    ensures Packed(c, paths, groups + [Group(j + 1, 0, items)], j + 1, m)
  {
    var single := [Group(j + 1, 0, items)];
    AddOrdered(groups, single, j);
    FilesOfConcat(paths, groups, single);
    assert single[..0] == [];
  }

  lemma {:induction false} CountLeaf(paths: seq<Path>, j: nat, levels: nat)
    requires j < |paths|
    ensures |FullDepth(paths[..j + 1], levels)| == |FullDepth(paths[..j], levels)| + if |paths[j]| == levels then 1 else 0
  {
    assert paths[..j + 1][..j] == paths[..j];
  }

  /** Files are numbered after the directories, in corpus order. */
  predicate Numbered(groups: seq<Group>, base: nat) {
    forall i, item :: 0 <= i < |groups| && item in groups[i].items && item.FileItem? ==>
      item.inode == base + item.content.index
  }

  lemma {:induction false} LeafItemsNumbered(c: Corpus, first: nat, inode: nat, count: nat, item: Item)
    requires Shaped(c) && item in LeafItems(c, first, inode, count)
    ensures item.FileItem? && item.inode - inode == item.content.index - first
  {
    if item in LeafItems(c, first, inode, count - 1) {
      LeafItemsNumbered(c, first, inode, count - 1, item);
    }
  }

  lemma {:induction false} ItemsOfHas(groups: seq<Group>, i: nat, item: Item)
    requires i < |groups| && item in groups[i].items
    ensures item in ItemsOf(groups)
  {
    if i < |groups| - 1 {
      ItemsOfHas(groups[..|groups| - 1], i, item);
    }
  }

  lemma {:induction false} ShardsNumbered(c: Corpus, shards: seq<Group>, first: nat, base: nat)
    requires Shaped(c) && ItemsOf(shards) == LeafItems(c, first, base + first, c.filesPerDir)
    ensures Numbered(shards, base)
  {
    forall i, item | 0 <= i < |shards| && item in shards[i].items && item.FileItem?
      ensures item.inode == base + item.content.index
    {
      ItemsOfHas(shards, i, item);
      LeafItemsNumbered(c, first, base + first, c.filesPerDir, item);
    }
  }

  /** The paths of all directories by their parent pointers. */
  function PathTable(dirs: seq<Directory>): seq<Path>
    requires Rooted(dirs)
  {
    seq(|dirs|, j requires 0 <= j < |dirs| => PathOf(dirs, j))
  }

  lemma {:induction false} TableIsPaths(levels: nat, fanout: nat)
    requires fanout > 0
    ensures Rooted(Tree(levels, fanout, 2, ROOT))
    ensures PathTable(Tree(levels, fanout, 2, ROOT)) == Paths(levels, fanout, [])
  {
    var dirs := Tree(levels, fanout, 2, ROOT);
    TreeIsRooted(levels, fanout);
    SameLength(levels, fanout, [], 2, ROOT);
    forall j | 0 <= j < |dirs|
      ensures PathTable(dirs)[j] == Paths(levels, fanout, [])[j]
    {
      ChildlessIsFullDepth(levels, fanout, j);
    }
  }

  /** The groups of directory `j`: a leaf is sharded, any other directory has one group of entries. */
  predicate PacksDirectory(c: Corpus, dirs: seq<Directory>, j: nat, first: nat, inode: nat, groups: seq<Group>, count: nat)
    requires Shaped(c) && j < |dirs|
  {
    if HasChild(dirs, j) then count == 0 && groups == [Group(j + 1, 0, Children(dirs, j, |dirs|))]
    else count == c.filesPerDir && Shards(groups, j + 1) && ItemsOf(groups) == LeafItems(c, first, inode, count)
  }

  method PackDirectory(c: Corpus, dirs: seq<Directory>, j: nat, first: nat, inode: nat,
                       inlineLimit: nat, needsFlush: FlushRule)
    returns (groups: seq<Group>, count: nat)
    requires Shaped(c) && SmallFiles(c) && j < |dirs|
    ensures PacksDirectory(c, dirs, j, first, inode, groups, count)
    ensures !HasChild(dirs, j) ==> Greedy(groups, inlineLimit, needsFlush)
  {
    var files := ListChildren(dirs, j);
    ChildlessIsEmpty(dirs, j, |dirs|);
    if files == [] {
      groups := ShardLeaf(c, j + 1, first, inode, inlineLimit, needsFlush);
      count := c.filesPerDir;
    } else {
      groups, count := [Group(j + 1, 0, files)], 0;
    }
  }

  /** What holds after `j` directories; `base` is the first file inode. */
  predicate Progress(c: Corpus, paths: seq<Path>, groups: seq<Group>, j: nat, fileIndex: nat, base: nat)
    requires Shaped(c)
  {
    && j <= |paths| && Numbered(groups, base)
    && Packed(c, paths, groups, j, |FullDepth(paths[..j], c.levels)|)
    && fileIndex == Times(|FullDepth(paths[..j], c.levels)|, c.filesPerDir)
  }

  lemma {:induction false} InnerStep(c: Corpus, paths: seq<Path>, groups: seq<Group>, items: seq<Item>, j: nat, first: nat, base: nat)
    requires Shaped(c) && Progress(c, paths, groups, j, first, base) && j < |paths| && |paths[j]| != c.levels
    requires EntriesOf(paths[j], items) == [] && forall item :: item in items ==> item.SubDir?
    ensures Progress(c, paths, groups + [Group(j + 1, 0, items)], j + 1, first, base)
  {
    CountLeaf(paths, j, c.levels);
    AddInner(c, paths, groups, items, j, |FullDepth(paths[..j], c.levels)|);
  }

  lemma {:induction false} LeafStep(c: Corpus, paths: seq<Path>, groups: seq<Group>, more: seq<Group>, j: nat, first: nat, base: nat)
    requires Shaped(c) && Progress(c, paths, groups, j, first, base) && j < |paths| && |paths[j]| == c.levels
    requires paths[j] == LeafPath(|FullDepth(paths[..j], c.levels)|, c.levels, c.fanout)
    requires Shards(more, j + 1) && ItemsOf(more) == LeafItems(c, first, base + first, c.filesPerDir)
    ensures Progress(c, paths, groups + more, j + 1, first + c.filesPerDir, base)
  {
    CountLeaf(paths, j, c.levels);
    AddLeaf(c, paths, groups, more, j, |FullDepth(paths[..j], c.levels)|, base + first);
    ShardsNumbered(c, more, first, base);
  }

  lemma {:induction false} NothingPacked(c: Corpus, paths: seq<Path>, base: nat)
    requires Shaped(c)
    ensures Progress(c, paths, [], 0, 0, base)
  {
    assert paths[..0] == [];
  }

  /** `paths` gives the paths of `dirs`: a directory has no child exactly when its path has full
      depth, and the directories without a child are the leaves in order. */
  predicate Follows(c: Corpus, dirs: seq<Directory>, paths: seq<Path>)
    requires Shaped(c)
  {
    && |dirs| == |paths|
    && forall j :: 0 <= j < |dirs| ==> if HasChild(dirs, j) then |paths[j]| != c.levels else IsNextLeaf(c, paths, j)
  }

  predicate IsNextLeaf(c: Corpus, paths: seq<Path>, j: nat)
    requires Shaped(c) && j < |paths|
  {
    |paths[j]| == c.levels && paths[j] == LeafPath(|FullDepth(paths[..j], c.levels)|, c.levels, c.fanout)
  }

  lemma {:induction false} TreeFollows(c: Corpus)
    requires Shaped(c)
    ensures Follows(c, Tree(c.levels, c.fanout, 2, ROOT), Paths(c.levels, c.fanout, []))
  {
    var dirs, paths := Tree(c.levels, c.fanout, 2, ROOT), Paths(c.levels, c.fanout, []);
    SameLength(c.levels, c.fanout, [], 2, ROOT);
    forall j | 0 <= j < |dirs|
      ensures if HasChild(dirs, j) then |paths[j]| != c.levels else IsNextLeaf(c, paths, j)
    {
      ChildlessIsFullDepth(c.levels, c.fanout, j);
      if !HasChild(dirs, j) {
        WalkVisitsLeaves(c.levels, c.fanout, j);
      }
    }
  }

  /** One directory of the walk. */
  lemma {:induction false} DirectoryStep(c: Corpus, dirs: seq<Directory>, paths: seq<Path>, groups: seq<Group>,
                                         more: seq<Group>, j: nat, first: nat, base: nat, count: nat)
    requires Shaped(c) && Follows(c, dirs, paths) && j < |dirs| && Progress(c, paths, groups, j, first, base)
    requires PacksDirectory(c, dirs, j, first, base + first, more, count)
    ensures Progress(c, paths, groups + more, j + 1, first + count, base)
  {
    if HasChild(dirs, j) {
      ChildrenAreSubDirs(dirs, j, |dirs|, paths[j]);
      InnerStep(c, paths, groups, Children(dirs, j, |dirs|), j, first, base);
    } else {
      LeafStep(c, paths, groups, more, j, first, base);
    }
  }

  lemma {:induction false} AllLeavesSeen(c: Corpus)
    requires Shaped(c)
    ensures |FullDepth(Paths(c.levels, c.fanout, []), c.levels)| == Pow(c.fanout, c.levels)
  {
    FullPathsAreLeaves(c.levels, c.fanout, []);
    LeavesCount(c.levels, c.fanout, []);
  }

  lemma {:induction false} AllPacked(c: Corpus, paths: seq<Path>, groups: seq<Group>, fileIndex: nat, base: nat)
    requires Shaped(c) && Progress(c, paths, groups, |paths|, fileIndex, base)
    requires |FullDepth(paths, c.levels)| == Pow(c.fanout, c.levels)
    ensures Within(groups, |paths|) && Ordered(groups)
    ensures FilesOf(paths, groups) == EntriesUpTo(c, FileCount(c)) && fileIndex == FileCount(c)
  {
    assert paths[..|paths|] == paths;
  }

  /** The packed producer: following parent pointers, its groups hold exactly the files of the
      corpus, in order; groups are in strict order of directory and shard; every inner directory has one
      group of all its children and every leaf is split by the flush rule; and file `g` has the `g`-th
      inode after the directories. */
  method BuildPacked(c: Corpus, inlineLimit: nat, needsFlush: FlushRule)
    returns (dirs: seq<Directory>, groups: seq<Group>, fileIndex: nat)
    requires Shaped(c) && SmallFiles(c)
    ensures Rooted(dirs) && Within(groups, |dirs|) && Ordered(groups)
    ensures FilesOf(PathTable(dirs), groups) == EntriesUpTo(c, FileCount(c)) && fileIndex == FileCount(c)
    ensures Numbered(groups, |dirs| + 1) && GroupsFit(dirs, groups, |dirs|, inlineLimit, needsFlush)
    ensures FitIdentifiers(groups) ==> DistinctIdentifiers(groups)
  {
    var nextInode;
    nextInode, dirs := BuildTree(c.levels, c.fanout, 2, ROOT, []);
    ghost var paths := Paths(c.levels, c.fanout, []);
    assert dirs == Tree(c.levels, c.fanout, 2, ROOT);
    TreeFollows(c);
    groups, fileIndex := PackAll(c, dirs, paths, nextInode, inlineLimit, needsFlush);
    TableIsPaths(c.levels, c.fanout);
    AllLeavesSeen(c);
    AllPacked(c, paths, groups, fileIndex, nextInode);
    if FitIdentifiers(groups) {
      OrderedIdentifiersDiffer(groups);
    }
  }

  predicate HasGroup(groups: seq<Group>, dir: nat) {
    exists i :: 0 <= i < |groups| && groups[i].dir == dir
  }

  /** Group `i` is what its directory calls for: all children of an inner directory, or a shard of a leaf
      that is within the bounds and was filled and closed by the rule. */
  predicate GroupFits(dirs: seq<Directory>, groups: seq<Group>, i: nat, limit: nat, rule: FlushRule)
    requires i < |groups|
  {
    var g := groups[i];
    && 0 < g.dir <= |dirs|
    && if HasChild(dirs, g.dir - 1) then g == Group(g.dir, 0, Children(dirs, g.dir - 1, |dirs|))
       else Bounded(g.items) && Filled(g.items, limit, rule) && (g.shard > 0 ==> StartsAfter(groups, i, limit, rule))
  }

  /** Every group fits its directory, and each of the first `n` directories that has children has one. */
  predicate GroupsFit(dirs: seq<Directory>, groups: seq<Group>, n: nat, limit: nat, rule: FlushRule)
    requires n <= |dirs|
  {
    && (forall i :: 0 <= i < |groups| ==> GroupFits(dirs, groups, i, limit, rule))
    && (forall j :: 0 <= j < n && HasChild(dirs, j) ==> HasGroup(groups, j + 1))
  }

  lemma {:induction false} AddFitting(c: Corpus, dirs: seq<Directory>, groups: seq<Group>, more: seq<Group>,
                                      j: nat, first: nat, inode: nat, count: nat, limit: nat, rule: FlushRule)
    requires Shaped(c) && j < |dirs| && GroupsFit(dirs, groups, j, limit, rule)
    requires PacksDirectory(c, dirs, j, first, inode, more, count)
    requires !HasChild(dirs, j) ==> Greedy(more, limit, rule)
    ensures GroupsFit(dirs, groups + more, j + 1, limit, rule)
  {
    var all := groups + more;
    forall i | 0 <= i < |all|
      ensures GroupFits(dirs, all, i, limit, rule)
    {
      if i < |groups| {
        assert GroupFits(dirs, groups, i, limit, rule);
      } else {
        NewGroupFits(c, dirs, groups, more, j, first, inode, count, limit, rule, i - |groups|);
      }
    }
    GroupsStay(groups, more, dirs, j);
  }

  lemma {:induction false} NewGroupFits(c: Corpus, dirs: seq<Directory>, groups: seq<Group>, more: seq<Group>,
                                        j: nat, first: nat, inode: nat, count: nat, limit: nat, rule: FlushRule, k: nat)
    requires Shaped(c) && j < |dirs| && PacksDirectory(c, dirs, j, first, inode, more, count) && k < |more|
    requires !HasChild(dirs, j) ==> Greedy(more, limit, rule)
    ensures GroupFits(dirs, groups + more, |groups| + k, limit, rule)
  {
    var all, i := groups + more, |groups| + k;
    assert all[i] == more[k];
    if !HasChild(dirs, j) {
      GreedyAt(more, k, limit, rule);
      assert k > 0 ==> all[i - 1] == more[k - 1];
    }
  }

  lemma {:induction false} GroupsStay(groups: seq<Group>, more: seq<Group>, dirs: seq<Directory>, j: nat)
    requires j < |dirs| && forall d :: 0 <= d < j && HasChild(dirs, d) ==> HasGroup(groups, d + 1)
    requires HasChild(dirs, j) ==> more != [] && more[0].dir == j + 1
    ensures forall d :: 0 <= d < j + 1 && HasChild(dirs, d) ==> HasGroup(groups + more, d + 1)
  {
    forall d | 0 <= d < j + 1 && HasChild(dirs, d)
      ensures HasGroup(groups + more, d + 1)
    {
      if d < j {
        var i :| 0 <= i < |groups| && groups[i].dir == d + 1;
        assert (groups + more)[i].dir == d + 1;
      } else {
        assert (groups + more)[|groups|] == more[0];
      }
    }
  }

  lemma {:induction false} PackStep(c: Corpus, dirs: seq<Directory>, paths: seq<Path>, groups: seq<Group>, more: seq<Group>,
                                    j: nat, first: nat, base: nat, count: nat, limit: nat, rule: FlushRule)
    requires Shaped(c) && Follows(c, dirs, paths) && j < |dirs| && Progress(c, paths, groups, j, first, base)
    requires GroupsFit(dirs, groups, j, limit, rule) && PacksDirectory(c, dirs, j, first, base + first, more, count)
    requires !HasChild(dirs, j) ==> Greedy(more, limit, rule)
    ensures Progress(c, paths, groups + more, j + 1, first + count, base)
    ensures GroupsFit(dirs, groups + more, j + 1, limit, rule)
  {
    DirectoryStep(c, dirs, paths, groups, more, j, first, base, count);
    AddFitting(c, dirs, groups, more, j, first, base + first, count, limit, rule);
  }

  method PackAll(c: Corpus, dirs: seq<Directory>, ghost paths: seq<Path>, firstInode: nat,
                 inlineLimit: nat, needsFlush: FlushRule)
    returns (groups: seq<Group>, fileIndex: nat)
    requires Shaped(c) && SmallFiles(c) && Follows(c, dirs, paths)
    ensures Progress(c, paths, groups, |dirs|, fileIndex, firstInode)
    ensures GroupsFit(dirs, groups, |dirs|, inlineLimit, needsFlush)
  {
    var nextInode := firstInode;
    groups, fileIndex := [], 0;
    NothingPacked(c, paths, firstInode);
    for j := 0 to |dirs|
      invariant Progress(c, paths, groups, j, fileIndex, firstInode) && nextInode == firstInode + fileIndex
      invariant GroupsFit(dirs, groups, j, inlineLimit, needsFlush)
    {
      var more, count := PackDirectory(c, dirs, j, fileIndex, nextInode, inlineLimit, needsFlush);
      PackStep(c, dirs, paths, groups, more, j, fileIndex, firstInode, count, inlineLimit, needsFlush);
      groups := groups + more;
      fileIndex := fileIndex + count;
      nextInode := nextInode + count;
    }
  }
}
