/** The files of a generated corpus, and the producer that uploads one object per file. */
module FixtureCorpus {
  import opened Common
  import opened Arithmetic
  import opened FixtureTree
  import opened PathNames

  const MIB := 1024 * 1024
  const MAX_FILE_SIZE := 4 * MIB

  /** A generated corpus: the shape of its tree, the files per leaf directory, and the size of each
      file by its number. */
  datatype Corpus = Corpus(levels: nat, fanout: nat, filesPerDir: nat, sizeOf: nat -> nat)

  predicate Shaped(c: Corpus) {
    c.fanout > 0 && c.filesPerDir > 0
  }

  /** File contents: `size` bytes of the pattern of file number `index`. */
  datatype Content = Generated(size: nat, index: nat)

  function ContentOf(c: Corpus, index: nat): Content {
    Generated(c.sizeOf(index), index)
  }

  // ---------------------------------------------------------------- what both producers describe

  datatype Entry = Entry(path: Path, content: Content)

  /** File `file` of leaf directory `leaf`, as file number `g` of the corpus. */
  function EntryAt(c: Corpus, leaf: nat, file: nat, g: nat): Entry
    requires Shaped(c)
  {
    Entry(LeafPath(leaf, c.levels, c.fanout) + [FileNo(file)], ContentOf(c, g))
  }

  /** File number `g` of the corpus. */
  function EntryFor(c: Corpus, g: nat): Entry
    requires Shaped(c)
  {
    EntryAt(c, Quot(g, c.filesPerDir), Rem(g, c.filesPerDir), g)
  }

  function EntriesUpTo(c: Corpus, count: nat): seq<Entry>
    requires Shaped(c)
  {
    if count == 0 then [] else EntriesUpTo(c, count - 1) + [EntryFor(c, count - 1)]
  }

  function FileCount(c: Corpus): nat {
    Times(Pow(c.fanout, c.levels), c.filesPerDir)
  }

  function TotalBytes(entries: seq<Entry>): nat {
    if entries == [] then 0 else TotalBytes(entries[..|entries| - 1]) + entries[|entries| - 1].content.size
  }

  lemma {:induction false} EntriesCount(c: Corpus, count: nat)
    requires Shaped(c)
    ensures |EntriesUpTo(c, count)| == count
  {
    if count > 0 {
      EntriesCount(c, count - 1);
    }
  }

  lemma {:induction false} EntriesIndexed(c: Corpus, count: nat, g: nat)
    requires Shaped(c) && g < count
    ensures |EntriesUpTo(c, count)| == count && EntriesUpTo(c, count)[g] == EntryFor(c, g)
  {
    EntriesCount(c, count);
    EntriesCount(c, count - 1);
    if g < count - 1 {
      EntriesIndexed(c, count - 1, g);
    }
  }

  /** File `file` of leaf directory `leaf` is file number `leaf * filesPerDir + file`. */
  lemma {:induction false} NextEntry(c: Corpus, leaf: nat, file: nat, g: nat)
    requires Shaped(c) && file < c.filesPerDir && g == Times(leaf, c.filesPerDir) + file
    ensures EntriesUpTo(c, g + 1) == EntriesUpTo(c, g) + [EntryAt(c, leaf, file, g)]
  {
    QuotAdd(leaf, file, c.filesPerDir);
  }

  /** The first `count` files of a directory at `path` whose first file has number `base`. */
  function EntriesIn(c: Corpus, path: Path, base: nat, count: nat): seq<Entry> {
    if count == 0 then []
    else EntriesIn(c, path, base, count - 1) + [Entry(path + [FileNo(count - 1)], ContentOf(c, base + count - 1))]
  }

  /** The files of leaf `leaf` come next in the corpus. */
  lemma {:induction false} LeafComesNext(c: Corpus, leaf: nat, base: nat, count: nat)
    requires Shaped(c) && count <= c.filesPerDir && base == Times(leaf, c.filesPerDir)
    ensures EntriesUpTo(c, base) + EntriesIn(c, LeafPath(leaf, c.levels, c.fanout), base, count)
         == EntriesUpTo(c, base + count)
  {
    if count > 0 {
      LeafComesNext(c, leaf, base, count - 1);
      NextEntry(c, leaf, count - 1, base + count - 1);
      Reassociate(EntriesUpTo(c, base), EntriesIn(c, LeafPath(leaf, c.levels, c.fanout), base, count - 1),
                  [EntryAt(c, leaf, count - 1, base + count - 1)]);
    }
  }

  lemma {:induction false} AddEntry(entries: seq<Entry>, e: Entry)
    ensures TotalBytes(entries + [e]) == TotalBytes(entries) + e.content.size
  {
    assert (entries + [e])[..|entries|] == entries;
  }

  // ---------------------------------------------------------------- no two files share a path

  lemma {:induction false} LeafPathIsInjective(a: nat, b: nat, levels: nat, fanout: nat)
    requires fanout > 0 && a < Pow(fanout, levels) && b < Pow(fanout, levels)
    requires LeafPath(a, levels, fanout) == LeafPath(b, levels, fanout)
    ensures a == b
    decreases levels
  {
    if levels > 0 {
      var x, y := LeafPath(Quot(a, fanout), levels - 1, fanout), LeafPath(Quot(b, fanout), levels - 1, fanout);
      SameSnoc(x, Dir(Rem(a, fanout)), y, Dir(Rem(b, fanout)));
      TimesCommutes(fanout, Pow(fanout, levels - 1));
      QuotBelow(a, fanout, Pow(fanout, levels - 1));
      QuotBelow(b, fanout, Pow(fanout, levels - 1));
      LeafPathIsInjective(Quot(a, fanout), Quot(b, fanout), levels - 1, fanout);
      QuotRem(a, fanout);
      QuotRem(b, fanout);
    }
  }

  lemma {:induction false} SameSnoc(x: Path, a: Component, y: Path, b: Component)
    requires x + [a] == y + [b]
    ensures x == y && a == b
  {
    assert (x + [a])[|x|] == a && (y + [b])[|y|] == b;
    assert x == (x + [a])[..|x|] && y == (y + [b])[..|y|];
  }

  /** Different file numbers of the corpus have different paths. */
  lemma {:induction false} PathsAreDistinct(c: Corpus, g: nat, h: nat)
    requires Shaped(c) && g < FileCount(c) && h < FileCount(c)
    ensures EntryFor(c, g).path == EntryFor(c, h).path <==> g == h
  {
    var d, leaves := c.filesPerDir, Pow(c.fanout, c.levels);
    var p, q := Quot(g, d), Quot(h, d);
    if EntryFor(c, g).path == EntryFor(c, h).path {
      SameSnoc(LeafPath(p, c.levels, c.fanout), FileNo(Rem(g, d)), LeafPath(q, c.levels, c.fanout), FileNo(Rem(h, d)));
      QuotBelow(g, d, leaves);
      QuotBelow(h, d, leaves);
      LeafPathIsInjective(p, q, c.levels, c.fanout);
      QuotRem(g, d);
      QuotRem(h, d);
    }
  }

  /** The object key of a file: the joined directory names, a slash and the file name, below the prefix. */
  function ObjectKey(prefix: string, path: Path): string
    requires path != []
  {
    var last := |path| - 1;
    var relative := Join(Rendered(path[..last])) + "/" + Render(path[last]);
    if prefix == "" then relative else prefix + "/" + relative
  }

  lemma {:induction false} JoinedSplits(names: seq<string>, name: string)
    requires Names(names) && Name(name)
    ensures NonEmpty(Split(Join(names) + "/" + name)) == names + [name]
  {
    if names == [] {
      LeadingSlash(name);
      SplitName(name);
      NamesAreKept([name]);
      assert Join(names) + "/" + name == "/" + name;
    } else {
      var all := names + [name];
      JoinLast(all);
      assert all[..|all| - 1] == names;
      SplitJoin(all);
      NamesAreKept(all);
    }
  }

  /** The components of an object key are those of the prefix followed by the names of the path. */
  lemma {:induction false} KeyComponents(prefix: string, path: Path)
    requires path != []
    ensures Components(ObjectKey(prefix, path)) == Components(prefix) + Rendered(path)
  {
    var last := |path| - 1;
    var relative := Join(Rendered(path[..last])) + "/" + Render(path[last]);
    RenderedNames(path);
    RenderedNames(path[..last]);
    assert Rendered(path)[last] == Render(path[last]);
    JoinedSplits(Rendered(path[..last]), Render(path[last]));
    assert Components(relative) == Rendered(path);
    if prefix == "" {
      assert Split("") == [""] && Components(prefix) == [];
    } else {
      ComponentsAround(prefix, relative);
    }
  }

  /** Different paths have different object keys. */
  lemma {:induction false} KeyIsInjective(prefix: string, a: Path, b: Path)
    requires a != [] && b != [] && ObjectKey(prefix, a) == ObjectKey(prefix, b)
    ensures a == b
  {
    KeyComponents(prefix, a);
    KeyComponents(prefix, b);
    var front := |Components(prefix)|;
    assert Components(ObjectKey(prefix, a))[front..] == Rendered(a);
    assert Components(ObjectKey(prefix, b))[front..] == Rendered(b);
    RenderedIsInjective(a, b);
  }

  /** Different file numbers of the corpus have different object keys, so no upload replaces another. */
  lemma {:induction false} KeysAreDistinct(prefix: string, c: Corpus, g: nat, h: nat)
    requires Shaped(c) && g < FileCount(c) && h < FileCount(c)
    ensures ObjectKey(prefix, EntryFor(c, g).path) == ObjectKey(prefix, EntryFor(c, h).path) <==> g == h
  {
    if ObjectKey(prefix, EntryFor(c, g).path) == ObjectKey(prefix, EntryFor(c, h).path) {
      KeyIsInjective(prefix, EntryFor(c, g).path, EntryFor(c, h).path);
      PathsAreDistinct(c, g, h);
    }
  }

  // ---------------------------------------------------------------- one object per file

  /** The files of one leaf directory; the byte count saturates. */
  method AddFiles(c: Corpus, directory: Path, base: nat, list: seq<Entry>, bytes: nat)
    returns (longer: seq<Entry>, logicalBytes: nat)
    requires bytes == Min(TotalBytes(list), U64_RANGE - 1)
    ensures longer == list + EntriesIn(c, directory, base, c.filesPerDir)
    ensures logicalBytes == Min(TotalBytes(longer), U64_RANGE - 1)
  {
    longer, logicalBytes := list, bytes;
    for file := 0 to c.filesPerDir
      invariant longer == list + EntriesIn(c, directory, base, file)
      invariant logicalBytes == Min(TotalBytes(longer), U64_RANGE - 1)
    {
      var entry := Entry(directory + [FileNo(file)], Generated(c.sizeOf(base + file), base + file));
      AddEntry(longer, entry);
      Reassociate(list, EntriesIn(c, directory, base, file), [entry]);
      longer := longer + [entry];
      logicalBytes := Min(logicalBytes + entry.content.size, U64_RANGE - 1);
    }
  }

  method Product(n: nat, d: nat) returns (p: nat)
    ensures p == Times(n, d)
  {
    TimesIsProduct(n, d);
    p := n * d;
  }

  /** The loop over the leaf directories. */
  method ListLeaves(c: Corpus, leafCount: nat) returns (list: seq<Entry>, logicalBytes: nat)
    requires Shaped(c)
    ensures list == EntriesUpTo(c, Times(leafCount, c.filesPerDir))
    ensures logicalBytes == Min(TotalBytes(list), U64_RANGE - 1)
  {
    list, logicalBytes := [], 0;
    for leaf := 0 to leafCount
      invariant list == EntriesUpTo(c, Times(leaf, c.filesPerDir))
      invariant logicalBytes == Min(TotalBytes(list), U64_RANGE - 1)
    {
      var base := Product(leaf, c.filesPerDir);
      var directory := ComputeLeafPath(leaf, c.levels, c.fanout);
      list, logicalBytes := AddFiles(c, directory, base, list, logicalBytes);
      LeafComesNext(c, leaf, base, c.filesPerDir);
      assert Times(leaf + 1, c.filesPerDir) == base + c.filesPerDir;
    }
  }

  /** File number `g`: in the leaf directory and at the place its number gives, with the size and the
      pattern of that number. */
  predicate IsFile(c: Corpus, g: nat, e: Entry)
    requires Shaped(c)
  {
    && e.path == LeafPath(g / c.filesPerDir, c.levels, c.fanout) + [FileNo(g % c.filesPerDir)]
    && e.content == Generated(c.sizeOf(g), g)
  }

  /** The raw producer. It refuses a corpus whose file count does not fit 64 bits, and otherwise
      uploads exactly the files of the corpus, in order. */
  method BuildRaw(c: Corpus) returns (entries: Option<seq<Entry>>, logicalBytes: nat)
    requires Shaped(c)
    ensures entries == if FileCount(c) < U64_RANGE then Some(EntriesUpTo(c, FileCount(c))) else None
    ensures entries.Some? ==> logicalBytes == Min(TotalBytes(entries.value), U64_RANGE - 1)
    ensures entries.Some? ==>
              |entries.value| == FileCount(c) && forall g :: 0 <= g < FileCount(c) ==> IsFile(c, g, entries.value[g])
  {
    logicalBytes := 0;
    var leafCount := Pow(c.fanout, c.levels);
    MoreThanFactor(leafCount, c.filesPerDir);
    var fileCount := Product(leafCount, c.filesPerDir);
    if leafCount >= U64_RANGE || fileCount >= U64_RANGE {
      return None, 0;
    }
    var list;
    list, logicalBytes := ListLeaves(c, leafCount);
    entries := Some(list);
    AllIndexed(c, FileCount(c), list);
  }

  lemma {:induction false} AllIndexed(c: Corpus, count: nat, list: seq<Entry>)
    requires Shaped(c) && list == EntriesUpTo(c, count)
    ensures |list| == count && forall g :: 0 <= g < count ==> IsFile(c, g, list[g])
  {
    EntriesCount(c, count);
    forall g | 0 <= g < count
      ensures IsFile(c, g, list[g])
    {
      EntriesIndexed(c, count, g);
      DivisionIsQuot(g, c.filesPerDir);
    }
  }

  lemma {:induction false} MoreThanFactor(n: nat, d: nat)
    requires d > 0
    ensures Times(n, d) >= n
  {
    if n > 0 {
      MoreThanFactor(n - 1, d);
    }
  }
}
