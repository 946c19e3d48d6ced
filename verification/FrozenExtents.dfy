/** Data rows of the packed-metadata fixture: which slice holds which bytes of which file. Rows are
    keyed by inode, chunk number and offset inside the chunk. */
module FrozenExtents {
  import opened Arithmetic

  datatype ExtentKey = ExtentKey(ino: nat, chunk: nat, offset: nat)

  datatype Extent = Extent(len: nat, slice: nat, chunkOffset: nat)

  type Extents = map<ExtentKey, Extent>

  /** The row of byte `offset` of a file. */
  function KeyAt(ino: nat, offset: nat, chunkSize: nat): ExtentKey
    requires chunkSize > 0
  {
    ExtentKey(ino, Quot(offset, chunkSize), Rem(offset, chunkSize))
  }

  /** The byte a row starts at. */
  function Logical(key: ExtentKey, chunkSize: nat): nat {
    Times(key.chunk, chunkSize) + key.offset
  }

  lemma {:induction false} KeyStartsAtOffset(ino: nat, offset: nat, chunkSize: nat)
    requires chunkSize > 0
    ensures Logical(KeyAt(ino, offset, chunkSize), chunkSize) == offset
  {
    QuotRem(offset, chunkSize);
  }

  lemma {:induction false} TimesIsMonotone(a: nat, b: nat, d: nat)
    requires a < b
    ensures Times(a, d) + d <= Times(b, d)
  {
    if a < b - 1 {
      TimesIsMonotone(a, b - 1, d);
    }
  }

  /** Rows of different blocks of one file have different keys. */
  lemma {:induction false} BlocksHaveOwnKeys(ino: nat, a: nat, b: nat, block: nat, chunkSize: nat)
    requires block > 0 && chunkSize > 0 && KeyAt(ino, Times(a, block), chunkSize) == KeyAt(ino, Times(b, block), chunkSize)
    ensures a == b
  {
    KeyStartsAtOffset(ino, Times(a, block), chunkSize);
    KeyStartsAtOffset(ino, Times(b, block), chunkSize);
    if a < b {
      TimesIsMonotone(a, b, block);
    } else if b < a {
      TimesIsMonotone(b, a, block);
    }
  }

  // ---------------------------------------------------------------- the two kinds of rows

  /** The shape of the data: `smallCount` files of one extent each from inode `firstSmall` on, and one
      large file of `blockCount` blocks. */
  datatype Layout = Layout(firstSmall: nat, smallCount: nat, smallSize: nat, smallSlices: nat,
                           bench: nat, blockCount: nat, block: nat, chunkSize: nat, benchSlices: nat)

  predicate LayoutOk(l: Layout) {
    && l.block > 0 && l.chunkSize >= l.block
    && l.bench >= l.firstSmall + l.smallCount
    && l.benchSlices >= l.smallSlices + l.smallCount
  }

  function SmallKey(l: Layout, g: nat): ExtentKey {
    ExtentKey(l.firstSmall + g, 0, 0)
  }

  function SmallExtent(l: Layout, g: nat): Extent {
    Extent(l.smallSize, l.smallSlices + g, 0)
  }

  function BlockKey(l: Layout, b: nat): ExtentKey
    requires l.chunkSize > 0
  {
    KeyAt(l.bench, Times(b, l.block), l.chunkSize)
  }

  function BlockExtent(l: Layout, b: nat): Extent
    requires l.chunkSize > 0
  {
    Extent(l.block, l.benchSlices + b, Rem(Times(b, l.block), l.chunkSize))
  }

  /** The rows of the first `small` small files and the first `blocks` blocks, and no others. */
  ghost predicate Holds(l: Layout, data: Extents, small: nat, blocks: nat)
    requires LayoutOk(l)
  {
    && (forall g :: 0 <= g < small ==> SmallKey(l, g) in data && data[SmallKey(l, g)] == SmallExtent(l, g))
    && (forall b :: 0 <= b < blocks ==> BlockKey(l, b) in data && data[BlockKey(l, b)] == BlockExtent(l, b))
    && (forall key :: key in data ==>
          || (exists g :: 0 <= g < small && key == SmallKey(l, g))
          || (exists b :: 0 <= b < blocks && key == BlockKey(l, b)))
  }

  lemma {:induction false} AddSmall(l: Layout, data: Extents, g: nat)
    requires LayoutOk(l) && Holds(l, data, g, 0)
    ensures SmallKey(l, g) !in data
    ensures Holds(l, data[SmallKey(l, g) := SmallExtent(l, g)], g + 1, 0)
  {
  }

  lemma {:induction false} AddBlock(l: Layout, data: Extents, b: nat)
    requires LayoutOk(l) && Holds(l, data, l.smallCount, b)
    ensures BlockKey(l, b) !in data
    ensures Holds(l, data[BlockKey(l, b) := BlockExtent(l, b)], l.smallCount, b + 1)
  {
    forall a | 0 <= a < b
      ensures BlockKey(l, a) != BlockKey(l, b)
    {
      if BlockKey(l, a) == BlockKey(l, b) {
        BlocksHaveOwnKeys(l.bench, a, b, l.block, l.chunkSize);
      }
    }
  }

  // ---------------------------------------------------------------- slices

  /** No two rows share a slice. */
  lemma {:induction false} SlicesAreDistinct(l: Layout, data: Extents, k: ExtentKey, m: ExtentKey)
    requires LayoutOk(l) && Holds(l, data, l.smallCount, l.blockCount) && k in data && m in data
    ensures data[k].slice == data[m].slice <==> k == m
  {
  }

  /** The `i`-th upload: small files by number, then blocks by number. */
  function SliceAt(l: Layout, i: nat): nat {
    if i < l.smallCount then l.smallSlices + i else l.benchSlices + (i - l.smallCount)
  }

  /** The two upload loops. */
  method Upload(l: Layout) returns (uploaded: seq<nat>)
    ensures |uploaded| == l.smallCount + l.blockCount
    ensures forall i :: 0 <= i < |uploaded| ==> uploaded[i] == SliceAt(l, i)
  {
    uploaded := [];
    for g := 0 to l.smallCount
      invariant |uploaded| == g && forall i :: 0 <= i < g ==> uploaded[i] == SliceAt(l, i)
    {
      uploaded := uploaded + [l.smallSlices + g];
    }
    for b := 0 to l.blockCount
      invariant |uploaded| == l.smallCount + b && forall i :: 0 <= i < |uploaded| ==> uploaded[i] == SliceAt(l, i)
    {
      uploaded := uploaded + [l.benchSlices + b];
    }
  }

  /** Exactly the slices that rows refer to are uploaded, each once. */
  lemma {:induction false} UploadsAreSlices(l: Layout, data: Extents, uploaded: seq<nat>)
    requires LayoutOk(l) && Holds(l, data, l.smallCount, l.blockCount)
    requires |uploaded| == l.smallCount + l.blockCount
    requires forall i :: 0 <= i < |uploaded| ==> uploaded[i] == SliceAt(l, i)
    ensures forall slice :: slice in uploaded <==> exists key :: key in data && data[key].slice == slice
    ensures forall i, j :: 0 <= i < j < |uploaded| ==> uploaded[i] < uploaded[j]
  {
    forall slice | slice in uploaded
      ensures exists key :: key in data && data[key].slice == slice
    {
      var i :| 0 <= i < |uploaded| && uploaded[i] == slice;
      if i < l.smallCount {
        assert data[SmallKey(l, i)].slice == slice;
      } else {
        assert data[BlockKey(l, i - l.smallCount)].slice == slice;
      }
    }
    forall key | key in data
      ensures data[key].slice in uploaded
    {
      if g :| 0 <= g < l.smallCount && key == SmallKey(l, g) {
        assert uploaded[g] == data[key].slice;
      } else {
        var b :| 0 <= b < l.blockCount && key == BlockKey(l, b);
        assert uploaded[l.smallCount + b] == data[key].slice;
      }
    }
  }

  // ---------------------------------------------------------------- tiling

  /** A row covers byte `x` of its file. */
  predicate Covers(data: Extents, key: ExtentKey, chunkSize: nat, x: nat) {
    key in data && Logical(key, chunkSize) <= x < Logical(key, chunkSize) + data[key].len
  }

  /** Byte `x` lies in block `Quot(x, block)` and in no other. */
  lemma {:induction false} OneBlockPerByte(b: nat, x: nat, block: nat)
    requires block > 0
    ensures Times(b, block) <= x < Times(b, block) + block <==> b == Quot(x, block)
  {
    var q := Quot(x, block);
    QuotRem(x, block);
    if b < q {
      TimesIsMonotone(b, q, block);
    } else if b > q {
      TimesIsMonotone(q, b, block);
    }
  }

  /** Every byte of the large file is covered by exactly one row. */
  lemma {:induction false} BlocksTile(l: Layout, data: Extents, x: nat, key: ExtentKey)
    requires LayoutOk(l) && Holds(l, data, l.smallCount, l.blockCount) && x < Times(l.blockCount, l.block)
    ensures Quot(x, l.block) < l.blockCount
    ensures key.ino == l.bench ==> (Covers(data, key, l.chunkSize, x) <==> key == BlockKey(l, Quot(x, l.block)))
  {
    QuotBelow(x, l.block, l.blockCount);
    if key.ino == l.bench && key in data {
      var b :| 0 <= b < l.blockCount && key == BlockKey(l, b);
      KeyStartsAtOffset(l.bench, Times(b, l.block), l.chunkSize);
      OneBlockPerByte(b, x, l.block);
      if key == BlockKey(l, Quot(x, l.block)) {
        BlocksHaveOwnKeys(l.bench, b, Quot(x, l.block), l.block, l.chunkSize);
      }
    }
  }

  /** Every byte of a small file is covered by its only row. */
  lemma {:induction false} SmallTiles(l: Layout, data: Extents, g: nat, x: nat, key: ExtentKey)
    requires LayoutOk(l) && Holds(l, data, l.smallCount, l.blockCount) && g < l.smallCount && x < l.smallSize
    ensures key.ino == l.firstSmall + g ==> (Covers(data, key, l.chunkSize, x) <==> key == SmallKey(l, g))
  {
  }

  // ---------------------------------------------------------------- chunk boundaries

  /** Block `b` ends inside the chunk it starts in. */
  predicate InsideChunk(l: Layout, b: nat)
    requires l.chunkSize > 0
  {
    Rem(Times(b, l.block), l.chunkSize) + l.block <= l.chunkSize
  }

  lemma {:induction false} DividedStaysInside(b: nat, block: nat, chunkSize: nat, n: nat)
    requires block > 0 && n > 0 && chunkSize == Times(n, block)
    ensures Rem(Times(b, block), chunkSize) + block <= chunkSize
  {
    if b < n {
      TimesIsMonotone(b, n, block);
    } else {
      TimesSplits(n, b - n, block);
      DividedStaysInside(b - n, block, chunkSize, n);
    }
  }

  lemma {:induction false} TimesSplits(a: nat, b: nat, d: nat)
    ensures Times(a + b, d) == Times(a, d) + Times(b, d)
  {
    if a > 0 {
      TimesSplits(a - 1, b, d);
    }
  }

  /** The rows of a large file of whole chunks stay inside one chunk each exactly when blocks divide
      chunks. */
  lemma {:induction false} RowsStayInChunks(l: Layout, chunks: nat)
    requires LayoutOk(l) && Times(l.blockCount, l.block) == Times(chunks, l.chunkSize) && chunks > 0
    ensures (forall b :: 0 <= b < l.blockCount ==> InsideChunk(l, b)) <==> Rem(l.chunkSize, l.block) == 0
  {
    var n := Quot(l.chunkSize, l.block);
    QuotRem(l.chunkSize, l.block);
    if Rem(l.chunkSize, l.block) == 0 {
      forall b | 0 <= b < l.blockCount
        ensures InsideChunk(l, b)
      {
        DividedStaysInside(b, l.block, l.chunkSize, n);
      }
    } else {
      TimesIsMonotone(0, chunks, l.chunkSize);
      if l.blockCount <= n {
        TimesAtMost(l.blockCount, n, l.block);
      }
      assert !InsideChunk(l, n);
    }
  }

  lemma {:induction false} TimesAtMost(a: nat, b: nat, d: nat)
    requires a <= b
    ensures Times(a, d) <= Times(b, d)
  {
    if a < b {
      TimesIsMonotone(a, b, d);
    }
  }
}
