/** Whole-object writes and ranged reads of the local backend, for every schedule of short writes,
    short reads and failing system calls. A schedule answers the k-th call of a loop. */
module LocalFsIo {
  import opened Common

  type Bytes = seq<byte>

  datatype Error = CreateFailed | WriteFailed | WriteZero | FlushFailed | OpenFailed | ReadFailed

  datatype Result<T> = Ok(value: T) | Err(error: Error)

  /** How a write or read call answers: it moves at most `limit` bytes, or fails. */
  datatype Answer = Moves(limit: nat) | Fails

  type Schedule = nat -> Answer

  /** A device that never fails and never reports zero bytes while there is work to do. */
  ghost predicate Willing(schedule: Schedule) {
    forall k :: schedule(k).Moves? && schedule(k).limit > 0
  }

  function Concat(chunks: seq<Bytes>): Bytes {
    if chunks == [] then [] else chunks[0] + Concat(chunks[1..])
  }

  /** The size of the first `k` chunks together. */
  function SizeUpTo(chunks: seq<Bytes>, k: nat): nat
    requires k <= |chunks|
  {
    if k == 0 then 0 else SizeUpTo(chunks, k - 1) + |chunks[k - 1]|
  }

  /** In the concatenation each chunk lies behind the sizes of the chunks before it, and nothing else is
      there. */
  lemma {:induction false} ChunkInConcat(chunks: seq<Bytes>, k: nat)
    requires k < |chunks|
    ensures |Concat(chunks)| == SizeUpTo(chunks, |chunks|)
    ensures SizeUpTo(chunks, k) + |chunks[k]| <= |Concat(chunks)|
    ensures Concat(chunks)[SizeUpTo(chunks, k)..SizeUpTo(chunks, k) + |chunks[k]|] == chunks[k]
  {
    var tail := chunks[1..];
    SizeFromFront(chunks, |chunks|);
    SizeFromFront(chunks, k);
    if k > 0 {
      ChunkInConcat(tail, k - 1);
    } else if tail != [] {
      ChunkInConcat(tail, 0);
    }
  }

  lemma {:induction false} SizeFromFront(chunks: seq<Bytes>, k: nat)
    requires k <= |chunks|
    ensures k > 0 ==> SizeUpTo(chunks, k) == |chunks[0]| + SizeUpTo(chunks[1..], k - 1)
  {
    if k > 1 {
      SizeFromFront(chunks, k - 1);
    }
  }

  /** `IoSlice::advance_slices`: drop every slice that `n` covers, then shorten the next one. */
  function Advance(slices: seq<Bytes>, n: nat): seq<Bytes>
    requires n <= |Concat(slices)|
    decreases |slices|
  {
    if slices == [] then []
    else if n >= |slices[0]| then Advance(slices[1..], n - |slices[0]|)
    else [slices[0][n..]] + slices[1..]
  }

  /** Advancing drops exactly `n` bytes, and whatever slices remain hold at least one byte. */
  lemma {:induction false} AdvanceDropsBytes(slices: seq<Bytes>, n: nat)
    requires n <= |Concat(slices)|
    ensures Concat(Advance(slices, n)) == Concat(slices)[n..]
    ensures Advance(slices, n) != [] ==> Concat(Advance(slices, n)) != []
    decreases |slices|
  {
    if slices != [] {
      if n >= |slices[0]| {
        AdvanceDropsBytes(slices[1..], n - |slices[0]|);
      } else {
        var rest := [slices[0][n..]] + slices[1..];
        assert rest[1..] == slices[1..];
        assert Concat(slices)[n..] == slices[0][n..] + Concat(slices[1..]);
      }
    }
  }

  /** Writes the chunks to a new file. A willing device ends with exactly the concatenated chunks,
      except that a list of only empty chunks is refused with `WriteZero`. Whatever happens, the
      file is a prefix of the data and an Ok means it is all there. */
  method PutVectored(chunks: seq<Bytes>, create: bool, writes: Schedule, flush: bool)
    returns (r: Result<nat>, file: Bytes)
    ensures file <= Concat(chunks)
    ensures r.Ok? ==> file == Concat(chunks) && r.value == |file|
    ensures create && flush && Willing(writes) ==>
              r == if chunks != [] && Concat(chunks) == [] then Err(WriteZero) else Ok(|Concat(chunks)|)
  {
    file := [];
    if !create {
      return Err(CreateFailed), file;
    }
    var slices, calls, written := chunks, 0, 0;
    while slices != []
      invariant file + Concat(slices) == Concat(chunks)
      invariant written == |file|
      invariant slices == chunks || (written > 0 && (slices != [] ==> Concat(slices) != []))
      decreases |Concat(slices)|, |slices|
    {
      var answer := writes(calls);
      if answer.Fails? {
        return Err(WriteFailed), file;
      }
      var n := Min(answer.limit, |Concat(slices)|);
      file := file + Concat(slices)[..n];
      if n == 0 {
        return Err(WriteZero), file;
      }
      calls, written := calls + 1, written + n;
      AdvanceDropsBytes(slices, n);
      slices := Advance(slices, n);
    }
    if !flush {
      return Err(FlushFailed), file;
    }
    r := Ok(written);
  }

  /** How many bytes of a request lie inside the file. */
  function Clip(file: Bytes, offset: nat, len: nat): nat {
    Min(len, SaturatingSub(|file|, offset))
  }

  function Wanted(file: Bytes, offset: nat, len: nat): (slice: Bytes)
    ensures |slice| == Clip(file, offset, len)
  {
    if offset < |file| then file[offset..offset + Clip(file, offset, len)] else []
  }

  lemma {:induction false} WantedSplits(file: Bytes, offset: nat, len: nat, read: nat, n: nat)
    requires read + n <= Clip(file, offset, len)
    ensures Wanted(file, offset, len)[..read + n] == Wanted(file, offset, len)[..read] + Wanted(file, offset + read, n)
  {
    if offset < |file| {
      assert Wanted(file, offset, len)[..read + n] == file[offset..offset + read + n];
      assert Wanted(file, offset, len)[..read] == file[offset..offset + read];
      assert Wanted(file, offset + read, n) == file[offset + read..offset + read + n];
    }
  }

  /** One positioned read into `buf[from..]`; zero bytes only at the end of the file. */
  method ReadAt(file: Bytes, offset: nat, buf: array<byte>, from: nat, answer: Answer) returns (n: nat)
    requires from <= buf.Length && answer.Moves? && answer.limit > 0
    modifies buf
    ensures n == Min(answer.limit, Clip(file, offset, buf.Length - from))
    ensures buf[from..from + n] == Wanted(file, offset, n)
    ensures buf[..from] == old(buf[..from]) && buf[from + n..] == old(buf[from + n..])
  {
    n := Min(answer.limit, Min(buf.Length - from, SaturatingSub(|file|, offset)));
    forall i | 0 <= i < n {
      buf[from + i] := file[offset + i];
    }
  }

  /** The looping ranged read. On Ok the buffer holds exactly the requested slice, clipped at the
      end of the file, and is untouched behind it; a missing object reads as zero bytes. */
  method GetRange(found: Option<Bytes>, open: bool, offset: nat, buf: array<byte>, readings: Schedule)
    returns (r: Result<nat>)
    requires forall k :: readings(k).Moves? ==> readings(k).limit > 0
    requires offset < U64_RANGE && (found.Some? ==> |found.value| < U64_RANGE)
    modifies buf
    ensures r.Ok? && found.Some? && buf.Length > 0 ==>
              var slice := Wanted(found.value, offset, buf.Length);
              r.value == |slice| && buf[..|slice|] == slice && buf[|slice|..] == old(buf[|slice|..])
    ensures r.Ok? && found.Some? ==>
              && r.value == (if offset < |found.value| then Min(buf.Length, |found.value| - offset) else 0)
              && forall i :: 0 <= i < r.value ==> buf[i] == found.value[offset + i]
    ensures r.Ok? && (found.None? || buf.Length == 0) ==> r.value == 0 && buf[..] == old(buf[..])
    ensures open && Willing(readings) ==> r.Ok?
  {
    if buf.Length == 0 {
      return Ok(0);
    }
    if !open {
      return Err(OpenFailed);
    }
    if found.None? {
      return Ok(0);
    }
    r := ReadLoop(found.value, offset, buf, readings);
  }

  method ReadLoop(file: Bytes, offset: nat, buf: array<byte>, readings: Schedule) returns (r: Result<nat>)
    requires forall k :: readings(k).Moves? ==> readings(k).limit > 0
    requires offset < U64_RANGE && |file| < U64_RANGE
    modifies buf
    ensures r.Ok? ==> r.value == Clip(file, offset, buf.Length)
    ensures r.Ok? ==> buf[..r.value] == Wanted(file, offset, buf.Length) && buf[r.value..] == old(buf[r.value..])
    ensures Willing(readings) ==> r.Ok?
  {
    var len, read, calls := buf.Length, 0, 0;
    ghost var slice := Wanted(file, offset, len);
    while read < len
      invariant 0 <= read <= |slice|
      invariant buf[..read] == slice[..read]
      invariant buf[read..] == old(buf[read..])
      decreases len - read
    {
      assert offset + read < U64_RANGE;
      var answer := readings(calls);
      if answer.Fails? {
        return Err(ReadFailed);
      }
      var n := ReadAt(file, offset + read, buf, read, answer);
      calls := calls + 1;
      if n == 0 {
        break;
      }
      assert buf[..read + n] == buf[..read] + buf[read..read + n];
      WantedSplits(file, offset, len, read, n);
      read := read + n;
    }
    assert slice[..read] == slice;
    r := Ok(read);
  }

  /** The variant used off a multi-threaded runtime issues a single read. It returns the whole
      clipped slice exactly when that one read was not short. */
  method GetRangeOnce(found: Option<Bytes>, open: bool, offset: nat, buf: array<byte>, answer: Answer)
    returns (r: Result<nat>)
    requires answer.Moves? ==> answer.limit > 0
    modifies buf
    ensures r.Ok? <==> buf.Length == 0 || (open && (found.None? || answer.Moves?))
    ensures r.Ok? && found.Some? && answer.Moves? ==>
              var slice := Wanted(found.value, offset, buf.Length);
              && r.value <= |slice| && buf[..r.value] == slice[..r.value]
              && (r.value == |slice| <==> answer.limit >= |slice|)
  {
    if buf.Length == 0 {
      return Ok(0);
    }
    if !open {
      return Err(OpenFailed);
    }
    if found.None? {
      return Ok(0);
    }
    if answer.Fails? {
      return Err(ReadFailed);
    }
    var n := ReadAt(found.value, offset, buf, 0, answer);
    r := Ok(n);
  }

  /** Writing an object and reading a range of it back gives that range of the chunks, whatever the
      two schedules are, as long as neither call reports an error. */
  method PutThenGet(chunks: seq<Bytes>, writes: Schedule, offset: nat, buf: array<byte>, readings: Schedule)
    returns (r: Result<nat>)
    requires forall k :: readings(k).Moves? ==> readings(k).limit > 0
    requires offset < U64_RANGE && |Concat(chunks)| < U64_RANGE
    modifies buf
    ensures r.Ok? && buf.Length > 0 ==>
              var slice := Wanted(Concat(chunks), offset, buf.Length);
              r.value == |slice| && buf[..|slice|] == slice && buf[|slice|..] == old(buf[|slice|..])
    ensures r.Ok? ==> r.value == if offset < |Concat(chunks)| then Min(buf.Length, |Concat(chunks)| - offset) else 0
    ensures r.Ok? ==> forall i :: 0 <= i < r.value ==> buf[i] == Concat(chunks)[offset + i]
    ensures Willing(writes) && Willing(readings) && Concat(chunks) != [] ==> r.Ok?
  {
    var put, file := PutVectored(chunks, true, writes, true);
    if put.Err? {
      return put;
    }
    r := GetRange(Some(file), true, offset, buf, readings);
  }
}
