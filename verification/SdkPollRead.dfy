/** Polled reads of an SDK file handle: a read in flight survives pending polls, and bytes that do
    not fit the caller's buffer are carried over to the next poll. */
module SdkPollRead {
  import opened Common

  type Bytes = seq<byte>

  /** The read future: created with the room of its first poll, then holding the offset it read. */
  datatype ReadOp = Created(len: nat) | Located(len: nat, at: nat)

  /** What one poll lets the future do: nothing yet, learn the offset and wait, finish with at most
      `limit` bytes from the backend, or fail. */
  datatype Progress = Waits | Locates | Finishes(limit: nat) | Breaks

  datatype Poll = Poll(room: nat, progress: Progress)

  datatype Answer = Ready(bytes: Bytes) | Pending | Failed | Denied

  datatype Handle = Handle(readable: bool, offset: nat, buffer: Bytes, op: Option<ReadOp>)

  /** The backend's `read_at`: at most `len` bytes from `at`, possibly short. */
  function Fetch(file: Bytes, at: nat, len: nat, limit: nat): (data: Bytes)
    ensures |data| <= len && |data| <= limit
  {
    var n := Min(Min(limit, len), SaturatingSub(|file|, at));
    if n == 0 then [] else file[at..at + n]
  }

  /** One `poll_read` over the bytes of an unchanging file. */
  function Polled(h: Handle, file: Bytes, p: Poll): (Handle, Answer) {
    if !h.readable then (h, Denied)
    else if p.room == 0 then (h, Ready([]))
    else if h.buffer != [] then
      var n := Min(|h.buffer|, p.room);
      (h.(buffer := h.buffer[n..]), Ready(h.buffer[..n]))
    else
      var op := if h.op.None? then Created(p.room) else h.op.value;
      var at := if op.Created? then h.offset else op.at;
      match p.progress
      case Waits => (h.(op := Some(op)), Pending)
      case Locates => (h.(op := Some(Located(op.len, at))), Pending)
      case Breaks => (h.(op := None), Failed)
      case Finishes(limit) =>
        var data := Fetch(file, at, op.len, limit);
        var n := Min(|data|, p.room);
        (Handle(h.readable, at + |data|, data[n..], None), Ready(data[..n]))
  }

  class File {
    const readable: bool
    var offset: nat
    var readBuffer: Bytes
    var readOp: Option<ReadOp>

    function View(): Handle
      reads this
    {
      Handle(readable, offset, readBuffer, readOp)
    }

    constructor (readable: bool, offset: nat)
      ensures View() == Handle(readable, offset, [], None)
    {
      this.readable, this.offset, readBuffer, readOp := readable, offset, [], None;
    }

    method PollRead(file: Bytes, p: Poll) returns (r: Answer)
      modifies this
      ensures (View(), r) == Polled(old(View()), file, p)
      ensures old(Steady(View())) ==> Conserves(old(View()), file, Handed(r), View())
      ensures r.Denied? <==> !readable
      ensures readable && p.room > 0 && old(readBuffer) != [] ==>
                && r == Ready(old(readBuffer)[..Min(|old(readBuffer)|, p.room)])
                && readOp == old(readOp) && offset == old(offset)
      ensures r.Pending? <==>
              readable && p.room > 0 && old(readBuffer) == [] && (p.progress.Waits? || p.progress.Locates?)
      ensures r.Failed? <==> readable && p.room > 0 && old(readBuffer) == [] && p.progress.Breaks?
      ensures r.Pending? ==>
                && readOp.Some? && readOp.value.len == (if old(readOp).Some? then old(readOp).value.len else p.room)
                && readBuffer == [] && offset == old(offset)
      ensures r.Failed? ==> readOp.None? && readBuffer == [] && offset == old(offset)
    {
      if Steady(View()) {
        PollConservesBytes(View(), file, p);
      }
      if !readable {
        return Denied;
      }
      if p.room == 0 {
        return Ready([]);
      }
      if readBuffer != [] {
        var n := Min(|readBuffer|, p.room);
        r := Ready(readBuffer[..n]);
        readBuffer := readBuffer[n..];
        return;
      }
      if readOp.None? {
        readOp := Some(Created(p.room));
      }
      var op := readOp.value;
      var at := if op.Created? then offset else op.at;
      match p.progress
      case Waits =>
        r := Pending;
      case Locates =>
        readOp := Some(Located(op.len, at));
        r := Pending;
      case Breaks =>
        readOp := None;
        r := Failed;
      case Finishes(limit) =>
        var data := Fetch(file, at, op.len, limit);
        offset := at + |data|;
        readOp := None;
        var n := Min(|data|, p.room);
        r := Ready(data[..n]);
        if n < |data| {
          readBuffer := readBuffer + data[n..];
        }
        assert readBuffer == data[n..];
    }
  }

  // ---------------------------------------------------------------- sequences of polls

  function After(h: Handle, file: Bytes, polls: seq<Poll>): Handle {
    if polls == [] then h
    else Polled(After(h, file, polls[..|polls| - 1]), file, polls[|polls| - 1]).0
  }

  function AnswerTo(h: Handle, file: Bytes, polls: seq<Poll>): Answer
    requires polls != []
  {
    Polled(After(h, file, polls[..|polls| - 1]), file, polls[|polls| - 1]).1
  }

  function Handed(r: Answer): Bytes {
    if r.Ready? then r.bytes else []
  }

  /** All bytes handed to the caller. */
  function Delivered(h: Handle, file: Bytes, polls: seq<Poll>): Bytes {
    if polls == [] then [] else Delivered(h, file, polls[..|polls| - 1]) + Handed(AnswerTo(h, file, polls))
  }

  /** The file from `a` up to `b`; nothing moves beyond the end. */
  function Between(file: Bytes, a: nat, b: nat): Bytes {
    if a <= b <= |file| then file[a..b] else []
  }

  /** A read in flight is for the handle's current offset. */
  predicate Steady(h: Handle) {
    h.op.Some? && h.op.value.Located? ==> h.op.value.at == h.offset
  }

  /** `h'` follows from `h` by handing out `bytes`: these and what stays buffered are exactly what
      was buffered before, followed by what the offset moved over. */
  predicate Conserves(h: Handle, file: Bytes, bytes: Bytes, h': Handle) {
    && Steady(h') && h'.readable == h.readable
    && h.offset <= h'.offset && (h'.offset == h.offset || h'.offset <= |file|)
    && bytes + h'.buffer == h.buffer + Between(file, h.offset, h'.offset)
  }

  lemma {:induction false} PollConservesBytes(h: Handle, file: Bytes, p: Poll)
    requires Steady(h)
    ensures Conserves(h, file, Handed(Polled(h, file, p).1), Polled(h, file, p).0)
    ensures |Handed(Polled(h, file, p).1)| <= p.room
  {
    var (h', r) := Polled(h, file, p);
    if h.readable && p.room > 0 {
      if h.buffer != [] {
        assert r.bytes + h'.buffer == h.buffer;
      } else if p.progress.Finishes? {
        var op := if h.op.None? then Created(p.room) else h.op.value;
        var data := Fetch(file, h.offset, op.len, p.progress.limit);
        assert r.bytes + h'.buffer == data;
      }
    }
  }

  lemma {:induction false} ConservesComposes(h: Handle, file: Bytes, a: Bytes, mid: Handle, b: Bytes, h': Handle)
    requires Conserves(h, file, a, mid) && Conserves(mid, file, b, h')
    ensures Conserves(h, file, a + b, h')
  {
    var x, y := Between(file, h.offset, mid.offset), Between(file, mid.offset, h'.offset);
    assert x + y == Between(file, h.offset, h'.offset);
    calc {
      a + b + h'.buffer;
      a + (b + h'.buffer);
      a + (mid.buffer + y);
      a + mid.buffer + y;
      h.buffer + x + y;
      h.buffer + (x + y);
    }
  }

  /** For every sequence of polls, with any rooms, pending polls, failures and short reads: the
      delivered bytes followed by the carried-over bytes are the bytes buffered at the start followed
      by the file from the start offset to the current one. Nothing is lost, repeated or reordered. */
  lemma {:induction false} PollsDeliverTheFile(h: Handle, file: Bytes, polls: seq<Poll>)
    requires Steady(h)
    ensures Conserves(h, file, Delivered(h, file, polls), After(h, file, polls))
  {
    if polls != [] {
      var earlier, p := polls[..|polls| - 1], polls[|polls| - 1];
      var mid := After(h, file, earlier);
      PollsDeliverTheFile(h, file, earlier);
      PollConservesBytes(mid, file, p);
      ConservesComposes(h, file, Delivered(h, file, earlier), mid, Handed(Polled(mid, file, p).1), Polled(mid, file, p).0);
    }
  }

  /** A poll with room that finishes a willing backend read and still comes back empty is at the
      end of the file. */
  lemma {:induction false} EmptyPollIsAtEnd(h: Handle, file: Bytes, p: Poll)
    requires Steady(h) && h.readable && p.room > 0 && p.progress.Finishes? && p.progress.limit > 0
    requires h.op.Some? ==> h.op.value.len > 0
    requires Polled(h, file, p).1 == Ready([])
    ensures h.buffer == [] && h.offset >= |file|
  {
  }

  /** By the time a reader sees such an empty read, everything from its start offset has been
      delivered. */
  lemma {:induction false} EmptyReadIsTheEnd(h: Handle, file: Bytes, polls: seq<Poll>, p: Poll)
    requires Steady(h) && h.readable && h.buffer == [] && h.op.None? && h.offset <= |file|
    requires p.room > 0 && p.progress.Finishes? && p.progress.limit > 0
    requires Polled(After(h, file, polls), file, p).1 == Ready([])
    ensures Delivered(h, file, polls) == file[h.offset..]
  {
    PollsDeliverTheFile(h, file, polls);
    RequestsHaveRoom(h, file, polls);
    EmptyPollIsAtEnd(After(h, file, polls), file, p);
    AllDelivered(h, file, Delivered(h, file, polls), After(h, file, polls));
  }

  lemma {:induction false} AllDelivered(h: Handle, file: Bytes, bytes: Bytes, h': Handle)
    requires Conserves(h, file, bytes, h') && h.buffer == [] && h.offset <= |file|
    requires h'.buffer == [] && h'.offset >= |file|
    ensures bytes == file[h.offset..]
  {
    assert bytes + h'.buffer == bytes;
  }

  lemma {:induction false} RequestsHaveRoom(h: Handle, file: Bytes, polls: seq<Poll>)
    requires h.op.None?
    ensures After(h, file, polls).op.Some? ==> After(h, file, polls).op.value.len > 0
  {
    if polls != [] {
      RequestsHaveRoom(h, file, polls[..|polls| - 1]);
    }
  }

  // ---------------------------------------------------------------- polls that finish deliver

  /** What a reader is still owed: the carried-over bytes and the file behind the offset. */
  function Owed(h: Handle, file: Bytes): Bytes {
    h.buffer + if h.offset <= |file| then file[h.offset..] else []
  }

  /** A poll with room, of a backend that returns something. */
  predicate Willing(p: Poll) {
    p.room > 0 && p.progress.Finishes? && p.progress.limit > 0
  }

  predicate Readable(h: Handle) {
    Steady(h) && h.readable && (h.op.Some? ==> h.op.value.len > 0)
  }

  lemma {:induction false} WillingPollHands(h: Handle, file: Bytes, p: Poll)
    requires Readable(h) && Willing(p)
    ensures var (h', r) := Polled(h, file, p);
            && r.Ready? && Readable(h')
            && |r.bytes| + |Owed(h', file)| == |Owed(h, file)|
            && (Owed(h, file) != [] ==> r.bytes != [])
  {
    PollConservesBytes(h, file, p);
  }

  lemma {:induction false} WillingPollsHand(h: Handle, file: Bytes, polls: seq<Poll>)
    requires Readable(h) && forall p :: p in polls ==> Willing(p)
    ensures Readable(After(h, file, polls))
    ensures |Owed(After(h, file, polls), file)| <= SaturatingSub(|Owed(h, file)|, |polls|)
  {
    if polls != [] {
      var earlier, p := polls[..|polls| - 1], polls[|polls| - 1];
      WillingPollsHand(h, file, earlier);
      WillingPollHands(After(h, file, earlier), file, p);
    }
  }

  /** Polls with room that all finish hand out everything a reader is owed, in order, after at most as
      many polls as there are bytes. */
  lemma {:induction false} WillingPollsDeliverAll(h: Handle, file: Bytes, polls: seq<Poll>)
    requires Readable(h) && forall p :: p in polls ==> Willing(p)
    requires |polls| >= |Owed(h, file)|
    ensures Delivered(h, file, polls) == Owed(h, file)
  {
    var h', bytes := After(h, file, polls), Delivered(h, file, polls);
    PollsDeliverTheFile(h, file, polls);
    WillingPollsHand(h, file, polls);
    assert h'.buffer == [] && h'.offset >= |file| && bytes + h'.buffer == bytes;
  }

  /** A seek moves the offset and leaves the carried-over bytes alone. */
  function Sought(h: Handle, target: nat): Handle {
    h.(offset := target)
  }

  /** What a reader expects after moving to `target`: the bytes handed out and still buffered are the
      file from there on. */
  predicate ReadsFrom(h: Handle, file: Bytes, target: nat, polls: seq<Poll>) {
    var h' := After(h, file, polls);
    && target <= h'.offset && (h'.offset == target || h'.offset <= |file|)
    && Delivered(h, file, polls) + h'.buffer == Between(file, target, h'.offset)
  }

  /** Nothing is left over from before the seek: no bytes carried over, and no read in flight that has
      already read another offset. */
  predicate NothingLeftOver(h: Handle, target: nat) {
    h.buffer == [] && (h.readable && h.op.Some? && h.op.value.Located? ==> h.op.value.at == target)
  }

  lemma {:induction false} DeniedStays(h: Handle, file: Bytes, polls: seq<Poll>)
    requires !h.readable
    ensures After(h, file, polls) == h && Delivered(h, file, polls) == []
  {
    if polls != [] {
      DeniedStays(h, file, polls[..|polls| - 1]);
    }
  }

  lemma {:induction false} CleanSeekReads(h: Handle, file: Bytes, target: nat, polls: seq<Poll>)
    requires NothingLeftOver(h, target)
    ensures ReadsFrom(Sought(h, target), file, target, polls)
  {
    if h.readable {
      PollsDeliverTheFile(Sought(h, target), file, polls);
    } else {
      DeniedStays(Sought(h, target), file, polls);
    }
  }

  /** A read that was located before the seek finishes there and takes the offset along. */
  lemma {:induction false} StaleReadShows(h: Handle, file: Bytes, target: nat)
    requires h.readable && h.buffer == [] && h.op.Some? && h.op.value.Located? && h.op.value.at != target
    ensures !ReadsFrom(Sought(h, target), file, target, [Poll(1, Finishes(1))])
  {
    var polls := [Poll(1, Finishes(1))];
    assert polls[..0] == [];
    var data := Fetch(file, h.op.value.at, h.op.value.len, 1);
    assert After(Sought(h, target), file, polls) == Handle(true, h.op.value.at + |data|, [], None);
    assert Delivered(Sought(h, target), file, polls) == data;
  }

  /** After a seek the polls read the file from the target, for every schedule, exactly when nothing
      was left over. */
  lemma {:induction false} SeekIsExact(h: Handle, file: Bytes, target: nat)
    ensures (forall polls :: ReadsFrom(Sought(h, target), file, target, polls)) <==> NothingLeftOver(h, target)
  {
    if NothingLeftOver(h, target) {
      forall polls
        ensures ReadsFrom(Sought(h, target), file, target, polls)
      {
        CleanSeekReads(h, file, target, polls);
      }
    } else if h.buffer != [] {
      assert !ReadsFrom(Sought(h, target), file, target, []);
    } else {
      StaleReadShows(h, file, target);
    }
  }

  /** Both kinds of leftover come about: carried-over bytes when a read outlives the buffer it was made
      for, and a located read when it has to wait. */
  lemma {:induction false} LeftoversHappen(file: Bytes)
    requires |file| >= 8
    ensures After(Handle(true, 0, [], None), file, [Poll(8, Waits), Poll(3, Finishes(8))]).buffer == file[3..8]
    ensures After(Handle(true, 0, [], None), file, [Poll(8, Locates)]).op == Some(Located(8, 0))
  {
    var h, two, one := Handle(true, 0, [], None), [Poll(8, Waits), Poll(3, Finishes(8))], [Poll(8, Locates)];
    assert two[..1] == [Poll(8, Waits)] && [Poll(8, Waits)][..0] == [] && one[..0] == [];
    assert After(h, file, [Poll(8, Waits)]) == Handle(true, 0, [], Some(Created(8)));
    assert file[0..8][3..] == file[3..8];
  }
}
