/** Opening, reading, writing and copying files through the SDK, one client at a time. The backend
    answers its k-th call from a schedule, so short reads, short writes and failures can come at any
    point. */
module SdkCopy {
  import opened Common
  import opened PathNames

  type Bytes = seq<byte>

  const COPY_BUFFER := 128 * 1024

  datatype Error = NotFound | AlreadyExists | IsADirectory | InvalidInput | PermissionDenied | WriteZero | Io

  datatype Result<T> = Ok(value: T) | Err(error: Error)

  datatype Node = Directory | Regular(bytes: Bytes)

  /** How a backend call answers: it moves at most `limit` bytes, or fails. */
  datatype Answer = Moves(limit: nat) | Fails

  /** What is at each place of the namespace. Path strings are resolved to places; several strings can
      name one place. */
  type Nodes = map<nat, Node>

  /** A backend that never fails and always moves something. */
  ghost predicate Willing(answers: nat -> Answer) {
    forall k :: answers(k).Moves? && answers(k).limit > 0
  }

  /** A positioned write; a gap behind the end is filled with zeros, and no bytes change nothing. */
  function Splice(file: Bytes, offset: nat, data: Bytes): Bytes {
    if data == [] then file else
    var padded := if offset <= |file| then file else file + seq(offset - |file|, i => 0);
    padded[..offset] + data + (if offset + |data| <= |file| then file[offset + |data|..] else [])
  }

  /** Byte for byte: the data where it was written, the old bytes elsewhere, zeros in a gap. */
  lemma {:induction false} SpliceBytes(file: Bytes, offset: nat, data: Bytes, i: nat)
    requires data != [] && i < |Splice(file, offset, data)|
    ensures |Splice(file, offset, data)| == if offset + |data| > |file| then offset + |data| else |file|
    ensures Splice(file, offset, data)[i] ==
            if offset <= i < offset + |data| then data[i - offset] else if i < |file| then file[i] else 0
  {
    var padded := if offset <= |file| then file else file + seq(offset - |file|, i => 0);
    assert |padded[..offset] + data| == offset + |data|;
  }

  lemma {:induction false} SpliceAtEnd(file: Bytes, data: Bytes)
    ensures Splice(file, |file|, data) == file + data
  {
  }

  /** Writing a piece and then the next one behind it is writing both at once. */
  lemma {:induction false} SpliceComposes(file: Bytes, offset: nat, a: Bytes, b: Bytes)
    ensures Splice(Splice(file, offset, a), offset + |a|, b) == Splice(file, offset, a + b)
  {
    if a == [] {
      assert a + b == b;
    } else if b == [] {
      assert a + b == a;
    } else {
      var once := Splice(file, offset, a);
      assert |once| >= offset + |a|;
      assert once[..offset + |a|] == (if offset <= |file| then file else file + seq(offset - |file|, i => 0))[..offset] + a;
    }
  }

  /** Pieces written from the end on keep ending at the end. */
  lemma {:induction false} AppendedLength(file: Bytes, at: nat, a: Bytes, append: bool)
    requires append ==> at == |file|
    ensures append ==> |Splice(file, at, a)| == at + |a|
  {
    if append {
      SpliceAtEnd(file, a);
    }
  }

  /** The namespace after the file at `place` received `bytes` at `at`. */
  function Received(nodes: Nodes, place: nat, at: nat, bytes: Bytes): Nodes
    requires place in nodes && nodes[place].Regular?
  {
    nodes[place := Regular(Splice(nodes[place].bytes, at, bytes))]
  }

  /** Where a write lands. */
  function Target(nodes: Nodes, place: nat, append: bool, offset: nat): nat {
    if append && place in nodes && nodes[place].Regular? then |nodes[place].bytes| else offset
  }

  lemma {:induction false} ReceivedMore(nodes: Nodes, place: nat, at: nat, a: Bytes, b: Bytes, append: bool)
    requires place in nodes && nodes[place].Regular? && (append ==> at == |nodes[place].bytes|)
    ensures Received(Received(nodes, place, at, a), place, at + |a|, b) == Received(nodes, place, at, a + b)
    ensures Target(Received(nodes, place, at, a), place, append, at + |a|) == at + |a|
  {
    SpliceComposes(nodes[place].bytes, at, a, b);
    AppendedLength(nodes[place].bytes, at, a, append);
  }

  class Backend {
    var nodes: Nodes
    var calls: nat
    const answers: nat -> Answer
    const resolve: string -> nat

    constructor (nodes: Nodes, answers: nat -> Answer, resolve: string -> nat)
      ensures this.nodes == nodes && this.answers == answers && this.resolve == resolve
    {
      this.nodes, this.answers, this.resolve, calls := nodes, answers, resolve, 0;
    }

    method Answering() returns (ok: bool)
      modifies this`calls
      ensures Willing(answers) ==> ok
    {
      ok := answers(calls).Moves?;
      calls := calls + 1;
    }

    method CreateFile(path: string, createNew: bool) returns (r: Result<()>)
      modifies this
      ensures r.Ok? ==> nodes == if resolve(path) in old(nodes) then old(nodes) else old(nodes)[resolve(path) := Regular([])]
      ensures r.Ok? && resolve(path) in old(nodes) ==> !createNew && nodes[resolve(path)].Regular?
      ensures r.Err? ==> nodes == old(nodes)
      ensures Willing(answers) ==> (r.Ok? <==> resolve(path) !in old(nodes) || (old(nodes)[resolve(path)].Regular? && !createNew))
      ensures r.Err? && r.error != Io ==>
                resolve(path) in nodes && r.error == if nodes[resolve(path)].Directory? then IsADirectory else AlreadyExists
      ensures r == Err(Io) ==> !Willing(answers)
    {
      var ok := Answering();
      if !ok {
        return Err(Io);
      }
      if resolve(path) in nodes {
        if nodes[resolve(path)].Directory? {
          return Err(IsADirectory);
        }
        if createNew {
          return Err(AlreadyExists);
        }
      } else {
        nodes := nodes[resolve(path) := Regular([])];
      }
      r := Ok(());
    }

    method Stat(path: string) returns (r: Result<Node>)
      modifies this`calls
      ensures r.Ok? ==> resolve(path) in nodes && r.value == nodes[resolve(path)]
      ensures Willing(answers) ==> (r.Ok? <==> resolve(path) in nodes)
      ensures r.Err? && r.error != Io ==> r.error == NotFound && resolve(path) !in nodes
      ensures r == Err(Io) ==> !Willing(answers)
    {
      var ok := Answering();
      if !ok {
        return Err(Io);
      }
      r := if resolve(path) in nodes then Ok(nodes[resolve(path)]) else Err(NotFound);
    }

    method Truncate(path: string) returns (r: Result<()>)
      modifies this
      ensures r.Ok? ==> resolve(path) in old(nodes) && old(nodes)[resolve(path)].Regular? && nodes == old(nodes)[resolve(path) := Regular([])]
      ensures r.Err? ==> nodes == old(nodes)
      ensures Willing(answers) ==> (r.Ok? <==> resolve(path) in old(nodes) && old(nodes)[resolve(path)].Regular?)
      ensures r.Err? && r.error != Io ==>
                if resolve(path) in nodes then nodes[resolve(path)].Directory? && r.error == IsADirectory
                else r.error == NotFound
      ensures r == Err(Io) ==> !Willing(answers)
    {
      var ok := Answering();
      if !ok {
        return Err(Io);
      }
      if resolve(path) !in nodes {
        return Err(NotFound);
      }
      if nodes[resolve(path)].Directory? {
        return Err(IsADirectory);
      }
      nodes := nodes[resolve(path) := Regular([])];
      r := Ok(());
    }

    /** Returns nothing only at the end of the file or when nothing was asked for. */
    method ReadAt(path: string, offset: nat, len: nat) returns (r: Result<Bytes>)
      modifies this`calls
      ensures r.Ok? ==> resolve(path) in nodes && nodes[resolve(path)].Regular?
      ensures r.Ok? ==> var file := nodes[resolve(path)].bytes;
                        && |r.value| <= len && (r.value == [] <==> len == 0 || offset >= |file|)
                        && (r.value != [] ==> offset + |r.value| <= |file| && r.value == file[offset..offset + |r.value|])
      ensures Willing(answers) ==> (r.Ok? <==> resolve(path) in nodes && nodes[resolve(path)].Regular?)
    {
      var limit := if answers(calls).Moves? then answers(calls).limit else 0;
      var ok := Answering();
      if !ok {
        return Err(Io);
      }
      if resolve(path) !in nodes {
        return Err(NotFound);
      }
      if nodes[resolve(path)].Directory? {
        return Err(IsADirectory);
      }
      var file := nodes[resolve(path)].bytes;
      var n := Min(Min(limit + 1, len), SaturatingSub(|file|, offset));
      r := Ok(if n == 0 then [] else file[offset..offset + n]);
    }

    /** Writes a prefix of the data and returns its length. */
    method WriteAt(path: string, offset: nat, data: Bytes) returns (r: Result<nat>)
      modifies this
      ensures r.Ok? ==> resolve(path) in old(nodes) && old(nodes)[resolve(path)].Regular? && r.value <= |data|
                        && nodes == old(nodes)[resolve(path) := Regular(Splice(old(nodes)[resolve(path)].bytes, offset, data[..r.value]))]
      ensures r.Err? ==> nodes == old(nodes)
      ensures Willing(answers) ==> (r.Ok? <==> resolve(path) in old(nodes) && old(nodes)[resolve(path)].Regular?)
      ensures Willing(answers) && r.Ok? && data != [] ==> r.value > 0
    {
      var limit := if answers(calls).Moves? then answers(calls).limit else 0;
      var ok := Answering();
      if !ok {
        return Err(Io);
      }
      if resolve(path) !in nodes {
        return Err(NotFound);
      }
      if nodes[resolve(path)].Directory? {
        return Err(IsADirectory);
      }
      var n := Min(limit, |data|);
      nodes := nodes[resolve(path) := Regular(Splice(nodes[resolve(path)].bytes, offset, data[..n]))];
      r := Ok(n);
    }
  }

  // ---------------------------------------------------------------- options and handles

  datatype Options = Options(
    read: bool, write: bool, append: bool, truncate: bool, create: bool, createNew: bool)

  predicate Valid(o: Options) {
    && (o.read || o.write || o.append)
    && !(o.append && o.truncate)
    && (o.truncate ==> o.write)
    && (o.create || o.createNew ==> o.write || o.append)
  }

  /** The options that can be opened at a place, and the namespace once they are. */
  predicate Openable(o: Options, nodes: Nodes, place: nat) {
    && Valid(o)
    && (place in nodes ==> nodes[place].Regular? && !o.createNew)
    && (place !in nodes ==> o.create || o.createNew)
  }

  function Opened(o: Options, nodes: Nodes, place: nat): Nodes {
    if place !in nodes || o.truncate then nodes[place := Regular([])] else nodes
  }

  class File {
    const client: Backend
    const path: string
    const opts: Options
    var offset: nat
    var length: nat

    function Place(): nat {
      client.resolve(path)
    }

    constructor (client: Backend, path: string, opts: Options, offset: nat, length: nat)
      ensures this.client == client && this.path == path && this.opts == opts
      ensures this.offset == offset && this.length == length
    {
      this.client, this.path, this.opts, this.offset, this.length := client, path, opts, offset, length;
    }

    method Read(buf: array<byte>) returns (r: Result<nat>)
      modifies this`offset, client`calls, buf
      ensures r.Ok? ==> opts.read && r.value <= buf.Length && offset == old(offset) + r.value
      ensures r.Ok? && buf.Length > 0 ==>
                && Place() in client.nodes && client.nodes[Place()].Regular?
                && var file := client.nodes[Place()].bytes;
                && (r.value == 0 <==> old(offset) >= |file|)
                && (r.value > 0 ==> offset <= |file| && buf[..r.value] == file[old(offset)..offset])
      ensures r.Err? ==> offset == old(offset)
      ensures Willing(client.answers) && opts.read && Place() in client.nodes && client.nodes[Place()].Regular? ==> r.Ok?
    {
      if !opts.read {
        return Err(PermissionDenied);
      }
      if buf.Length == 0 {
        return Ok(0);
      }
      var data := client.ReadAt(path, offset, buf.Length);
      if data.Err? {
        return Err(data.error);
      }
      var n := |data.value|;
      forall i | 0 <= i < n {
        buf[i] := data.value[i];
      }
      assert buf[..n] == data.value;
      offset := offset + n;
      r := Ok(n);
    }

    /** Writes a prefix of the data at the offset, or at the end of the file in append mode. */
    method Write(data: Bytes) returns (r: Result<nat>)
      modifies this, client
      ensures r.Ok? && data == [] ==> r.value == 0 && client.nodes == old(client.nodes) && offset == old(offset)
      ensures r.Ok? && data != [] ==>
                && r.value <= |data| && Place() in old(client.nodes) && old(client.nodes)[Place()].Regular?
                && var at := Target(old(client.nodes), Place(), opts.append, old(offset));
                && client.nodes == Received(old(client.nodes), Place(), at, data[..r.value])
                && offset == at + r.value
      ensures r.Err? ==> client.nodes == old(client.nodes)
      ensures Willing(client.answers) && (opts.write || opts.append)
              && Place() in old(client.nodes) && old(client.nodes)[Place()].Regular? ==>
                r.Ok? && (data != [] ==> r.value > 0)
    {
      if !(opts.write || opts.append) {
        return Err(PermissionDenied);
      }
      if data == [] {
        return Ok(0);
      }
      if opts.append {
        var meta := client.Stat(path);
        if meta.Err? {
          return Err(meta.error);
        }
        if meta.value.Directory? {
          return Err(IsADirectory);
        }
        length := |meta.value.bytes|;
        offset := length;
      }
      r := client.WriteAt(path, offset, data);
      if r.Ok? {
        offset := offset + r.value;
        if offset > length {
          length := offset;
        }
      }
    }

    /** Writes all of the data from the offset on, or behind the end in append mode, whatever short
        writes come; on an error the file has received a prefix of the data there. */
    method WriteAll(data: Bytes) returns (r: Result<()>, ghost written: nat)
      modifies this, client
      ensures written <= |data| && (r.Ok? ==> written == |data|)
      ensures written == 0 ==> client.nodes == old(client.nodes)
      ensures written > 0 ==>
                && Place() in old(client.nodes) && old(client.nodes)[Place()].Regular?
                && var at := Target(old(client.nodes), Place(), opts.append, old(offset));
                && client.nodes == Received(old(client.nodes), Place(), at, data[..written])
                && (r.Ok? ==> offset == at + written)
      ensures data == [] ==> r.Ok? && offset == old(offset)
      ensures (Willing(client.answers) && (opts.write || opts.append)
               && Place() in old(client.nodes) && old(client.nodes)[Place()].Regular?) ==> r.Ok?
    {
      var rest := data;
      written := 0;
      ghost var nodes := client.nodes;
      ghost var at := Target(nodes, Place(), opts.append, offset);
      while rest != []
        invariant written + |rest| == |data| && rest == data[written..]
        invariant written == 0 ==> client.nodes == nodes && offset == old(offset)
        invariant written > 0 ==>
                    && Place() in nodes && nodes[Place()].Regular? && offset == at + written
                    && client.nodes == Received(nodes, Place(), at, data[..written])
        decreases |rest|
      {
        var n := Write(rest);
        if n.Err? {
          return Err(n.error), written;
        }
        if n.value == 0 {
          assert client.nodes == if written == 0 then nodes else Received(nodes, Place(), at, data[..written]);
          return Err(WriteZero), written;
        }
        assert data[..written] + rest[..n.value] == data[..written + n.value];
        if written > 0 {
          ReceivedMore(nodes, Place(), at, data[..written], rest[..n.value], opts.append);
        }
        written := written + n.value;
        rest := rest[n.value..];
      }
      r := Ok(());
    }
  }

  /** Opens a handle: succeeds with a willing backend exactly when the options fit what is at the
      path; the namespace changes at most by creating or emptying that one file. */
  method Open(client: Backend, o: Options, path: string) returns (r: Result<File>)
    modifies client
    ensures r.Ok? ==> Openable(o, old(client.nodes), client.resolve(path)) && client.nodes == Opened(o, old(client.nodes), client.resolve(path))
    ensures r.Ok? ==> var f := r.value;
                      && fresh(f) && f.client == client && f.path == path && f.opts == o
                      && client.resolve(path) in client.nodes && client.nodes[client.resolve(path)].Regular?
                      && f.length == |client.nodes[client.resolve(path)].bytes| && f.offset == if o.append then f.length else 0
    ensures r.Err? ==> client.nodes == old(client.nodes) || client.nodes == old(client.nodes)[client.resolve(path) := Regular([])]
    ensures r.Err? && !o.truncate && !o.create && !o.createNew ==> client.nodes == old(client.nodes)
    ensures Willing(client.answers) ==> (r.Ok? <==> Openable(o, old(client.nodes), client.resolve(path)))
    ensures r == Err(InvalidInput) <==>
            || (!o.read && !o.write && !o.append) || (o.append && o.truncate) || (o.truncate && !o.write)
            || ((o.create || o.createNew) && !o.write && !o.append)
    ensures r.Err? && r.error in {InvalidInput, AlreadyExists, IsADirectory} ==> client.nodes == old(client.nodes)
    ensures Willing(client.answers) && r.Err? && r.error != InvalidInput ==>
              r.error == if client.resolve(path) !in old(client.nodes) then NotFound
                         else if old(client.nodes)[client.resolve(path)].Directory? then IsADirectory else AlreadyExists
  {
    if !Valid(o) {
      return Err(InvalidInput);
    }
    var preStat: Option<Node> := None;
    if o.createNew || o.create {
      var created := client.CreateFile(path, o.createNew);
      if created.Err? {
        return Err(created.error);
      }
    } else {
      var meta := client.Stat(path);
      if meta.Err? {
        return Err(meta.error);
      }
      preStat := Some(meta.value);
    }
    if o.truncate {
      if preStat.Some? && preStat.value.Directory? {
        return Err(IsADirectory);
      }
      var cut := client.Truncate(path);
      if cut.Err? {
        return Err(cut.error);
      }
    }
    var node;
    if preStat.Some? && !o.truncate {
      node := preStat.value;
    } else {
      var meta := client.Stat(path);
      if meta.Err? {
        return Err(meta.error);
      }
      node := meta.value;
    }
    if node.Directory? {
      return Err(IsADirectory);
    }
    var size := |node.bytes|;
    var f := new File(client, path, o, if o.append then size else 0, size);
    r := Ok(f);
  }

  const ReadOnly := Options(true, false, false, false, false, false)
  const Overwrite := Options(false, true, false, true, true, false)

  /** Progress of a copy: the destination holds the first `copied` bytes of the source `file`. */
  ghost predicate Copying(client: Backend, nodes: Nodes, from: File, to: File, file: Bytes, copied: nat)
    reads client, from, to
  {
    && from.client == client && to.client == client && from != to && from.opts.read && to.opts == Overwrite
    && from.Place() in nodes && nodes[from.Place()] == Regular(file)
    && copied <= |file| && from.offset == to.offset == copied
    && client.nodes == nodes[to.Place() := Regular(file[..copied])]
    && (from.Place() == to.Place() ==> file == [])
  }

  /** One round of the copy loop. */
  method CopyChunk(client: Backend, ghost nodes: Nodes, from: File, to: File, ghost file: Bytes, buf: array<byte>)
    returns (r: Result<nat>)
    requires Copying(client, nodes, from, to, file, from.offset) && buf.Length > 0
    modifies client, from`offset, to, buf
    ensures r.Ok? ==> Copying(client, nodes, from, to, file, old(from.offset) + r.value)
    ensures r.Ok? ==> (r.value == 0 <==> old(from.offset) == |file|)
    ensures r.Err? ==> exists k: nat :: k <= |file| && client.nodes == nodes[to.Place() := Regular(file[..k])]
    ensures Willing(client.answers) ==> r.Ok?
  {
    ghost var copied := from.offset;
    assert client.nodes[from.Place()] == Regular(file);
    var n := from.Read(buf);
    if n.Err? || n.value == 0 {
      return n;
    }
    ghost var piece := buf[..n.value];
    var w;
    ghost var k;
    w, k := to.WriteAll(buf[..n.value]);
    SpliceAtEnd(file[..copied], piece[..k]);
    assert file[..copied] + piece[..k] == file[..copied + k];
    if w.Err? {
      return Err(w.error);
    }
    r := n;
  }

  /** Copies a file, for every schedule of short reads, short writes and failures. Between two
      different files an Ok means the destination equals the source and the count is its length.
      Copying a file onto itself, under whatever two strings, empties it first, so it keeps its
      contents exactly when it had none. With a willing backend the copy succeeds exactly when the
      source is a file and the destination is not a directory. Whatever happens, nothing else
      changes, and a failed copy leaves the destination as it was or with a prefix of the source. */
  method Copy(client: Backend, src: string, dst: string) returns (r: Result<nat>)
    modifies client
    ensures var from, to, before := client.resolve(src), client.resolve(dst), old(client.nodes);
            && (r.Ok? ==> from in before && before[from].Regular?)
            && (r.Ok? && from != to ==> client.nodes == before[to := before[from]] && r.value == |before[from].bytes|)
            && (r.Ok? && from == to ==> client.nodes == before[to := Regular([])] && r.value == 0)
    ensures forall p :: p != client.resolve(dst) ==> (p in client.nodes <==> p in old(client.nodes))
    ensures forall p :: p != client.resolve(dst) && p in client.nodes ==> client.nodes[p] == old(client.nodes)[p]
    ensures var from, to, before := client.resolve(src), client.resolve(dst), old(client.nodes);
            r.Err? && from != to && client.nodes != before ==>
              && from in before && before[from].Regular?
              && to in client.nodes && client.nodes[to].Regular? && client.nodes[to].bytes <= before[from].bytes
    ensures var from, to, before := client.resolve(src), client.resolve(dst), old(client.nodes);
            Willing(client.answers) ==>
              (r.Ok? <==> from in before && before[from].Regular? && (to in before ==> before[to].Regular?))
  {
    var source := Open(client, ReadOnly, src);
    if source.Err? {
      return Err(source.error);
    }
    var target := Open(client, Overwrite, dst);
    if target.Err? {
      return Err(target.error);
    }
    var from, to := source.value, target.value;
    var buf := new byte[COPY_BUFFER];
    var copied := 0;
    ghost var nodes, file := client.nodes, client.nodes[client.resolve(src)].bytes;
    assert nodes == nodes[client.resolve(dst) := Regular(file[..0])];
    while true
      invariant Copying(client, nodes, from, to, file, copied)
      decreases |file| - copied
    {
      var n := CopyChunk(client, nodes, from, to, file, buf);
      if n.Err? {
        return Err(n.error);
      }
      if n.value == 0 {
        break;
      }
      copied := copied + n.value;
    }
    assert file[..copied] == file;
    r := Ok(copied);
  }

  // ---------------------------------------------------------------- two spellings of one file

  /** The file system normalises path strings before it looks at them. */
  ghost predicate Normalises(resolve: string -> nat) {
    forall p, q :: Components(p) == Components(q) ==> resolve(p) == resolve(q)
  }

  /** A doubled slash is another string for the same file. */
  lemma {:induction false} SpellingsMeet(resolve: string -> nat, path: string)
    requires Normalises(resolve)
    ensures "/" + path != path && resolve("/" + path) == resolve(path)
  {
    LeadingSlash(path);
    assert |"/" + path| != |path|;
  }

  /** Copying `/a` to `//a` compares as two different paths and empties the file. */
  method CopyOverItself(client: Backend) returns (r: Result<nat>)
    requires Normalises(client.resolve) && Willing(client.answers)
    requires client.resolve("/a") in client.nodes && client.nodes[client.resolve("/a")].Regular?
    modifies client
    ensures "/a" != "//a" && r == Ok(0)
    ensures client.nodes == old(client.nodes)[client.resolve("/a") := Regular([])]
  {
    SpellingsMeet(client.resolve, "/a");
    assert "/" + "/a" == "//a";
    r := Copy(client, "/a", "//a");
  }
}
