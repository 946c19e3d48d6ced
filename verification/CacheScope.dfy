/** The byte string that identifies a flat volume's persistent cache. Strings stand for byte strings,
    one character per byte. URL scrubbing, the test for in-memory SQLite, path absolutisation and
    fresh UUIDs come from outside. */
module CacheScope {
  import opened Common

  datatype MetaKind = Sqlx | Redis | Etcd | TiKv

  datatype DataKind = LocalFs | S3

  datatype Config = Config(
    meta: MetaKind, metaUrl: string, etcdUrls: seq<string>, pdEndpoints: seq<string>, namespace: string,
    data: DataKind, dataDir: string, s3Endpoint: Option<string>, s3Bucket: Option<string>, s3Region: Option<string>)

  datatype World = World(
    scrub: string -> string, isMemory: string -> bool, absolute: string -> Option<string>,
    metaUuid: string, dataUuid: string)

  // ---------------------------------------------------------------- length framing

  /** The low `k` bytes of `n`, most significant first. */
  function BigEndian(n: nat, k: nat): (s: string)
    ensures |s| == k
    decreases k
  {
    if k == 0 then "" else BigEndian(n / 256, k - 1) + [(n % 256) as char]
  }

  function Pow256(k: nat): nat {
    if k == 0 then 1 else 256 * Pow256(k - 1)
  }

  /** The number a byte string spells, most significant byte first. */
  function Spelled(s: string): nat {
    if s == [] then 0 else 256 * Spelled(s[..|s| - 1]) + s[|s| - 1] as int
  }

  lemma {:induction false} BigEndianSpells(n: nat, k: nat)
    requires n < Pow256(k)
    ensures Spelled(BigEndian(n, k)) == n
    decreases k
  {
    if k > 0 {
      BigEndianSpells(n / 256, k - 1);
      assert BigEndian(n, k)[..k - 1] == BigEndian(n / 256, k - 1);
      assert ((n % 256) as char) as int == n % 256;
    }
  }

  /** Each part is preceded by its length in eight bytes. */
  function Framed(parts: seq<string>): string {
    if parts == [] then "" else Framed(parts[..|parts| - 1]) + Frame(parts[|parts| - 1])
  }

  function Frame(part: string): string {
    BigEndian(|part|, 8) + part
  }

  /** Lengths fit 64 bits, as every length in memory does. */
  predicate Addressable(parts: seq<string>) {
    forall i :: 0 <= i < |parts| ==> |parts[i]| < U64_RANGE
  }

  /** The same framing read from the front. */
  lemma {:induction false} FramedFront(parts: seq<string>)
    requires parts != []
    ensures Framed(parts) == Frame(parts[0]) + Framed(parts[1..])
  {
    var last := |parts| - 1;
    if last == 0 {
      assert parts[..0] == [] && parts[1..] == [];
    } else {
      var middle := Framed(parts[1..][..last - 1]);
      assert Framed(parts[..last]) == Frame(parts[0]) + middle by {
        FramedFront(parts[..last]);
        assert parts[..last][1..] == parts[1..][..last - 1];
      }
      Reassociate(Frame(parts[0]), middle, Frame(parts[last]));
    }
  }

  lemma {:induction false} FrameIsPrefixFree(p: string, x: string, q: string, y: string)
    requires |p| < U64_RANGE && |q| < U64_RANGE && Frame(p) + x == Frame(q) + y
    ensures p == q && x == y
  {
    var whole := Frame(p) + x;
    assert whole[..8] == BigEndian(|p|, 8) && whole[..8] == BigEndian(|q|, 8);
    assert Pow256(8) == U64_RANGE;
    BigEndianSpells(|p|, 8);
    BigEndianSpells(|q|, 8);
    assert whole[8..8 + |p|] == p && whole[8..8 + |p|] == q;
    assert whole[8 + |p|..] == x && whole[8 + |p|..] == y;
  }

  /** The framed bytes determine the list of parts. */
  lemma {:induction false} FramingIsInjective(a: seq<string>, b: seq<string>)
    requires Addressable(a) && Addressable(b) && Framed(a) == Framed(b)
    ensures a == b
    decreases |a| + |b|
  {
    if a != [] && b != [] {
      FramedFront(a);
      FramedFront(b);
      FrameIsPrefixFree(a[0], Framed(a[1..]), b[0], Framed(b[1..]));
      FramingIsInjective(a[1..], b[1..]);
      assert a == [a[0]] + a[1..] && b == [b[0]] + b[1..];
    }
  }

  // ---------------------------------------------------------------- sorting endpoints

  /** Byte-wise lexicographic order. */
  predicate LexLe(a: string, b: string) {
    a == [] || (b != [] && (a[0] < b[0] || (a[0] == b[0] && LexLe(a[1..], b[1..]))))
  }

  lemma {:induction false} LexTotal(a: string, b: string)
    ensures LexLe(a, b) || LexLe(b, a)
  {
    if a != [] && b != [] {
      LexTotal(a[1..], b[1..]);
    }
  }

  lemma {:induction false} LexAntisymmetric(a: string, b: string)
    requires LexLe(a, b) && LexLe(b, a)
    ensures a == b
  {
    if a != [] {
      LexAntisymmetric(a[1..], b[1..]);
      assert a == [a[0]] + a[1..] && b == [b[0]] + b[1..];
    }
  }

  lemma {:induction false} LexTransitive(a: string, b: string, c: string)
    requires LexLe(a, b) && LexLe(b, c)
    ensures LexLe(a, c)
  {
    if a != [] && a[0] == b[0] && b[0] == c[0] {
      LexTransitive(a[1..], b[1..], c[1..]);
    }
  }

  predicate Ascending(s: seq<string>) {
    forall i, j :: 0 <= i < j < |s| ==> LexLe(s[i], s[j])
  }

  function Insert(x: string, s: seq<string>): seq<string> {
    if s == [] then [x] else if LexLe(x, s[0]) then [x] + s else [s[0]] + Insert(x, s[1..])
  }

  function Sort(s: seq<string>): seq<string> {
    if s == [] then [] else Insert(s[0], Sort(s[1..]))
  }

  lemma {:induction false} InsertKeepsAll(x: string, s: seq<string>)
    ensures multiset(Insert(x, s)) == multiset(s) + multiset{x}
  {
    if s != [] {
      assert s == [s[0]] + s[1..];
      if !LexLe(x, s[0]) {
        InsertKeepsAll(x, s[1..]);
      }
    }
  }

  lemma {:induction false} InsertKeepsOrder(x: string, s: seq<string>)
    requires Ascending(s)
    ensures Ascending(Insert(x, s))
  {
    if s != [] {
      if LexLe(x, s[0]) {
        forall j | 0 <= j < |s|
          ensures LexLe(x, s[j])
        {
          if j > 0 {
            LexTransitive(x, s[0], s[j]);
          }
        }
      } else {
        var tail := Insert(x, s[1..]);
        LexTotal(x, s[0]);
        InsertKeepsOrder(x, s[1..]);
        InsertKeepsAll(x, s[1..]);
        forall j | 0 <= j < |tail|
          ensures LexLe(s[0], tail[j])
        {
          assert tail[j] in multiset(tail);
          if tail[j] != x {
            assert tail[j] in s[1..];
          }
        }
      }
    }
  }

  lemma {:induction false} SortSorts(s: seq<string>)
    ensures multiset(Sort(s)) == multiset(s) && Ascending(Sort(s))
  {
    if s != [] {
      SortSorts(s[1..]);
      InsertKeepsAll(s[0], Sort(s[1..]));
      InsertKeepsOrder(s[0], Sort(s[1..]));
      assert s == [s[0]] + s[1..];
    }
  }

  lemma {:induction false} TailMultiset(s: seq<string>)
    requires s != []
    ensures multiset(s[1..]) == multiset(s) - multiset{s[0]}
  {
    assert s == [s[0]] + s[1..];
  }

  /** There is only one ascending arrangement of a multiset. */
  lemma {:induction false} AscendingIsUnique(a: seq<string>, b: seq<string>)
    requires Ascending(a) && Ascending(b) && multiset(a) == multiset(b)
    ensures a == b
  {
    assert |multiset(a)| == |a| && |multiset(b)| == |b|;
    if a != [] {
      assert a[0] in multiset(b);
      var i :| 0 <= i < |b| && b[i] == a[0];
      assert b[0] in multiset(a);
      var j :| 0 <= j < |a| && a[j] == b[0];
      if i > 0 && j > 0 {
        LexAntisymmetric(a[0], b[0]);
      }
      TailMultiset(a);
      TailMultiset(b);
      AscendingIsUnique(a[1..], b[1..]);
      assert a == [a[0]] + a[1..] && b == [b[0]] + b[1..];
    }
  }

  /** Sorting removes exactly the order. */
  lemma {:induction false} SortForgetsOrder(a: seq<string>, b: seq<string>)
    ensures Sort(a) == Sort(b) <==> multiset(a) == multiset(b)
  {
    SortSorts(a);
    SortSorts(b);
    if multiset(a) == multiset(b) {
      AscendingIsUnique(Sort(a), Sort(b));
    }
  }

  // ---------------------------------------------------------------- parts and identity

  datatype DataId = LocalId(path: string) | S3Id(endpoint: string, bucket: string, region: string)

  function ScrubAll(w: World, urls: seq<string>): seq<string> {
    if urls == [] then [] else ScrubAll(w, urls[..|urls| - 1]) + [w.scrub(urls[|urls| - 1])]
  }

  /** An in-memory database has a fresh identity. */
  function SqlxUrl(w: World, c: Config): string {
    if w.isMemory(c.metaUrl) then "ephemeral:" + w.metaUuid else w.scrub(c.metaUrl)
  }

  /** An S3 service without an explicit endpoint has a fresh identity. */
  function S3EndpointOf(w: World, c: Config): string {
    if c.s3Endpoint.Some? then w.scrub(c.s3Endpoint.value) else "ephemeral:" + w.dataUuid
  }

  function OrEmpty(s: Option<string>): string {
    if s.Some? then s.value else ""
  }

  function DataIdOf(w: World, c: Config): DataId
    requires Resolves(w, c)
  {
    match c.data
    case LocalFs => LocalId(w.absolute(c.dataDir).value)
    case S3 => S3Id(S3EndpointOf(w, c), OrEmpty(c.s3Bucket), OrEmpty(c.s3Region))
  }

  /** The data directory, where it matters, has an absolute form. */
  predicate Resolves(w: World, c: Config) {
    c.data.LocalFs? ==> w.absolute(c.dataDir).Some?
  }

  /** Absolute paths start with a slash. */
  predicate Absolute(id: DataId) {
    id.LocalId? ==> "/" <= id.path
  }

  function MetaParts(w: World, c: Config): seq<string> {
    match c.meta
    case Sqlx => ["flat-v1", "meta:sqlx", SqlxUrl(w, c)]
    case Redis => ["flat-v1", "meta:redis", w.scrub(c.metaUrl)]
    case Etcd => ["flat-v1", "meta:etcd"] + Sort(ScrubAll(w, c.etcdUrls))
    case TiKv => ["flat-v1", "meta:tikv"] + Sort(ScrubAll(w, c.pdEndpoints)) + ["namespace:" + c.namespace]
  }

  function DataParts(id: DataId): seq<string> {
    match id
    case LocalId(path) => ["data:localfs", path]
    case S3Id(endpoint, bucket, region) => ["data:s3", "endpoint:" + endpoint, "bucket:" + bucket, "region:" + region]
  }

  function Parts(w: World, c: Config): seq<string>
    requires Resolves(w, c)
  {
    MetaParts(w, c) + DataParts(DataIdOf(w, c))
  }

  lemma {:induction false} AfterPrefix(prefix: string, a: string, b: string)
    requires prefix + a == prefix + b
    ensures a == b
  {
    assert (prefix + a)[|prefix|..] == a && (prefix + b)[|prefix|..] == b;
  }

  /** The last part tells the two data backends apart, and with it where the data parts start. */
  lemma {:induction false} DataPartsFromTheEnd(m: seq<string>, a: DataId, n: seq<string>, b: DataId)
    requires Absolute(a) && Absolute(b)
    requires m + DataParts(a) == n + DataParts(b)
    ensures m == n && a == b
  {
    var whole := m + DataParts(a);
    var last := whole[|whole| - 1];
    assert last == DataParts(a)[|DataParts(a)| - 1] && last == DataParts(b)[|DataParts(b)| - 1];
    assert a.LocalId? ==> last[0] == '/';
    assert b.LocalId? ==> last[0] == '/';
    assert a.S3Id? ==> last[0] == 'r';
    assert b.S3Id? ==> last[0] == 'r';
    assert |DataParts(a)| == |DataParts(b)| && |m| == |n|;
    assert m == whole[..|m|] && n == whole[..|m|];
    assert DataParts(a) == whole[|m|..] && DataParts(b) == whole[|m|..];
    SameDataParts(a, b);
  }

  lemma {:induction false} SameDataParts(a: DataId, b: DataId)
    requires DataParts(a) == DataParts(b)
    ensures a == b
  {
    assert |DataParts(a)| == |DataParts(b)|;
    assert DataParts(a)[1] == DataParts(b)[1];
    if a.S3Id? {
      AfterPrefix("endpoint:", a.endpoint, b.endpoint);
      assert DataParts(a)[2] == DataParts(b)[2];
      AfterPrefix("bucket:", a.bucket, b.bucket);
      assert DataParts(a)[3] == DataParts(b)[3];
      AfterPrefix("region:", a.region, b.region);
    }
  }

  // ---------------------------------------------------------------- which volumes share a scope

  /** Which of the endpoints have the scrubbed form `x`. */
  function Positions(w: World, urls: seq<string>, x: string): set<nat> {
    set i: nat | i < |urls| && w.scrub(urls[i]) == x
  }

  /** Two endpoint lists are rearrangements of each other once they are scrubbed. */
  ghost predicate SameEndpoints(w: World, xs: seq<string>, v: World, ys: seq<string>) {
    forall x :: |Positions(w, xs, x)| == |Positions(v, ys, x)|
  }

  /** Two mounts use the same metadata. An in-memory database is known by its fresh UUID. */
  ghost predicate SameMetadata(w: World, a: Config, v: World, b: Config) {
    && a.meta == b.meta
    && match a.meta
       case Sqlx =>
         if w.isMemory(a.metaUrl) && v.isMemory(b.metaUrl) then w.metaUuid == v.metaUuid
         else if w.isMemory(a.metaUrl) then v.scrub(b.metaUrl) == "ephemeral:" + w.metaUuid
         else if v.isMemory(b.metaUrl) then w.scrub(a.metaUrl) == "ephemeral:" + v.metaUuid
         else w.scrub(a.metaUrl) == v.scrub(b.metaUrl)
       case Redis => w.scrub(a.metaUrl) == v.scrub(b.metaUrl)
       case Etcd => SameEndpoints(w, a.etcdUrls, v, b.etcdUrls)
       case TiKv => SameEndpoints(w, a.pdEndpoints, v, b.pdEndpoints) && a.namespace == b.namespace
  }

  /** Two optional settings agree, a missing one being the same as an empty one. */
  predicate SameSetting(a: Option<string>, b: Option<string>) {
    a == b || (a == None && b == Some("")) || (a == Some("") && b == None)
  }

  /** Two mounts use the same data store. A service without an endpoint is known by its fresh UUID. */
  predicate SameStore(w: World, a: Config, v: World, b: Config) {
    && a.data == b.data
    && match a.data
       case LocalFs => w.absolute(a.dataDir) == v.absolute(b.dataDir)
       case S3 =>
         && SameSetting(a.s3Bucket, b.s3Bucket) && SameSetting(a.s3Region, b.s3Region)
         && if a.s3Endpoint.Some? && b.s3Endpoint.Some? then w.scrub(a.s3Endpoint.value) == v.scrub(b.s3Endpoint.value)
            else if a.s3Endpoint.Some? then w.scrub(a.s3Endpoint.value) == "ephemeral:" + v.dataUuid
            else if b.s3Endpoint.Some? then v.scrub(b.s3Endpoint.value) == "ephemeral:" + w.dataUuid
            else w.dataUuid == v.dataUuid
  }

  lemma {:induction false} ScrubAllCounts(w: World, urls: seq<string>, x: string)
    ensures multiset(ScrubAll(w, urls))[x] == |Positions(w, urls, x)|
  {
    if urls != [] {
      var n := |urls| - 1;
      ScrubAllCounts(w, urls[..n], x);
      assert Positions(w, urls[..n], x) == Positions(w, urls, x) - {n};
    }
  }

  lemma {:induction false} SameEndpointsSorted(w: World, xs: seq<string>, v: World, ys: seq<string>)
    ensures Sort(ScrubAll(w, xs)) == Sort(ScrubAll(v, ys)) <==> SameEndpoints(w, xs, v, ys)
  {
    var x, y := ScrubAll(w, xs), ScrubAll(v, ys);
    SortForgetsOrder(x, y);
    forall z
      ensures multiset(x)[z] == |Positions(w, xs, z)| && multiset(y)[z] == |Positions(v, ys, z)|
    {
      ScrubAllCounts(w, xs, z);
      ScrubAllCounts(v, ys, z);
    }
    if SameEndpoints(w, xs, v, ys) {
      assert forall z :: multiset(x)[z] == multiset(y)[z];
    }
  }

  /** The second part tells the metadata backends apart; sorted endpoints stand for their counts. */
  lemma {:induction false} MetaPartsAgree(w: World, a: Config, v: World, b: Config)
    ensures MetaParts(w, a) == MetaParts(v, b) <==> SameMetadata(w, a, v, b)
  {
    var p, q := MetaParts(w, a), MetaParts(v, b);
    if a.meta != b.meta {
      DifferentKinds(w, a, v, b);
    } else {
      match a.meta
      case Sqlx =>
        assert p[2] == SqlxUrl(w, a) && q[2] == SqlxUrl(v, b);
        SameFreshName(w.metaUuid, v.metaUuid);
      case Redis =>
        assert p[2] == w.scrub(a.metaUrl) && q[2] == v.scrub(b.metaUrl);
      case Etcd =>
        SameEndpointsSorted(w, a.etcdUrls, v, b.etcdUrls);
        assert p[2..] == Sort(ScrubAll(w, a.etcdUrls)) && q[2..] == Sort(ScrubAll(v, b.etcdUrls));
      case TiKv =>
        SameEndpointsSorted(w, a.pdEndpoints, v, b.pdEndpoints);
        TiKvPartsAgree(["flat-v1", "meta:tikv"], Sort(ScrubAll(w, a.pdEndpoints)), a.namespace,
                       Sort(ScrubAll(v, b.pdEndpoints)), b.namespace);
    }
  }

  lemma {:induction false} SameFreshName(x: string, y: string)
    ensures "ephemeral:" + x == "ephemeral:" + y <==> x == y
  {
    if "ephemeral:" + x == "ephemeral:" + y {
      AfterPrefix("ephemeral:", x, y);
    }
  }

  lemma {:induction false} DataAgrees(w: World, a: Config, v: World, b: Config)
    requires Resolves(w, a) && Resolves(v, b)
    ensures DataIdOf(w, a) == DataIdOf(v, b) <==> SameStore(w, a, v, b)
  {
    SameFreshName(w.dataUuid, v.dataUuid);
  }

  lemma {:induction false} DifferentKinds(w: World, a: Config, v: World, b: Config)
    requires a.meta != b.meta
    ensures MetaParts(w, a) != MetaParts(v, b)
  {
    var x, y := MetaParts(w, a)[1], MetaParts(v, b)[1];
    assert x[5] != y[5];
  }

  lemma {:induction false} TiKvPartsAgree(front: seq<string>, x: seq<string>, m: string, y: seq<string>, n: string)
    ensures front + x + ["namespace:" + m] == front + y + ["namespace:" + n] <==> x == y && m == n
  {
    var p, q := front + x + ["namespace:" + m], front + y + ["namespace:" + n];
    if p == q {
      assert |x| == |y|;
      assert p[|front|..|p| - 1] == x && q[|front|..|q| - 1] == y;
      assert p[|p| - 1] == "namespace:" + m && q[|q| - 1] == "namespace:" + n;
      AfterPrefix("namespace:", m, n);
    }
  }

  /** The bytes that are hashed are equal exactly when the two mounts use the same metadata and the
      same data store. */
  lemma {:induction false} ScopeIsIdentity(w: World, a: Config, v: World, b: Config)
    requires Resolves(w, a) && Resolves(v, b) && Absolute(DataIdOf(w, a)) && Absolute(DataIdOf(v, b))
    requires Addressable(Parts(w, a)) && Addressable(Parts(v, b))
    ensures Framed(Parts(w, a)) == Framed(Parts(v, b)) <==> SameMetadata(w, a, v, b) && SameStore(w, a, v, b)
  {
    MetaPartsAgree(w, a, v, b);
    DataAgrees(w, a, v, b);
    if Framed(Parts(w, a)) == Framed(Parts(v, b)) {
      FramingIsInjective(Parts(w, a), Parts(v, b));
      DataPartsFromTheEnd(MetaParts(w, a), DataIdOf(w, a), MetaParts(v, b), DataIdOf(v, b));
    }
  }

  // ---------------------------------------------------------------- the computation

  method ScrubEach(w: World, urls: seq<string>) returns (endpoints: seq<string>)
    ensures endpoints == ScrubAll(w, urls)
  {
    endpoints := [];
    for i := 0 to |urls|
      invariant endpoints == ScrubAll(w, urls[..i])
    {
      assert urls[..i + 1][..i] == urls[..i];
      endpoints := endpoints + [w.scrub(urls[i])];
    }
    assert urls[..|urls|] == urls;
  }

  /** The first half of the parts: the metadata backend. */
  method NameMetadata(w: World, c: Config) returns (parts: seq<string>)
    ensures parts == MetaParts(w, c)
  {
    parts := ["flat-v1"];
    match c.meta {
      case Sqlx =>
        parts := parts + ["meta:sqlx"];
        if w.isMemory(c.metaUrl) {
          parts := parts + ["ephemeral:" + w.metaUuid];
        } else {
          parts := parts + [w.scrub(c.metaUrl)];
        }
      case Redis =>
        parts := parts + ["meta:redis"];
        parts := parts + [w.scrub(c.metaUrl)];
      case Etcd =>
        parts := parts + ["meta:etcd"];
        var endpoints := ScrubEach(w, c.etcdUrls);
        parts := parts + Sort(endpoints);
      case TiKv =>
        parts := parts + ["meta:tikv"];
        var endpoints := ScrubEach(w, c.pdEndpoints);
        parts := parts + Sort(endpoints);
        parts := parts + ["namespace:" + c.namespace];
    }
  }

  /** `flat_volume_cache_scope` up to the final hash; it fails only where the data directory has no
      absolute form. */
  method Scope(w: World, c: Config) returns (hashed: Option<string>)
    ensures hashed.Some? <==> Resolves(w, c)
    ensures hashed.Some? ==> hashed.value == Framed(Parts(w, c))
  {
    var parts := NameMetadata(w, c);
    match c.data {
      case LocalFs =>
        var path := w.absolute(c.dataDir);
        if path.None? {
          return None;
        }
        parts := parts + ["data:localfs"];
        parts := parts + [path.value];
      case S3 =>
        parts := parts + ["data:s3"];
        parts := parts + ["endpoint:" + if c.s3Endpoint.Some? then w.scrub(c.s3Endpoint.value)
                                        else "ephemeral:" + w.dataUuid];
        parts := parts + ["bucket:" + if c.s3Bucket.Some? then c.s3Bucket.value else ""];
        parts := parts + ["region:" + if c.s3Region.Some? then c.s3Region.value else ""];
    }
    assert parts == Parts(w, c);
    var bytes := FeedAll(parts);
    hashed := Some(bytes);
  }

  /** The loop that feeds the hasher. */
  method FeedAll(parts: seq<string>) returns (bytes: string)
    ensures bytes == Framed(parts)
  {
    bytes := "";
    for i := 0 to |parts|
      invariant bytes == Framed(parts[..i])
    {
      assert parts[..i + 1][..i] == parts[..i];
      bytes := bytes + BigEndian(|parts[i]|, 8);
      bytes := bytes + parts[i];
    }
    assert parts[..|parts|] == parts;
  }

  /** Two mounts of an in-memory database with different UUIDs never share a scope. */
  lemma {:induction false} MemoryIsNeverShared(w: World, a: Config, v: World, b: Config)
    requires Resolves(w, a) && Resolves(v, b) && Absolute(DataIdOf(w, a)) && Absolute(DataIdOf(v, b))
    requires Addressable(Parts(w, a)) && Addressable(Parts(v, b))
    requires a.meta.Sqlx? && b.meta.Sqlx? && w.isMemory(a.metaUrl) && v.isMemory(b.metaUrl) && w.metaUuid != v.metaUuid
    ensures Framed(Parts(w, a)) != Framed(Parts(v, b))
  {
    ScopeIsIdentity(w, a, v, b);
  }
}
