/** Path strings: splitting at slashes, normalisation, and parent and base name. */
module PathNames {
  import Common

  /** `str::split('/')`: never empty, and a slash at either end gives an empty part. */
  function Split(s: string): (parts: seq<string>)
    ensures parts != []
  {
    if s == "" then [""]
    else
      var rest := Split(s[1..]);
      if s[0] == '/' then [""] + rest else [[s[0]] + rest[0]] + rest[1..]
  }

  function NonEmpty(parts: seq<string>): seq<string> {
    if parts == [] then []
    else (if parts[0] == "" then [] else [parts[0]]) + NonEmpty(parts[1..])
  }

  function Components(path: string): seq<string> {
    NonEmpty(Split(path))
  }

  function Join(parts: seq<string>): string {
    if parts == [] then "" else if |parts| == 1 then parts[0] else parts[0] + "/" + Join(parts[1..])
  }

  /** `normalize_path`. */
  function Normalize(path: string): string {
    if path == "" then "/"
    else
      var parts := Components(path);
      if parts == [] then "/" else "/" + Join(parts)
  }

  function TrimStart(path: string): string {
    if path != "" && path[0] == '/' then TrimStart(path[1..]) else path
  }

  /** A component as it can occur in a directory. */
  predicate Name(s: string) {
    s != "" && '/' !in s
  }

  predicate Names(parts: seq<string>) {
    forall i :: 0 <= i < |parts| ==> Name(parts[i])
  }

  lemma {:induction false} SplitHasNoSlash(s: string)
    ensures forall i :: 0 <= i < |Split(s)| ==> '/' !in Split(s)[i]
  {
    if s != "" {
      SplitHasNoSlash(s[1..]);
    }
  }

  lemma {:induction false} NonEmptyKeeps(parts: seq<string>)
    requires forall i :: 0 <= i < |parts| ==> '/' !in parts[i]
    ensures Names(NonEmpty(parts))
  {
    if parts != [] {
      NonEmptyKeeps(parts[1..]);
    }
  }

  lemma {:induction false} ComponentsAreNames(path: string)
    ensures Names(Components(path))
  {
    SplitHasNoSlash(path);
    NonEmptyKeeps(Split(path));
  }

  /** A slash separates, wherever it stands. */
  lemma {:induction false} SplitAround(a: string, b: string)
    ensures Split(a + "/" + b) == Split(a) + Split(b)
  {
    var whole := a + "/" + b;
    if a == "" {
      assert whole[1..] == b;
    } else {
      SplitAround(a[1..], b);
      assert whole[1..] == a[1..] + "/" + b && whole[0] == a[0];
      PutBefore(a[0], Split(a[1..]), Split(b));
    }
  }

  lemma {:induction false} PutBefore(c: char, rest: seq<string>, more: seq<string>)
    requires rest != []
    ensures [""] + (rest + more) == [""] + rest + more
    ensures [[c] + (rest + more)[0]] + (rest + more)[1..] == [[c] + rest[0]] + rest[1..] + more
  {
  }

  lemma {:induction false} NonEmptyAround(x: seq<string>, y: seq<string>)
    ensures NonEmpty(x + y) == NonEmpty(x) + NonEmpty(y)
  {
    if x == [] {
      assert x + y == y;
    } else {
      var first: seq<string> := if x[0] == "" then [] else [x[0]];
      NonEmptyAround(x[1..], y);
      assert (x + y)[1..] == x[1..] + y;
      Common.Reassociate(first, NonEmpty(x[1..]), NonEmpty(y));
    }
  }

  lemma {:induction false} ComponentsAround(a: string, b: string)
    ensures Components(a + "/" + b) == Components(a) + Components(b)
  {
    SplitAround(a, b);
    NonEmptyAround(Split(a), Split(b));
  }

  lemma {:induction false} SplitName(a: string)
    requires '/' !in a
    ensures Split(a) == [a]
  {
    if a != "" {
      SplitName(a[1..]);
      assert a == [a[0]] + a[1..];
    }
  }

  /** Splitting undoes joining. */
  lemma {:induction false} SplitJoin(parts: seq<string>)
    requires parts != [] && Names(parts)
    ensures Split(Join(parts)) == parts
  {
    if |parts| == 1 {
      SplitName(parts[0]);
    } else {
      SplitAround(parts[0], Join(parts[1..]));
      SplitName(parts[0]);
      SplitJoin(parts[1..]);
    }
  }

  lemma {:induction false} NamesAreKept(parts: seq<string>)
    requires Names(parts)
    ensures NonEmpty(parts) == parts
  {
    if parts != [] {
      NamesAreKept(parts[1..]);
    }
  }

  /** A leading slash adds one empty part. */
  lemma {:induction false} LeadingSlash(s: string)
    ensures Components("/" + s) == Components(s)
  {
    assert ("/" + s)[1..] == s;
    assert ([""] + Split(s))[1..] == Split(s);
  }

  /** Normalising keeps the components and nothing else: two paths normalise alike exactly when they
      have the same components, and normalising twice changes nothing more. */
  lemma {:induction false} NormalizeKeepsComponents(path: string)
    ensures Components(Normalize(path)) == Components(path)
    ensures Normalize(Normalize(path)) == Normalize(path)
  {
    var parts := Components(path);
    if path == "" || parts == [] {
      LeadingSlash("");
      assert "/" + "" == "/";
    } else {
      ComponentsAreNames(path);
      SplitJoin(parts);
      NamesAreKept(parts);
      LeadingSlash(Join(parts));
    }
  }

  lemma {:induction false} NormalFormIsCanonical(a: string, b: string)
    ensures Normalize(a) == Normalize(b) <==> Components(a) == Components(b)
  {
    NormalizeKeepsComponents(a);
    NormalizeKeepsComponents(b);
  }

  lemma {:induction false} TrimKeepsComponents(path: string)
    ensures Components(TrimStart(path)) == Components(path)
  {
    if path != "" && path[0] == '/' {
      TrimKeepsComponents(path[1..]);
      LeadingSlash(path[1..]);
      assert path == "/" + path[1..];
    }
  }

  // ---------------------------------------------------------------- parent and base name

  /** The position of the last slash, or zero. */
  function LastSlash(path: string): (n: nat)
    ensures path != "" ==> n < |path|
  {
    if path == "" then 0
    else if path[|path| - 1] == '/' then |path| - 1
    else LastSlash(path[..|path| - 1])
  }

  /** `split_dir_file`. */
  function SplitDirFile(path: string): (string, string)
    requires path != ""
  {
    var n := LastSlash(path);
    if n == 0 then ("/", path[1..]) else (path[..n], path[n + 1..])
  }

  lemma {:induction false} LastSlashBefore(front: string, name: string)
    requires '/' !in name
    ensures LastSlash(front + "/" + name) == |front|
  {
    var path := front + "/" + name;
    if name == "" {
      assert path[|path| - 1] == '/';
    } else {
      assert path[|path| - 1] == name[|name| - 1];
      assert path[..|path| - 1] == front + "/" + name[..|name| - 1];
      LastSlashBefore(front, name[..|name| - 1]);
    }
  }

  lemma {:induction false} JoinLast(parts: seq<string>)
    requires |parts| > 1
    ensures Join(parts) == Join(parts[..|parts| - 1]) + "/" + parts[|parts| - 1]
  {
    var last := |parts| - 1;
    if last == 1 {
      assert parts[1..] == [parts[1]] && parts[..1] == [parts[0]];
    } else {
      JoinLast(parts[1..]);
      assert parts[1..][..last - 1] == parts[..last][1..];
    }
  }

  /** On a normalised path other than the root, the directory is the normalised path of all
      components but the last, and the name is the last component. */
  lemma {:induction false} SplitDirFileIsParent(parts: seq<string>)
    requires parts != [] && Names(parts)
    ensures var (dir, name) := SplitDirFile("/" + Join(parts));
            dir == (if |parts| == 1 then "/" else "/" + Join(parts[..|parts| - 1])) && name == parts[|parts| - 1]
  {
    var last := |parts| - 1;
    if last == 0 {
      LastSlashBefore("", parts[0]);
      assert "/" + Join(parts) == "" + "/" + parts[0];
    } else {
      var front := "/" + Join(parts[..last]);
      JoinLast(parts);
      assert "/" + Join(parts) == front + "/" + parts[last];
      LastSlashBefore(front, parts[last]);
    }
  }
}
