/** The depth-first directory list of the packed fixture and the paths its parent pointers spell. */
module FixtureWalk {
  import opened Arithmetic
  import opened FixtureTree

  datatype Directory = Directory(inode: nat, parent: nat, name: Component)

  /** The root has no name of its own; the component in it is never used. */
  const ROOT := Directory(1, 0, Dir(0))

  /** The directories of a subtree in the order they are pushed; `next` is the next free inode. */
  function Tree(levels: nat, fanout: nat, next: nat, top: Directory): (dirs: seq<Directory>)
    ensures dirs != [] && dirs[0] == top
    decreases levels, fanout + 1
  {
    [top] + if levels == 0 then [] else Forest(levels, fanout, next, top.inode, 0)
  }

  function Forest(levels: nat, fanout: nat, next: nat, parent: nat, index: nat): seq<Directory>
    requires levels > 0 && index <= fanout
    decreases levels, fanout - index
  {
    if index == fanout then []
    else
      var sub := Tree(levels - 1, fanout, next + 1, Directory(next, parent, Dir(index)));
      sub + Forest(levels, fanout, next + |sub|, parent, index + 1)
  }

  /** `build_tree`: pushes the directory, then each child's subtree, numbering inodes on the way. */
  method BuildTree(levels: nat, fanout: nat, next: nat, parent: Directory, output: seq<Directory>)
    returns (next': nat, output': seq<Directory>)
    ensures output' == output + Tree(levels, fanout, next, parent)
    ensures next' == next + |Tree(levels, fanout, next, parent)| - 1
    decreases levels
  {
    next', output' := next, output + [parent];
    if levels == 0 {
      return;
    }
    for index := 0 to fanout
      invariant output' + Forest(levels, fanout, next', parent.inode, index) == output + Tree(levels, fanout, next, parent)
      invariant next' + |Forest(levels, fanout, next', parent.inode, index)| == next + |Tree(levels, fanout, next, parent)| - 1
    {
      var inode := next';
      ghost var before := output';
      next' := next' + 1;
      var child := Directory(inode, parent.inode, Dir(index));
      next', output' := BuildTree(levels - 1, fanout, next', child, output');
      ghost var sub := Tree(levels - 1, fanout, inode + 1, child);
      assert before + (sub + Forest(levels, fanout, inode + |sub|, parent.inode, index + 1))
          == (before + sub) + Forest(levels, fanout, inode + |sub|, parent.inode, index + 1);
    }
  }

  // ---------------------------------------------------------------- paths in the same order

  function Paths(levels: nat, fanout: nat, path: Path): seq<Path>
    decreases levels, fanout + 1
  {
    [path] + if levels == 0 then [] else PathsFrom(levels, fanout, path, 0)
  }

  function PathsFrom(levels: nat, fanout: nat, path: Path, index: nat): seq<Path>
    requires levels > 0 && index <= fanout
    decreases levels, fanout - index
  {
    if index == fanout then []
    else Paths(levels - 1, fanout, path + [Dir(index)]) + PathsFrom(levels, fanout, path, index + 1)
  }

  /** Inodes count up along the list, and every parent comes before its children. */
  predicate Rooted(dirs: seq<Directory>) {
    && (forall j :: 0 <= j < |dirs| ==> dirs[j].inode == j + 1)
    && (forall j :: 0 < j < |dirs| ==> 0 < dirs[j].parent <= j)
  }

  /** The path a directory has by following its parent pointers up to the root. */
  function PathOf(dirs: seq<Directory>, j: nat): Path
    requires Rooted(dirs) && j < |dirs|
  {
    if j == 0 then [] else PathOf(dirs, dirs[j].parent - 1) + [dirs[j].name]
  }

  lemma {:induction false} TreeNumbering(levels: nat, fanout: nat, next: nat, top: Directory, j: nat)
    requires top.inode < next && 0 < j < |Tree(levels, fanout, next, top)|
    ensures var d := Tree(levels, fanout, next, top)[j];
            d.inode == next + j - 1 && (d.parent == top.inode || next <= d.parent < next + j - 1)
    decreases levels, fanout + 1
  {
    ForestNumbering(levels, fanout, next, top.inode, 0, j - 1);
  }

  lemma {:induction false} ForestNumbering(levels: nat, fanout: nat, next: nat, parent: nat, index: nat, j: nat)
    requires levels > 0 && index <= fanout && j < |Forest(levels, fanout, next, parent, index)|
    ensures var d := Forest(levels, fanout, next, parent, index)[j];
            d.inode == next + j && (d.parent == parent || next <= d.parent < next + j)
    decreases levels, fanout - index
  {
    var top := Directory(next, parent, Dir(index));
    var sub := Tree(levels - 1, fanout, next + 1, top);
    if 0 < j < |sub| {
      TreeNumbering(levels - 1, fanout, next + 1, top, j);
    } else if j >= |sub| {
      ForestNumbering(levels, fanout, next + |sub|, parent, index + 1, j - |sub|);
    }
  }

  lemma {:induction false} TreeIsRooted(levels: nat, fanout: nat)
    ensures Rooted(Tree(levels, fanout, 2, ROOT))
  {
    var dirs := Tree(levels, fanout, 2, ROOT);
    forall j | 0 < j < |dirs|
      ensures dirs[j].inode == j + 1 && 0 < dirs[j].parent <= j
    {
      TreeNumbering(levels, fanout, 2, ROOT, j);
    }
  }

  /** `sub` is the part of `dirs` that starts at `p`. */
  predicate PartAt(dirs: seq<Directory>, p: nat, sub: seq<Directory>) {
    p + |sub| <= |dirs| && forall j :: 0 <= j < |sub| ==> dirs[p + j] == sub[j]
  }

  lemma {:induction false} PartSplits(dirs: seq<Directory>, p: nat, a: seq<Directory>, b: seq<Directory>)
    requires PartAt(dirs, p, a + b)
    ensures PartAt(dirs, p, a) && PartAt(dirs, p + |a|, b)
  {
    forall k | 0 <= k < |a|
      ensures dirs[p + k] == a[k]
    {
      assert (a + b)[k] == a[k];
    }
    forall k | 0 <= k < |b|
      ensures dirs[p + |a| + k] == b[k]
    {
      assert dirs[p + (|a| + k)] == (a + b)[|a| + k];
    }
  }

  /** A subtree inside the list spells the paths below its own path. */
  lemma {:induction false} TreePaths(dirs: seq<Directory>, p: nat, levels: nat, fanout: nat, j: nat)
    requires Rooted(dirs) && p < |dirs| && PartAt(dirs, p, Tree(levels, fanout, p + 2, dirs[p]))
    requires j < |Tree(levels, fanout, p + 2, dirs[p])|
    ensures |Paths(levels, fanout, PathOf(dirs, p))| == |Tree(levels, fanout, p + 2, dirs[p])|
    ensures PathOf(dirs, p + j) == Paths(levels, fanout, PathOf(dirs, p))[j]
    decreases levels, fanout + 1
  {
    if levels > 0 {
      var forest := Forest(levels, fanout, p + 2, p + 1, 0);
      PartSplits(dirs, p, [dirs[p]], forest);
      ForestPaths(dirs, p + 1, p, levels, fanout, 0, if j > 0 then j - 1 else 0);
    }
  }

  lemma {:induction false} ForestPaths(dirs: seq<Directory>, p: nat, q: nat, levels: nat, fanout: nat, index: nat, j: nat)
    requires Rooted(dirs) && q < p <= |dirs| && levels > 0 && index <= fanout
    requires PartAt(dirs, p, Forest(levels, fanout, p + 1, q + 1, index))
    ensures |PathsFrom(levels, fanout, PathOf(dirs, q), index)| == |Forest(levels, fanout, p + 1, q + 1, index)|
    ensures j < |Forest(levels, fanout, p + 1, q + 1, index)| ==>
              PathOf(dirs, p + j) == PathsFrom(levels, fanout, PathOf(dirs, q), index)[j]
    decreases levels, fanout - index
  {
    if index < fanout {
      var top := Directory(p + 1, q + 1, Dir(index));
      var sub := Tree(levels - 1, fanout, p + 2, top);
      var rest := Forest(levels, fanout, p + 1 + |sub|, q + 1, index + 1);
      PartSplits(dirs, p, sub, rest);
      assert dirs[p + 0] == sub[0] == top;
      assert PathOf(dirs, p) == PathOf(dirs, q) + [Dir(index)];
      TreePaths(dirs, p, levels - 1, fanout, if j < |sub| then j else 0);
      ForestPaths(dirs, p + |sub|, q, levels, fanout, index + 1, if j < |sub| then 0 else j - |sub|);
    }
  }

  // ---------------------------------------------------------------- leaves of the walk

  /** The paths of full depth, in order. */
  function FullDepth(paths: seq<Path>, depth: nat): seq<Path> {
    if paths == [] then []
    else
      var last := paths[|paths| - 1];
      FullDepth(paths[..|paths| - 1], depth) + if |last| == depth then [last] else []
  }

  lemma {:induction false} FullDepthConcat(a: seq<Path>, b: seq<Path>, depth: nat)
    ensures FullDepth(a + b, depth) == FullDepth(a, depth) + FullDepth(b, depth)
  {
    if b == [] {
      assert a + b == a;
    } else {
      FullDepthConcat(a, b[..|b| - 1], depth);
      assert (a + b)[..|a + b| - 1] == a + b[..|b| - 1];
    }
  }

  lemma {:induction false} FullPathsAreLeaves(levels: nat, fanout: nat, path: Path)
    requires fanout > 0
    ensures FullDepth(Paths(levels, fanout, path), |path| + levels) == Leaves(levels, fanout, path)
    decreases levels, fanout + 1
  {
    if levels > 0 {
      FullPathsFromAreLeaves(levels, fanout, path, 0);
      FullDepthConcat([path], PathsFrom(levels, fanout, path, 0), |path| + levels);
      assert [path][..0] == [];
    }
  }

  lemma {:induction false} FullPathsFromAreLeaves(levels: nat, fanout: nat, path: Path, index: nat)
    requires levels > 0 && index <= fanout && fanout > 0
    ensures FullDepth(PathsFrom(levels, fanout, path, index), |path| + levels) == LeavesFrom(levels, fanout, path, index)
    decreases levels, fanout - index
  {
    if index < fanout {
      var child := path + [Dir(index)];
      FullPathsAreLeaves(levels - 1, fanout, child);
      FullPathsFromAreLeaves(levels, fanout, path, index + 1);
      FullDepthConcat(Paths(levels - 1, fanout, child), PathsFrom(levels, fanout, path, index + 1), |path| + levels);
    }
  }

  lemma {:induction false} PathsDepth(levels: nat, fanout: nat, path: Path, j: nat)
    requires j < |Paths(levels, fanout, path)|
    ensures |Paths(levels, fanout, path)[j]| <= |path| + levels
    decreases levels, fanout + 1
  {
    if j > 0 {
      PathsFromDepth(levels, fanout, path, 0, j - 1);
    }
  }

  lemma {:induction false} PathsFromDepth(levels: nat, fanout: nat, path: Path, index: nat, j: nat)
    requires levels > 0 && index <= fanout && j < |PathsFrom(levels, fanout, path, index)|
    ensures |PathsFrom(levels, fanout, path, index)[j]| <= |path| + levels
    decreases levels, fanout - index
  {
    var sub := Paths(levels - 1, fanout, path + [Dir(index)]);
    if j < |sub| {
      PathsDepth(levels - 1, fanout, path + [Dir(index)], j);
    } else {
      PathsFromDepth(levels, fanout, path, index + 1, j - |sub|);
    }
  }

  lemma {:induction false} SameLength(levels: nat, fanout: nat, path: Path, next: nat, top: Directory)
    ensures |Paths(levels, fanout, path)| == |Tree(levels, fanout, next, top)|
    decreases levels, fanout + 1
  {
    if levels > 0 {
      SameLengthFrom(levels, fanout, path, next, top.inode, 0);
    }
  }

  lemma {:induction false} SameLengthFrom(levels: nat, fanout: nat, path: Path, next: nat, parent: nat, index: nat)
    requires levels > 0 && index <= fanout
    ensures |PathsFrom(levels, fanout, path, index)| == |Forest(levels, fanout, next, parent, index)|
    decreases levels, fanout - index
  {
    if index < fanout {
      var top := Directory(next, parent, Dir(index));
      SameLength(levels - 1, fanout, path + [Dir(index)], next + 1, top);
      SameLengthFrom(levels, fanout, path, next + |Tree(levels - 1, fanout, next + 1, top)|, parent, index + 1);
    }
  }

  /** A directory above full depth is followed by its first child. */
  lemma {:induction false} InnerHasChild(levels: nat, fanout: nat, path: Path, next: nat, top: Directory, j: nat)
    requires fanout > 0 && j < |Tree(levels, fanout, next, top)| == |Paths(levels, fanout, path)|
    requires |Paths(levels, fanout, path)[j]| < |path| + levels
    ensures j + 1 < |Tree(levels, fanout, next, top)|
    ensures Tree(levels, fanout, next, top)[j + 1].parent == Tree(levels, fanout, next, top)[j].inode
    decreases levels, fanout + 1
  {
    var forest := Forest(levels, fanout, next, top.inode, 0);
    if j == 0 {
      assert forest[0] == Directory(next, top.inode, Dir(0));
    } else {
      SameLengthFrom(levels, fanout, path, next, top.inode, 0);
      InnerHasChildFrom(levels, fanout, path, next, top.inode, 0, j - 1);
    }
  }

  lemma {:induction false} InnerHasChildFrom(levels: nat, fanout: nat, path: Path, next: nat, parent: nat, index: nat, j: nat)
    requires levels > 0 && index <= fanout && fanout > 0
    requires j < |Forest(levels, fanout, next, parent, index)| == |PathsFrom(levels, fanout, path, index)|
    requires |PathsFrom(levels, fanout, path, index)[j]| < |path| + levels
    ensures j + 1 < |Forest(levels, fanout, next, parent, index)|
    ensures Forest(levels, fanout, next, parent, index)[j + 1].parent == Forest(levels, fanout, next, parent, index)[j].inode
    decreases levels, fanout - index
  {
    var child := path + [Dir(index)];
    var top := Directory(next, parent, Dir(index));
    var sub := Tree(levels - 1, fanout, next + 1, top);
    SameLength(levels - 1, fanout, child, next + 1, top);
    if j < |sub| {
      InnerHasChild(levels - 1, fanout, child, next + 1, top, j);
    } else {
      InnerHasChildFrom(levels, fanout, path, next + |sub|, parent, index + 1, j - |sub|);
    }
  }

  predicate HasChild(dirs: seq<Directory>, j: nat)
    requires j < |dirs|
  {
    exists k :: 0 <= k < |dirs| && dirs[k].parent == dirs[j].inode
  }

  /** In the whole list a directory has no child exactly when its path has full depth. */
  lemma {:induction false} ChildlessIsFullDepth(levels: nat, fanout: nat, j: nat)
    requires fanout > 0 && j < |Tree(levels, fanout, 2, ROOT)|
    ensures Rooted(Tree(levels, fanout, 2, ROOT)) && |Paths(levels, fanout, [])| == |Tree(levels, fanout, 2, ROOT)|
    ensures PathOf(Tree(levels, fanout, 2, ROOT), j) == Paths(levels, fanout, [])[j]
    ensures !HasChild(Tree(levels, fanout, 2, ROOT), j) <==> |PathOf(Tree(levels, fanout, 2, ROOT), j)| == levels
  {
    var dirs := Tree(levels, fanout, 2, ROOT);
    TreeIsRooted(levels, fanout);
    TreePaths(dirs, 0, levels, fanout, j);
    PathsDepth(levels, fanout, [], j);
    if |PathOf(dirs, j)| < levels {
      InnerHasChild(levels, fanout, [], 2, ROOT, j);
    } else {
      forall k | 0 <= k < |dirs|
        ensures dirs[k].parent != dirs[j].inode
      {
        TreePaths(dirs, 0, levels, fanout, k);
        PathsDepth(levels, fanout, [], k);
      }
    }
  }

  /** The next directory of full depth after `done` of them is leaf number `done`. */
  lemma {:induction false} WalkVisitsLeaves(levels: nat, fanout: nat, j: nat)
    requires fanout > 0 && j < |Paths(levels, fanout, [])| && |Paths(levels, fanout, [])[j]| == levels
    ensures |FullDepth(Paths(levels, fanout, [])[..j], levels)| < Pow(fanout, levels)
    ensures Paths(levels, fanout, [])[j] == LeafPath(|FullDepth(Paths(levels, fanout, [])[..j], levels)|, levels, fanout)
  {
    var paths := Paths(levels, fanout, []);
    var before := FullDepth(paths[..j], levels);
    assert paths == paths[..j] + [paths[j]] + paths[j + 1..];
    FullDepthConcat(paths[..j] + [paths[j]], paths[j + 1..], levels);
    FullDepthConcat(paths[..j], [paths[j]], levels);
    FullPathsAreLeaves(levels, fanout, []);
    LeavesCount(levels, fanout, []);
    assert [paths[j]][..0] == [];
    assert Leaves(levels, fanout, [])[|before|] == paths[j];
    LeavesByNumber(levels, fanout, [], |before|);
  }
}
