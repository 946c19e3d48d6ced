/** The directory tree of the generated fixtures, described twice: by the base-`fanout` digits of a
    leaf number, and by a depth-first construction with parent pointers. */
module FixtureTree {
  import opened Common
  import opened Arithmetic
  import opened PathNames

  /** A path component: a numbered directory or a numbered file. `Render` gives its name. */
  datatype Component = Dir(index: nat) | FileNo(index: nat)

  type Path = seq<Component>

  // ---------------------------------------------------------------- names

  function Digit(d: nat): char
    requires d < 10
  {
    '0' + d as char
  }

  function Decimal(n: nat): string {
    if n < 10 then [Digit(n)] else Decimal(n / 10) + [Digit(n % 10)]
  }

  /** Decimal with leading zeros up to `width`. */
  function Padded(n: nat, width: nat): string {
    Zeros(SaturatingSub(width, |Decimal(n)|)) + Decimal(n)
  }

  function Zeros(k: nat): string {
    if k == 0 then "" else Zeros(k - 1) + "0"
  }

  function Value(s: string): nat {
    if s == [] then 0 else 10 * Value(s[..|s| - 1]) + if '0' <= s[|s| - 1] <= '9' then (s[|s| - 1] - '0') as nat else 0
  }

  lemma {:induction false} DecimalValue(n: nat)
    ensures Value(Decimal(n)) == n
  {
    if n >= 10 {
      DecimalValue(n / 10);
      assert Decimal(n)[..|Decimal(n)| - 1] == Decimal(n / 10);
    }
  }

  lemma {:induction false} ZerosKeepValue(k: nat, s: string)
    ensures Value(Zeros(k) + s) == Value(s)
  {
    if s == [] {
      assert Zeros(k) + s == Zeros(k);
      if k > 0 {
        ZerosKeepValue(k - 1, []);
        assert Zeros(k)[..|Zeros(k)| - 1] == Zeros(k - 1) == Zeros(k - 1) + [];
      }
    } else {
      ZerosKeepValue(k, s[..|s| - 1]);
      assert (Zeros(k) + s)[..|Zeros(k) + s| - 1] == Zeros(k) + s[..|s| - 1];
    }
  }

  /** Padding to any width keeps numbers apart. */
  lemma {:induction false} PaddedIsInjective(a: nat, b: nat, width: nat)
    requires Padded(a, width) == Padded(b, width)
    ensures a == b
  {
    ZerosKeepValue(SaturatingSub(width, |Decimal(a)|), Decimal(a));
    ZerosKeepValue(SaturatingSub(width, |Decimal(b)|), Decimal(b));
    DecimalValue(a);
    DecimalValue(b);
  }

  predicate Digits(s: string) {
    forall i :: 0 <= i < |s| ==> '0' <= s[i] <= '9'
  }

  lemma {:induction false} DecimalIsDigits(n: nat)
    ensures Decimal(n) != "" && Digits(Decimal(n))
  {
    if n >= 10 {
      DecimalIsDigits(n / 10);
    }
  }

  lemma {:induction false} ZerosAreDigits(k: nat)
    ensures Digits(Zeros(k))
  {
    if k > 0 {
      ZerosAreDigits(k - 1);
    }
  }

  lemma {:induction false} PaddedIsDigits(n: nat, width: nat)
    ensures Padded(n, width) != "" && Digits(Padded(n, width))
  {
    DecimalIsDigits(n);
    ZerosAreDigits(SaturatingSub(width, |Decimal(n)|));
  }

  lemma {:induction false} DecimalLength(n: nat, width: nat)
    requires width > 0 && n < Pow(10, width)
    ensures |Decimal(n)| <= width
  {
    TimesIsProduct(10, Pow(10, width - 1));
    if n >= 10 {
      assert width > 1;
      DecimalLength(n / 10, width - 1);
    }
  }

  lemma {:induction false} ZerosLength(k: nat)
    ensures |Zeros(k)| == k
  {
    if k > 0 {
      ZerosLength(k - 1);
    }
  }

  /** A number that fits the width is written with exactly that many digits, and they spell it. */
  lemma {:induction false} PaddedSpells(n: nat, width: nat)
    requires width > 0 && n < Pow(10, width)
    ensures |Padded(n, width)| == width && Digits(Padded(n, width)) && Value(Padded(n, width)) == n
  {
    PaddedIsDigits(n, width);
    DecimalLength(n, width);
    ZerosLength(width - |Decimal(n)|);
    ZerosKeepValue(width - |Decimal(n)|, Decimal(n));
    DecimalValue(n);
  }

  /** A letter and then exactly `width` digits that spell `n`. */
  predicate Spells(name: string, letter: char, width: nat, n: nat) {
    |name| == 1 + width && name[0] == letter && Digits(name[1..]) && Value(name[1..]) == n
  }

  lemma {:induction false} PrefixedSpells(letter: char, n: nat, width: nat)
    requires width > 0 && n < Pow(10, width)
    ensures Spells([letter] + Padded(n, width), letter, width, n)
  {
    var digits := Padded(n, width);
    PaddedSpells(n, width);
    assert ([letter] + digits)[1..] == digits;
  }

  function Render(c: Component): string {
    match c
    case Dir(index) => "d" + Padded(index, 3)
    case FileNo(index) => "f" + Padded(index, 6)
  }

  /** Names are a letter with three digits for a directory and six for a file, as long as the number fits. */
  lemma {:induction false} RenderSpells(c: Component, width: nat)
    requires width == (if c.Dir? then 3 else 6) && c.index < Pow(10, width)
    ensures Spells(Render(c), if c.Dir? then 'd' else 'f', width, c.index)
  {
    PrefixedSpells(if c.Dir? then 'd' else 'f', c.index, width);
  }

  /** Different components have different names. */
  lemma {:induction false} RenderIsInjective(a: Component, b: Component)
    requires Render(a) == Render(b)
    ensures a == b
  {
    assert Render(a)[0] == Render(b)[0];
    assert Render(a)[1..] == Render(b)[1..];
    var width := if a.Dir? then 3 else 6;
    assert Render(a)[1..] == Padded(a.index, width) && Render(b)[1..] == Padded(b.index, width);
    PaddedIsInjective(a.index, b.index, width);
  }

  function Rendered(path: Path): (names: seq<string>)
    ensures |names| == |path|
  {
    if path == [] then [] else Rendered(path[..|path| - 1]) + [Render(path[|path| - 1])]
  }

  lemma {:induction false} RenderedNames(path: Path)
    ensures Names(Rendered(path))
  {
    if path != [] {
      RenderedNames(path[..|path| - 1]);
      PaddedIsDigits(path[|path| - 1].index, if path[|path| - 1].Dir? then 3 else 6);
    }
  }

  /** Different paths have different lists of names. */
  lemma {:induction false} RenderedIsInjective(a: Path, b: Path)
    requires Rendered(a) == Rendered(b)
    ensures a == b
  {
    assert |a| == |b|;
    if a != [] {
      var last := |a| - 1;
      assert Rendered(a)[last] == Render(a[last]) && Rendered(b)[last] == Render(b[last]);
      assert Rendered(a)[..last] == Rendered(a[..last]) && Rendered(b)[..last] == Rendered(b[..last]);
      RenderIsInjective(a[last], b[last]);
      RenderedIsInjective(a[..last], b[..last]);
      assert a == a[..last] + [a[last]] && b == b[..last] + [b[last]];
    }
  }

  // ---------------------------------------------------------------- leaves by number

  /** The path of a leaf: the last component is the lowest digit. */
  function LeafPath(leaf: nat, levels: nat, fanout: nat): Path
    requires fanout > 0
    decreases levels
  {
    if levels == 0 then [] else LeafPath(Quot(leaf, fanout), levels - 1, fanout) + [Dir(Rem(leaf, fanout))]
  }

  function Reversed(s: Path): Path {
    if s == [] then [] else Reversed(s[1..]) + [s[0]]
  }

  lemma {:induction false} ReversedAppend(s: Path, x: Component)
    ensures Reversed(s + [x]) == [x] + Reversed(s)
  {
    if s != [] {
      ReversedAppend(s[1..], x);
      assert (s + [x])[1..] == s[1..] + [x];
    }
  }

  /** The loop of `leaf_path`: digits from the lowest up, then reversed. */
  method ComputeLeafPath(leaf: nat, levels: nat, fanout: nat) returns (components: Path)
    requires fanout > 0
    ensures components == LeafPath(leaf, levels, fanout)
  {
    var digits: Path := [];
    var value: nat := leaf;
    for i := 0 to levels
      invariant LeafPath(value, levels - i, fanout) + Reversed(digits) == LeafPath(leaf, levels, fanout)
    {
      DivisionIsQuot(value, fanout);
      ReversedAppend(digits, Dir(value % fanout));
      digits := digits + [Dir(value % fanout)];
      value := value / fanout;
    }
    components := Reversed(digits);
  }

  // ---------------------------------------------------------------- leaves depth first

  /** The leaf paths below `path`, depth first. */
  function Leaves(levels: nat, fanout: nat, path: Path): seq<Path>
    decreases levels, fanout + 1
  {
    if levels == 0 then [path] else LeavesFrom(levels, fanout, path, 0)
  }

  function LeavesFrom(levels: nat, fanout: nat, path: Path, index: nat): seq<Path>
    requires levels > 0 && index <= fanout
    decreases levels, fanout - index
  {
    if index == fanout then []
    else Leaves(levels - 1, fanout, path + [Dir(index)]) + LeavesFrom(levels, fanout, path, index + 1)
  }

  /** The highest digit can be split off as well as the lowest. */
  lemma {:induction false} HighestDigitFirst(k: nat, levels: nat, fanout: nat)
    requires fanout > 0 && levels > 0 && Pow(fanout, levels - 1) > 0 && k < Pow(fanout, levels)
    ensures LeafPath(k, levels, fanout)
         == [Dir(Quot(k, Pow(fanout, levels - 1)))] + LeafPath(Rem(k, Pow(fanout, levels - 1)), levels - 1, fanout)
    decreases levels
  {
    var top := Pow(fanout, levels - 1);
    if levels == 1 {
      QuotByOne(k);
      TimesByOne(fanout);
      assert LeafPath(k, 1, fanout) == LeafPath(Quot(k, fanout), 0, fanout) + [Dir(Rem(k, fanout))];
    } else {
      var p := Pow(fanout, levels - 2);
      PowPositive(fanout, levels - 2);
      TimesCommutes(fanout, p);
      TimesCommutes(fanout, top);
      QuotBelow(k, fanout, top);
      QuotQuot(k, fanout, p);
      HighestDigitFirst(Quot(k, fanout), levels - 1, fanout);
    }
  }

  lemma {:induction false} QuotByOne(k: nat)
    ensures Quot(k, 1) == k && Rem(k, 1) == 0
  {
    if k > 0 {
      QuotByOne(k - 1);
    }
  }

  lemma {:induction false} TimesByOne(n: nat)
    ensures Times(n, 1) == n
  {
    if n > 0 {
      TimesByOne(n - 1);
    }
  }

  lemma {:induction false} LeavesFromCount(levels: nat, fanout: nat, path: Path, index: nat)
    requires levels > 0 && index <= fanout
    ensures |LeavesFrom(levels, fanout, path, index)| == Times(fanout - index, Pow(fanout, levels - 1))
    decreases levels, fanout - index
  {
    if index < fanout {
      LeavesCount(levels - 1, fanout, path + [Dir(index)]);
      LeavesFromCount(levels, fanout, path, index + 1);
    }
  }

  lemma {:induction false} LeavesCount(levels: nat, fanout: nat, path: Path)
    ensures |Leaves(levels, fanout, path)| == Pow(fanout, levels)
    decreases levels, fanout + 1
  {
    if levels > 0 {
      LeavesFromCount(levels, fanout, path, 0);
    }
  }

  lemma {:induction false} LeavesFromByNumber(levels: nat, fanout: nat, path: Path, index: nat, m: nat)
    requires fanout > 0 && levels > 0 && index <= fanout && Pow(fanout, levels - 1) > 0
    requires m < |LeavesFrom(levels, fanout, path, index)|
    ensures LeavesFrom(levels, fanout, path, index)[m]
         == path + ([Dir(index + Quot(m, Pow(fanout, levels - 1)))]
                    + LeafPath(Rem(m, Pow(fanout, levels - 1)), levels - 1, fanout))
    decreases levels, fanout - index
  {
    var p := Pow(fanout, levels - 1);
    var child := path + [Dir(index)];
    LeavesCount(levels - 1, fanout, child);
    if m < p {
      LeavesByNumber(levels - 1, fanout, child, m);
      assert child + LeafPath(m, levels - 1, fanout) == path + ([Dir(index)] + LeafPath(m, levels - 1, fanout));
    } else {
      LeavesFromByNumber(levels, fanout, path, index + 1, m - p);
    }
  }

  /** The `k`-th leaf of the depth-first tree has the path of leaf number `k`, and there are
      `fanout` to the `levels` of them. */
  lemma {:induction false} LeavesByNumber(levels: nat, fanout: nat, path: Path, k: nat)
    requires fanout > 0 && k < Pow(fanout, levels)
    ensures |Leaves(levels, fanout, path)| == Pow(fanout, levels)
    ensures Leaves(levels, fanout, path)[k] == path + LeafPath(k, levels, fanout)
    decreases levels, fanout + 1
  {
    LeavesCount(levels, fanout, path);
    if levels > 0 {
      PowPositive(fanout, levels - 1);
      LeavesFromByNumber(levels, fanout, path, 0, k);
      HighestDigitFirst(k, levels, fanout);
    } else {
      assert path + LeafPath(k, levels, fanout) == path;
    }
  }
}
