/** Sizes and contents of generated files, both functions of the file number alone. */
module FixtureContent {
  import opened Common
  import opened Arithmetic
  import opened FixtureCorpus
  import opened FixturePacked

  // ---------------------------------------------------------------- sizes

  const INVERSE := 13_877_824_140_714_322_085
  const TURNS := 4_787_856_489_426_250_814

  function SaturatingAdd(a: nat, b: nat): nat {
    Min(a + b, U64_RANGE - 1)
  }

  /** A linear congruential mix of the file number, modulo 2^64. */
  function Mixed(index: nat): nat {
    (index * 6_364_136_223_846_793_005 + 1_442_695_040_888_963_407) % U64_RANGE
  }

  /** The size of a file: inside the range when the range is not empty, its lower end otherwise. */
  function FileSize(index: nat, minSize: nat, maxSize: nat): (size: nat)
    requires minSize < U64_RANGE && maxSize < U64_RANGE
    ensures minSize <= maxSize ==> minSize <= size <= maxSize
    ensures maxSize < minSize ==> size == minSize
  {
    var span := SaturatingAdd(SaturatingSub(maxSize, minSize), 1);
    SaturatingAdd(minSize, if span == 0 then 0 else Rem(Mixed(index), span))
  }

  /** The number that is mixed to `target`; the factor is the inverse of the multiplier modulo 2^64. */
  function Unmixed(target: nat): nat {
    (target + U64_RANGE - 1_442_695_040_888_963_407) * INVERSE % U64_RANGE
  }

  /** Every size of a range that fits 64 bits is the size of some file. */
  lemma {:induction false} EverySizeOccurs(size: nat, minSize: nat, maxSize: nat)
    requires minSize <= size <= maxSize < U64_RANGE - 1
    ensures FileSize(Unmixed(size - minSize), minSize, maxSize) == size
  {
    UnmixedIsMixed(size - minSize);
    SmallRem(size - minSize, maxSize - minSize + 1);
  }

  lemma {:induction false} SmallRem(a: nat, d: nat)
    requires a < d
    ensures Rem(a, d) == a
  {
  }

  lemma {:induction false} UnmixedIsMixed(target: nat)
    requires target < U64_RANGE
    ensures Mixed(Unmixed(target)) == target
  {
    var t := target + U64_RANGE - 1_442_695_040_888_963_407;
    var x := t * INVERSE;
    var q := x / U64_RANGE;
    assert INVERSE * 6_364_136_223_846_793_005 == 1 + TURNS * U64_RANGE;
    assert x == q * U64_RANGE + Unmixed(target);
    var laps := t * TURNS - q * 6_364_136_223_846_793_005 + 1;
    assert Unmixed(target) * 6_364_136_223_846_793_005 + 1_442_695_040_888_963_407 == target + laps * U64_RANGE;
    LapsVanish(target, laps, Unmixed(target) * 6_364_136_223_846_793_005 + 1_442_695_040_888_963_407);
  }

  lemma {:induction false} LapsVanish(target: nat, laps: int, n: nat)
    requires target < U64_RANGE && n == target + laps * U64_RANGE
    ensures n % U64_RANGE == target
  {
  }

  function Given(bound: Option<nat>, otherwise: nat): nat {
    if bound.Some? then bound.value else otherwise
  }

  /** The accepted size range: given bounds, or the single size where a bound is not given. */
  function SizeRange(size: nat, minSize: Option<nat>, maxSize: Option<nat>): (range: Option<(nat, nat)>)
    ensures range.Some? <==> 0 < Given(minSize, size) <= Given(maxSize, size) <= MAX_FILE_SIZE
    ensures range.Some? ==> range.value == (Given(minSize, size), Given(maxSize, size))
  {
    var low := if minSize.Some? then minSize.value else size;
    var high := if maxSize.Some? then maxSize.value else size;
    if low == 0 || low > high || high > MAX_FILE_SIZE then None else Some((low, high))
  }

  function GeneratedCorpus(levels: nat, fanout: nat, filesPerDir: nat, range: (nat, nat)): Corpus
    requires range.0 < U64_RANGE && range.1 < U64_RANGE
  {
    Corpus(levels, fanout, filesPerDir, g => FileSize(g, range.0, range.1))
  }

  /** An accepted range gives a corpus the packed producer takes. */
  lemma {:induction false} AcceptedRangeIsSmall(levels: nat, fanout: nat, filesPerDir: nat, size: nat, minSize: Option<nat>, maxSize: Option<nat>)
    requires SizeRange(size, minSize, maxSize).Some?
    ensures SmallFiles(GeneratedCorpus(levels, fanout, filesPerDir, SizeRange(size, minSize, maxSize).value))
  {
    var range := SizeRange(size, minSize, maxSize).value;
    var c := GeneratedCorpus(levels, fanout, filesPerDir, range);
    forall g: nat
      ensures c.sizeOf(g) <= MAX_FILE_SIZE
    {
      assert c.sizeOf(g) == FileSize(g, range.0, range.1);
    }
  }

  // ---------------------------------------------------------------- bytes

  /** Byte `k` of a number in little-endian order. */
  function LittleEndianByte(v: nat, k: nat): byte
    decreases k
  {
    if k == 0 then v % 256 else LittleEndianByte(v / 256, k - 1)
  }

  /** The number made of the low `n` bytes of `v`. */
  function LowBytes(v: nat, n: nat): nat
    decreases n
  {
    if n == 0 then 0 else v % 256 + 256 * LowBytes(v / 256, n - 1)
  }

  /** Bitwise exclusive or. */
  function Xor(a: nat, b: nat): nat
    decreases a + b
  {
    if a == 0 && b == 0 then 0 else 2 * Xor(a / 2, b / 2) + if a % 2 == b % 2 then 0 else 1
  }

  function TwoTo(n: nat): nat {
    if n == 0 then 1 else 2 * TwoTo(n - 1)
  }

  lemma {:induction false} XorBelow(a: nat, b: nat, bits: nat)
    requires a < TwoTo(bits) && b < TwoTo(bits)
    ensures Xor(a, b) < TwoTo(bits)
    decreases bits
  {
    if bits > 0 {
      XorBelow(a / 2, b / 2, bits - 1);
    }
  }

  /** Bit `k` of a number. */
  function Bit(n: nat, k: nat): nat
    decreases k
  {
    if k == 0 then n % 2 else Bit(n / 2, k - 1)
  }

  /** Each bit of the result is set exactly when the two bits differ. */
  lemma {:induction false} XorBits(a: nat, b: nat, k: nat)
    ensures Bit(Xor(a, b), k) == if Bit(a, k) == Bit(b, k) then 0 else 1
    decreases k
  {
    if k > 0 {
      XorBits(a / 2, b / 2, k - 1);
      assert Xor(a, b) / 2 == Xor(a / 2, b / 2);
    }
  }

  lemma {:induction false} XorCancels(a: nat, b: nat, c: nat)
    requires Xor(a, c) == Xor(b, c)
    ensures a == b
    decreases a + b + c
  {
    if a != 0 || b != 0 {
      assert Xor(a, c) % 2 == Xor(b, c) % 2;
      XorCancels(a / 2, b / 2, c / 2);
    }
  }

  /** The byte at `position`: the file's seed byte mixed with the low byte of the position rotated left
      by seven bits, which is its lowest bit above its seven highest. */
  function PatternByte(position: nat, fileIndex: nat): nat {
    Xor(LittleEndianByte(Seed(fileIndex), position % 8), Rotated(position))
  }

  function Rotated(position: nat): nat {
    position % 2 * 128 + position / 0x200_0000_0000_0000
  }

  /** The low byte of a 64-bit rotation to the left by seven bits. */
  lemma {:induction false} RotatedIsRotation(position: nat)
    requires position < U64_RANGE
    ensures Rotated(position) == (position * 128 % U64_RANGE + position / 0x200_0000_0000_0000) % 256
  {
    var laps := position * 128 / U64_RANGE;
    var low := position * 128 % U64_RANGE;
    assert low == position * 128 - laps * U64_RANGE;
    LowByte(low + position / 0x200_0000_0000_0000, position / 2 - laps * 0x100_0000_0000_0000, Rotated(position));
  }

  lemma {:induction false} LowByte(n: nat, k: int, r: nat)
    requires n == 256 * k + r && r < 256
    ensures n % 256 == r
  {
  }

  lemma {:induction false} PatternByteIsByte(position: nat, fileIndex: nat)
    requires position < U64_RANGE
    ensures PatternByte(position, fileIndex) < 256
  {
    assert TwoTo(8) == 256;
    XorBelow(LittleEndianByte(Seed(fileIndex), position % 8), Rotated(position), 8);
  }

  /** `data` is the pattern of file `fileIndex`. */
  predicate IsPattern(data: seq<nat>, fileIndex: nat) {
    forall k :: 0 <= k < |data| ==> data[k] == PatternByte(k, fileIndex)
  }

  /** `fill_pattern`: the buffer starts as zeros and is filled in place. */
  method FillPattern(size: nat, fileIndex: nat) returns (data: array<nat>)
    requires size < U64_RANGE
    ensures fresh(data) && data.Length == size && IsPattern(data[..], fileIndex)
    ensures forall k :: 0 <= k < size ==> data[k] < 256
  {
    data := new nat[size](_ => 0);
    var seed := (fileIndex + 1) % U64_RANGE;
    for k := 0 to size
      invariant forall i :: 0 <= i < k ==> data[i] == PatternByte(i, fileIndex) && data[i] < 256
    {
      RotatedIsRotation(k);
      PatternByteIsByte(k, fileIndex);
      var rotated := k * 128 % U64_RANGE + k / 0x200_0000_0000_0000;
      data[k] := Xor(LittleEndianByte(seed, k % 8), rotated % 256);
    }
  }

  lemma {:induction false} SameBytesSameNumber(a: nat, b: nat, n: nat)
    requires forall k :: 0 <= k < n ==> LittleEndianByte(a, k) == LittleEndianByte(b, k)
    ensures LowBytes(a, n) == LowBytes(b, n)
    decreases n
  {
    if n > 0 {
      assert LittleEndianByte(a, 0) == LittleEndianByte(b, 0);
      forall k | 0 <= k < n - 1
        ensures LittleEndianByte(a / 256, k) == LittleEndianByte(b / 256, k)
      {
        assert LittleEndianByte(a, k + 1) == LittleEndianByte(b, k + 1);
      }
      SameBytesSameNumber(a / 256, b / 256, n - 1);
    }
  }

  lemma {:induction false} SameNumberSameBytes(a: nat, b: nat, n: nat, k: nat)
    requires LowBytes(a, n) == LowBytes(b, n) && k < n
    ensures LittleEndianByte(a, k) == LittleEndianByte(b, k)
    decreases n
  {
    assert a % 256 == LowBytes(a, n) % 256 && b % 256 == LowBytes(b, n) % 256;
    if k > 0 {
      SameNumberSameBytes(a / 256, b / 256, n - 1, k - 1);
    }
  }

  /** Eight bytes hold all of a 64-bit number. */
  lemma {:induction false} EightBytesAreAll(v: nat)
    requires v < U64_RANGE
    ensures LowBytes(v, 8) == v
  {
    var v1 := v / 256;
    var v2 := v1 / 256;
    var v3 := v2 / 256;
    var v4 := v3 / 256;
    var v5 := v4 / 256;
    var v6 := v5 / 256;
    var v7 := v6 / 256;
    assert v7 < 256 && LowBytes(v7, 1) == v7;
    assert LowBytes(v6, 2) == v6;
    assert LowBytes(v5, 3) == v5;
    assert LowBytes(v4, 4) == v4;
    assert LowBytes(v3, 5) == v3;
    assert LowBytes(v2, 6) == v2;
    assert LowBytes(v1, 7) == v1;
  }

  function Seed(fileIndex: nat): nat {
    (fileIndex + 1) % U64_RANGE
  }

  lemma {:induction false} SeedByteShows(k: nat, a: nat, b: nat)
    requires k < 8 && PatternByte(k, a) == PatternByte(k, b)
    ensures LittleEndianByte(Seed(a), k) == LittleEndianByte(Seed(b), k)
  {
    assert k % 8 == k;
    XorCancels(LittleEndianByte(Seed(a), k % 8), LittleEndianByte(Seed(b), k % 8), Rotated(k));
  }

  lemma {:induction false} SeedByteDecides(position: nat, n: nat, a: nat, b: nat)
    requires position % 8 < n && LowBytes(Seed(a), n) == LowBytes(Seed(b), n)
    ensures PatternByte(position, a) == PatternByte(position, b)
  {
    SameNumberSameBytes(Seed(a), Seed(b), n, position % 8);
  }

  /** Two files of the same size have the same contents exactly when their seeds agree in the low
      `min(size, 8)` bytes: from eight bytes on, contents identify the file number. */
  lemma {:induction false} ContentsIdentifyFile(x: seq<nat>, a: nat, y: seq<nat>, b: nat)
    requires |x| == |y| && IsPattern(x, a) && IsPattern(y, b)
    ensures x == y <==> LowBytes(Seed(a), Min(|x|, 8)) == LowBytes(Seed(b), Min(|x|, 8))
  {
    var n := Min(|x|, 8);
    if x == y {
      forall k | 0 <= k < n
        ensures LittleEndianByte(Seed(a), k) == LittleEndianByte(Seed(b), k)
      {
        assert x[k] == y[k];
        SeedByteShows(k, a, b);
      }
      SameBytesSameNumber(Seed(a), Seed(b), n);
    }
    if LowBytes(Seed(a), n) == LowBytes(Seed(b), n) {
      forall k | 0 <= k < |x|
        ensures x[k] == y[k]
      {
        SeedByteDecides(k, n, a, b);
      }
    }
  }

  /** From eight bytes on, contents of 64-bit file numbers are equal only for one and the same file. */
  lemma {:induction false} LongContentsIdentifyFile(x: seq<nat>, a: nat, y: seq<nat>, b: nat)
    requires |x| == |y| >= 8 && IsPattern(x, a) && IsPattern(y, b) && a < U64_RANGE && b < U64_RANGE
    ensures x == y <==> a == b
  {
    var s, t := Seed(a), Seed(b);
    ContentsIdentifyFile(x, a, y, b);
    EightBytesAreAll(s);
    EightBytesAreAll(t);
    SeedIsInjective(a, b);
  }

  lemma {:induction false} SeedIsInjective(a: nat, b: nat)
    requires a < U64_RANGE && b < U64_RANGE
    ensures Seed(a) == Seed(b) <==> a == b
  {
  }
}
