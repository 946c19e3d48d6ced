/** Acceptance of an offline 90th-percentile policy: the claimed value is checked against a histogram
    by one cumulative scan. */
module P90Policy {
  import opened Common

  const MAX_SAMPLES := 10_000_000
  const MAX_REQUESTED_RANGE := 0x8000_0000_0000_0000

  datatype Error =
    | SampleCountInvalid | HistogramEmpty | NotStrictlyOrdered | CountInvalid
    | CountOverflows | TooManySamples | TotalDisagrees | ValueDisagrees

  datatype Result = Accepted(range: nat) | Rejected(error: Error)

  type u64 = n: nat | n < U64_RANGE

  /** A histogram entry as read; a missing or malformed member is `None`. */
  datatype Entry = Entry(range: Option<u64>, count: Option<u64>)

  // ---------------------------------------------------------------- what the value means

  predicate WellFormed(h: seq<Entry>) {
    && (forall i :: 0 <= i < |h| ==> h[i].range.Some? && h[i].count.Some? && h[i].count.value > 0)
    && (forall i :: 0 <= i < |h| ==> 0 < h[i].range.value <= MAX_REQUESTED_RANGE)
    && (forall i, j :: 0 <= i < j < |h| ==> h[i].range.value < h[j].range.value)
  }

  /** The list of samples a histogram stands for. */
  function Samples(h: seq<Entry>): seq<nat>
    requires WellFormed(h)
  {
    if h == [] then []
    else
      var last := h[|h| - 1];
      Samples(h[..|h| - 1]) + seq(last.count.value, i => last.range.value)
  }

  predicate Sorted(s: seq<nat>) {
    forall i, j :: 0 <= i < j < |s| ==> s[i] <= s[j]
  }

  /** Rank of the 90th percentile by nearest rank: ninety hundredths of the samples, rounded up. */
  function Rank(n: nat): nat {
    (90 * n + 99) / 100
  }

  function CountBelow(s: seq<nat>, v: nat): nat {
    if s == [] then 0 else CountBelow(s[..|s| - 1], v) + if s[|s| - 1] < v then 1 else 0
  }

  /** The definition that needs no order: `v` occurs, fewer than the rank of the samples lie below
      it, and at least that many do not exceed it. */
  predicate IsPercentile(s: seq<nat>, v: nat) {
    v in s && CountBelow(s, v) < Rank(|s|) <= CountBelow(s, v + 1)
  }

  lemma {:induction false} SamplesAreSorted(h: seq<Entry>)
    requires WellFormed(h)
    ensures Sorted(Samples(h))
    ensures forall i :: 0 <= i < |Samples(h)| ==> h != [] && Samples(h)[i] <= h[|h| - 1].range.value
    ensures h != [] ==> Samples(h) != []
  {
    if h != [] {
      SamplesAreSorted(h[..|h| - 1]);
    }
  }

  lemma {:induction false} CountBelowSorted(s: seq<nat>, v: nat)
    requires Sorted(s)
    ensures CountBelow(s, v) <= |s|
    ensures forall i :: 0 <= i < |s| ==> (s[i] < v <==> i < CountBelow(s, v))
  {
    if s != [] {
      CountBelowSorted(s[..|s| - 1], v);
    }
  }

  /** In a sorted list the percentile is the element at the rank. */
  lemma {:induction false} RankIsPercentile(s: seq<nat>)
    requires Sorted(s) && s != []
    ensures 0 < Rank(|s|) <= |s|
    ensures forall v :: IsPercentile(s, v) <==> v == s[Rank(|s|) - 1]
  {
    var at := Rank(|s|) - 1;
    forall v: nat
      ensures IsPercentile(s, v) <==> v == s[at]
    {
      CountBelowSorted(s, v);
      CountBelowSorted(s, v + 1);
    }
  }

  // ---------------------------------------------------------------- the scan

  /** The first `i` entries are fine and within the sample bound. */
  predicate GoodUpTo(h: seq<Entry>, i: nat) {
    i <= |h| && WellFormed(h[..i]) && |Samples(h[..i])| <= MAX_SAMPLES
  }

  /** What is wrong with entry `i`, by what the samples before it add up to. */
  function Defect(h: seq<Entry>, i: nat): Option<Error>
    requires i < |h| && GoodUpTo(h, i)
  {
    var total, entry := |Samples(h[..i])|, h[i];
    if entry.range.None? || entry.range.value > MAX_REQUESTED_RANGE then Some(NotStrictlyOrdered)
    else if entry.range.value == 0 || (exists j :: 0 <= j < i && h[j].range.Some? && entry.range.value <= h[j].range.value)
    then Some(NotStrictlyOrdered)
    else if entry.count.None? || entry.count.value == 0 then Some(CountInvalid)
    else if total + entry.count.value >= U64_RANGE then Some(CountOverflows)
    else if total + entry.count.value > MAX_SAMPLES then Some(TooManySamples)
    else None
  }

  lemma {:induction false} PreviousIsLargest(h: seq<Entry>, i: nat, previous: nat)
    requires i < |h| && GoodUpTo(h, i) && previous == (if i == 0 || h[i - 1].range.None? then 0 else h[i - 1].range.value)
    ensures h[i].range.Some? ==>
              (h[i].range.value <= previous <==>
               h[i].range.value == 0 || (exists j :: 0 <= j < i && h[j].range.Some? && h[i].range.value <= h[j].range.value))
  {
    forall j | 0 <= j < i
      ensures h[j].range.Some? && 0 < h[j].range.value <= previous
    {
      assert h[..i][j] == h[j] && h[..i][i - 1] == h[i - 1];
    }
  }

  /** An entry has no defect exactly when the histogram is fine up to and including it. */
  lemma {:induction false} DefectIsExact(h: seq<Entry>, i: nat)
    requires i < |h| && GoodUpTo(h, i)
    ensures Defect(h, i).None? <==> GoodUpTo(h, i + 1)
  {
    var before, after := h[..i], h[..i + 1];
    var previous := if i == 0 || h[i - 1].range.None? then 0 else h[i - 1].range.value;
    PreviousIsLargest(h, i, previous);
    assert after[..i] == before && after[i] == h[i];
    assert i > 0 ==> before[i - 1] == h[i - 1] == after[i - 1];
    if WellFormed(after) || Defect(h, i).None? {
      StepKeepsOrder(h, i);
    }
  }

  /** The cumulative scan: it gets through exactly the well-formed histograms within the sample
      bound, and by then has picked the sample at the rank. No addition overflows unnoticed. */
  method Scan(histogram: seq<Entry>, rank: nat) returns (error: Option<Error>, total: nat, found: Option<nat>)
    requires rank > 0
    ensures error.None? <==> WellFormed(histogram) && |Samples(histogram)| <= MAX_SAMPLES
    ensures error.Some? ==>
              exists i :: 0 <= i < |histogram| && GoodUpTo(histogram, i) && Defect(histogram, i) == error
    ensures error.None? ==> total == |Samples(histogram)|
    ensures error.None? ==> found == if total >= rank then Some(Samples(histogram)[rank - 1]) else None
  {
    total, found := 0, None;
    var previous := 0;
    var i := 0;
    while i < |histogram|
      invariant 0 <= i <= |histogram|
      invariant WellFormed(histogram[..i]) && total == |Samples(histogram[..i])| <= MAX_SAMPLES
      invariant previous == if i == 0 then 0 else histogram[i - 1].range.value
      invariant found == if total >= rank then Some(Samples(histogram[..i])[rank - 1]) else None
    {
      var entry := histogram[i];
      assert GoodUpTo(histogram, i) && (i > 0 ==> histogram[..i][i - 1] == histogram[i - 1]);
      PreviousIsLargest(histogram, i, previous);
      if entry.range.None? || entry.range.value <= previous || entry.range.value > MAX_REQUESTED_RANGE {
        assert Defect(histogram, i) == Some(NotStrictlyOrdered);
        return Some(NotStrictlyOrdered), total, found;
      }
      if entry.count.None? || entry.count.value == 0 {
        assert Defect(histogram, i) == Some(CountInvalid);
        return Some(CountInvalid), total, found;
      }
      StepKeepsOrder(histogram, i);
      if total + entry.count.value > MAX_SAMPLES {
        MoreSamples(histogram, i + 1);
        assert Defect(histogram, i) == Some(if total + entry.count.value >= U64_RANGE then CountOverflows else TooManySamples);
        return Some(if total + entry.count.value >= U64_RANGE then CountOverflows else TooManySamples), total, found;
      }
      total := total + entry.count.value;
      if found.None? && total >= rank {
        found := Some(entry.range.value);
      }
      previous := entry.range.value;
      i := i + 1;
    }
    assert histogram[..i] == histogram;
    error := None;
  }

  /** Which error a refused policy gets: the first check that fails decides. */
  predicate Refused(sampleCount: Option<u64>, histogram: seq<Entry>, claimed: Option<u64>, error: Error) {
    if sampleCount.None? || sampleCount.value == 0 || sampleCount.value > MAX_SAMPLES then error == SampleCountInvalid
    else if histogram == [] then error == HistogramEmpty
    else if !GoodUpTo(histogram, |histogram|) then
      exists i :: 0 <= i < |histogram| && GoodUpTo(histogram, i) && Defect(histogram, i) == Some(error)
    else if |Samples(histogram[..|histogram|])| != sampleCount.value then error == TotalDisagrees
    else error == ValueDisagrees
         && (claimed.None? || !IsPercentile(Samples(histogram[..|histogram|]), claimed.value))
  }

  /** Accepts exactly the policies whose histogram is well formed, has the stated number of samples
      within the bound, and whose value is the nearest-rank 90th percentile of the expanded samples:
      the scan always finds a value by then. */
  method ReadPolicy(sampleCount: Option<u64>, histogram: seq<Entry>, claimed: Option<u64>) returns (r: Result)
    ensures r.Accepted? <==>
            && sampleCount.Some? && sampleCount.value <= 10_000_000
            && histogram != [] && WellFormed(histogram) && |Samples(histogram)| == sampleCount.value
            && claimed.Some? && IsPercentile(Samples(histogram), claimed.value)
    ensures r.Accepted? ==> claimed == Some(r.range)
    ensures r.Rejected? ==> Refused(sampleCount, histogram, claimed, r.error)
  {
    assert histogram[..|histogram|] == histogram;
    if WellFormed(histogram) {
      SamplesAreSorted(histogram);
    }
    if sampleCount.None? || sampleCount.value == 0 || sampleCount.value > MAX_SAMPLES {
      return Rejected(SampleCountInvalid);
    }
    if histogram == [] {
      return Rejected(HistogramEmpty);
    }
    var count := sampleCount.value;
    assert count * 90 + 99 < U64_RANGE;
    var rank := (count * 90 + 99) / 100;
    var error, total, found := Scan(histogram, rank);
    if error.Some? {
      return Rejected(error.value);
    }
    if total != count {
      return Rejected(TotalDisagrees);
    }
    RankIsPercentile(Samples(histogram));
    if claimed.None? || found != Some(claimed.value) {
      return Rejected(ValueDisagrees);
    }
    r := Accepted(claimed.value);
  }

  lemma {:induction false} StepKeepsOrder(h: seq<Entry>, i: nat)
    requires i < |h| && WellFormed(h[..i])
    requires h[i].range.Some? && h[i].count.Some? && h[i].count.value > 0 && h[i].range.value <= MAX_REQUESTED_RANGE
    requires h[i].range.value > if i == 0 then 0 else h[i - 1].range.value
    ensures WellFormed(h[..i + 1])
    ensures Samples(h[..i + 1]) == Samples(h[..i]) + seq(h[i].count.value, k => h[i].range.value)
  {
    var before, after := h[..i], h[..i + 1];
    assert after[..i] == before;
    forall k | 0 <= k < i
      ensures h[k].range.value < h[i].range.value
    {
      assert before[k].range.value <= before[i - 1].range.value;
    }
  }

  lemma {:induction false} MoreSamples(h: seq<Entry>, i: nat)
    requires i <= |h| && WellFormed(h[..i])
    ensures WellFormed(h) ==> |Samples(h[..i])| <= |Samples(h)|
    decreases |h| - i
  {
    if WellFormed(h) {
      if i < |h| {
        StepKeepsOrder(h, i);
        MoreSamples(h, i + 1);
      } else {
        assert h[..i] == h;
      }
    }
  }
}
