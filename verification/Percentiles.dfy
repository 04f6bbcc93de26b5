/** Median, 99th percentile and maximum by full sort, partial selection and
    histogram. The reference is counting: the k-th smallest value of a data set is
    the value with at most k values below it and more than k values up to it. */
module Percentiles {
  import opened Options
  import opened Permutations
  import opened Words

  datatype Stats = Stats(p50: u64, p99: u64, max: u64)

  /** How many values lie strictly below x. */
  function CountBelow(s: seq<u64>, x: nat): (c: nat)
    ensures c <= |s|
  {
    if s == [] then 0 else CountBelow(s[..|s| - 1], x) + if s[|s| - 1] < x then 1 else 0
  }

  ghost predicate IsOrderStat(s: seq<u64>, k: nat, x: u64) {
    CountBelow(s, x) <= k < CountBelow(s, x + 1)
  }

  ghost predicate IsStats(data: seq<u64>, r: Stats) {
    && |data| > 0
    && IsOrderStat(data, |data| / 2, r.p50)
    && IsOrderStat(data, |data| * 99 / 100, r.p99)
    && IsOrderStat(data, |data| - 1, r.max)
  }

  // ---------------------------------------------------------------------------
  // Counting
  // ---------------------------------------------------------------------------

  lemma {:induction false} CountMonotone(s: seq<u64>, x: nat, y: nat)
    requires x <= y
    ensures CountBelow(s, x) <= CountBelow(s, y)
  {
    if s == [] {
    } else {
      CountMonotone(s[..|s| - 1], x, y);
    }
  }

  lemma {:induction false} CountConcat(s: seq<u64>, t: seq<u64>, x: nat)
    ensures CountBelow(s + t, x) == CountBelow(s, x) + CountBelow(t, x)
  {
    if t == [] {
      assert s + t == s;
    } else {
      assert (s + t)[..|s + t| - 1] == s + t[..|t| - 1];
      CountConcat(s, t[..|t| - 1], x);
    }
  }

  lemma {:induction false} CountExtremes(s: seq<u64>, x: nat)
    ensures (forall i :: 0 <= i < |s| ==> s[i] < x) ==> CountBelow(s, x) == |s|
    ensures (forall i :: 0 <= i < |s| ==> s[i] >= x) ==> CountBelow(s, x) == 0
  {
    if s == [] {
    } else {
      CountExtremes(s[..|s| - 1], x);
    }
  }

  lemma {:induction false} CountWithout(t: seq<u64>, i: nat, x: nat)
    requires i < |t|
    ensures CountBelow(t, x) == CountBelow(t[..i] + t[i + 1..], x) + if t[i] < x then 1 else 0
  {
    assert t == t[..i + 1] + t[i + 1..] && t[..i + 1][..i] == t[..i];
    CountConcat(t[..i + 1], t[i + 1..], x);
    CountConcat(t[..i], t[i + 1..], x);
  }

  /** Counting does not see the order of the values. */
  lemma {:induction false} CountPermutation(s: seq<u64>, t: seq<u64>, x: nat)
    requires multiset(s) == multiset(t)
    ensures CountBelow(s, x) == CountBelow(t, x)
    decreases |s|
  {
    if s == [] {
      assert |multiset(t)| == 0;
    } else {
      var i := WithoutLast(s, t);
      CountPermutation(s[..|s| - 1], t[..i] + t[i + 1..], x);
      CountWithout(t, i, x);
    }
  }

  /** A data set has one k-th smallest value. */
  lemma {:induction false} OrderStatUnique(s: seq<u64>, k: nat, x: u64, y: u64)
    requires IsOrderStat(s, k, x) && IsOrderStat(s, k, y)
    ensures x == y
  {
    if x < y {
      CountMonotone(s, x + 1, y);
    }
    if y < x {
      CountMonotone(s, y + 1, x);
    }
  }

  /** The three strategies cannot disagree: a data set has one set of statistics. */
  lemma {:induction false} StatsUnique(data: seq<u64>, r: Stats, s: Stats)
    requires IsStats(data, r) && IsStats(data, s)
    ensures r == s
  {
    OrderStatUnique(data, |data| / 2, r.p50, s.p50);
    OrderStatUnique(data, |data| * 99 / 100, r.p99, s.p99);
    OrderStatUnique(data, |data| - 1, r.max, s.max);
  }

  ghost predicate PartitionedAt(s: seq<u64>, k: nat) {
    && k < |s|
    && (forall i :: 0 <= i < k ==> s[i] <= s[k])
    && (forall i :: k <= i < |s| ==> s[k] <= s[i])
  }

  lemma {:induction false} CountAtMost(s: seq<u64>, k: nat, x: nat)
    requires k <= |s| && forall i :: k <= i < |s| ==> s[i] >= x
    ensures CountBelow(s, x) <= k
  {
    assert s == s[..k] + s[k..];
    CountConcat(s[..k], s[k..], x);
    CountExtremes(s[k..], x);
  }

  lemma {:induction false} CountAtLeast(s: seq<u64>, k: nat, x: nat)
    requires k <= |s| && forall i :: 0 <= i < k ==> s[i] < x
    ensures CountBelow(s, x) >= k
  {
    assert s == s[..k] + s[k..];
    CountConcat(s[..k], s[k..], x);
    CountExtremes(s[..k], x);
  }

  /** Where everything before is at most and everything after at least it, a
      value is the order statistic of its position, of every permutation. */
  lemma {:induction false} PartitionedIsOrderStat(s: seq<u64>, k: nat, data: seq<u64>)
    requires PartitionedAt(s, k) && multiset(s) == multiset(data)
    ensures IsOrderStat(data, k, s[k])
  {
    CountAtMost(s, k, s[k]);
    CountAtLeast(s, k + 1, s[k] as int + 1);
    CountPermutation(s, data, s[k]);
    CountPermutation(s, data, s[k] as int + 1);
  }

  /** The statistics are those read off any sorted arrangement of the data. */
  lemma {:induction false} StatsOfSorted(sorted: seq<u64>, data: seq<u64>)
    requires |data| > 0 && multiset(sorted) == multiset(data)
    requires forall i, j :: 0 <= i <= j < |sorted| ==> sorted[i] <= sorted[j]
    ensures var n := |data|;
      |sorted| == n && IsStats(data, Stats(sorted[n / 2], sorted[n * 99 / 100], sorted[n - 1]))
  {
    assert |multiset(sorted)| == |multiset(data)|;
    var n := |data|;
    PartitionedIsOrderStat(sorted, n / 2, data);
    PartitionedIsOrderStat(sorted, n * 99 / 100, data);
    PartitionedIsOrderStat(sorted, n - 1, data);
  }

  /** The last order statistic is the maximum. */
  lemma {:induction false} MaximumIsLast(s: seq<u64>, x: u64)
    requires x in s && forall i :: 0 <= i < |s| ==> s[i] <= x
    ensures IsOrderStat(s, |s| - 1, x)
  {
    var i :| 0 <= i < |s| && s[i] == x;
    assert s == s[..i] + [x] + s[i + 1..];
    CountConcat(s[..i] + [x], s[i + 1..], x);
    CountConcat(s[..i], [x], x);
    CountExtremes([x], x);
    CountExtremes(s, x + 1);
  }

  // ---------------------------------------------------------------------------
  // Selection and sorting in place
  // ---------------------------------------------------------------------------

  method Swap(a: array<u64>, i: nat, j: nat)
    requires i < a.Length && j < a.Length
    modifies a
    ensures a[i] == old(a[j]) && a[j] == old(a[i])
    ensures forall k :: 0 <= k < a.Length && k != i && k != j ==> a[k] == old(a[k])
    ensures multiset(a[..]) == multiset(old(a[..]))
  {
    a[i], a[j] := a[j], a[i];
  }

  /** Moves a pivot of a[lo..hi] to its place. */
  method Partition(a: array<u64>, lo: nat, hi: nat, ghost lower: int, ghost upper: int) returns (p: nat)
    requires lo < hi <= a.Length
    requires forall i :: lo <= i < hi ==> lower <= a[i] <= upper
    modifies a
    ensures lo <= p < hi
    ensures forall i :: lo <= i < p ==> a[i] <= a[p]
    ensures forall i :: p <= i < hi ==> a[p] <= a[i]
    ensures forall i :: lo <= i < hi ==> lower <= a[i] <= upper
    ensures forall i :: 0 <= i < lo || hi <= i < a.Length ==> a[i] == old(a[i])
    ensures multiset(a[..]) == multiset(old(a[..]))
  {
    var pivot := a[hi - 1];
    p := lo;
    for j := lo to hi - 1
      invariant lo <= p <= j && a[hi - 1] == pivot
      invariant forall i :: lo <= i < p ==> a[i] <= pivot
      invariant forall i :: p <= i < j ==> pivot <= a[i]
      invariant forall i :: lo <= i < hi ==> lower <= a[i] <= upper
      invariant forall i :: 0 <= i < lo || hi <= i < a.Length ==> a[i] == old(a[i])
      invariant multiset(a[..]) == multiset(old(a[..]))
    {
      if a[j] < pivot {
        Swap(a, p, j);
        p := p + 1;
      }
    }
    Swap(a, p, hi - 1);
  }

  /** `select_nth_unstable(k)` on the first n elements. */
  method SelectNth(a: array<u64>, n: nat, k: nat, ghost upper: int)
    requires k < n <= a.Length
    requires forall i :: 0 <= i < n ==> a[i] <= upper
    modifies a
    ensures forall i :: 0 <= i < k ==> a[i] <= a[k]
    ensures forall i :: k <= i < n ==> a[k] <= a[i] <= upper
    ensures forall i :: n <= i < a.Length ==> a[i] == old(a[i])
    ensures multiset(a[..]) == multiset(old(a[..]))
  {
    var lo, hi := 0, n;
    ghost var l, u := 0, upper;
    while hi - lo > 1
      invariant 0 <= lo <= k < hi <= n
      invariant forall i :: 0 <= i < lo ==> a[i] <= l
      invariant forall i :: lo <= i < hi ==> l <= a[i] <= u
      invariant forall i :: hi <= i < n ==> u <= a[i] <= upper
      invariant u <= upper
      invariant forall i :: n <= i < a.Length ==> a[i] == old(a[i])
      invariant multiset(a[..]) == multiset(old(a[..]))
      decreases hi - lo
    {
      var p := Partition(a, lo, hi, l, u);
      if k == p {
        return;
      } else if k < p {
        hi, u := p, a[p];
      } else {
        lo, l := p + 1, a[p];
      }
    }
  }

  /** `sort_unstable`. */
  method Sort(a: array<u64>)
    modifies a
    ensures forall i, j :: 0 <= i <= j < a.Length ==> a[i] <= a[j]
    ensures multiset(a[..]) == multiset(old(a[..]))
  {
    var n := a.Length;
    ghost var upper: int := MAX_U64;
    while n > 0
      invariant 0 <= n <= a.Length
      invariant forall i :: 0 <= i < n ==> a[i] <= upper
      invariant forall i :: n <= i < a.Length ==> upper <= a[i]
      invariant forall i, j :: n <= i <= j < a.Length ==> a[i] <= a[j]
      invariant multiset(a[..]) == multiset(old(a[..]))
    {
      SelectNth(a, n, n - 1, upper);
      n := n - 1;
      upper := a[n];
    }
  }

  method Copy(data: seq<u64>) returns (v: array<u64>)
    ensures fresh(v) && v[..] == data
  {
    v := new u64[|data|](i requires 0 <= i < |data| => data[i]);
  }

  // ---------------------------------------------------------------------------
  // The three strategies. A result of None stands for a panic.
  // ---------------------------------------------------------------------------

  method StatsBySort(data: seq<u64>) returns (r: Option<Stats>)
    ensures r.None? <==> data == []
    ensures r.Some? ==> IsStats(data, r.value)
  {
    if data == [] {
      return None;
    }
    var v := Copy(data);
    Sort(v);
    StatsOfSorted(v[..], data);
    var n := v.Length;
    return Some(Stats(v[n / 2], v[n * 99 / 100], v[n - 1]));
  }

  /** One selection on the first n elements, all of them at most the rest. */
  method SelectStat(v: array<u64>, n: nat, k: nat, ghost upper: int, ghost data: seq<u64>) returns (x: u64)
    requires k < n <= v.Length && multiset(v[..]) == multiset(data)
    requires forall i :: 0 <= i < n ==> v[i] <= upper
    requires forall i :: n <= i < v.Length ==> upper <= v[i]
    modifies v
    ensures x == v[k] && IsOrderStat(data, k, x)
    ensures forall i :: 0 <= i < k ==> v[i] <= x
    ensures forall i :: k <= i < v.Length ==> x <= v[i]
    ensures multiset(v[..]) == multiset(data)
  {
    SelectNth(v, n, k, upper);
    x := v[k];
    PartitionedIsOrderStat(v[..], k, data);
  }

  /** With one or two values the median's index falls outside the slice searched for it. */
  method StatsBySelect(data: seq<u64>) returns (r: Option<Stats>)
    ensures r.None? <==> |data| < 3
    ensures r.Some? ==> IsStats(data, r.value)
  {
    if data == [] {
      return None;
    }
    var v := Copy(data);
    var n := v.Length;
    var last, i99, i50 := n - 1, n * 99 / 100, n / 2;
    if i99 == last {
      var max := SelectStat(v, n, last, MAX_U64, data);
      if i50 >= last {
        return None;
      }
      var p50 := SelectStat(v, last, i50, max, data);
      return Some(Stats(p50, max, max));
    }
    var max := SelectStat(v, n, last, MAX_U64, data);
    var p99 := SelectStat(v, last, i99, max, data);
    var p50 := SelectStat(v, i99, i50, p99, data);
    return Some(Stats(p50, p99, max));
  }

  /** How often x occurs. */
  function Occurrences(s: seq<u64>, x: nat): nat {
    CountMonotone(s, x, x + 1);
    CountBelow(s, x + 1) - CountBelow(s, x)
  }

  lemma {:induction false} OccurrencesNext(data: seq<u64>, i: nat, x: nat)
    requires i < |data|
    ensures Occurrences(data[..i + 1], x) == Occurrences(data[..i], x) + if x == data[i] then 1 else 0
  {
    assert data[..i + 1][..i] == data[..i];
  }

  lemma {:induction false} OccurrencesOfPrefix(data: seq<u64>, i: nat, x: nat)
    requires i <= |data|
    ensures Occurrences(data[..i], x) <= Occurrences(data, x)
  {
    assert data == data[..i] + data[i..];
    CountConcat(data[..i], data[i..], x);
    CountConcat(data[..i], data[i..], x + 1);
    CountMonotone(data[i..], x, x + 1);
  }

  /** Some value occurs too often for a 32-bit bucket. */
  ghost predicate Overfull(data: seq<u64>) {
    exists x: nat :: Occurrences(data, x) >= U32
  }

  lemma {:induction false} NotOverfullNext(data: seq<u64>, i: nat)
    requires i < |data| && !Overfull(data[..i]) && Occurrences(data[..i], data[i]) % U32 != U32 - 1
    ensures !Overfull(data[..i + 1])
  {
    var before, after := data[..i], data[..i + 1];
    forall x: nat
      ensures Occurrences(after, x) < U32
    {
      assert Occurrences(before, x) < U32;
      OccurrencesNext(data, i, x);
    }
  }

  /** The histogram, each bucket wrapping at 32 bits. */
  function Buckets(data: seq<u64>, bound: u64): seq<nat> {
    seq(bound + 1, x requires 0 <= x => Occurrences(data, x) % U32)
  }

  /** The first bucket at which the cumulative count reaches t, or 0. */
  function Reached(hist: seq<nat>, t: nat, x: nat, cumul: nat): nat
    requires x <= |hist|
    decreases |hist| - x
  {
    if x == |hist| then 0
    else if cumul + hist[x] >= t then x
    else Reached(hist, t, x + 1, cumul + hist[x])
  }

  /** The first bucket at which more than k values have gone by holds the k-th smallest. */
  lemma {:induction false} ReachedIsOrderStat(data: seq<u64>, hist: seq<nat>, k: nat, x: nat)
    requires k < |data| && x <= |hist| <= WORD
    requires forall i :: 0 <= i < |data| ==> data[i] < |hist|
    requires forall y :: 0 <= y < |hist| ==> hist[y] == Occurrences(data, y)
    requires CountBelow(data, x) <= k
    ensures Reached(hist, k + 1, x, CountBelow(data, x)) < WORD
    ensures IsOrderStat(data, k, Reached(hist, k + 1, x, CountBelow(data, x)))
    decreases |hist| - x
  {
    if x == |hist| {
      CountExtremes(data, x);
      assert false;
    } else if CountBelow(data, x) + hist[x] < k + 1 {
      ReachedIsOrderStat(data, hist, k, x + 1);
    }
  }

  /** The values below b that the wrapped buckets still count. */
  function Kept(data: seq<u64>, b: nat): nat {
    if b == 0 then 0 else Kept(data, b - 1) + Occurrences(data, b - 1) % U32
  }

  /** The k-th smallest value m survives the wrapping: more than k values up to m are
      still counted, or m is 0 and the count never gets there. */
  ghost predicate Survives(data: seq<u64>, bound: u64, k: nat) {
    exists m: u64 :: IsOrderStat(data, k, m) && (k < Kept(data, m + 1) || (m == 0 && Kept(data, bound + 1) <= k))
  }

  lemma {:induction false} KeptAtMost(data: seq<u64>, b: nat)
    ensures Kept(data, b) <= CountBelow(data, b)
  {
    if b == 0 {
    } else {
      KeptAtMost(data, b - 1);
    }
  }

  lemma {:induction false} KeptMonotone(data: seq<u64>, a: nat, b: nat)
    requires a <= b
    ensures Kept(data, a) <= Kept(data, b)
  {
    if a == b {
    } else {
      KeptMonotone(data, a, b - 1);
    }
  }

  lemma {:induction false} ReachedStep(data: seq<u64>, bound: u64, k: nat, x: nat)
    requires x <= bound
    ensures Reached(Buckets(data, bound), k + 1, x, Kept(data, x))
         == if k < Kept(data, x + 1) then x else Reached(Buckets(data, bound), k + 1, x + 1, Kept(data, x + 1))
  {
    assert Kept(data, x) + Buckets(data, bound)[x] == Kept(data, x + 1);
  }

  /** From bucket x on the scan finds nothing before x, and nothing at all, that is 0,
      if the count never gets beyond k. */
  lemma {:induction false} ReachedFrom(data: seq<u64>, bound: u64, k: nat, x: nat)
    requires x <= bound + 1
    ensures var r := Reached(Buckets(data, bound), k + 1, x, Kept(data, x));
      if Kept(data, bound + 1) <= k then r == 0 else Kept(data, x) <= k ==> x <= r
    decreases bound + 1 - x
  {
    if x == bound + 1 {
    } else {
      KeptMonotone(data, x + 1, bound + 1);
      ReachedFrom(data, bound, k, x + 1);
      ReachedStep(data, bound, k, x);
    }
  }

  lemma {:induction false} ReachedFromTrue(data: seq<u64>, bound: u64, k: nat, m: nat)
    requires m <= bound
    ensures Reached(Buckets(data, bound), k + 1, m, Kept(data, m)) == m <==>
      k < Kept(data, m + 1) || (m == 0 && Kept(data, bound + 1) <= k)
  {
    ReachedStep(data, bound, k, m);
    KeptMonotone(data, m + 1, bound + 1);
    ReachedFrom(data, bound, k, m + 1);
  }

  lemma {:induction false} ReachedIsFirst(data: seq<u64>, bound: u64, k: nat, x: nat, m: nat)
    requires x <= m <= bound && Kept(data, m) <= k
    ensures Reached(Buckets(data, bound), k + 1, x, Kept(data, x))
         == Reached(Buckets(data, bound), k + 1, m, Kept(data, m))
    decreases m - x
  {
    if x == m {
    } else {
      KeptMonotone(data, x + 1, m);
      ReachedStep(data, bound, k, x);
      ReachedIsFirst(data, bound, k, x + 1, m);
    }
  }

  lemma {:induction false} OrderStatWithin(data: seq<u64>, bound: u64, k: nat, m: u64)
    requires IsOrderStat(data, k, m) && forall i :: 0 <= i < |data| ==> data[i] <= bound
    requires k < |data|
    ensures m <= bound && Kept(data, m) <= k
  {
    KeptAtMost(data, m);
    CountExtremes(data, bound + 1);
    if m > bound {
      CountMonotone(data, bound + 1, m);
    }
  }

  /** What the buckets yield is the k-th smallest value if and only if it survives. */
  lemma {:induction false} RightIffSurvives(data: seq<u64>, bound: u64, k: nat, x: u64)
    requires k < |data| && forall i :: 0 <= i < |data| ==> data[i] <= bound
    requires x == Reached(Buckets(data, bound), k + 1, 0, 0)
    ensures IsOrderStat(data, k, x) <==> Survives(data, bound, k)
  {
    forall m: u64 | IsOrderStat(data, k, m)
      ensures x == m <==> k < Kept(data, m + 1) || (m == 0 && Kept(data, bound + 1) <= k)
    {
      OrderStatWithin(data, bound, k, m);
      ReachedIsFirst(data, bound, k, 0, m);
      ReachedFromTrue(data, bound, k, m);
    }
  }

  /** Panics exactly on no data, on a bound without a successor, on a value above the
      bound, and in a checked build on an overfull bucket. The maximum is always right,
      the percentiles are what the buckets yield, they are right when none is overfull, and
      otherwise if and only if the wrapped counts still reach them. */
  method StatsByHistogram(build: Build, data: seq<u64>, bound: u64) returns (r: Option<Stats>)
    ensures r.None? <==>
      || data == [] || bound == MAX_U64
      || (exists i :: 0 <= i < |data| && data[i] > bound)
      || (build.Checked? && Overfull(data))
    ensures r.Some? ==>
      && IsOrderStat(data, |data| - 1, r.value.max)
      && r.value.p50 == Reached(Buckets(data, bound), |data| / 2 + 1, 0, 0)
      && r.value.p99 == Reached(Buckets(data, bound), |data| * 99 / 100 + 1, 0, 0)
    ensures r.Some? && !Overfull(data) ==> IsStats(data, r.value)
    ensures r.Some? ==>
      (IsStats(data, r.value) <==> Survives(data, bound, |data| / 2) && Survives(data, bound, |data| * 99 / 100))
  {
    if data == [] || bound == MAX_U64 {
      return None;
    }
    var hist := new nat[bound + 1](_ => 0);
    var filled, max := Fill(build, data, bound, hist);
    if !filled {
      return None;
    }
    MaximumIsLast(data, max);
    assert hist[..] == Buckets(data, bound);
    var p50, p99 := Scan(|data|, hist);
    if !Overfull(data) {
      BucketsGiveOrderStat(data, bound, |data| / 2);
      BucketsGiveOrderStat(data, bound, |data| * 99 / 100);
    }
    RightIffSurvives(data, bound, |data| / 2, p50);
    RightIffSurvives(data, bound, |data| * 99 / 100, p99);
    return Some(Stats(p50, p99, max));
  }

  lemma {:induction false} BucketNext(data: seq<u64>, hist: seq<nat>, i: nat)
    requires i < |data| && data[i] < |hist|
    requires forall x :: 0 <= x < |hist| ==> hist[x] == Occurrences(data[..i], x) % U32
    ensures var h := hist[data[i] := (hist[data[i]] + 1) % U32];
      forall x :: 0 <= x < |hist| ==> h[x] == Occurrences(data[..i + 1], x) % U32
  {
    forall x | 0 <= x < |hist|
      ensures Occurrences(data[..i + 1], x) == Occurrences(data[..i], x) + if x == data[i] then 1 else 0
    {
      OccurrencesNext(data, i, x);
    }
  }

  /** The counting loop; `filled` is false where it panics. */
  method Fill(build: Build, data: seq<u64>, bound: u64, hist: array<nat>) returns (filled: bool, max: u64)
    requires data != [] && hist.Length == bound + 1 && forall x :: 0 <= x < hist.Length ==> hist[x] == 0
    modifies hist
    ensures !filled <==>
      (exists i :: 0 <= i < |data| && data[i] > bound) || (build.Checked? && Overfull(data))
    ensures filled ==> max in data && forall i :: 0 <= i < |data| ==> data[i] <= max
    ensures filled ==> forall x :: 0 <= x < hist.Length ==> hist[x] == Occurrences(data, x) % U32
  {
    max := 0;
    for i := 0 to |data|
      invariant forall k :: 0 <= k < i ==> data[k] <= bound && data[k] <= max
      invariant if i == 0 then max == 0 else max in data[..i]
      invariant forall x :: 0 <= x < hist.Length ==> hist[x] == Occurrences(data[..i], x) % U32
      invariant build.Checked? ==> !Overfull(data[..i])
    {
      if data[i] > bound {
        return false, max;
      }
      if build.Checked? {
        if hist[data[i]] == U32 - 1 {
          OverfullNext(data, i);
          return false, max;
        }
        NotOverfullNext(data, i);
      }
      ghost var h := hist[..];
      BucketNext(data, h, i);
      hist[data[i]] := (hist[data[i]] + 1) % U32;
      assert hist[..] == h[data[i] := (h[data[i]] + 1) % U32];
      assert forall x :: 0 <= x < hist.Length ==> hist[x] == hist[..][x];
      if data[i] > max {
        max := data[i];
      }
      assert data[i] in data[..i + 1];
    }
    assert data[..|data|] == data;
    filled := true;
  }

  lemma {:induction false} OverfullNext(data: seq<u64>, i: nat)
    requires i < |data| && Occurrences(data[..i], data[i]) % U32 == U32 - 1
    ensures Overfull(data)
  {
    OccurrencesNext(data, i, data[i]);
    OccurrencesOfPrefix(data, i + 1, data[i]);
  }

  lemma {:induction false} BucketsExact(data: seq<u64>, bound: u64)
    requires !Overfull(data)
    ensures forall y :: 0 <= y <= bound ==> Buckets(data, bound)[y] == Occurrences(data, y)
  {
    forall y | 0 <= y <= bound
      ensures Buckets(data, bound)[y] == Occurrences(data, y)
    {
      assert Occurrences(data, y) < U32;
    }
  }

  lemma {:induction false} BucketsGiveOrderStat(data: seq<u64>, bound: u64, k: nat)
    requires k < |data| && bound < MAX_U64 && forall i :: 0 <= i < |data| ==> data[i] <= bound
    requires !Overfull(data)
    ensures var x := Reached(Buckets(data, bound), k + 1, 0, 0);
      x < WORD && IsOrderStat(data, k, x)
  {
    BucketsExact(data, bound);
    assert CountBelow(data, 0) == 0 by {
      CountExtremes(data, 0);
    }
    ReachedIsOrderStat(data, Buckets(data, bound), k, 0);
  }

  /** The cumulative pass over the buckets, which leaves at the second threshold. */
  method Scan(n: nat, hist: array<nat>) returns (p50: u64, p99: u64)
    requires hist.Length <= WORD
    ensures p50 == Reached(hist[..], n / 2 + 1, 0, 0)
    ensures p99 == Reached(hist[..], n * 99 / 100 + 1, 0, 0)
  {
    var atLeast50, atLeast99 := n / 2 + 1, n * 99 / 100 + 1;
    var cumul: nat := 0;
    p50, p99 := 0, 0;
    var found := false;
    for x := 0 to hist.Length
      invariant Reached(hist[..], atLeast99, 0, 0) == Reached(hist[..], atLeast99, x, cumul)
      invariant Reached(hist[..], atLeast50, 0, 0) == if found then p50 else Reached(hist[..], atLeast50, x, cumul)
      invariant (found || p50 == 0) && p99 == 0
      invariant found <==> cumul >= atLeast50
    {
      cumul := cumul + hist[x];
      if !found && cumul >= atLeast50 {
        p50 := x;
        found := true;
      }
      if cumul >= atLeast99 {
        p99 := x;
        return;
      }
    }
  }

  /** In a release build an overfull bucket wraps to empty: 2^32 ones have median 1, and
      the buckets say 0. */
  lemma {:induction false} OverfullBucketsMislead()
    ensures var data := seq(U32, _ => 1 as u64);
      && Overfull(data)
      && Reached(Buckets(data, 1), |data| / 2 + 1, 0, 0) == 0
      && !IsOrderStat(data, |data| / 2, 0) && IsOrderStat(data, |data| / 2, 1)
  {
    var data := seq(U32, _ => 1 as u64);
    CountExtremes(data, 0);
    CountExtremes(data, 1);
    CountExtremes(data, 2);
    assert Occurrences(data, 1) == U32 && Occurrences(data, 0) == 0;
    assert Buckets(data, 1) == [0, 0];
    assert Reached([0, 0], U32 / 2 + 1, 1, 0) == Reached([0, 0], U32 / 2 + 1, 2, 0) == 0;
  }
}
