/**
 * Latency samples and their summary statistics, in exact real arithmetic.
 */
module LatencyStats {

  predicate Sorted(s: seq<int>) {
    forall i, j :: 0 <= i <= j < |s| ==> s[i] <= s[j]
  }

  function Insert(x: int, s: seq<int>): (r: seq<int>)
    requires Sorted(s)
    ensures |r| == |s| + 1 && r[0] == (if s == [] || x <= s[0] then x else s[0])
    ensures Sorted(r) && multiset(r) == multiset(s) + multiset{x}
  {
    if s == [] || x <= s[0] then [x] + s
    else
      var rest := Insert(x, s[1..]);
      PrependKeepsSorted(s[0], rest);
      assert s == [s[0]] + s[1..];
      [s[0]] + rest
  }

  lemma PrependKeepsSorted(x: int, s: seq<int>)
    requires Sorted(s) && (s == [] || x <= s[0])
    ensures Sorted([x] + s)
  {}

  /** A sorted copy; the library sort is used only through this contract. */
  function SortedCopy(s: seq<int>): (r: seq<int>)
    ensures Sorted(r) && multiset(r) == multiset(s)
    ensures |r| == |s|
  {
    if s == [] then []
    else
      assert s == [s[0]] + s[1..];
      var r := Insert(s[0], SortedCopy(s[1..]));
      assert |r| == |multiset(r)|;
      r
  }

  /** The fractional position of a percentage among `n` order statistics. */
  function Rank(n: nat, pct: real): (r: real)
    requires n > 0 && pct >= 0.0
    ensures r >= 0.0
  {
    ProductIsNonNegative(pct / 100.0, (n - 1) as real);
    (pct / 100.0) * (n - 1) as real
  }

  lemma ProductIsNonNegative(a: real, b: real)
    requires a >= 0.0 && b >= 0.0
    ensures a * b >= 0.0
  {}

  /** Interpolated percentile of a sorted sequence. */
  function Percentile(sorted: seq<int>, pct: real): real
    requires pct >= 0.0
  {
    if sorted == [] then 0.0
    else
      var rank := Rank(|sorted|, pct);
      var lower := rank.Floor;
      var upper := lower + 1;
      if upper >= |sorted| then sorted[|sorted| - 1] as real
      else
        var frac := rank - lower as real;
        sorted[lower] as real * (1.0 - frac) + sorted[upper] as real * frac
  }

  // ---- The percentile as a function of its rank ----

  /** Linear interpolation between neighbouring order statistics, constant past the last one. */
  function Interpolate(sorted: seq<int>, rank: real): real
    requires sorted != [] && rank >= 0.0
  {
    var lower := rank.Floor;
    if lower + 1 >= |sorted| then sorted[|sorted| - 1] as real
    else sorted[lower] as real + (sorted[lower + 1] - sorted[lower]) as real * (rank - lower as real)
  }

  lemma RankIsMonotone(n: nat, p: real, q: real)
    requires 0.0 <= p <= q && n > 0
    ensures 0.0 <= Rank(n, p) <= Rank(n, q)
  {
    ProductIsNonNegative((q - p) / 100.0, (n - 1) as real);
    assert Rank(n, q) - Rank(n, p) == ((q - p) / 100.0) * (n - 1) as real;
  }

  lemma PercentileInterpolates(sorted: seq<int>, pct: real)
    requires sorted != [] && pct >= 0.0
    ensures Percentile(sorted, pct) == Interpolate(sorted, Rank(|sorted|, pct))
  {
    var rank := Rank(|sorted|, pct);
    if rank.Floor + 1 < |sorted| {
      Regroup(sorted[rank.Floor] as real, sorted[rank.Floor + 1] as real, rank - rank.Floor as real);
    }
  }

  lemma Regroup(a: real, b: real, f: real)
    ensures a * (1.0 - f) + b * f == a + (b - a) * f
  {}

  lemma Between(a: real, b: real, f: real)
    requires a <= b && 0.0 <= f <= 1.0
    ensures a <= a + (b - a) * f <= b
  {
    ProductIsNonNegative(b - a, f);
    ProductIsNonNegative(b - a, 1.0 - f);
    assert (b - a) * f + (b - a) * (1.0 - f) == b - a;
  }

  /** Between two order statistics the value lies between them. */
  lemma BracketInside(sorted: seq<int>, rank: real)
    requires Sorted(sorted) && rank >= 0.0 && rank.Floor + 1 < |sorted|
    ensures sorted[rank.Floor] as real <= Interpolate(sorted, rank) <= sorted[rank.Floor + 1] as real
  {
    var k := rank.Floor;
    var a, b, f := sorted[k] as real, sorted[k + 1] as real, rank - k as real;
    assert (sorted[k + 1] - sorted[k]) as real == b - a;
    Between(a, b, f);
  }

  /** The value lies between the order statistics at floor(rank) and floor(rank) + 1. */
  lemma InterpolateIsBracketed(sorted: seq<int>, rank: real)
    requires Sorted(sorted) && sorted != [] && rank >= 0.0
    ensures rank.Floor < |sorted| ==> sorted[rank.Floor] as real <= Interpolate(sorted, rank)
    ensures rank.Floor + 1 < |sorted| ==> Interpolate(sorted, rank) <= sorted[rank.Floor + 1] as real
    ensures sorted[0] as real <= Interpolate(sorted, rank) <= sorted[|sorted| - 1] as real
  {
    if rank.Floor + 1 < |sorted| {
      BracketInside(sorted, rank);
    }
  }

  lemma InterpolateIsMonotone(sorted: seq<int>, r: real, t: real)
    requires Sorted(sorted) && sorted != [] && 0.0 <= r <= t
    ensures Interpolate(sorted, r) <= Interpolate(sorted, t)
  {
    InterpolateIsBracketed(sorted, r);
    InterpolateIsBracketed(sorted, t);
    var i, j := r.Floor, t.Floor;
    if i == j && j + 1 < |sorted| {
      var slope := (sorted[i + 1] - sorted[i]) as real;
      ProductIsNonNegative(slope, t - r);
      assert slope * (t - i as real) - slope * (r - i as real) == slope * (t - r);
    } else if i < j < |sorted| {
      assert sorted[i + 1] <= sorted[j];
    }
  }

  /** The percentile is monotone in its percentage. */
  lemma PercentileIsMonotone(sorted: seq<int>, p: real, q: real)
    requires Sorted(sorted) && 0.0 <= p <= q
    ensures Percentile(sorted, p) <= Percentile(sorted, q)
  {
    if sorted != [] {
      PercentileInterpolates(sorted, p);
      PercentileInterpolates(sorted, q);
      RankIsMonotone(|sorted|, p, q);
      InterpolateIsMonotone(sorted, Rank(|sorted|, p), Rank(|sorted|, q));
    }
  }

  /**
   * What the percentile is: order statistic `i` sits at percentage `100 * i / (n - 1)`,
   * and between two neighbours the value moves in proportion.
   */
  lemma PercentileAtPosition(sorted: seq<int>, i: nat, f: real)
    requires i + 1 < |sorted| && 0.0 <= f < 1.0
    ensures var pct := 100.0 * (i as real + f) / (|sorted| - 1) as real;
      pct >= 0.0 && Percentile(sorted, pct) == sorted[i] as real * (1.0 - f) + sorted[i + 1] as real * f
  {
    var x := i as real + f;
    RankOfPosition(|sorted|, x);
    FloorOfSum(i, f);
    PercentileAtRank(sorted, 100.0 * x / (|sorted| - 1) as real, i, f);
  }

  lemma PercentileAtRank(sorted: seq<int>, pct: real, i: nat, f: real)
    requires i + 1 < |sorted| && pct >= 0.0 && Rank(|sorted|, pct) == i as real + f
    requires (i as real + f).Floor == i
    ensures Percentile(sorted, pct) == sorted[i] as real * (1.0 - f) + sorted[i + 1] as real * f
  {}

  lemma RankOfPosition(n: nat, x: real)
    requires n > 1 && x >= 0.0
    ensures 100.0 * x / (n - 1) as real >= 0.0 && Rank(n, 100.0 * x / (n - 1) as real) == x
  {
    Undo(x, (n - 1) as real);
  }

  lemma Undo(x: real, n: real)
    requires x >= 0.0 && n > 0.0
    ensures 100.0 * x / n >= 0.0 && (100.0 * x / n) / 100.0 * n == x
  {
    QuotientIsNonNegative(100.0 * x, n);
    var q := 100.0 * x / n;
    assert q * n == 100.0 * x;
    assert q / 100.0 * n == q * n / 100.0;
  }

  lemma FloorOfSum(i: nat, f: real)
    requires 0.0 <= f < 1.0
    ensures (i as real + f).Floor == i
  {}

  /** From the whole on it is the largest sample, as it always is for a single one; of none it is zero. */
  lemma PercentileAtTheEnd(sorted: seq<int>, pct: real)
    requires pct >= 0.0 && (pct >= 100.0 || |sorted| <= 1)
    ensures Percentile(sorted, pct) == if sorted == [] then 0.0 else sorted[|sorted| - 1] as real
  {
    if sorted != [] {
      RankIsMonotone(|sorted|, if pct >= 100.0 then 100.0 else pct, pct);
      assert Rank(|sorted|, 100.0) == (|sorted| - 1) as real;
    }
  }

  // ---- Sums over samples do not depend on their order ----

  function Tally(f: int -> real, s: seq<int>): real {
    if s == [] then 0.0 else f(s[0]) + Tally(f, s[1..])
  }

  lemma {:induction false} TallyOfConcat(f: int -> real, a: seq<int>, b: seq<int>)
    ensures Tally(f, a + b) == Tally(f, a) + Tally(f, b)
  {
    if a == [] {
      assert a + b == b;
    } else {
      TallyOfConcat(f, a[1..], b);
      assert (a + b)[1..] == a[1..] + b;
    }
  }

  lemma {:induction false} TallyIgnoresOrder(f: int -> real, a: seq<int>, b: seq<int>)
    requires multiset(a) == multiset(b)
    ensures Tally(f, a) == Tally(f, b)
  {
    if a == [] {
      assert |b| == |multiset(b)| == 0;
    } else {
      var k := IndexIn(a[0], b, a);
      var rest := b[..k] + b[k + 1..];
      assert b == b[..k] + [a[0]] + b[k + 1..];
      DropSame(a, b, k);
      TallyIgnoresOrder(f, a[1..], rest);
      TallyOfConcat(f, b[..k], b[k + 1..]);
      TallyOfConcat(f, b[..k] + [a[0]], b[k + 1..]);
      TallyOfConcat(f, b[..k], [a[0]]);
    }
  }

  /** Removing the same element from both sides keeps the multisets equal. */
  lemma DropSame(a: seq<int>, b: seq<int>, k: nat)
    requires multiset(a) == multiset(b) && a != [] && k < |b| && b[k] == a[0]
    ensures multiset(a[1..]) == multiset(b[..k] + b[k + 1..])
  {
    assert a == [a[0]] + a[1..];
    assert b == b[..k] + [b[k]] + b[k + 1..];
    assert multiset(a) == multiset{a[0]} + multiset(a[1..]);
    assert multiset(b) == multiset(b[..k]) + multiset{b[k]} + multiset(b[k + 1..]);
    assert multiset(b[..k] + b[k + 1..]) == multiset(b) - multiset{b[k]};
  }

  lemma IndexIn(x: int, b: seq<int>, a: seq<int>) returns (k: nat)
    requires multiset(a) == multiset(b) && x in a
    ensures k < |b| && b[k] == x
  {
    assert x in multiset(b);
    k :| k < |b| && b[k] == x;
  }

  /** A sorted sequence is determined by its elements. */
  lemma {:induction false} SortedIsUnique(a: seq<int>, b: seq<int>)
    requires Sorted(a) && Sorted(b) && multiset(a) == multiset(b)
    ensures a == b
  {
    if a == [] {
      SameLength(a, b);
    } else {
      SameLeast(a, b);
      DropSameFirst(a, b);
      TailIsSorted(a);
      TailIsSorted(b);
      SortedIsUnique(a[1..], b[1..]);
      SameHeadAndTail(a, b);
    }
  }

  lemma DropSameFirst(a: seq<int>, b: seq<int>)
    requires multiset(a) == multiset(b) && a != [] && b != [] && a[0] == b[0]
    ensures multiset(a[1..]) == multiset(b[1..])
  {
    DropSame(a, b, 0);
    assert b[..0] + b[1..] == b[1..];
  }

  lemma SameLength(a: seq<int>, b: seq<int>)
    requires multiset(a) == multiset(b)
    ensures |a| == |b|
  {
    assert |a| == |multiset(a)| && |b| == |multiset(b)|;
  }

  lemma TailIsSorted(a: seq<int>)
    requires Sorted(a) && a != []
    ensures Sorted(a[1..])
  {}

  lemma SameHeadAndTail(a: seq<int>, b: seq<int>)
    requires a != [] && b != [] && a[0] == b[0] && a[1..] == b[1..]
    ensures a == b
  {
    assert a == [a[0]] + a[1..] && b == [b[0]] + b[1..];
  }

  lemma SameLeast(a: seq<int>, b: seq<int>)
    requires Sorted(a) && Sorted(b) && multiset(a) == multiset(b) && a != []
    ensures b != [] && a[0] == b[0]
  {
    var k := IndexIn(a[0], b, a);
    var j := IndexIn(b[0], a, b);
    assert a[0] <= a[j] && b[0] <= b[k];
  }

  // ---- What the percentile of a set of samples means ----

  /** The percentile of unordered samples. */
  function PercentileOf(samples: seq<int>, pct: real): real
    requires pct >= 0.0
  {
    Percentile(SortedCopy(samples), pct)
  }

  /** The recording order does not matter. */
  lemma PercentileIgnoresOrder(s: seq<int>, t: seq<int>, pct: real)
    requires multiset(s) == multiset(t) && pct >= 0.0
    ensures PercentileOf(s, pct) == PercentileOf(t, pct)
  {
    SortedIsUnique(SortedCopy(s), SortedCopy(t));
  }

  function CountAtMost(s: seq<int>, v: real): real {
    Tally(x => if x as real <= v then 1.0 else 0.0, s)
  }

  function CountAtLeast(s: seq<int>, v: real): real {
    Tally(x => if x as real >= v then 1.0 else 0.0, s)
  }

  lemma {:induction false} TallyOfIndicator(f: int -> real, s: seq<int>)
    requires forall x :: f(x) == 0.0 || f(x) == 1.0
    ensures Tally(f, s) >= 0.0
    ensures (forall i :: 0 <= i < |s| ==> f(s[i]) == 1.0) ==> Tally(f, s) == |s| as real
  {
    if s != [] {
      TallyOfIndicator(f, s[1..]);
    }
  }

  /** At least `k + 1` samples are at or below `v`, and at least `n - 1 - k` at or above. */
  ghost predicate Splits(samples: seq<int>, v: real, k: int) {
    CountAtMost(samples, v) >= (k + 1) as real && CountAtLeast(samples, v) >= (|samples| - 1 - k) as real
  }

  /** `v` lies between order statistic `k` and the next. */
  predicate Brackets(sorted: seq<int>, v: real, k: int) {
    && 0 <= k < |sorted| && sorted[k] as real <= v
    && (k + 1 < |sorted| ==> v <= sorted[k + 1] as real)
  }

  /**
   * The defining property of an order statistic: at least floor(rank) + 1 samples are at
   * or below the percentile, and at least n - 1 - floor(rank) are at or above it.
   */
  lemma PercentileSplitsSamples(samples: seq<int>, pct: real)
    requires samples != [] && 0.0 <= pct <= 100.0
    ensures Splits(samples, PercentileOf(samples, pct), (pct / 100.0 * (|samples| - 1) as real).Floor)
  {
    var sorted, k := SortedCopy(samples), (pct / 100.0 * (|samples| - 1) as real).Floor;
    SplitsAtRank(samples, sorted, pct, PercentileOf(samples, pct), k);
  }

  lemma SplitsAtRank(samples: seq<int>, sorted: seq<int>, pct: real, v: real, k: int)
    requires samples != [] && sorted == SortedCopy(samples) && 0.0 <= pct <= 100.0
    requires v == Percentile(sorted, pct) && k == Rank(|sorted|, pct).Floor
    ensures Splits(samples, v, k)
  {
    PercentileIsBracketed(sorted, pct, v, k);
    BracketSplits(samples, v, k);
  }

  lemma BracketSplits(samples: seq<int>, v: real, k: int)
    requires Brackets(SortedCopy(samples), v, k)
    ensures Splits(samples, v, k)
  {
    SplitSamples(samples, v, k + 1, k + 1);
  }

  lemma PercentileIsBracketed(sorted: seq<int>, pct: real, v: real, k: int)
    requires Sorted(sorted) && sorted != [] && 0.0 <= pct <= 100.0
    requires v == Percentile(sorted, pct) && k == Rank(|sorted|, pct).Floor
    ensures Brackets(sorted, v, k)
  {
    RankInRange(|sorted|, pct);
    PercentileInterpolates(sorted, pct);
    InterpolateIsBracketed(sorted, Rank(|sorted|, pct));
  }

  lemma RankInRange(n: nat, pct: real)
    requires n > 0 && 0.0 <= pct <= 100.0
    ensures Rank(n, pct) <= (n - 1) as real
  {
    RankIsMonotone(n, pct, 100.0);
    assert Rank(n, 100.0) == (n - 1) as real;
  }

  /** A value at or above the first order statistics and at or below the last ones. */
  lemma SplitSamples(samples: seq<int>, v: real, low: nat, high: nat)
    requires low <= |samples| && high <= |samples|
    requires low > 0 ==> SortedCopy(samples)[low - 1] as real <= v
    requires high < |samples| ==> v <= SortedCopy(samples)[high] as real
    ensures CountAtMost(samples, v) >= low as real
    ensures CountAtLeast(samples, v) >= (|samples| - high) as real
  {
    var sorted := SortedCopy(samples);
    var atMost := x => if x as real <= v then 1.0 else 0.0;
    var atLeast := x => if x as real >= v then 1.0 else 0.0;
    TallyIgnoresOrder(atMost, samples, sorted);
    TallyIgnoresOrder(atLeast, samples, sorted);
    SplitTally(atMost, sorted, low);
    SplitTally(atLeast, sorted, high);
  }

  lemma SplitTally(f: int -> real, s: seq<int>, k: nat)
    requires k <= |s| && forall x :: f(x) == 0.0 || f(x) == 1.0
    ensures (forall i :: 0 <= i < k ==> f(s[i]) == 1.0) ==> Tally(f, s) >= k as real
    ensures (forall i :: k <= i < |s| ==> f(s[i]) == 1.0) ==> Tally(f, s) >= (|s| - k) as real
  {
    assert s == s[..k] + s[k..];
    TallyOfConcat(f, s[..k], s[k..]);
    TallyOfIndicator(f, s[..k]);
    TallyOfIndicator(f, s[k..]);
  }

  /** The benchmark's truncated p99, `sorted[(size_t)(0.99 * (n - 1))]`. */
  function TruncatedP99(sorted: seq<int>): real
    requires sorted != []
  {
    ProductIsNonNegative(0.99, (|sorted| - 1) as real);
    sorted[(0.99 * (|sorted| - 1) as real).Floor] as real
  }

  /** It never exceeds the interpolated one. */
  lemma TruncatedP99IsBelow(sorted: seq<int>)
    requires Sorted(sorted) && sorted != []
    ensures TruncatedP99(sorted) <= Percentile(sorted, 99.0)
  {
    PercentileInterpolates(sorted, 99.0);
    InterpolateIsBracketed(sorted, Rank(|sorted|, 99.0));
  }

  /** It is an order statistic: the samples at or below it, and those at or above it. */
  lemma TruncatedP99SplitsSamples(samples: seq<int>)
    requires samples != []
    ensures var v, k := TruncatedP99(SortedCopy(samples)), (0.99 * (|samples| - 1) as real).Floor;
      && CountAtMost(samples, v) >= (k + 1) as real
      && CountAtLeast(samples, v) >= (|samples| - k) as real
  {
    var k := (0.99 * (|samples| - 1) as real).Floor;
    TruncatedIndexInRange(|samples|);
    SplitSamples(samples, SortedCopy(samples)[k] as real, k + 1, k);
  }

  lemma TruncatedIndexInRange(n: nat)
    requires n > 0
    ensures 0 <= (0.99 * (n - 1) as real).Floor < n
  {}

  // ---- The report ----

  datatype Summary = NoSamples | Summary(
    min: real, max: real, mean: real, median: real, p95: real, p99: real, p999: real, variance: real)

  function Micros(x: int): real { x as real / 1000.0 }

  function SquaredDeviation(mean: real): int -> real {
    x => (Micros(x) - mean) * (Micros(x) - mean)
  }

  function Average(f: int -> real, s: seq<int>): real
    requires s != []
  {
    Tally(f, s) / |s| as real
  }

  lemma {:induction false} TallyBounds(f: int -> real, s: seq<int>, low: real, high: real)
    requires forall i :: 0 <= i < |s| ==> low <= f(s[i]) <= high
    ensures low * |s| as real <= Tally(f, s) <= high * |s| as real
  {
    if s != [] {
      TallyBounds(f, s[1..], low, high);
      assert low * |s| as real == low + low * (|s| - 1) as real;
      assert high * |s| as real == high + high * (|s| - 1) as real;
    }
  }

  lemma TallyOfPrefix(f: int -> real, s: seq<int>, i: nat)
    requires i < |s|
    ensures Tally(f, s[..i + 1]) == Tally(f, s[..i]) + f(s[i])
  {
    assert s[..i + 1] == s[..i] + [s[i]];
    TallyOfConcat(f, s[..i], [s[i]]);
  }

  method Accumulate(sorted: seq<int>) returns (sum: real)
    ensures sum == Tally(x => x as real, sorted)
  {
    sum := 0.0;
    for i := 0 to |sorted|
      invariant sum == Tally(x => x as real, sorted[..i])
    {
      TallyOfPrefix(x => x as real, sorted, i);
      sum := sum + sorted[i] as real;
    }
    assert sorted[..|sorted|] == sorted;
  }

  method SumOfSquares(sorted: seq<int>, mean: real) returns (sum: real)
    ensures sum == Tally(SquaredDeviation(mean), sorted)
  {
    sum := 0.0;
    for i := 0 to |sorted|
      invariant sum == Tally(SquaredDeviation(mean), sorted[..i])
    {
      TallyOfPrefix(SquaredDeviation(mean), sorted, i);
      var diff := Micros(sorted[i]) - mean;
      assert diff * diff == SquaredDeviation(mean)(sorted[i]);
      sum := sum + diff * diff;
    }
    assert sorted[..|sorted|] == sorted;
  }

  /** Minimum, median, p95, p99, p99.9 and maximum come in this order. */
  lemma PercentilesAreOrdered(sorted: seq<int>)
    requires Sorted(sorted) && sorted != []
    ensures sorted[0] as real <= Percentile(sorted, 50.0) <= Percentile(sorted, 95.0)
    ensures Percentile(sorted, 95.0) <= Percentile(sorted, 99.0) <= Percentile(sorted, 99.9)
    ensures Percentile(sorted, 99.9) <= sorted[|sorted| - 1] as real
  {
    PercentileInterpolates(sorted, 50.0);
    InterpolateIsBracketed(sorted, Rank(|sorted|, 50.0));
    PercentileIsMonotone(sorted, 50.0, 95.0);
    PercentileIsMonotone(sorted, 95.0, 99.0);
    PercentileIsMonotone(sorted, 99.0, 99.9);
    PercentileInterpolates(sorted, 99.9);
    InterpolateIsBracketed(sorted, Rank(|sorted|, 99.9));
  }

  /** The mean lies between the extremes. */
  lemma MeanIsBounded(sorted: seq<int>)
    requires Sorted(sorted) && sorted != []
    ensures sorted[0] as real <= Average(x => x as real, sorted) <= sorted[|sorted| - 1] as real
  {
    AverageIsBounded(x => x as real, sorted, sorted[0] as real, sorted[|sorted| - 1] as real);
  }

  lemma SquaresAverageNonNegative(mean: real, s: seq<int>)
    requires s != []
    ensures Average(SquaredDeviation(mean), s) >= 0.0
  {
    SquaresAreNonNegative(mean, s);
    QuotientIsNonNegative(Tally(SquaredDeviation(mean), s), |s| as real);
  }

  lemma AverageIsBounded(f: int -> real, s: seq<int>, low: real, high: real)
    requires s != [] && forall i :: 0 <= i < |s| ==> low <= f(s[i]) <= high
    ensures low <= Average(f, s) <= high
  {
    TallyBounds(f, s, low, high);
    QuotientBetween(Tally(f, s), |s| as real, low, high);
  }

  lemma QuotientIsNonNegative(x: real, n: real)
    requires x >= 0.0 && n > 0.0
    ensures x / n >= 0.0
  {}

  lemma QuotientBetween(x: real, n: real, low: real, high: real)
    requires n > 0.0 && low * n <= x <= high * n
    ensures low <= x / n <= high
  {
    assert (x / n) * n == x;
    CancelFactor(low, x / n, n);
    CancelFactor(x / n, high, n);
  }

  lemma CancelFactor(a: real, b: real, n: real)
    requires n > 0.0 && a * n <= b * n
    ensures a <= b
  {
    assert (a - b) * n == a * n - b * n;
    StrictProduct(a - b, n);
  }

  lemma StrictProduct(d: real, n: real)
    requires n > 0.0
    ensures d > 0.0 ==> d * n > 0.0
  {}

  lemma {:induction false} SquaresAreNonNegative(mean: real, s: seq<int>)
    ensures Tally(SquaredDeviation(mean), s) >= 0.0
  {
    if s != [] {
      SquaresAreNonNegative(mean, s[1..]);
      SquareIsNonNegative(Micros(s[0]) - mean);
    }
  }

  lemma SquareIsNonNegative(x: real)
    ensures x * x >= 0.0
  {
    if x >= 0.0 { ProductIsNonNegative(x, x); } else { ProductIsNonNegative(-x, -x); }
  }

  lemma ExtremesAreSamples(samples: seq<int>, sorted: seq<int>)
    requires Sorted(sorted) && samples != [] && multiset(sorted) == multiset(samples)
    ensures sorted != [] && sorted[0] in samples && sorted[|sorted| - 1] in samples
    ensures forall x :: x in samples ==> sorted[0] <= x <= sorted[|sorted| - 1]
  {
    assert |sorted| == |multiset(sorted)| == |multiset(samples)| == |samples|;
    assert sorted[0] in multiset(sorted) && sorted[|sorted| - 1] in multiset(sorted);
    forall x | x in samples
      ensures sorted[0] <= x <= sorted[|sorted| - 1]
    {
      var k := IndexIn(x, sorted, samples);
    }
  }

  ghost predicate Extremes(r: Summary, samples: seq<int>)
    requires r.Summary?
  {
    && (forall x :: x in samples ==> r.min <= Micros(x) <= r.max)
    && (exists x :: x in samples && Micros(x) == r.min)
    && (exists x :: x in samples && Micros(x) == r.max)
  }

  ghost predicate IsMean(mean: real, samples: seq<int>)
    requires samples != []
  {
    mean == Average(x => x as real, samples) / 1000.0
  }

  /** The mean square of the deviations from the mean, and so the mean of the squares less the squared mean. */
  ghost predicate IsVariance(variance: real, mean: real, samples: seq<int>)
    requires samples != []
  {
    && variance == Average(SquaredDeviation(mean), samples)
    && variance == Average(x => Micros(x) * Micros(x), samples) - mean * mean
  }

  ghost predicate Moments(r: Summary, samples: seq<int>)
    requires r.Summary? && samples != []
  {
    && IsMean(r.mean, samples) && r.min <= r.mean <= r.max
    && IsVariance(r.variance, r.mean, samples) && r.variance >= 0.0
  }

  ghost predicate Quantiles(r: Summary, samples: seq<int>)
    requires r.Summary?
  {
    && r.median == PercentileOf(samples, 50.0) / 1000.0
    && r.p95 == PercentileOf(samples, 95.0) / 1000.0
    && r.p99 == PercentileOf(samples, 99.0) / 1000.0
    && r.p999 == PercentileOf(samples, 99.9) / 1000.0
    && r.min <= r.median <= r.p95 <= r.p99 <= r.p999 <= r.max
  }

  lemma SummaryHasExtremes(r: Summary, samples: seq<int>, sorted: seq<int>)
    requires samples != [] && sorted == SortedCopy(samples) && r.Summary?
    requires r.min == Micros(sorted[0]) && r.max == Micros(sorted[|sorted| - 1])
    ensures Extremes(r, samples)
  {
    ExtremesAreSamples(samples, sorted);
  }

  lemma SummaryHasMoments(r: Summary, samples: seq<int>, sorted: seq<int>)
    requires samples != [] && sorted == SortedCopy(samples) && r.Summary?
    requires r.min == Micros(sorted[0]) && r.max == Micros(sorted[|sorted| - 1])
    requires r.mean == Average(x => x as real, sorted) / 1000.0
    requires r.variance == Average(SquaredDeviation(r.mean), sorted)
    ensures Moments(r, samples)
  {
    MeanIsBetween(r.min, r.max, r.mean, samples, sorted);
    VarianceFits(r.variance, r.mean, samples, sorted);
  }

  lemma MeanIsBetween(min: real, max: real, mean: real, samples: seq<int>, sorted: seq<int>)
    requires samples != [] && sorted == SortedCopy(samples)
    requires min == Micros(sorted[0]) && max == Micros(sorted[|sorted| - 1])
    requires mean == Average(x => x as real, sorted) / 1000.0
    ensures IsMean(mean, samples) && min <= mean <= max
  {
    AverageIgnoresOrder(x => x as real, samples, sorted);
    MeanIsBounded(sorted);
  }

  lemma VarianceFits(variance: real, mean: real, samples: seq<int>, sorted: seq<int>)
    requires samples != [] && sorted == SortedCopy(samples)
    requires IsMean(mean, samples)
    requires variance == Average(SquaredDeviation(mean), sorted)
    ensures IsVariance(variance, mean, samples) && variance >= 0.0
  {
    AverageIgnoresOrder(SquaredDeviation(mean), samples, sorted);
    VarianceIsExcessOfSquares(samples, mean);
    SquaresAverageNonNegative(mean, sorted);
  }

  lemma AverageIgnoresOrder(f: int -> real, samples: seq<int>, sorted: seq<int>)
    requires samples != [] && sorted == SortedCopy(samples)
    ensures Average(f, samples) == Average(f, sorted)
  {
    TallyIgnoresOrder(f, samples, sorted);
  }

  /** A sum of squared deviations from `m`, multiplied out. */
  predicate Expands(deviations: real, squares: real, total: real, n: real, m: real) {
    deviations == squares - 2.0 * m * (total / 1000.0) + n * (m * m)
  }

  /** Term by term it adds up. */
  lemma {:induction false} TallyExpands(dev: int -> real, sq: int -> real, id: int -> real, s: seq<int>, m: real)
    requires forall x :: Expands(dev(x), sq(x), id(x), 1.0, m)
    ensures Expands(Tally(dev, s), Tally(sq, s), Tally(id, s), |s| as real, m)
  {
    if s != [] {
      var x, rest := s[0], s[1..];
      TallyExpands(dev, sq, id, rest, m);
      ExpandsAdds(dev(x), sq(x), id(x), 1.0, Tally(dev, rest), Tally(sq, rest), Tally(id, rest), |rest| as real, m);
    }
  }

  lemma ExpandsAdds(d: real, q: real, t: real, n: real, d': real, q': real, t': real, n': real, m: real)
    requires Expands(d, q, t, n, m) && Expands(d', q', t', n', m)
    ensures Expands(d + d', q + q', t + t', n + n', m)
  {
    assert (t + t') / 1000.0 == t / 1000.0 + t' / 1000.0;
    assert 2.0 * m * (t / 1000.0 + t' / 1000.0) == 2.0 * m * (t / 1000.0) + 2.0 * m * (t' / 1000.0);
    assert (n + n') * (m * m) == n * (m * m) + n' * (m * m);
  }

  lemma OneSquareExpands(x: int, m: real)
    ensures Expands(SquaredDeviation(m)(x), Micros(x) * Micros(x), x as real, 1.0, m)
  {
    var a := Micros(x);
    assert (a - m) * (a - m) == a * a - 2.0 * m * a + m * m;
  }

  lemma TallyOfSquares(s: seq<int>, m: real)
    ensures Expands(Tally(SquaredDeviation(m), s), Tally(x => Micros(x) * Micros(x), s),
                    Tally(x => x as real, s), |s| as real, m)
  {
    forall x
      ensures Expands(SquaredDeviation(m)(x), (y => Micros(y) * Micros(y))(x), (y => y as real)(x), 1.0, m)
    {
      OneSquareExpands(x, m);
    }
    TallyExpands(SquaredDeviation(m), x => Micros(x) * Micros(x), x => x as real, s, m);
  }

  /** The variance is the mean of the squares less the square of the mean. */
  lemma VarianceIsExcessOfSquares(s: seq<int>, m: real)
    requires s != [] && IsMean(m, s)
    ensures Average(SquaredDeviation(m), s) == Average(x => Micros(x) * Micros(x), s) - m * m
  {
    TallyOfSquares(s, m);
    DivideOut(Tally(SquaredDeviation(m), s), Tally(x => Micros(x) * Micros(x), s),
              Tally(x => x as real, s), |s| as real, m);
  }

  lemma DivideOut(d: real, q: real, t: real, n: real, m: real)
    requires n > 0.0 && m == t / n / 1000.0 && Expands(d, q, t, n, m)
    ensures d / n == q / n - m * m
  {
    assert t / 1000.0 == n * m;
    assert d == q - n * (m * m);
    assert (q / n - m * m) * n == d;
  }

  lemma SummaryHasQuantiles(r: Summary, samples: seq<int>, sorted: seq<int>)
    requires samples != [] && sorted == SortedCopy(samples) && r.Summary?
    requires r.min == Micros(sorted[0]) && r.max == Micros(sorted[|sorted| - 1])
    requires r.median == Percentile(sorted, 50.0) / 1000.0 && r.p95 == Percentile(sorted, 95.0) / 1000.0
    requires r.p99 == Percentile(sorted, 99.0) / 1000.0 && r.p999 == Percentile(sorted, 99.9) / 1000.0
    ensures Quantiles(r, samples)
  {
    PercentilesAreOrdered(sorted);
  }

  class Stats {
    var samples: seq<int>

    constructor ()
      ensures samples == []
    {
      samples := [];
    }

    method RecordNs(nanoseconds: int)
      modifies this
      ensures samples == old(samples) + [nanoseconds]
    {
      samples := samples + [nanoseconds];
    }

    method Reset()
      modifies this
      ensures samples == []
    {
      samples := [];
    }

    /**
     * The statistics of the report: extremes, mean and percentiles in order, each a
     * function of the samples as a multiset.  The deviation is left squared.
     */
    method Report() returns (r: Summary)
      ensures r.NoSamples? <==> samples == []
      ensures samples != [] ==> Extremes(r, samples) && Moments(r, samples) && Quantiles(r, samples)
    {
      if samples == [] {
        return NoSamples;
      }
      var sorted := SortedCopy(samples);
      var n := |sorted|;
      var sum := Accumulate(sorted);
      var min, max := Micros(sorted[0]), Micros(sorted[n - 1]);
      var mean := sum / n as real / 1000.0;
      var median := Percentile(sorted, 50.0) / 1000.0;
      var p95 := Percentile(sorted, 95.0) / 1000.0;
      var p99 := Percentile(sorted, 99.0) / 1000.0;
      var p999 := Percentile(sorted, 99.9) / 1000.0;
      var squares := SumOfSquares(sorted, mean);
      r := Summary(min, max, mean, median, p95, p99, p999, squares / n as real);
      SummaryHasExtremes(r, samples, sorted);
      SummaryHasMoments(r, samples, sorted);
      SummaryHasQuantiles(r, samples, sorted);
    }
  }
}
