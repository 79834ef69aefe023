/** Latency statistics: sorting in place, interpolated percentiles, and what they are invariant under. */
module Stats {
  import opened Prelude

  const NANOSECONDS_PER_MILLISECOND := 1000000.0
  const NANOSECONDS_PER_SECOND := 1000000000.0

  ghost predicate Sorted(s: seq<Time>) {
    forall i, j | 0 <= i <= j < |s| :: s[i] <= s[j]
  }

  function Insert(s: seq<Time>, x: Time): (r: seq<Time>)
    ensures |r| == |s| + 1
  {
    if s == [] || x <= s[0] then [x] + s else [s[0]] + Insert(s[1..], x)
  }

  function Sort(s: seq<Time>): (r: seq<Time>)
    ensures |r| == |s|
  {
    if s == [] then [] else Insert(Sort(s[1..]), s[0])
  }

  lemma {:induction false} InsertElements(s: seq<Time>, x: Time)
    ensures multiset(Insert(s, x)) == multiset(s) + multiset{x}
    ensures forall i | 0 <= i <= |s| :: Insert(s, x)[i] == x || Insert(s, x)[i] in s
  {
    if s == [] || x <= s[0] {
      assert Insert(s, x) == [x] + s;
    } else {
      InsertElements(s[1..], x);
      assert s == [s[0]] + s[1..];
    }
  }

  lemma {:induction false} InsertKeepsSorted(s: seq<Time>, x: Time)
    requires Sorted(s)
    ensures Sorted(Insert(s, x))
  {
    if s != [] && x > s[0] {
      var rest := s[1..];
      InsertKeepsSorted(rest, x);
      InsertElements(rest, x);
      forall i | 0 <= i < |rest| + 1 ensures s[0] <= Insert(rest, x)[i] {
        if Insert(rest, x)[i] != x {
          assert Insert(rest, x)[i] in rest;
        }
      }
    }
  }

  /** Sorting yields a sorted permutation. */
  lemma {:induction false} SortSorts(s: seq<Time>)
    ensures Sorted(Sort(s)) && multiset(Sort(s)) == multiset(s)
  {
    if s != [] {
      SortSorts(s[1..]);
      InsertKeepsSorted(Sort(s[1..]), s[0]);
      InsertElements(Sort(s[1..]), s[0]);
      assert s == [s[0]] + s[1..];
    }
  }

  lemma {:induction false} SortedDeterminedByMultiset(a: seq<Time>, b: seq<Time>)
    requires Sorted(a) && Sorted(b) && multiset(a) == multiset(b)
    ensures a == b
  {
    assert |a| == |multiset(a)| == |multiset(b)| == |b|;
    if a != [] {
      SameFirst(a, b);
      TailMultiset(a);
      TailMultiset(b);
      hide Sorted;
      assert Sorted(a[1..]) && Sorted(b[1..]) by { TailSorted(a); TailSorted(b); }
      SortedDeterminedByMultiset(a[1..], b[1..]);
      assert a == [a[0]] + a[1..] && b == [b[0]] + b[1..];
    }
  }

  lemma TailSorted(s: seq<Time>)
    requires Sorted(s) && s != []
    ensures Sorted(s[1..])
  {
  }

  lemma TailMultiset(s: seq<Time>)
    requires s != []
    ensures multiset(s[1..]) == multiset(s) - multiset{s[0]}
  {
    assert s == [s[0]] + s[1..];
  }

  lemma SameFirst(a: seq<Time>, b: seq<Time>)
    requires Sorted(a) && Sorted(b) && multiset(a) == multiset(b) && a != [] && b != []
    ensures a[0] == b[0]
  {
    assert a[0] in multiset(b) && b[0] in multiset(a);
    assert a[0] in b && b[0] in a;
  }

  /** No other list is a sorted permutation of s, so this is what the library's sort returns. */
  lemma SortIsUnique(s: seq<Time>, r: seq<Time>)
    requires Sorted(r) && multiset(r) == multiset(s)
    ensures r == Sort(s)
  {
    SortSorts(s);
    SortedDeterminedByMultiset(r, Sort(s));
  }

  // ---------- percentiles ----------

  function Times(a: real, b: real): real {
    a * b
  }

  lemma TimesUnits(a: real)
    ensures Times(a, 0.0) == 0.0 && Times(a, 1.0) == a
  {
  }

  lemma Scale(a: real, b: real, c: real)
    requires a >= 0.0 && b <= c
    ensures Times(a, b) <= Times(a, c)
  {
    assert a * (c - b) >= 0.0;
    assert a * (c - b) == a * c - a * b;
  }

  /** `float64(len(values)-1) * quantile`. */
  function Position(n: nat, quantile: real): (p: real)
    requires n > 0 && 0.0 <= quantile <= 1.0
    ensures 0.0 <= p <= (n - 1) as real
  {
    Scale((n - 1) as real, 0.0, quantile);
    Scale((n - 1) as real, quantile, 1.0);
    TimesUnits((n - 1) as real);
    Times((n - 1) as real, quantile)
  }

  /** The value between two neighbours, in proportion. */
  function Blend(low: real, high: real, fraction: real): real {
    low + Times(high - low, fraction)
  }

  lemma BlendBetween(low: real, high: real, fraction: real)
    requires low <= high && 0.0 <= fraction <= 1.0
    ensures low <= Blend(low, high, fraction) <= high
  {
    hide Times;
    Scale(high - low, 0.0, fraction);
    Scale(high - low, fraction, 1.0);
    TimesUnits(high - low);
  }

  lemma BlendGrows(low: real, high: real, f: real, g: real)
    requires low <= high && f <= g
    ensures Blend(low, high, f) <= Blend(low, high, g)
  {
    hide Times;
    Scale(high - low, f, g);
  }

  lemma BlendIsMixture(low: real, high: real, fraction: real)
    ensures Blend(low, high, fraction) == Times(1.0 - fraction, low) + Times(fraction, high)
  {
  }

  lemma BlendDominates(low: real, high: real, low': real, high': real, fraction: real)
    requires low <= low' && high <= high' && 0.0 <= fraction <= 1.0
    ensures Blend(low, high, fraction) <= Blend(low', high', fraction)
  {
    hide Times, Blend;
    BlendIsMixture(low, high, fraction);
    BlendIsMixture(low', high', fraction);
    Scale(1.0 - fraction, low, low');
    Scale(fraction, high, high');
  }

  /** Linear interpolation at a fractional index. */
  function At(values: seq<Time>, position: real): real
    requires values != [] && 0.0 <= position <= (|values| - 1) as real
  {
    var lower := position.Floor;
    var upper := if lower + 1 < |values| - 1 then lower + 1 else |values| - 1;
    Blend(values[lower] as real, values[upper] as real, position - lower as real)
  }

  /** `percentileMilliseconds`, on a sorted list. */
  function Percentile(values: seq<Time>, quantile: real): real
    requires values != [] && 0.0 <= quantile <= 1.0
  {
    At(values, Position(|values|, quantile)) / NANOSECONDS_PER_MILLISECOND
  }

  /** Between two neighbouring ranks the interpolation stays between their values. */
  lemma AtBetween(values: seq<Time>, position: real)
    requires values != [] && Sorted(values) && 0.0 <= position <= (|values| - 1) as real
    ensures var lower := position.Floor;
            && 0 <= lower < |values|
            && values[lower] as real <= At(values, position)
            && (lower + 1 < |values| ==> At(values, position) <= values[lower + 1] as real)
            && (lower + 1 == |values| ==> At(values, position) == values[lower] as real)
  {
    var lower := position.Floor;
    var upper := if lower + 1 < |values| - 1 then lower + 1 else |values| - 1;
    BlendBetween(values[lower] as real, values[upper] as real, position - lower as real);
  }

  lemma AtGrows(values: seq<Time>, p: real, q: real)
    requires values != [] && Sorted(values) && 0.0 <= p <= q <= (|values| - 1) as real
    ensures At(values, p) <= At(values, q)
  {
    if p.Floor == q.Floor {
      var lower := p.Floor;
      var upper := if lower + 1 < |values| - 1 then lower + 1 else |values| - 1;
      BlendGrows(values[lower] as real, values[upper] as real, p - lower as real, q - lower as real);
    } else {
      assert p.Floor + 1 <= q.Floor;
      AtBetween(values, p);
      AtBetween(values, q);
    }
  }

  lemma PositionGrows(n: nat, p: real, q: real)
    requires n > 0 && 0.0 <= p <= q <= 1.0
    ensures Position(n, p) <= Position(n, q)
  {
    Scale((n - 1) as real, p, q);
  }

  lemma MillisecondsGrow(a: real, b: real)
    requires a <= b
    ensures a / NANOSECONDS_PER_MILLISECOND <= b / NANOSECONDS_PER_MILLISECOND
  {
  }

  /** Percentiles of one list grow with the quantile and stay within the list's range. */
  lemma PercentilesAreOrdered(values: seq<Time>, p: real, q: real)
    requires values != [] && Sorted(values) && 0.0 <= p <= q <= 1.0
    ensures values[0] as real / NANOSECONDS_PER_MILLISECOND <= Percentile(values, p)
    ensures Percentile(values, p) <= Percentile(values, q)
    ensures Percentile(values, q) <= values[|values| - 1] as real / NANOSECONDS_PER_MILLISECOND
  {
    var n := |values|;
    PositionGrows(n, p, q);
    var top := (n - 1) as real;
    AtGrows(values, 0.0, Position(n, p));
    AtGrows(values, Position(n, p), Position(n, q));
    AtGrows(values, Position(n, q), top);
    AtBetween(values, 0.0);
    AtBetween(values, top);
    BlendAtZero(values);
    hide At, Position;
    MillisecondsGrow(At(values, 0.0), At(values, Position(n, p)));
    MillisecondsGrow(At(values, Position(n, p)), At(values, Position(n, q)));
    MillisecondsGrow(At(values, Position(n, q)), At(values, top));
  }

  lemma BlendAtZero(values: seq<Time>)
    requires values != []
    ensures At(values, 0.0) == values[0] as real
  {
    TimesUnits(values[if 1 < |values| - 1 then 1 else |values| - 1] as real - values[0] as real);
  }

  lemma PositionIs(n: nat, quantile: real)
    requires n > 0 && 0.0 <= quantile <= 1.0
    ensures Position(n, quantile) == (n - 1) as real * quantile
  {
  }

  /**
   A quantile that falls on a rank is the sample of that rank: if (n - 1) * quantile is a whole number
   k, the percentile is the k-th smallest sample, in milliseconds.
   */
  lemma RankIsExact(values: seq<Time>, quantile: real, k: nat)
    requires values != [] && 0.0 <= quantile <= 1.0
    requires (|values| - 1) as real * quantile == k as real
    ensures k < |values| && Percentile(values, quantile) == values[k] as real / 1000000.0
  {
    PositionIs(|values|, quantile);
    TimesUnits(values[if k + 1 < |values| - 1 then k + 1 else |values| - 1] as real - values[k] as real);
    hide Position, Times;
  }

  lemma TimesRegroups(gap: real, position: real, lower: real)
    ensures lower * gap + Times(gap, position - lower) == gap * position
  {
  }

  /**
   The interpolation is exact on evenly spaced samples: the value at a quantile lies that part of the
   way from the first sample to the last.
   */
  lemma EvenlySpacedIsExact(values: seq<Time>, gap: Time, quantile: real)
    requires values != [] && 0.0 <= quantile <= 1.0
    requires forall i | 0 <= i < |values| :: values[i] == values[0] + i * gap
    ensures Percentile(values, quantile) ==
            (values[0] as real + gap as real * ((|values| - 1) as real * quantile)) / 1000000.0
  {
    var position := Position(|values|, quantile);
    var lower := position.Floor;
    PositionIs(|values|, quantile);
    hide Position;
    TimesRegroups(gap as real, position, lower as real);
    RealProduct(lower, gap);
    assert values[lower] as real == values[0] as real + lower as real * gap as real;
    if lower + 1 < |values| {
      NextStep(lower, gap);
      assert values[lower + 1] == values[lower] + gap;
    } else {
      TimesUnits(0.0);
      TimesUnits(gap as real);
    }
    hide Times;
  }

  lemma RealProduct(k: nat, gap: int)
    ensures (k * gap) as real == k as real * gap as real
  {
  }

  lemma NextStep(k: nat, gap: int)
    ensures (k + 1) * gap == k * gap + gap
  {
  }

  // ---------- dominance ----------

  /** Every element is at most its counterpart. */
  ghost predicate Below(xs: seq<Time>, ys: seq<Time>) {
    |xs| == |ys| && forall i | 0 <= i < |xs| :: xs[i] <= ys[i]
  }

  /** How many elements are at most t. */
  function CountUpTo(s: seq<Time>, t: Time): (c: nat)
    ensures c <= |s|
  {
    if s == [] then 0 else (if s[0] <= t then 1 else 0) + CountUpTo(s[1..], t)
  }

  lemma {:induction false} InsertCounts(s: seq<Time>, x: Time, t: Time)
    ensures CountUpTo(Insert(s, x), t) == CountUpTo(s, t) + if x <= t then 1 else 0
  {
    if s == [] || x <= s[0] {
      assert ([x] + s)[1..] == s;
    } else {
      InsertCounts(s[1..], x, t);
      assert ([s[0]] + Insert(s[1..], x))[1..] == Insert(s[1..], x);
    }
  }

  lemma {:induction false} SortCounts(s: seq<Time>, t: Time)
    ensures CountUpTo(Sort(s), t) == CountUpTo(s, t)
  {
    if s != [] {
      SortCounts(s[1..], t);
      InsertCounts(Sort(s[1..]), s[0], t);
    }
  }

  lemma {:induction false} BelowCountsMore(xs: seq<Time>, ys: seq<Time>, t: Time)
    requires Below(xs, ys)
    ensures CountUpTo(xs, t) >= CountUpTo(ys, t)
  {
    if xs != [] {
      BelowCountsMore(xs[1..], ys[1..], t);
    }
  }

  /** In a sorted list the k-th element is at most t exactly when more than k elements are. */
  lemma {:induction false} RankByCount(s: seq<Time>, k: nat, t: Time)
    requires Sorted(s) && k < |s|
    ensures s[k] <= t <==> CountUpTo(s, t) > k
  {
    if s[0] > t {
      NothingUpTo(s, t);
    } else if k > 0 {
      RankByCount(s[1..], k - 1, t);
    }
  }

  lemma {:induction false} NothingUpTo(s: seq<Time>, t: Time)
    requires forall i | 0 <= i < |s| :: s[i] > t
    ensures CountUpTo(s, t) == 0
  {
    if s != [] {
      NothingUpTo(s[1..], t);
    }
  }

  /** Sorting preserves pointwise dominance. */
  lemma SortKeepsBelow(xs: seq<Time>, ys: seq<Time>)
    requires Below(xs, ys)
    ensures Below(Sort(xs), Sort(ys))
  {
    SortSorts(xs);
    SortSorts(ys);
    hide Sort;
    forall k: nat | k < |xs| ensures Sort(xs)[k] <= Sort(ys)[k] {
      var t := Sort(ys)[k];
      RankByCount(Sort(ys), k, t);
      SortCounts(ys, t);
      BelowCountsMore(xs, ys, t);
      SortCounts(xs, t);
      RankByCount(Sort(xs), k, t);
    }
  }

  lemma AtDominates(xs: seq<Time>, ys: seq<Time>, position: real)
    requires Below(xs, ys) && xs != [] && 0.0 <= position <= (|xs| - 1) as real
    ensures At(xs, position) <= At(ys, position)
  {
    var lower := position.Floor;
    var upper := if lower + 1 < |xs| - 1 then lower + 1 else |xs| - 1;
    BlendDominates(xs[lower] as real, xs[upper] as real, ys[lower] as real, ys[upper] as real, position - lower as real);
  }

  // ---------- the report's statistics ----------

  datatype LatencyStats = LatencyStats(p50: real, p95: real, p99: real)

  const NO_STATS := LatencyStats(0.0, 0.0, 0.0)

  function StatsOfSorted(values: seq<Time>): LatencyStats
    requires values != []
  {
    LatencyStats(Percentile(values, 0.50), Percentile(values, 0.95), Percentile(values, 0.99))
  }

  function StatsOf(values: seq<Time>): LatencyStats {
    if values == [] then NO_STATS else StatsOfSorted(Sort(values))
  }

  /** The statistics depend only on which samples there are, not on their order. */
  lemma StatsIgnoreOrder(xs: seq<Time>, ys: seq<Time>)
    requires multiset(xs) == multiset(ys)
    ensures StatsOf(xs) == StatsOf(ys)
  {
    assert |xs| == |multiset(xs)| == |multiset(ys)| == |ys|;
    SortSorts(ys);
    SortIsUnique(xs, Sort(ys));
  }

  /** min <= P50 <= P95 <= P99 <= max, over the samples in whatever order. */
  lemma StatsAreOrdered(values: seq<Time>, least: Time, greatest: Time)
    requires values != [] && forall i | 0 <= i < |values| :: least <= values[i] <= greatest
    ensures var s := StatsOf(values);
            && least as real / NANOSECONDS_PER_MILLISECOND <= s.p50 <= s.p95 <= s.p99
            && s.p99 <= greatest as real / NANOSECONDS_PER_MILLISECOND
  {
    var sorted := Sort(values);
    SortSorts(values);
    PercentilesAreOrdered(sorted, 0.50, 0.95);
    PercentilesAreOrdered(sorted, 0.95, 0.99);
    assert sorted[0] in multiset(values) && sorted[|sorted| - 1] in multiset(values);
    MillisecondsGrow(least as real, sorted[0] as real);
    MillisecondsGrow(sorted[|sorted| - 1] as real, greatest as real);
    hide Percentile, Sort;
  }

  /** The middle sample of an odd number is the median. */
  lemma MedianIsMiddle(values: seq<Time>, k: nat)
    requires |values| == 2 * k + 1
    ensures StatsOf(values).p50 == Sort(values)[k] as real / 1000000.0
  {
    hide Percentile, Sort;
    var sorted := Sort(values);
    assert StatsOf(values).p50 == Percentile(sorted, 0.50);
    RankOf(k);
    RankIsExact(sorted, 0.50, k);
  }

  lemma RankOf(k: nat)
    ensures (2 * k) as real * 0.50 == k as real
  {
  }

  /** Which quantiles are reported: of 100 k + 1 samples, those of rank 50 k, 95 k and 99 k. */
  lemma StatsAreRanks(values: seq<Time>, k: nat)
    requires |values| == 100 * k + 1
    ensures StatsOf(values) ==
            LatencyStats(Sort(values)[50 * k] as real / 1000000.0, Sort(values)[95 * k] as real / 1000000.0,
                         Sort(values)[99 * k] as real / 1000000.0)
  {
    hide Percentile, Sort;
    var sorted := Sort(values);
    assert StatsOf(values) == LatencyStats(Percentile(sorted, 0.50), Percentile(sorted, 0.95), Percentile(sorted, 0.99));
    hide *;
    RankInHundreds(sorted, k, 50, 0.50);
    RankInHundreds(sorted, k, 95, 0.95);
    RankInHundreds(sorted, k, 99, 0.99);
  }

  lemma RankInHundreds(values: seq<Time>, k: nat, percent: nat, quantile: real)
    requires |values| == 100 * k + 1 && percent <= 100 && percent as real == 100.0 * quantile
    ensures percent * k < |values| && Percentile(values, quantile) == values[percent * k] as real / 1000000.0
  {
    hide Percentile;
    HundredTimes(k, percent, quantile);
    RankIsExact(values, quantile, percent * k);
  }

  lemma HundredTimes(k: nat, percent: nat, quantile: real)
    requires percent as real == 100.0 * quantile
    ensures (100 * k) as real * quantile == (percent * k) as real
  {
    RealProduct(k, percent);
    assert (100 * k) as real * quantile == k as real * (100.0 * quantile);
  }

  /**
   If the samples of one run can be matched one to one with samples of another that are no
   smaller, then each of the first run's statistics is no larger.
   */
  lemma StatsAreMonotone(xs: seq<Time>, matched: seq<Time>, ys: seq<Time>)
    requires Below(xs, matched) && multiset(matched) == multiset(ys)
    ensures StatsOf(xs).p50 <= StatsOf(ys).p50
    ensures StatsOf(xs).p95 <= StatsOf(ys).p95
    ensures StatsOf(xs).p99 <= StatsOf(ys).p99
  {
    StatsIgnoreOrder(matched, ys);
    if xs != [] {
      var a, b := Sort(xs), Sort(matched);
      SortKeepsBelow(xs, matched);
      hide Sort;
      PercentileDominates(a, b, 0.50);
      PercentileDominates(a, b, 0.95);
      PercentileDominates(a, b, 0.99);
    }
  }

  lemma PercentileDominates(xs: seq<Time>, ys: seq<Time>, quantile: real)
    requires Below(xs, ys) && xs != [] && 0.0 <= quantile <= 1.0
    ensures Percentile(xs, quantile) <= Percentile(ys, quantile)
  {
    AtDominates(xs, ys, Position(|xs|, quantile));
    hide At, Position;
    MillisecondsGrow(At(xs, Position(|xs|, quantile)), At(ys, Position(|xs|, quantile)));
  }

  /** The library's in-place sort. */
  method SortInPlace(values: array<Time>)
    modifies values
    ensures values[..] == Sort(old(values[..]))
  {
    var sorted := Sort(values[..]);
    for i := 0 to values.Length
      invariant values[..i] == sorted[..i]
    {
      values[i] := sorted[i];
    }
  }

  /** `latencyStats` sorts the slice it is given and reads the percentiles off it. */
  method ComputeLatencyStats(values: array<Time>) returns (result: LatencyStats)
    modifies values
    ensures result == StatsOf(old(values[..])) && values[..] == Sort(old(values[..]))
    ensures values.Length == 0 ==> result == LatencyStats(0.0, 0.0, 0.0)
  {
    if values.Length == 0 {
      return NO_STATS;
    }
    SortInPlace(values);
    var sorted := values[..];
    result := LatencyStats(Percentile(sorted, 0.50), Percentile(sorted, 0.95), Percentile(sorted, 0.99));
  }

  datatype Sample = Sample(ttft: Time, e2e: Time, completionTokens: int)

  datatype Summary = Summary(
    requests: nat, outputTokens: int, wallSeconds: real, requestsPerSecond: real, outputTokensPerSecond: real,
    ttft: LatencyStats, tpot: LatencyStats, e2e: LatencyStats)

  function Tokens(samples: seq<Sample>): int {
    if samples == [] then 0 else Tokens(samples[..|samples| - 1]) + samples[|samples| - 1].completionTokens
  }

  /** A sample has a time per output token only with a second token and time after the first. */
  predicate HasTokenTime(s: Sample) {
    s.completionTokens > 1 && s.e2e > s.ttft
  }

  function TokenTime(s: Sample): Time
    requires HasTokenTime(s)
  {
    (s.e2e - s.ttft) / (s.completionTokens - 1)
  }

  function TokenTimes(samples: seq<Sample>): seq<Time> {
    if samples == [] then []
    else
      var last := samples[|samples| - 1];
      TokenTimes(samples[..|samples| - 1]) + if HasTokenTime(last) then [TokenTime(last)] else []
  }

  /** Every sample contributes its own tokens, and its own token time if it has one: groups add up, in order. */
  lemma {:induction false} SamplesAdd(a: seq<Sample>, b: seq<Sample>)
    ensures Tokens(a + b) == Tokens(a) + Tokens(b)
    ensures TokenTimes(a + b) == TokenTimes(a) + TokenTimes(b)
  {
    if b == [] {
      assert a + b == a;
    } else {
      var init := b[..|b| - 1];
      SamplesAdd(a, init);
      assert (a + b)[..|a + b| - 1] == a + init;
    }
  }

  /**
   One sample: its tokens, and, with at least a second token and time after the first, the whole part
   of the time per token after the first.
   */
  lemma OneSample(s: Sample)
    ensures Tokens([s]) == s.completionTokens
    ensures if s.completionTokens > 1 && s.e2e > s.ttft
            then |TokenTimes([s])| == 1 &&
                 TokenTimes([s])[0] * (s.completionTokens - 1) <= s.e2e - s.ttft
                 < (TokenTimes([s])[0] + 1) * (s.completionTokens - 1)
            else TokenTimes([s]) == []
  {
    assert [s][..0] == [];
    if HasTokenTime(s) {
      WholePart(s.e2e - s.ttft, s.completionTokens - 1);
    }
  }

  lemma WholePart(a: int, b: int)
    requires b > 0
    ensures (a / b) * b <= a < (a / b + 1) * b
  {
    assert a == (a / b) * b + a % b;
  }

  function FirstTokenTimes(samples: seq<Sample>): seq<Time> {
    seq(|samples|, i requires 0 <= i < |samples| => samples[i].ttft)
  }

  function TotalTimes(samples: seq<Sample>): seq<Time> {
    seq(|samples|, i requires 0 <= i < |samples| => samples[i].e2e)
  }

  function Seconds(d: Time): real {
    d as real / NANOSECONDS_PER_SECOND
  }

  function Rate(count: int, wall: Time): real
    requires wall > 0
  {
    count as real / Seconds(wall)
  }

  lemma SecondsIs(d: Time)
    ensures Seconds(d) == d as real / 1000000000.0
  {
  }

  lemma RateIs(count: int, wall: Time)
    requires wall > 0
    ensures Rate(count, wall) == count as real / (wall as real / 1000000000.0)
  {
  }

  /**
   `Summarize`: every sample counts once, rates are counts over the wall time (zero without samples
   or time), and each group of percentiles is taken over exactly the samples that have that latency.
   */
  method Summarize(samples: seq<Sample>, wall: Time) returns (summary: Summary)
    ensures summary.requests == |samples| && summary.wallSeconds == wall as real / 1000000000.0
    ensures summary.outputTokens == Tokens(samples)
    ensures samples != [] && wall > 0 ==>
              && summary.requestsPerSecond == |samples| as real / (wall as real / 1000000000.0)
              && summary.outputTokensPerSecond == Tokens(samples) as real / (wall as real / 1000000000.0)
    ensures samples == [] || wall <= 0 ==> summary.requestsPerSecond == 0.0 == summary.outputTokensPerSecond
    ensures summary.ttft == StatsOf(FirstTokenTimes(samples))
    ensures summary.tpot == StatsOf(TokenTimes(samples))
    ensures summary.e2e == StatsOf(TotalTimes(samples))
  {
    summary := Summary(|samples|, 0, Seconds(wall), 0.0, 0.0, NO_STATS, NO_STATS, NO_STATS);
    SecondsIs(wall);
    if |samples| == 0 {
      return;
    }
    var tokens, ttft, tpot, e2e := Collect(samples);
    hide Tokens, FirstTokenTimes, TotalTimes, TokenTimes, StatsOf, Rate, Seconds;
    var perSecond, tokensPerSecond := 0.0, 0.0;
    if wall > 0 {
      RateIs(|samples|, wall);
      RateIs(tokens, wall);
      perSecond := Rate(|samples|, wall);
      tokensPerSecond := Rate(tokens, wall);
    }
    var ttftStats := StatsOfSlice(ttft);
    var tpotStats := StatsOfSlice(tpot);
    var e2eStats := StatsOfSlice(e2e);
    summary := Summary(|samples|, tokens, Seconds(wall), perSecond, tokensPerSecond, ttftStats, tpotStats, e2eStats);
  }

  /** The loop over the samples. */
  method Collect(samples: seq<Sample>) returns (tokens: int, ttft: seq<Time>, tpot: seq<Time>, e2e: seq<Time>)
    ensures tokens == Tokens(samples)
    ensures ttft == FirstTokenTimes(samples) && tpot == TokenTimes(samples) && e2e == TotalTimes(samples)
  {
    tokens, ttft, tpot, e2e := 0, [], [], [];
    assert samples[..0] == [];
    for i := 0 to |samples|
      invariant tokens == Tokens(samples[..i]) && tpot == TokenTimes(samples[..i])
      invariant |ttft| == |e2e| == i
      invariant forall k | 0 <= k < i :: ttft[k] == samples[k].ttft && e2e[k] == samples[k].e2e
    {
      var sample := samples[i];
      assert samples[..i + 1][..i] == samples[..i];
      tokens := tokens + sample.completionTokens;
      ttft := ttft + [sample.ttft];
      e2e := e2e + [sample.e2e];
      if sample.completionTokens > 1 && sample.e2e > sample.ttft {
        tpot := tpot + [(sample.e2e - sample.ttft) / (sample.completionTokens - 1)];
      }
    }
    assert samples[..|samples|] == samples;
  }

  /** Hand a freshly collected slice to `latencyStats`. */
  method StatsOfSlice(values: seq<Time>) returns (result: LatencyStats)
    ensures result == StatsOf(values)
  {
    var slice := new Time[|values|](i requires 0 <= i < |values| => values[i]);
    assert slice[..] == values;
    result := ComputeLatencyStats(slice);
  }
}
