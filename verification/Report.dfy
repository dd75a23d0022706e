/** The figures of a report: interpolated percentiles, latency bands, throughput bands, and the round-trip summary of
    the continuity probe. */
module Report {
  import opened Basics
  import opened Sorting
  import opened Sums

  /** A figure, or the panic of an index past the end of the slice. */
  datatype Outcome = Figure(value: real) | OutOfRange

  function Self(x: real): real { x }

  function Sorted(values: seq<real>): (r: seq<real>)
    ensures |r| == |values|
  {
    Sort(values, Self)
  }

  ghost predicate Ascending(s: seq<real>) {
    forall i, j :: 0 <= i <= j < |s| ==> s[i] <= s[j]
  }

  lemma SortedIsAscending(values: seq<real>)
    ensures Ascending(Sorted(values)) && multiset(Sorted(values)) == multiset(values)
  {
    SortSorts(values, Self);
    var s := Sorted(values);
    forall i, j | 0 <= i <= j < |s| ensures s[i] <= s[j] {
      assert Self(s[i]) <= Self(s[j]);
    }
  }

  // ------------------------------------------------------------------ percentile

  function Ceil(x: real): int { if x == x.Floor as real then x.Floor else x.Floor + 1 }

  /** `as usize` of a negative number is 0. */
  function AsUsize(i: int): nat { if i < 0 then 0 else i }

  function Rank(n: nat, p: real): real
    requires n > 0
  {
    (p / 100.0) * (n - 1) as real
  }

  function Percentile(s: seq<real>, p: real): Outcome {
    if s == [] then Figure(0.0)
    else
      var index := Rank(|s|, p);
      var lower, upper := AsUsize(index.Floor), AsUsize(Ceil(index));
      if lower >= |s| || upper >= |s| then OutOfRange
      else if lower == upper then Figure(s[lower])
      else
        var weight := index - lower as real;
        Figure(s[lower] * (1.0 - weight) + s[upper] * weight)
  }

  lemma RankOrdered(n: nat, p: real, q: real)
    requires n > 0
    ensures p <= q ==> Rank(n, p) <= Rank(n, q)
    ensures n > 1 && p < q ==> Rank(n, p) < Rank(n, q)
  {
    if n > 1 {
      Scaled(p / 100.0, q / 100.0, (n - 1) as real);
      Scaled(q / 100.0, p / 100.0, (n - 1) as real);
    }
  }

  lemma RankEnds(n: nat)
    requires n > 0
    ensures Rank(n, 0.0) == 0.0 && Rank(n, 100.0) == (n - 1) as real
  {
  }

  /** Both indices are in range exactly when the percentile is at most 100, or there is one value only. */
  lemma PercentileInRangeIff(s: seq<real>, p: real)
    ensures Percentile(s, p).OutOfRange? <==> |s| > 1 && p > 100.0
  {
    if s != [] {
      hide Rank;
      RankEnds(|s|);
      RankOrdered(|s|, p, 100.0);
      RankOrdered(|s|, 100.0, p);
      RankOrdered(|s|, 0.0, p);
      RankOrdered(|s|, p, 0.0);
    }
  }

  function Share(d: real, w: real): real { d * w }

  lemma Shares(d: real, w: real)
    requires d >= 0.0 && 0.0 <= w <= 1.0
    ensures 0.0 <= Share(d, w) <= d
  {
    assert d - d * w == d * (1.0 - w);
  }

  lemma SharesOrdered(d: real, v: real, w: real)
    requires d >= 0.0 && v <= w
    ensures Share(d, v) <= Share(d, w)
  {
    assert d * w - d * v == d * (w - v);
  }

  function Lerp(a: real, b: real, w: real): real { a + Share(b - a, w) }

  lemma LerpBetween(a: real, b: real, w: real)
    requires a <= b && 0.0 <= w <= 1.0
    ensures a <= Lerp(a, b, w) <= b
  {
    hide Share;
    Shares(b - a, w);
  }

  lemma LerpOrdered(a: real, b: real, v: real, w: real)
    requires a <= b && v <= w
    ensures Lerp(a, b, v) <= Lerp(a, b, w)
  {
    hide Share;
    SharesOrdered(b - a, v, w);
  }

  /** The point at a position of the broken line through the values. */
  function Interp(s: seq<real>, x: real): real
    requires s != [] && 0.0 <= x <= (|s| - 1) as real
  {
    var l := x.Floor;
    if l as real == x then s[l] else Lerp(s[l], s[l + 1], x - l as real)
  }

  function Position(n: nat, p: real): (x: real)
    requires n > 0 && p <= 100.0
    ensures 0.0 <= x <= (n - 1) as real
  {
    RankOrdered(n, p, 100.0);
    RankEnds(n);
    var index := Rank(n, p);
    if index < 0.0 then 0.0 else index
  }

  lemma Weighted(a: real, b: real, w: real)
    ensures a * (1.0 - w) + b * w == Lerp(a, b, w)
  {
  }

  lemma PercentileIsInterp(s: seq<real>, p: real)
    requires s != [] && p <= 100.0
    ensures Percentile(s, p) == Figure(Interp(s, Position(|s|, p)))
  {
    PercentileInRangeIff(s, p);
    hide Rank;
    var index := Rank(|s|, p);
    if index >= 0.0 && index.Floor as real != index {
      var l := index.Floor;
      Weighted(s[l], s[l + 1], index - l as real);
    }
  }

  /** An interpolated value lies between its neighbours. */
  lemma Neighbours(s: seq<real>, x: real)
    requires s != [] && Ascending(s) && 0.0 <= x <= (|s| - 1) as real
    ensures s[x.Floor] <= Interp(s, x) <= s[Ceil(x)]
  {
    hide Lerp;
    var l := x.Floor;
    if l as real != x {
      LerpBetween(s[l], s[l + 1], x - l as real);
    }
  }

  lemma InterpOrdered(s: seq<real>, x: real, y: real)
    requires s != [] && Ascending(s) && 0.0 <= x <= y <= (|s| - 1) as real
    ensures Interp(s, x) <= Interp(s, y)
  {
    hide Lerp;
    Neighbours(s, x);
    Neighbours(s, y);
    if x.Floor == y.Floor && x.Floor as real != x {
      var l := x.Floor;
      LerpOrdered(s[l], s[l + 1], x - l as real, y - l as real);
    }
  }

  /** Percentiles of sorted values are ordered, and lie between the least and the greatest, which are the 0th and the 100th. */
  lemma PercentilesOrdered(s: seq<real>, p: real, q: real)
    requires s != [] && Ascending(s) && p <= q <= 100.0
    ensures Percentile(s, p).Figure? && Percentile(s, q).Figure?
    ensures s[0] <= Percentile(s, p).value <= Percentile(s, q).value <= s[|s| - 1]
    ensures Percentile(s, 0.0) == Figure(s[0]) && Percentile(s, 100.0) == Figure(s[|s| - 1])
  {
    var n := |s|;
    PercentileIsInterp(s, p);
    PercentileIsInterp(s, q);
    PercentileIsInterp(s, 0.0);
    PercentileIsInterp(s, 100.0);
    RankEnds(n);
    RankOrdered(n, p, q);
    InterpOrdered(s, 0.0, Position(n, p));
    InterpOrdered(s, Position(n, p), Position(n, q));
    InterpOrdered(s, Position(n, q), (n - 1) as real);
  }

  // ------------------------------------------------------------------ what share of the values a percentile bounds

  function Count<T>(s: seq<T>, ok: T -> bool): nat {
    if s == [] then 0 else Count(s[..|s| - 1], ok) + if ok(s[|s| - 1]) then 1 else 0
  }

  function AtMost(v: real): real -> bool { x => x <= v }
  function AtLeast(v: real): real -> bool { x => x >= v }

  lemma {:induction false} CountInsert<T>(s: seq<T>, x: T, key: T -> real, ok: T -> bool)
    ensures Count(Insert(s, x, key), ok) == Count(s, ok) + if ok(x) then 1 else 0
  {
    var n := |s|;
    if n == 0 || key(s[n - 1]) <= key(x) {
      assert (s + [x])[..n] == s;
    } else {
      CountInsert(s[..n - 1], x, key, ok);
      var r := Insert(s[..n - 1], x, key);
      assert (r + [s[n - 1]])[..n] == r;
    }
  }

  lemma {:induction false} CountSort<T>(s: seq<T>, key: T -> real, ok: T -> bool)
    ensures Count(Sort(s, key), ok) == Count(s, ok)
  {
    if s != [] {
      CountSort(s[..|s| - 1], key, ok);
      CountInsert(Sort(s[..|s| - 1], key), s[|s| - 1], key, ok);
    }
  }

  lemma {:induction false} CountFrom<T>(s: seq<T>, lo: nat, hi: nat, ok: T -> bool)
    requires lo <= hi <= |s| && forall i :: lo <= i < hi ==> ok(s[i])
    ensures Count(s, ok) >= hi - lo
  {
    if s != [] && lo < hi {
      var n := |s| - 1;
      if hi == |s| {
        CountFrom(s[..n], lo, hi - 1, ok);
      } else {
        CountFrom(s[..n], lo, hi, ok);
      }
    }
  }

  lemma SharesAt(s: seq<real>, x: real)
    requires s != [] && Ascending(s) && 0.0 <= x <= (|s| - 1) as real
    ensures Count(s, AtMost(Interp(s, x))) >= x.Floor + 1
    ensures Count(s, AtLeast(Interp(s, x))) >= |s| - Ceil(x)
  {
    Neighbours(s, x);
    hide Interp;
    CountFrom(s, 0, x.Floor + 1, AtMost(Interp(s, x)));
    CountFrom(s, Ceil(x), |s|, AtLeast(Interp(s, x)));
  }

  /** Of the values, however ordered, more than the share `p / 100` of all but one are at most the percentile,
      and more than the other share are at least it. */
  lemma PercentileShares(values: seq<real>, p: real)
    requires values != [] && 0.0 <= p <= 100.0
    ensures Percentile(Sorted(values), p).Figure?
    ensures var v := Percentile(Sorted(values), p).value;
            && Count(values, AtMost(v)) as real > Rank(|values|, p)
            && Count(values, AtLeast(v)) as real > (|values| - 1) as real - Rank(|values|, p)
  {
    var s, n := Sorted(values), |values|;
    SortedIsAscending(values);
    PercentileIsInterp(s, p);
    RankOrdered(n, 0.0, p);
    RankEnds(n);
    hide Rank, Interp, Percentile, Ascending, Count, AtMost, AtLeast;
    var x := Position(n, p);
    var v := Interp(s, x);
    SharesAt(s, x);
    CountSort(values, Self, AtMost(v));
    CountSort(values, Self, AtLeast(v));
  }

  // ------------------------------------------------------------------ latency bands

  datatype LatencyBand = LatencyBand(avg: real, p50: Outcome, p95: Outcome, p99: Outcome, max: real, min: real)

  function Sum(values: seq<real>): real {
    if values == [] then 0.0 else Sum(values[..|values| - 1]) + values[|values| - 1]
  }

  function LatencyBandStats(values: seq<real>): LatencyBand {
    if values == [] then LatencyBand(0.0, Figure(0.0), Figure(0.0), Figure(0.0), 0.0, 0.0)
    else
      var s := Sorted(values);
      LatencyBand(Sum(values) / |values| as real, Percentile(s, 50.0), Percentile(s, 95.0), Percentile(s, 99.0), s[|s| - 1], s[0])
  }

  lemma {:induction false} SumBounds(values: seq<real>, lo: real, hi: real)
    requires forall i :: 0 <= i < |values| ==> lo <= values[i] <= hi
    ensures Share(lo, |values| as real) <= Sum(values) <= Share(hi, |values| as real)
  {
    if values != [] {
      var n := |values| - 1;
      SumBounds(values[..n], lo, hi);
      assert |values| as real == n as real + 1.0;
      assert lo * (n as real + 1.0) == lo * n as real + lo;
      assert hi * (n as real + 1.0) == hi * n as real + hi;
    }
  }

  lemma MeanWithin(sum: real, n: nat, lo: real, hi: real)
    requires n > 0 && Share(lo, n as real) <= sum <= Share(hi, n as real)
    ensures lo <= sum / n as real <= hi
  {
    var k := n as real;
    var mean := sum / k;
    assert mean * k == sum;
    Scaled(lo, mean, k);
    Scaled(mean, hi, k);
  }

  /** The first and the last of the sorted values are values, and bound them all. */
  lemma SortedEnds(values: seq<real>)
    requires values != []
    ensures var s := Sorted(values);
            && s[0] in values && s[|s| - 1] in values
            && forall i | 0 <= i < |values| :: s[0] <= values[i] <= s[|s| - 1]
  {
    var s := Sorted(values);
    SortedIsAscending(values);
    hide Sorted;
    assert s[0] in multiset(s) && s[|s| - 1] in multiset(s);
    forall i | 0 <= i < |values| ensures s[0] <= values[i] <= s[|s| - 1] {
      assert values[i] in multiset(values);
      assert values[i] in s;
    }
  }

  /** A band of any values: no panic, the figures in order, the ends attained, and every value and the mean between them. */
  lemma BandInOrder(values: seq<real>)
    requires values != []
    ensures var b := LatencyBandStats(values);
            && b.p50.Figure? && b.p95.Figure? && b.p99.Figure?
            && b.min <= b.p50.value <= b.p95.value <= b.p99.value <= b.max
            && b.min in values && b.max in values && (forall i | 0 <= i < |values| :: b.min <= values[i] <= b.max)
            && b.min <= b.avg <= b.max
  {
    var s := Sorted(values);
    SortedIsAscending(values);
    SortedEnds(values);
    hide Sorted, Percentile, Ascending, Share, Sum;
    PercentilesOrdered(s, 50.0, 95.0);
    PercentilesOrdered(s, 95.0, 99.0);
    SumBounds(values, s[0], s[|s| - 1]);
    MeanWithin(Sum(values), |values|, s[0], s[|s| - 1]);
  }

  lemma {:induction false} SumAppend(a: seq<real>, b: seq<real>)
    ensures Sum(a + b) == Sum(a) + Sum(b)
  {
    if b == [] {
      assert a + b == a;
    } else {
      var n := |b| - 1;
      SumAppend(a, b[..n]);
      assert (a + b)[..|a| + n] == a + b[..n];
    }
  }

  lemma SumOfOne(x: real)
    ensures Sum([x]) == x
  {
    assert [x][..0] == [];
  }

  /** The broken line through the values, set out at 0, 1, 2 and so on, is at height `v` above `x`. */
  ghost predicate OnLine(s: seq<real>, x: real, v: real) {
    && s != [] && 0.0 <= x <= (|s| - 1) as real && (|s| == 1 ==> v == s[0])
    && forall l | 0 <= l < |s| - 1 && l as real <= x <= (l + 1) as real :: v == Lerp(s[l], s[l + 1], x - l as real)
  }

  lemma LineEnds(a: real, b: real)
    ensures Lerp(a, b, 0.0) == a && Lerp(a, b, 1.0) == b
  {
  }

  lemma InterpIsOnLine(s: seq<real>, x: real)
    requires s != [] && 0.0 <= x <= (|s| - 1) as real
    ensures OnLine(s, x, Interp(s, x))
  {
    hide Lerp;
    forall l | 0 <= l < |s| - 1 && l as real <= x <= (l + 1) as real ensures Interp(s, x) == Lerp(s[l], s[l + 1], x - l as real) {
      LineEnds(s[l], s[l + 1]);
    }
  }

  /** One height only. */
  lemma LineIsFunction(s: seq<real>, x: real, v: real)
    requires OnLine(s, x, v)
    ensures v == Interp(s, x)
  {
    hide Lerp;
    InterpIsOnLine(s, x);
    var l := x.Floor;
    if |s| > 1 && l == |s| - 1 {
      LineEnds(s[l - 1], s[l]);
    } else if |s| > 1 {
      LineEnds(s[l], s[l + 1]);
    }
  }

  /** A percentile: the height, above `x`, of the line through the sorted values, with more than `x` of the values at or below it,
      and more than what is left of all but one at or above it. */
  ghost predicate PercentileAt(values: seq<real>, x: real, v: real) {
    && OnLine(Sorted(values), x, v)
    && Count(values, AtMost(v)) as real > x
    && Count(values, AtLeast(v)) as real > (|values| - 1) as real - x
  }

  lemma PositionIsRank(n: nat, p: real)
    requires n > 0 && 0.0 <= p <= 100.0
    ensures Rank(n, p) == Position(n, p)
  {
    RankOrdered(n, 0.0, p);
    RankEnds(n);
  }

  lemma PercentileIsAt(values: seq<real>, p: real)
    requires values != [] && 0.0 <= p <= 100.0
    ensures Percentile(Sorted(values), p).Figure?
    ensures PercentileAt(values, Rank(|values|, p), Percentile(Sorted(values), p).value)
  {
    hide Sorted, Percentile, Interp, Count, OnLine, Rank, Position;
    PercentileShares(values, p);
    PercentileIsInterp(Sorted(values), p);
    PositionIsRank(|values|, p);
    InterpIsOnLine(Sorted(values), Position(|values|, p));
  }

  lemma RanksTaken(n: nat)
    requires n > 0
    ensures Rank(n, 50.0) == 0.50 * (n - 1) as real && Rank(n, 95.0) == 0.95 * (n - 1) as real
    ensures Rank(n, 99.0) == 0.99 * (n - 1) as real
  {
  }

  /** Which figures those of a band are: the mean, that is the sum over the number of values, and three percentiles. */
  lemma BandFigures(values: seq<real>)
    ensures var b, end := LatencyBandStats(values), (|values| - 1) as real;
            if values == [] then b == LatencyBand(0.0, Figure(0.0), Figure(0.0), Figure(0.0), 0.0, 0.0)
            else
              && b.avg * |values| as real == Sum(values)
              && b.p50.Figure? && PercentileAt(values, 0.50 * end, b.p50.value)
              && b.p95.Figure? && PercentileAt(values, 0.95 * end, b.p95.value)
              && b.p99.Figure? && PercentileAt(values, 0.99 * end, b.p99.value)
  {
    if values != [] {
      hide Sorted, Percentile, Sum, PercentileAt, Rank, LatencyBandStats;
      BandMean(values);
      RanksTaken(|values|);
      PercentileIsAt(values, 50.0);
      PercentileIsAt(values, 95.0);
      PercentileIsAt(values, 99.0);
      BandPercentiles(values);
    }
  }

  lemma BandMean(values: seq<real>)
    requires values != []
    ensures LatencyBandStats(values).avg * |values| as real == Sum(values)
  {
    hide Sorted, Percentile, Sum;
  }

  lemma BandPercentiles(values: seq<real>)
    requires values != []
    ensures var b, s := LatencyBandStats(values), Sorted(values);
            b.p50 == Percentile(s, 50.0) && b.p95 == Percentile(s, 95.0) && b.p99 == Percentile(s, 99.0)
  {
    hide Sorted, Percentile, Sum;
  }

  // ------------------------------------------------------------------ throughput bands

  datatype ThroughputBand = ThroughputBand(avg: nat, peak: nat, min: nat, total: nat)

  function Peak(values: seq<nat>): nat
    requires values != []
  {
    var last := values[|values| - 1];
    if |values| == 1 then last
    else var rest := Peak(values[..|values| - 1]); if rest > last then rest else last
  }

  function Least(values: seq<nat>): nat
    requires values != []
  {
    var last := values[|values| - 1];
    if |values| == 1 then last
    else var rest := Least(values[..|values| - 1]); if rest <= last then rest else last
  }

  function ThroughputBandStats(values: seq<nat>): ThroughputBand {
    if values == [] then ThroughputBand(0, 0, 0, 0)
    else ThroughputBand(Total(values) / |values|, Peak(values), Least(values), Total(values))
  }

  lemma {:induction false} PeakAndLeast(values: seq<nat>)
    requires values != []
    ensures Least(values) in values && Peak(values) in values
    ensures forall i | 0 <= i < |values| :: Least(values) <= values[i] <= Peak(values)
  {
    var n := |values| - 1;
    if n > 0 {
      PeakAndLeast(values[..n]);
    }
  }

  lemma {:induction false} TotalBounds(values: seq<nat>, lo: nat, hi: nat)
    requires forall i | 0 <= i < |values| :: lo <= values[i] <= hi
    ensures |values| * lo <= Total(values) <= |values| * hi
  {
    if values != [] {
      var n := |values| - 1;
      TotalBounds(values[1..], lo, hi);
      assert (n + 1) * lo == n * lo + lo;
      assert (n + 1) * hi == n * hi + hi;
    }
  }

  lemma Stretch(n: nat, a: nat, b: nat)
    requires a <= b
    ensures n * a <= n * b
  {
    assert n * b - n * a == n * (b - a);
  }

  lemma ThroughputInOrder(values: seq<nat>)
    requires values != []
    ensures var b := ThroughputBandStats(values);
            && b.min <= b.avg <= b.peak && b.min in values && b.peak in values
            && (forall i | 0 <= i < |values| :: b.min <= values[i] <= b.peak)
            && b.total == Total(values) && b.avg * |values| <= b.total < (b.avg + 1) * |values|
  {
    PeakAndLeast(values);
    TotalBounds(values, Least(values), Peak(values));
    MeanOf(Total(values), |values|, Least(values), Peak(values));
  }

  lemma MeanOf(total: nat, n: nat, lo: nat, hi: nat)
    requires n > 0 && n * lo <= total <= n * hi
    ensures lo <= total / n <= hi && (total / n) * n <= total < (total / n + 1) * n
  {
    var q := total / n;
    assert total == q * n + total % n;
    assert (q + 1) * n == q * n + n;
    assert n * (q + 1) == q * n + n;
    assert n * (hi + 1) == n * hi + n;
    if q < lo {
      Stretch(n, q + 1, lo);
    }
    if q > hi {
      Stretch(n, hi + 1, q);
    }
  }

  // ------------------------------------------------------------------ the probe's round-trip times

  datatype RttSummary = RttSummary(samples: nat, p50: real, p95: real, p99: real, max: real)

  /** `((n - 1) * q).round()`: the nearest index, halves going up. */
  function PickIndex(n: nat, q: real): (i: nat)
    requires n > 0 && 0.0 <= q <= 1.0
    ensures i < n && i as real - 0.5 <= Share((n - 1) as real, q) < i as real + 0.5
  {
    Shares((n - 1) as real, q);
    (Share((n - 1) as real, q) + 0.5).Floor
  }

  lemma PickOrdered(n: nat, p: real, q: real)
    requires n > 0 && 0.0 <= p <= q <= 1.0
    ensures PickIndex(n, p) <= PickIndex(n, q)
  {
    hide Share;
    SharesOrdered((n - 1) as real, p, q);
  }

  function RttOf(sorted: seq<real>): RttSummary {
    var n := |sorted|;
    if n == 0 then RttSummary(0, 0.0, 0.0, 0.0, 0.0)
    else RttSummary(n, sorted[PickIndex(n, 0.5)] / 1000.0, sorted[PickIndex(n, 0.95)] / 1000.0,
                    sorted[PickIndex(n, 0.99)] / 1000.0, sorted[n - 1] / 1000.0)
  }

  /** The figures are in order, and none of the samples is above the last. */
  lemma RttInOrder(samples: seq<real>)
    requires samples != []
    ensures var r := RttOf(Sorted(samples));
            && r.p50 <= r.p95 <= r.p99 <= r.max
            && (forall i | 0 <= i < |samples| :: samples[i] / 1000.0 <= r.max)
  {
    PickOrdered(|samples|, 0.5, 0.95);
    PickOrdered(|samples|, 0.95, 0.99);
    SortedIsAscending(samples);
    SortedEnds(samples);
    hide Sorted, PickIndex;
  }

  /** `k` is the index nearest to `x`; of two that are, the upper one. */
  predicate Nearest(k: int, x: real) { k as real - 0.5 <= x < k as real + 0.5 }

  lemma NearestIsPicked(n: nat, q: real, k: int)
    requires n > 0 && 0.0 <= q <= 1.0
    ensures Nearest(k, q * (n - 1) as real) <==> k == PickIndex(n, q)
  {
  }

  /** Which figures those of the summary are, in milliseconds: the samples at the indices nearest to the half, 0.95 and 0.99
      of the way, and the last. */
  lemma RttFigures(sorted: seq<real>)
    ensures var r, n := RttOf(sorted), |sorted|;
            && r.samples == n
            && (n == 0 ==> r.p50 == r.p95 == r.p99 == r.max == 0.0)
            && (n > 0 ==> r.max * 1000.0 == sorted[n - 1])
            && (n > 0 ==> exists k :: 0 <= k < n && Nearest(k, 0.50 * (n - 1) as real) && r.p50 * 1000.0 == sorted[k])
            && (n > 0 ==> exists k :: 0 <= k < n && Nearest(k, 0.95 * (n - 1) as real) && r.p95 * 1000.0 == sorted[k])
            && (n > 0 ==> exists k :: 0 <= k < n && Nearest(k, 0.99 * (n - 1) as real) && r.p99 * 1000.0 == sorted[k])
  {
    var n := |sorted|;
    if n > 0 {
      NearestIsPicked(n, 0.50, PickIndex(n, 0.50));
      NearestIsPicked(n, 0.95, PickIndex(n, 0.95));
      NearestIsPicked(n, 0.99, PickIndex(n, 0.99));
      hide PickIndex, Nearest;
      assert Nearest(PickIndex(n, 0.50), 0.50 * (n - 1) as real);
      assert Nearest(PickIndex(n, 0.95), 0.95 * (n - 1) as real);
      assert Nearest(PickIndex(n, 0.99), 0.99 * (n - 1) as real);
    }
  }

  /** The samples are sorted where they are; each figure is one of them, in milliseconds. */
  method SummarizeRtt(samples: array<real>) returns (r: RttSummary)
    modifies samples
    ensures samples[..] == Sorted(old(samples[..])) && r == RttOf(samples[..])
  {
    if samples.Length == 0 {
      return RttSummary(0, 0.0, 0.0, 0.0, 0.0);
    }
    SortInPlace(samples, Self);
    hide Sorted, Sort, PickIndex;
    var n := samples.Length;
    r := RttSummary(n, samples[PickIndex(n, 0.5)] / 1000.0, samples[PickIndex(n, 0.95)] / 1000.0,
                    samples[PickIndex(n, 0.99)] / 1000.0, samples[n - 1] / 1000.0);
  }
}
