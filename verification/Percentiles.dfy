/** The latency analysis: an in-place sort, four buckets that are suffixes of
    the sorted points, and five running statistics per bucket. */
module Percentiles {
  import opened Folds
  import opened Records
  import opened CutPoints
  import opened Sorting
  import RealTime

  const SORT_TTFBH := "TTFBH"

  /** The latency that is sorted by and reported: TTFBH if asked for, RMSH for
      every other value, known or not. */
  function Key(sort: string, d: DP): int {
    if sort == SORT_TTFBH then d.ttfbH else d.rmsH
  }

  function Keys(dps: seq<DP>, sort: string): seq<int> {
    Column(dps, (d: DP) => Key(sort, d))
  }

  // Running statistics

  /** x as a signed 64-bit integer that wraps around. */
  function Int64(x: int): int {
    Wrap(x + MAX_INT64 + 1) - MAX_INT64 - 1
  }

  lemma Int64Add(a: int, b: int)
    ensures Int64(Int64(a) + b) == Int64(a + b)
  {
    WrapAdd(a + MAX_INT64 + 1, b);
  }

  lemma Int64Fits(x: int)
    requires -MAX_INT64 - 1 <= x <= MAX_INT64
    ensures Int64(x) == x
  {
  }

  /** count, sum, min, average, max of the keys, as the five slots show them. */
  function StatsOf(keys: seq<int>): seq<int> {
    var sum := Int64(Fold(Add, keys));
    [|keys|, sum, Fold(Min, keys), if keys == [] then 0 else RealTime.Quotient(sum, |keys|), Fold(Max, keys)]
  }

  lemma StatsAppend(keys: seq<int>, k: int)
    ensures StatsOf(keys + [k])
         == [|keys| + 1, Int64(StatsOf(keys)[1] + k), Op(Min, StatsOf(keys)[2], k),
             RealTime.Quotient(Int64(StatsOf(keys)[1] + k), |keys| + 1), Op(Max, StatsOf(keys)[4], k)]
  {
    FoldAppend(Add, keys, k);
    FoldAppend(Min, keys, k);
    FoldAppend(Max, keys, k);
    Int64Add(Fold(Add, keys), k);
  }

  /** Updates the five slots of b in place for one more key. */
  method UpdateStats(b: array<int>, k: int, ghost keys: seq<int>)
    requires b.Length == 5 && b[..] == StatsOf(keys)
    modifies b
    ensures b[..] == StatsOf(keys + [k])
  {
    StatsAppend(keys, k);
    b[0] := b[0] + 1;
    b[1] := Int64(b[1] + k);
    if k < b[2] {
      b[2] := k;
    }
    b[3] := RealTime.Quotient(b[1], b[0]);
    if k > b[4] {
      b[4] := k;
    }
  }

  /** One update for every Sort value; sort key and statistics key agree. */
  method UpdatePSStats(b: array<int>, dp: DP, sort: string, ghost keys: seq<int>)
    requires b.Length == 5 && b[..] == StatsOf(keys)
    modifies b
    ensures b[..] == StatsOf(keys + [Key(sort, dp)])
    ensures b[..] == StatsOf(keys + [if sort == "TTFBH" then dp.ttfbH else dp.rmsH])
  {
    if sort == "RMSH" {
      UpdateStats(b, dp.rmsH, keys);
    } else if sort == SORT_TTFBH {
      UpdateStats(b, dp.ttfbH, keys);
    } else {
      UpdateStats(b, dp.rmsH, keys);
    }
  }

  // Sorting

  ghost predicate SortedBy(dps: seq<DP>, sort: string) {
    Ordered(dps, (d: DP) => Key(sort, d))
  }

  /** Sorts in place by the key of the Sort value. */
  method SortDataPoints(dps: array<DP>, sort: string)
    modifies dps
    ensures SortedBy(dps[..], sort) && multiset(dps[..]) == old(multiset(dps[..]))
    ensures sort == "TTFBH" ==> Ordered(dps[..], (d: DP) => d.ttfbH)
    ensures sort != "TTFBH" ==> Ordered(dps[..], (d: DP) => d.rmsH)
  {
    if sort == "RMSH" {
      SortFunc(dps, (d: DP) => d.rmsH);
    } else if sort == SORT_TTFBH {
      SortFunc(dps, (d: DP) => d.ttfbH);
    } else {
      SortFunc(dps, (d: DP) => d.rmsH);
    }
  }

  lemma HeadsAgree(a: seq<int>, b: seq<int>)
    requires Ascending(a) && Ascending(b) && multiset(a) == multiset(b) && a != []
    ensures b != [] && a[0] == b[0]
  {
    assert a[0] in multiset(b);
    assert b[0] in multiset(a);
  }

  lemma TailsAgree(a: seq<int>, b: seq<int>)
    requires multiset(a) == multiset(b) && a != [] && b != [] && a[0] == b[0]
    ensures multiset(a[1..]) == multiset(b[1..])
  {
    assert a == [a[0]] + a[1..] && b == [b[0]] + b[1..];
    assert multiset(a[1..]) == multiset(a) - multiset{a[0]};
    assert multiset(b[1..]) == multiset(b) - multiset{b[0]};
  }

  /** The sorted key sequence is determined by which keys there are. */
  lemma {:induction false} AscendingUnique(a: seq<int>, b: seq<int>)
    requires Ascending(a) && Ascending(b) && multiset(a) == multiset(b)
    ensures a == b
    decreases |a|
  {
    if a == [] {
      assert |multiset(b)| == 0;
    } else {
      HeadsAgree(a, b);
      TailsAgree(a, b);
      AscendingUnique(a[1..], b[1..]);
      assert a == [a[0]] + a[1..] && b == [b[0]] + b[1..];
    }
  }

  // Buckets

  function Bucket(dps: seq<DP>, cut: nat): seq<DP> {
    if cut <= |dps| then dps[cut..] else []
  }

  /** The statistics of the points from cut on. */
  function BucketStats(dps: seq<DP>, cut: nat, sort: string): (b: seq<int>)
    ensures |b| == 5
  {
    StatsOf(Keys(Bucket(dps, cut), sort))
  }

  /** b shows them. */
  ghost predicate Shows(b: array<int>, dps: seq<DP>, cut: nat, sort: string)
    reads b
  {
    b[..] == BucketStats(dps, cut, sort)
  }

  /** The five slots: how many values there are, their sum in 64 bits, the least of
      them and MaxInt64, the mean cut towards zero, and the greatest of them and 0. */
  ghost predicate AreStats(b: seq<int>, values: seq<int>) {
    && |b| == 5 && b[0] == |values| && b[1] == Int64(Fold(Add, values))
    && b[2] <= MAX_INT64 && (forall i :: 0 <= i < |values| ==> b[2] <= values[i])
    && (b[2] == MAX_INT64 || b[2] in values)
    && (values == [] ==> b[3] == 0) && (values != [] ==> Truncated(b[3], b[1], |values|))
    && b[4] >= 0 && (forall i :: 0 <= i < |values| ==> values[i] <= b[4])
    && (b[4] == 0 || b[4] in values)
  }

  lemma StatsAreStats(values: seq<int>)
    ensures AreStats(StatsOf(values), values)
  {
    FoldIsExtreme(Min, values);
    FoldIsExtreme(Max, values);
    forall i | 0 <= i < |values| ensures Fold(Min, values) <= values[i] <= Fold(Max, values) {
      assert Op(Min, Fold(Min, values), values[i]) == Fold(Min, values);
      assert Op(Max, Fold(Max, values), values[i]) == Fold(Max, values);
    }
    if values != [] {
      QuotientTruncates(Int64(Fold(Add, values)), |values|);
    }
  }

  /** The latencies that an analysis reports of the points from cut on. */
  function Reported(dps: seq<DP>, cut: nat, sort: string): seq<int> {
    if sort == "TTFBH" then Column(if cut <= |dps| then dps[cut..] else [], (d: DP) => d.ttfbH)
    else Column(if cut <= |dps| then dps[cut..] else [], (d: DP) => d.rmsH)
  }

  lemma ShownStats(b: array<int>, dps: seq<DP>, cut: nat, sort: string)
    requires Shows(b, dps, cut, sort)
    ensures AreStats(b[..], Reported(dps, cut, sort))
  {
    assert Keys(Bucket(dps, cut), sort) == Reported(dps, cut, sort);
    StatsAreStats(Reported(dps, cut, sort));
  }

  /** Sorts the points in place and fills the statistics of the four buckets: for
      Sort TTFBH of the times to first byte, for every other value of the round
      trips, of the points from each cut on. */
  method AnalyzeLatencyTest(dps: array<DP>, sort: string)
    returns (p10: array<int>, p50: array<int>, p90: array<int>, p99: array<int>)
    modifies dps
    ensures sort == "TTFBH" ==> Ordered(dps[..], (d: DP) => d.ttfbH)
    ensures sort != "TTFBH" ==> Ordered(dps[..], (d: DP) => d.rmsH)
    ensures AreStats(p10[..], Reported(dps[..], Cut10(dps.Length), sort))
    ensures AreStats(p50[..], Reported(dps[..], Cut50(dps.Length), sort))
    ensures AreStats(p90[..], Reported(dps[..], Cut90(dps.Length), sort))
    ensures AreStats(p99[..], Reported(dps[..], Cut99(dps.Length), sort))
    ensures SortedBy(dps[..], sort) && multiset(dps[..]) == old(multiset(dps[..]))
    ensures Shows(p10, dps[..], Cut10(dps.Length), sort) && Shows(p50, dps[..], Cut50(dps.Length), sort)
    ensures Shows(p90, dps[..], Cut90(dps.Length), sort) && Shows(p99, dps[..], Cut99(dps.Length), sort)
  {
    SortDataPoints(dps, sort);
    p10, p50, p90, p99 :=
      Tally(dps[..], sort, Cut10(dps.Length), Cut50(dps.Length), Cut90(dps.Length), Cut99(dps.Length));
    ShownStats(p10, dps[..], Cut10(dps.Length), sort);
    ShownStats(p50, dps[..], Cut50(dps.Length), sort);
    ShownStats(p90, dps[..], Cut90(dps.Length), sort);
    ShownStats(p99, dps[..], Cut99(dps.Length), sort);
  }

  /** The one pass over the sorted points. */
  method Tally(dps: seq<DP>, sort: string, cut10: nat, cut50: nat, cut90: nat, cut99: nat)
    returns (p10: array<int>, p50: array<int>, p90: array<int>, p99: array<int>)
    ensures Shows(p10, dps, cut10, sort) && Shows(p50, dps, cut50, sort)
    ensures Shows(p90, dps, cut90, sort) && Shows(p99, dps, cut99, sort)
  {
    p10 := NewStats(cut10, sort);
    p50 := NewStats(cut50, sort);
    p90 := NewStats(cut90, sort);
    p99 := NewStats(cut99, sort);
    for i := 0 to |dps|
      invariant fresh(p10) && fresh(p50) && fresh(p90) && fresh(p99)
      invariant p10 != p50 && p10 != p90 && p10 != p99 && p50 != p90 && p50 != p99 && p90 != p99
      invariant Shows(p10, dps[..i], cut10, sort) && Shows(p50, dps[..i], cut50, sort)
      invariant Shows(p90, dps[..i], cut90, sort) && Shows(p99, dps[..i], cut99, sort)
    {
      UpdateBucket(p10, sort, i, cut10, dps);
      UpdateBucket(p50, sort, i, cut50, dps);
      UpdateBucket(p90, sort, i, cut90, dps);
      UpdateBucket(p99, sort, i, cut99, dps);
    }
    assert dps[..|dps|] == dps;
  }

  method NewStats(ghost cut: nat, ghost sort: string) returns (b: array<int>)
    ensures fresh(b) && Shows(b, [], cut, sort)
  {
    b := new int[5];
    b[0], b[1], b[2], b[3], b[4] := 0, 0, MAX_INT64, 0, 0;
    assert Keys(Bucket([], cut), sort) == [];
  }

  /** Point i joins a bucket if it is not below the bucket's cut. */
  method UpdateBucket(b: array<int>, sort: string, i: nat, cut: nat, dps: seq<DP>)
    requires i < |dps| && Shows(b, dps[..i], cut, sort)
    modifies b
    ensures Shows(b, dps[..i + 1], cut, sort)
  {
    assert dps[..i + 1] == dps[..i] + [dps[i]];
    if i >= cut {
      BucketGrows(dps[..i], dps[i], cut, sort);
      UpdatePSStats(b, dps[i], sort, Keys(Bucket(dps[..i], cut), sort));
    }
  }

  lemma BucketGrows(dps: seq<DP>, d: DP, cut: nat, sort: string)
    requires cut <= |dps|
    ensures Keys(Bucket(dps + [d], cut), sort) == Keys(Bucket(dps, cut), sort) + [Key(sort, d)]
  {
    assert (dps + [d])[cut..] == dps[cut..] + [d];
  }

  // What the statistics mean

  lemma {:induction false} SumAtLeast(s: seq<int>, x: int)
    requires forall i :: 0 <= i < |s| ==> x <= s[i]
    ensures Fold(Add, s) >= x * |s|
  {
    if s != [] {
      SumAtLeast(s[1..], x);
      assert x * |s| == x + x * |s[1..]|;
    }
  }

  lemma SuffixKeys(dps: seq<DP>, cut: nat, sort: string)
    requires cut <= |dps|
    ensures Keys(Bucket(dps, cut), sort) == Keys(dps, sort)[cut..]
    ensures BucketStats(dps, cut, sort) == StatsOf(Keys(dps, sort)[cut..])
  {
  }

  /** q is a divided by b, truncated towards zero. */
  ghost predicate Truncated(q: int, a: int, b: int) {
    if a >= 0 then q * b <= a < (q + 1) * b else (q - 1) * b < a <= q * b
  }

  lemma EndsAreExtremes(keys: seq<int>)
    requires keys != [] && Ascending(keys) && keys[|keys| - 1] <= MAX_INT64
    ensures Fold(Min, keys) == keys[0]
    ensures Fold(Max, keys) == Op(Max, 0, keys[|keys| - 1])
  {
    FoldIsExtreme(Min, keys);
    FoldIsExtreme(Max, keys);
    assert Op(Min, Fold(Min, keys), keys[0]) == Fold(Min, keys);
    assert Op(Max, Fold(Max, keys), keys[|keys| - 1]) == Fold(Max, keys);
  }

  /** Every non-empty bucket of ascending int64 keys whose sum fits shows the
      true count and sum, its first key as min, and the truncated mean; and its
      last key as max, unless all keys of the bucket are negative. */
  lemma BucketStatsAreTrue(keys: seq<int>)
    requires keys != [] && Ascending(keys) && keys[|keys| - 1] <= MAX_INT64
    requires -MAX_INT64 <= Fold(Add, keys) <= MAX_INT64
    ensures var st := StatsOf(keys); var sum := Fold(Add, keys);
      && st[0] == |keys| && st[1] == sum && st[2] == keys[0]
      && Truncated(st[3], sum, |keys|)
      && (st[4] == keys[|keys| - 1] <==> keys[|keys| - 1] >= 0)
  {
    var sum := Fold(Add, keys);
    Int64Fits(sum);
    EndsAreExtremes(keys);
    assert StatsOf(keys)[3] == RealTime.Quotient(sum, |keys|);
    QuotientTruncates(sum, |keys|);
  }

  predicate ShowsLatencies(st: seq<int>, count: int, sum: int, least: int, mean: int, most: int) {
    |st| == 5 && st[0] == count && st[1] == sum && st[2] == least && st[3] == mean && st[4] == most
  }

  /** The same for non-negative keys, with the mean as one division. */
  lemma StatsOfLatencies(keys: seq<int>)
    requires keys != [] && Ascending(keys) && keys[0] >= 0 && keys[|keys| - 1] <= MAX_INT64
    requires 0 <= Fold(Add, keys) <= MAX_INT64
    ensures ShowsLatencies(StatsOf(keys), |keys|, Fold(Add, keys), keys[0], Mean(keys), keys[|keys| - 1])
  {
    Int64Fits(Fold(Add, keys));
    EndsAreExtremes(keys);
  }

  lemma QuotientTruncates(a: int, b: int)
    requires b > 0
    ensures Truncated(RealTime.Quotient(a, b), a, b)
  {
    var m := if a < 0 then -a else a;
    var q := m / b;
    assert m == q * b + m % b;
    assert (q + 1) * b == q * b + b;
    assert (-q) * b == -(q * b) && (-q - 1) * b == -(q * b) - b;
  }

  /** The mean of latencies, which are not negative. */
  function Mean(s: seq<int>): int
    requires s != []
  {
    Fold(Add, s) / |s|
  }

  /** Dropping the smallest of ascending keys never lowers the truncated mean. */
  lemma MeanStep(s: seq<int>)
    requires Ascending(s) && |s| >= 2 && s[0] >= 0
    ensures Mean(s) <= Mean(s[1..])
  {
    var m, t := |s| - 1, Fold(Add, s[1..]);
    SumAtLeast(s[1..], s[0]);
    MeanOrder(s[0], t, m);
  }

  lemma MeanOrder(x: nat, t: int, m: nat)
    requires m >= 1 && t >= x * m
    ensures (x + t) / (m + 1) <= t / m
  {
    var q := (x + t) / (m + 1);
    assert x + t == q * (m + 1) + (x + t) % (m + 1);
    assert q * (m + 1) == q * m + q;
    if q <= x {
      MulMonotone(q, x, m);
    }
    QuotientAtLeast(q, t, m);
  }

  lemma QuotientAtLeast(q: int, t: int, m: int)
    requires m >= 1 && q * m <= t
    ensures q <= t / m
  {
    var r := t / m;
    assert t == r * m + t % m;
    assert (r + 1) * m == r * m + m;
    if q > r {
      MulMonotone(r + 1, q, m);
    }
  }

  lemma {:induction false} MeansGrow(keys: seq<int>, a: nat, b: nat)
    requires Ascending(keys) && a <= b < |keys| && keys[0] >= 0
    ensures Mean(keys[a..]) <= Mean(keys[b..])
    decreases b - a
  {
    if a < b {
      var s := keys[a..];
      assert s[1..] == keys[a + 1..];
      MeanStep(s);
      MeansGrow(keys, a + 1, b);
    }
  }

  lemma {:induction false} SuffixSums(keys: seq<int>, a: nat)
    requires a <= |keys| && forall i :: 0 <= i < |keys| ==> keys[i] >= 0
    ensures 0 <= Fold(Add, keys[a..]) <= Fold(Add, keys)
  {
    assert keys == keys[..a] + keys[a..];
    FoldConcat(Add, keys[..a], keys[a..]);
    SumAtLeast(keys[..a], 0);
    SumAtLeast(keys[a..], 0);
  }

  lemma SuffixStats(keys: seq<int>, a: nat)
    requires Ascending(keys) && a < |keys| && keys[0] >= 0
    requires keys[|keys| - 1] <= MAX_INT64 && Fold(Add, keys) <= MAX_INT64
    ensures ShowsLatencies(StatsOf(keys[a..]), |keys| - a, Fold(Add, keys[a..]), keys[a], Mean(keys[a..]),
                           keys[|keys| - 1])
  {
    SuffixFits(keys, a);
    StatsOfLatencies(keys[a..]);
  }

  lemma SuffixFits(keys: seq<int>, a: nat)
    requires Ascending(keys) && a < |keys| && keys[0] >= 0
    requires keys[|keys| - 1] <= MAX_INT64 && Fold(Add, keys) <= MAX_INT64
    ensures var t := keys[a..];
      && |t| == |keys| - a && Ascending(t) && 0 <= t[0] == keys[a] && t[|t| - 1] == keys[|keys| - 1] <= MAX_INT64
      && 0 <= Fold(Add, t) <= MAX_INT64
  {
    SuffixAscends(keys, a);
    SuffixSums(keys, a);
  }

  lemma SuffixAscends(keys: seq<int>, a: nat)
    requires Ascending(keys) && a < |keys| && keys[0] >= 0
    ensures Ascending(keys[a..]) && keys[a..][0] >= 0 && keys[a..][|keys| - a - 1] == keys[|keys| - 1]
    ensures forall i :: 0 <= i < |keys| ==> keys[i] >= 0
  {
    forall i | 0 <= i < |keys| ensures keys[i] >= 0 {
      assert i == 0 || keys[0] <= keys[i];
    }
  }

  /** The order of two buckets' statistics when one is inside the other. */
  ghost predicate Rises(outer: seq<int>, inner: seq<int>)
    requires |outer| == |inner| == 5
  {
    outer[0] >= inner[0] && outer[2] <= inner[2] && outer[3] <= inner[3] && outer[4] == inner[4]
  }

  lemma InnerBucketIsHigher(keys: seq<int>, a: nat, b: nat)
    requires Ascending(keys) && a <= b < |keys| && keys[0] >= 0
    requires keys[|keys| - 1] <= MAX_INT64 && Fold(Add, keys) <= MAX_INT64
    ensures Rises(StatsOf(keys[a..]), StatsOf(keys[b..]))
  {
    SuffixStats(keys, a);
    SuffixStats(keys, b);
    MeansGrow(keys, a, b);
  }

  lemma NestedBucketsRise(dps: seq<DP>, sort: string, a: nat, b: nat)
    requires a <= b < |dps| && SortedBy(dps, sort) && Key(sort, dps[0]) >= 0
    requires Key(sort, dps[|dps| - 1]) <= MAX_INT64 && Fold(Add, Keys(dps, sort)) <= MAX_INT64
    ensures Rises(BucketStats(dps, a, sort), BucketStats(dps, b, sort))
  {
    KeysAscend(dps, sort);
    SuffixKeys(dps, a, sort);
    SuffixKeys(dps, b, sort);
    InnerBucketIsHigher(Keys(dps, sort), a, b);
  }

  lemma InnermostBucket(dps: seq<DP>, sort: string, a: nat)
    requires a < |dps| && SortedBy(dps, sort) && Key(sort, dps[0]) >= 0
    requires Key(sort, dps[|dps| - 1]) <= MAX_INT64 && Fold(Add, Keys(dps, sort)) <= MAX_INT64
    ensures BucketStats(dps, a, sort)[0] == |dps| - a
    ensures BucketStats(dps, a, sort)[4] == Key(sort, dps[|dps| - 1])
  {
    KeysAscend(dps, sort);
    SuffixKeys(dps, a, sort);
    SuffixEnds(Keys(dps, sort), a);
  }

  lemma KeysAscend(dps: seq<DP>, sort: string)
    requires dps != [] && SortedBy(dps, sort)
    ensures var keys := Keys(dps, sort);
      && |keys| == |dps| && Ascending(keys)
      && keys[0] == Key(sort, dps[0]) && keys[|keys| - 1] == Key(sort, dps[|dps| - 1])
  {
  }

  lemma SuffixEnds(keys: seq<int>, a: nat)
    requires Ascending(keys) && a < |keys| && keys[0] >= 0
    requires keys[|keys| - 1] <= MAX_INT64 && Fold(Add, keys) <= MAX_INT64
    ensures StatsOf(keys[a..])[0] == |keys| - a && StatsOf(keys[a..])[4] == keys[|keys| - 1]
  {
    SuffixStats(keys, a);
  }

  /** For two or more points with non-negative keys whose sum fits in int64,
      min and average never decrease from P10 to P50 to P90 to P99, and all
      four buckets show the same max, the largest key of all; P99 covers
      exactly the worst one percent. */
  lemma PercentilesRise(dps: seq<DP>, sort: string)
    requires 2 <= |dps| <= MAX_POINTS && SortedBy(dps, sort) && Key(sort, dps[0]) >= 0
    requires Key(sort, dps[|dps| - 1]) <= MAX_INT64 && Fold(Add, Keys(dps, sort)) <= MAX_INT64
    ensures var n := |dps|;
      var p10, p50 := BucketStats(dps, Cut10(n), sort), BucketStats(dps, Cut50(n), sort);
      var p90, p99 := BucketStats(dps, Cut90(n), sort), BucketStats(dps, Cut99(n), sort);
      && Rises(p10, p50) && Rises(p50, p90) && Rises(p90, p99)
      && p99[4] == Key(sort, dps[n - 1]) && p99[0] == (n + 99) / 100
  {
    var n := |dps|;
    CutsInside(n);
    NestedBucketsRise(dps, sort, Cut10(n), Cut50(n));
    NestedBucketsRise(dps, sort, Cut50(n), Cut90(n));
    NestedBucketsRise(dps, sort, Cut90(n), Cut99(n));
    InnermostBucket(dps, sort, Cut99(n));
  }

  lemma CutsInside(n: nat)
    requires 2 <= n <= MAX_POINTS
    ensures Cut10(n) <= Cut50(n) <= Cut90(n) <= Cut99(n) < n && n - Cut99(n) == (n + 99) / 100
  {
    CutsNestUnlessSingle(n);
    Cut99IsExact(n);
  }

  /** The handlers that collected the points may have run in any order, and the
      sort may leave equal points in any order: every bucket shows the same. */
  lemma BucketsIgnoreOrder(a: seq<DP>, b: seq<DP>, sort: string, cut: nat)
    requires multiset(a) == multiset(b) && SortedBy(a, sort) && SortedBy(b, sort)
    ensures |a| == |b|
    ensures BucketStats(a, cut, sort) == BucketStats(b, cut, sort)
  {
    assert |a| == |multiset(a)| == |multiset(b)| == |b|;
    KeysPermutation(a, b, sort);
    AscendingUnique(Keys(a, sort), Keys(b, sort));
    if cut <= |a| {
      SuffixKeys(a, cut, sort);
      SuffixKeys(b, cut, sort);
    }
  }

  lemma {:induction false} KeysPermutation(a: seq<DP>, b: seq<DP>, sort: string)
    requires multiset(a) == multiset(b)
    ensures multiset(Keys(a, sort)) == multiset(Keys(b, sort))
    decreases |a|
  {
    if a == [] {
      assert |multiset(b)| == 0;
      assert b == [];
    } else {
      var k := MatchHead(a, b);
      KeysPermutation(a[1..], b[..k] + b[k + 1..], sort);
      var x, l, r := [Key(sort, a[0])], Keys(b[..k], sort), Keys(b[k + 1..], sort);
      assert Keys(a, sort) == x + Keys(a[1..], sort);
      assert Keys(b, sort) == l + x + r;
      assert Keys(b[..k] + b[k + 1..], sort) == l + r;
    }
  }

  /** Every point outside a bucket is at most every point inside it. */
  lemma OutsideIsBelow(dps: seq<DP>, sort: string, cut: nat, i: nat, j: nat)
    requires SortedBy(dps, sort) && i < cut <= |dps| && j < |Bucket(dps, cut)|
    ensures Key(sort, dps[i]) <= Key(sort, Bucket(dps, cut)[j])
  {
    assert Bucket(dps, cut)[j] == dps[cut + j];
  }
}
