/** The client's collected data and the real-time row it prints every second. */
module RealTime {
  import opened Folds
  import opened Records

  /** What one tick prints. txc sums a cumulative count over all points. */
  datatype TestOutput = TestOutput(
    errCount: nat, txc: int, txt: int, txl: int, txh: int, rmsL: int, rmsH: int, ttfbL: int, ttfbH: int,
    dropped: int, memL: int, memH: int, cpuL: int, cpuH: int)

  /** Integer division as Go does it, towards zero. */
  function Quotient(a: int, b: int): int
    requires b > 0
  {
    if a < 0 then -((-a) / b) else a / b
  }

  function Least(s: seq<int>): int
    requires s != []
  {
    if |s| == 1 then s[0] else Op(Min, s[0], Least(s[1..]))
  }

  lemma {:induction false} LeastIsLeast(s: seq<int>)
    requires s != []
    ensures Least(s) in s && forall x :: x in s ==> Least(s) <= x
  {
    if |s| > 1 {
      LeastIsLeast(s[1..]);
      assert forall x :: x in s ==> x == s[0] || x in s[1..];
    }
  }

  lemma {:induction false} LeastAppend(s: seq<int>, x: int)
    requires s != []
    ensures Least(s + [x]) == Op(Min, Least(s), x)
  {
    assert (s + [x])[1..] == s[1..] + [x];
    if |s| > 1 {
      LeastAppend(s[1..], x);
    }
  }

  lemma LeastPermutation<T(!new)>(a: seq<T>, b: seq<T>, g: T -> int)
    requires a != [] && multiset(a) == multiset(b)
    ensures b != [] && Least(Column(a, g)) == Least(Column(b, g))
  {
    assert a[0] in multiset(b);
    LeastIsLeast(Column(a, g));
    LeastIsLeast(Column(b, g));
    forall i | 0 <= i < |a| ensures Column(a, g)[i] in Column(b, g) {
      assert a[i] in multiset(b);
      var k :| 0 <= k < |b| && b[k] == a[i];
      assert Column(b, g)[k] == g(a[i]);
    }
    forall i | 0 <= i < |b| ensures Column(b, g)[i] in Column(a, g) {
      assert b[i] in multiset(a);
      var k :| 0 <= k < |a| && a[k] == b[i];
      assert Column(a, g)[k] == g(b[i]);
    }
  }

  function Total(dps: seq<DP>, g: DP -> int): int {
    Wrap(Fold(Add, Column(dps, g)))
  }

  function Top(dps: seq<DP>, g: DP -> int): int {
    Fold(Max, Column(dps, g))
  }

  function Low(dps: seq<DP>, g: DP -> int): int {
    Fold(Min, Column(dps, g))
  }

  const TX_COUNT := (d: DP) => d.txCount as int
  const TX_TOTAL := (d: DP) => d.txTotal as int
  const TX_RATE := (d: DP) => d.tx as int
  const RMS_LOW := (d: DP) => d.rmsL
  const RMS_HIGH := (d: DP) => d.rmsH
  const TTFB_LOW := (d: DP) => d.ttfbL
  const TTFB_HIGH := (d: DP) => d.ttfbH
  const DROPPED := (d: DP) => d.droppedPackets
  const MEMORY := (d: DP) => d.memoryUsedPercent
  const CPU := (d: DP) => d.cpuUsedPercent

  /** The row in microseconds, before any scaling. */
  function RawRow(dps: seq<DP>, errs: nat): TestOutput
    requires dps != []
  {
    TestOutput(
      errs, Total(dps, TX_COUNT), Total(dps, TX_TOTAL), Low(dps, TX_RATE), Top(dps, TX_RATE),
      Low(dps, RMS_LOW), Top(dps, RMS_HIGH), Low(dps, TTFB_LOW), Top(dps, TTFB_HIGH), Top(dps, DROPPED),
      Least(Column(dps, MEMORY)), Top(dps, MEMORY), Least(Column(dps, CPU)), Top(dps, CPU))
  }

  function Row(dps: seq<DP>, errs: nat, micro: bool): TestOutput
    requires dps != []
  {
    var r := RawRow(dps, errs);
    if micro then r
    else r.(ttfbH := Quotient(r.ttfbH, 1000), ttfbL := Quotient(r.ttfbL, 1000),
            rmsH := Quotient(r.rmsH, 1000), rmsL := Quotient(r.rmsL, 1000))
  }

  lemma Grow(dps: seq<DP>, i: nat, g: DP -> int)
    requires i < |dps|
    ensures Total(dps[..i + 1], g) == Wrap(Total(dps[..i], g) + g(dps[i]))
    ensures Top(dps[..i + 1], g) == Op(Max, Top(dps[..i], g), g(dps[i]))
    ensures Low(dps[..i + 1], g) == Op(Min, Low(dps[..i], g), g(dps[i]))
    ensures i > 0 ==> Least(Column(dps[..i + 1], g)) == Op(Min, Least(Column(dps[..i], g)), g(dps[i]))
  {
    var c, x := Column(dps[..i], g), g(dps[i]);
    assert Column(dps[..i + 1], g) == c + [x];
    FoldAppend(Add, c, x);
    FoldAppend(Max, c, x);
    FoldAppend(Min, c, x);
    WrapAdd(Fold(Add, c), x);
    if i > 0 {
      LeastAppend(c, x);
    }
  }

  /** The row before the first point: memory and CPU start from that point. */
  function EmptyRow(first: DP, errs: nat): TestOutput {
    TestOutput(errs, 0, 0, MAX_INT64, 0, MAX_INT64, 0, MAX_INT64, 0, 0,
               first.memoryUsedPercent, 0, first.cpuUsedPercent, 0)
  }

  function Partial(dps: seq<DP>, i: nat, errs: nat): TestOutput
    requires dps != [] && i <= |dps|
  {
    if i == 0 then EmptyRow(dps[0], errs) else RawRow(dps[..i], errs)
  }

  /** A row joined with one more point. */
  function Joined(to: TestOutput, d: DP): TestOutput {
    TestOutput(
      to.errCount, Wrap(to.txc + d.txCount), Wrap(to.txt + d.txTotal), Op(Min, to.txl, d.tx), Op(Max, to.txh, d.tx),
      Op(Min, to.rmsL, d.rmsL), Op(Max, to.rmsH, d.rmsH), Op(Min, to.ttfbL, d.ttfbL), Op(Max, to.ttfbH, d.ttfbH),
      Op(Max, to.dropped, d.droppedPackets), Op(Min, to.memL, d.memoryUsedPercent),
      Op(Max, to.memH, d.memoryUsedPercent), Op(Min, to.cpuL, d.cpuUsedPercent), Op(Max, to.cpuH, d.cpuUsedPercent))
  }

  lemma PartialStep(dps: seq<DP>, i: nat, errs: nat)
    requires i < |dps|
    ensures Partial(dps, i + 1, errs) == Joined(Partial(dps, i, errs), dps[i])
  {
    GrowAll(dps, i);
    if i == 0 {
      EmptyColumns();
      assert dps[..0] == [];
    }
  }

  lemma EmptyColumns()
    ensures forall g :: Total([], g) == 0 && Top([], g) == 0 && Low([], g) == MAX_INT64
  {
  }

  /** One point's share of the pass: each column by its own comparison. */
  method Collect(to: TestOutput, d: DP) returns (now: TestOutput)
    ensures now == Joined(to, d)
  {
    var dropped, txl, rmsL, ttfbL, memL, cpuL := to.dropped, to.txl, to.rmsL, to.ttfbL, to.memL, to.cpuL;
    var txh, rmsH, ttfbH, memH, cpuH := to.txh, to.rmsH, to.ttfbH, to.memH, to.cpuH;
    if dropped < d.droppedPackets { dropped := d.droppedPackets; }
    if txl > d.tx { txl := d.tx; }
    if rmsL > d.rmsL { rmsL := d.rmsL; }
    if ttfbL > d.ttfbL { ttfbL := d.ttfbL; }
    if memL > d.memoryUsedPercent { memL := d.memoryUsedPercent; }
    if cpuL > d.cpuUsedPercent { cpuL := d.cpuUsedPercent; }
    assert dropped == Op(Max, to.dropped, d.droppedPackets) && txl == Op(Min, to.txl, d.tx);
    assert rmsL == Op(Min, to.rmsL, d.rmsL) && ttfbL == Op(Min, to.ttfbL, d.ttfbL);
    assert memL == Op(Min, to.memL, d.memoryUsedPercent) && cpuL == Op(Min, to.cpuL, d.cpuUsedPercent);
    if txh < d.tx { txh := d.tx; }
    if rmsH < d.rmsH { rmsH := d.rmsH; }
    if ttfbH < d.ttfbH { ttfbH := d.ttfbH; }
    if memH < d.memoryUsedPercent { memH := d.memoryUsedPercent; }
    if cpuH < d.cpuUsedPercent { cpuH := d.cpuUsedPercent; }
    now := TestOutput(to.errCount, Wrap(to.txc + d.txCount), Wrap(to.txt + d.txTotal), txl, txh,
                      rmsL, rmsH, ttfbL, ttfbH, dropped, memL, memH, cpuL, cpuH);
  }

  /** x is the largest of the values of column g, or 0 if none is larger. */
  ghost predicate IsHighest(x: int, dps: seq<DP>, g: DP -> int) {
    && (x == 0 || exists i :: 0 <= i < |dps| && g(dps[i]) == x)
    && x >= 0 && forall i :: 0 <= i < |dps| ==> g(dps[i]) <= x
  }

  /** x is the smallest of the values of column g, or start if none is smaller. */
  ghost predicate IsLowest(x: int, dps: seq<DP>, g: DP -> int, start: int) {
    && (x == start || exists i :: 0 <= i < |dps| && g(dps[i]) == x)
    && x <= start && forall i :: 0 <= i < |dps| ==> x <= g(dps[i])
  }

  /** x is attained in column g, and is its smallest value. */
  ghost predicate IsLeast(x: int, dps: seq<DP>, g: DP -> int) {
    && (exists i :: 0 <= i < |dps| && g(dps[i]) == x)
    && forall i :: 0 <= i < |dps| ==> x <= g(dps[i])
  }

  /** x shows v: itself in microseconds, else the thousandth of it cut towards zero. */
  ghost predicate InUnit(x: int, v: int, micro: bool) {
    if micro then x == v
    else if v >= 0 then 1000 * x <= v < 1000 * (x + 1)
    else 1000 * (x - 1) < v <= 1000 * x
  }

  ghost predicate ShowsHighest(x: int, dps: seq<DP>, g: DP -> int, micro: bool) {
    exists v :: InUnit(x, v, micro) && IsHighest(v, dps, g)
  }

  ghost predicate ShowsLowest(x: int, dps: seq<DP>, g: DP -> int, micro: bool) {
    exists v :: InUnit(x, v, micro) && IsLowest(v, dps, g, 0x7FFF_FFFF_FFFF_FFFF)
  }

  /** What a row shows of each column, whichever unit its latencies are in. */
  ghost predicate IsRowOf(r: TestOutput, dps: seq<DP>, errs: nat, micro: bool) {
    && r.errCount == errs
    && r.txc == Wrap(Fold(Add, Column(dps, (d: DP) => d.txCount)))
    && r.txt == Wrap(Fold(Add, Bytes(dps)))
    && IsLowest(r.txl, dps, (d: DP) => d.tx, 0x7FFF_FFFF_FFFF_FFFF) && IsHighest(r.txh, dps, (d: DP) => d.tx)
    && ShowsLowest(r.rmsL, dps, (d: DP) => d.rmsL, micro) && ShowsHighest(r.rmsH, dps, (d: DP) => d.rmsH, micro)
    && ShowsLowest(r.ttfbL, dps, (d: DP) => d.ttfbL, micro) && ShowsHighest(r.ttfbH, dps, (d: DP) => d.ttfbH, micro)
    && IsHighest(r.dropped, dps, (d: DP) => d.droppedPackets)
    && IsLeast(r.memL, dps, (d: DP) => d.memoryUsedPercent) && IsHighest(r.memH, dps, (d: DP) => d.memoryUsedPercent)
    && IsLeast(r.cpuL, dps, (d: DP) => d.cpuUsedPercent) && IsHighest(r.cpuH, dps, (d: DP) => d.cpuUsedPercent)
  }

  lemma TopIsHighest(dps: seq<DP>, g: DP -> int)
    ensures IsHighest(Top(dps, g), dps, g)
  {
    var c := Column(dps, g);
    FoldIsExtreme(Max, c);
    if Fold(Max, c) != 0 {
      var i :| 0 <= i < |c| && c[i] == Fold(Max, c);
      assert g(dps[i]) == Top(dps, g);
    }
    forall i | 0 <= i < |dps| ensures g(dps[i]) <= Top(dps, g) {
      assert Op(Max, Fold(Max, c), c[i]) == Fold(Max, c);
    }
  }

  lemma LowIsLowest(dps: seq<DP>, g: DP -> int)
    ensures IsLowest(Low(dps, g), dps, g, MAX_INT64)
  {
    var c := Column(dps, g);
    FoldIsExtreme(Min, c);
    if Fold(Min, c) != MAX_INT64 {
      var i :| 0 <= i < |c| && c[i] == Fold(Min, c);
      assert g(dps[i]) == Low(dps, g);
    }
    forall i | 0 <= i < |dps| ensures Low(dps, g) <= g(dps[i]) {
      assert Op(Min, Fold(Min, c), c[i]) == Fold(Min, c);
    }
  }

  lemma LeastOfColumn(dps: seq<DP>, g: DP -> int)
    requires dps != []
    ensures IsLeast(Least(Column(dps, g)), dps, g)
  {
    var c := Column(dps, g);
    LeastIsLeast(c);
    var i :| 0 <= i < |c| && c[i] == Least(c);
    assert g(dps[i]) == Least(c);
    forall i | 0 <= i < |dps| ensures Least(c) <= g(dps[i]) {
      assert c[i] in c;
    }
  }

  lemma ThousandthCuts(v: int)
    ensures InUnit(Quotient(v, 1000), v, false) && InUnit(v, v, true)
  {
  }

  lemma HighestShown(dps: seq<DP>, g: DP -> int, micro: bool)
    ensures ShowsHighest(if micro then Top(dps, g) else Quotient(Top(dps, g), 1000), dps, g, micro)
  {
    TopIsHighest(dps, g);
    ThousandthCuts(Top(dps, g));
  }

  lemma LowestShown(dps: seq<DP>, g: DP -> int, micro: bool)
    ensures ShowsLowest(if micro then Low(dps, g) else Quotient(Low(dps, g), 1000), dps, g, micro)
  {
    LowIsLowest(dps, g);
    ThousandthCuts(Low(dps, g));
  }

  lemma LatenciesShown(dps: seq<DP>, errs: nat, micro: bool)
    requires dps != []
    ensures var r := Row(dps, errs, micro);
      && ShowsLowest(r.rmsL, dps, (d: DP) => d.rmsL, micro) && ShowsHighest(r.rmsH, dps, (d: DP) => d.rmsH, micro)
      && ShowsLowest(r.ttfbL, dps, (d: DP) => d.ttfbL, micro) && ShowsHighest(r.ttfbH, dps, (d: DP) => d.ttfbH, micro)
  {
    LowestShown(dps, (d: DP) => d.rmsL, micro);
    HighestShown(dps, (d: DP) => d.rmsH, micro);
    LowestShown(dps, (d: DP) => d.ttfbL, micro);
    HighestShown(dps, (d: DP) => d.ttfbH, micro);
  }

  lemma RestShown(dps: seq<DP>, errs: nat, micro: bool)
    requires dps != []
    ensures var r := Row(dps, errs, micro);
      && r.errCount == errs
      && r.txc == Wrap(Fold(Add, Column(dps, (d: DP) => d.txCount))) && r.txt == Wrap(Fold(Add, Bytes(dps)))
      && IsLowest(r.txl, dps, (d: DP) => d.tx, MAX_INT64) && IsHighest(r.txh, dps, (d: DP) => d.tx)
      && IsHighest(r.dropped, dps, (d: DP) => d.droppedPackets)
      && IsLeast(r.memL, dps, (d: DP) => d.memoryUsedPercent) && IsHighest(r.memH, dps, (d: DP) => d.memoryUsedPercent)
      && IsLeast(r.cpuL, dps, (d: DP) => d.cpuUsedPercent) && IsHighest(r.cpuH, dps, (d: DP) => d.cpuUsedPercent)
  {
    assert Column(dps, TX_COUNT) == Column(dps, (d: DP) => d.txCount) && Column(dps, TX_TOTAL) == Bytes(dps);
    assert Column(dps, TX_RATE) == Column(dps, (d: DP) => d.tx);
    LowIsLowest(dps, (d: DP) => d.tx);
    TopIsHighest(dps, (d: DP) => d.tx);
    TopIsHighest(dps, (d: DP) => d.droppedPackets);
    LeastOfColumn(dps, (d: DP) => d.memoryUsedPercent);
    TopIsHighest(dps, (d: DP) => d.memoryUsedPercent);
    LeastOfColumn(dps, (d: DP) => d.cpuUsedPercent);
    TopIsHighest(dps, (d: DP) => d.cpuUsedPercent);
  }

  /** One pass over all collected points, then the latencies in milliseconds
      unless micro: each column of the row shows the totals or the extremes of
      its own column of the points. */
  method PrintOnTick(dps: seq<DP>, errs: nat, micro: bool) returns (row: Option<TestOutput>)
    ensures row.None? <==> dps == []
    ensures row.Some? ==> row.value == Row(dps, errs, micro) && IsRowOf(row.value, dps, errs, micro)
  {
    if |dps| == 0 {
      return None;
    }
    var to := EmptyRow(dps[0], errs);
    for i := 0 to |dps|
      invariant to == Partial(dps, i, errs)
    {
      PartialStep(dps, i, errs);
      to := Collect(to, dps[i]);
    }
    assert dps[..|dps|] == dps;
    if !micro {
      to := to.(ttfbH := Quotient(to.ttfbH, 1000), ttfbL := Quotient(to.ttfbL, 1000),
                rmsH := Quotient(to.rmsH, 1000), rmsL := Quotient(to.rmsL, 1000));
    }
    LatenciesShown(dps, errs, micro);
    RestShown(dps, errs, micro);
    row := Some(to);
  }

  lemma GrowAll(dps: seq<DP>, i: nat)
    requires i < |dps|
    ensures Total(dps[..i + 1], TX_COUNT) == Wrap(Total(dps[..i], TX_COUNT) + dps[i].txCount)
    ensures Total(dps[..i + 1], TX_TOTAL) == Wrap(Total(dps[..i], TX_TOTAL) + dps[i].txTotal)
    ensures Low(dps[..i + 1], TX_RATE) == Op(Min, Low(dps[..i], TX_RATE), dps[i].tx)
    ensures Top(dps[..i + 1], TX_RATE) == Op(Max, Top(dps[..i], TX_RATE), dps[i].tx)
    ensures Low(dps[..i + 1], RMS_LOW) == Op(Min, Low(dps[..i], RMS_LOW), dps[i].rmsL)
    ensures Top(dps[..i + 1], RMS_HIGH) == Op(Max, Top(dps[..i], RMS_HIGH), dps[i].rmsH)
    ensures Low(dps[..i + 1], TTFB_LOW) == Op(Min, Low(dps[..i], TTFB_LOW), dps[i].ttfbL)
    ensures Top(dps[..i + 1], TTFB_HIGH) == Op(Max, Top(dps[..i], TTFB_HIGH), dps[i].ttfbH)
    ensures Top(dps[..i + 1], DROPPED) == Op(Max, Top(dps[..i], DROPPED), dps[i].droppedPackets)
    ensures Top(dps[..i + 1], MEMORY) == Op(Max, Top(dps[..i], MEMORY), dps[i].memoryUsedPercent)
    ensures Top(dps[..i + 1], CPU) == Op(Max, Top(dps[..i], CPU), dps[i].cpuUsedPercent)
    ensures Least(Column(dps[..i + 1], MEMORY))
         == if i == 0 then dps[0].memoryUsedPercent
            else Op(Min, Least(Column(dps[..i], MEMORY)), dps[i].memoryUsedPercent)
    ensures Least(Column(dps[..i + 1], CPU))
         == if i == 0 then dps[0].cpuUsedPercent else Op(Min, Least(Column(dps[..i], CPU)), dps[i].cpuUsedPercent)
  {
    Grow(dps, i, TX_COUNT);
    Grow(dps, i, TX_TOTAL);
    Grow(dps, i, TX_RATE);
    Grow(dps, i, RMS_LOW);
    Grow(dps, i, RMS_HIGH);
    Grow(dps, i, TTFB_LOW);
    Grow(dps, i, TTFB_HIGH);
    Grow(dps, i, DROPPED);
    Grow(dps, i, MEMORY);
    Grow(dps, i, CPU);
  }

  /** The handlers of several connections run in any order: the row depends
      only on which points have been collected. */
  lemma RowIgnoresOrder(a: seq<DP>, b: seq<DP>, errs: nat, micro: bool)
    requires a != [] && multiset(a) == multiset(b)
    ensures b != [] && Row(a, errs, micro) == Row(b, errs, micro)
  {
    LeastPermutation(a, b, MEMORY);
    LeastPermutation(a, b, CPU);
    FoldPermutation(Add, a, b, TX_COUNT);
    FoldPermutation(Add, a, b, TX_TOTAL);
    FoldPermutation(Min, a, b, TX_RATE);
    FoldPermutation(Max, a, b, TX_RATE);
    FoldPermutation(Min, a, b, RMS_LOW);
    FoldPermutation(Max, a, b, RMS_HIGH);
    FoldPermutation(Min, a, b, TTFB_LOW);
    FoldPermutation(Max, a, b, TTFB_HIGH);
    FoldPermutation(Max, a, b, DROPPED);
    FoldPermutation(Max, a, b, MEMORY);
    FoldPermutation(Max, a, b, CPU);
  }

  /** The value a row shows for a latency extreme. */
  function Shown(row: TestOutput, f: Field): int {
    match f
    case TTFBH => row.ttfbH
    case TTFBL => row.ttfbL
    case RMSH => row.rmsH
    case RMSL => row.rmsL
  }

  lemma RowShowsExtreme(dps: seq<DP>, errs: nat, f: Field)
    requires dps != []
    ensures Shown(Row(dps, errs, true), f) == Fold(Extreme(f), Values(dps, f))
  {
    match f
    case TTFBH => assert Values(dps, f) == Column(dps, TTFB_HIGH);
    case TTFBL => assert Values(dps, f) == Column(dps, TTFB_LOW);
    case RMSH => assert Values(dps, f) == Column(dps, RMS_HIGH);
    case RMSL => assert Values(dps, f) == Column(dps, RMS_LOW);
  }
}
