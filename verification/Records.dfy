/** The records that travel from a server's readers to the client's analysis. */
module Records {
  import opened Folds

  /** One second on the axis of instants, in nanoseconds. */
  const SECOND: nat := 1_000_000_000

  datatype TestType = Unknown | RequestTest | StreamTest

  /** What a server's engine takes from shared.Config: PayloadSize bounds the body
      of one request, except in a stream test. */
  datatype Config = Config(testType: TestType, testId: string, payload: nat)

  /** One harvested data point (shared.DP). Times are instants on one integer
      axis; Received is never encoded and is not modelled. */
  datatype DP = DP(
    testType: TestType, testId: string, created: int, local: string, remote: string,
    rmsH: int, rmsL: int, ttfbH: int, ttfbL: int,
    tx: nat, txTotal: nat, txCount: nat,
    errCount: int, droppedPackets: int, memoryUsedPercent: int, cpuUsedPercent: int)

  datatype TError = TError(error: string, created: int)

  /** What one flush sends: shared.DataReponseToClient. */
  datatype Batch = Batch(points: seq<DP>, errors: seq<TError>)

  /** A record of a test file: a tag and the object behind it. */
  datatype Record = Point(dp: DP) | Error(err: TError)

  /** The four latency extremes a reader keeps between two harvests. */
  datatype Field = TTFBH | TTFBL | RMSH | RMSL

  function Extreme(f: Field): Monoid {
    match f
    case TTFBH => Max
    case RMSH => Max
    case TTFBL => Min
    case RMSL => Min
  }

  function Get(d: DP, f: Field): int {
    match f
    case TTFBH => d.ttfbH
    case TTFBL => d.ttfbL
    case RMSH => d.rmsH
    case RMSL => d.rmsL
  }

  function Values(dps: seq<DP>, f: Field): seq<int> {
    Column(dps, (d: DP) => Get(d, f))
  }

  function Bytes(dps: seq<DP>): seq<int> {
    Column(dps, (d: DP) => d.txTotal)
  }

  /** Points and errors of consecutive batches, in order. */
  function AllPoints(bs: seq<Batch>): seq<DP> {
    if bs == [] then [] else AllPoints(bs[..|bs| - 1]) + bs[|bs| - 1].points
  }

  function AllErrors(bs: seq<Batch>): seq<TError> {
    if bs == [] then [] else AllErrors(bs[..|bs| - 1]) + bs[|bs| - 1].errors
  }

  lemma AllAppend(bs: seq<Batch>, b: Batch)
    ensures AllPoints(bs + [b]) == AllPoints(bs) + b.points
    ensures AllErrors(bs + [b]) == AllErrors(bs) + b.errors
  {
    assert (bs + [b])[..|bs|] == bs;
  }

  lemma {:induction false} AllConcat(a: seq<Batch>, b: seq<Batch>)
    ensures AllPoints(a + b) == AllPoints(a) + AllPoints(b)
    ensures AllErrors(a + b) == AllErrors(a) + AllErrors(b)
    decreases |b|
  {
    if b == [] {
      assert a + b == a;
    } else {
      var n := |b| - 1;
      assert a + b == (a + b[..n]) + [b[n]];
      assert b == b[..n] + [b[n]];
      AllConcat(a, b[..n]);
      AllAppend(a + b[..n], b[n]);
      AllAppend(b[..n], b[n]);
    }
  }

  lemma AllInsert(l: seq<Batch>, x: Batch, r: seq<Batch>)
    ensures AllPoints(l + [x] + r) == AllPoints(l) + x.points + AllPoints(r)
    ensures AllErrors(l + [x] + r) == AllErrors(l) + x.errors + AllErrors(r)
  {
    AllConcat(l + [x], r);
    AllAppend(l, x);
  }

  // Records of a file

  function PointRecords(dps: seq<DP>): seq<Record> {
    seq(|dps|, i requires 0 <= i < |dps| => Point(dps[i]))
  }

  function ErrorRecords(errs: seq<TError>): seq<Record> {
    seq(|errs|, i requires 0 <= i < |errs| => Error(errs[i]))
  }

  function PointOf(r: Record): seq<DP> {
    if r.Point? then [r.dp] else []
  }

  function ErrorOf(r: Record): seq<TError> {
    if r.Error? then [r.err] else []
  }

  function PointsIn(rs: seq<Record>): seq<DP> {
    if rs == [] then [] else PointOf(rs[0]) + PointsIn(rs[1..])
  }

  function ErrorsIn(rs: seq<Record>): seq<TError> {
    if rs == [] then [] else ErrorOf(rs[0]) + ErrorsIn(rs[1..])
  }

  lemma Regroup<T>(x: seq<T>, y: seq<T>, z: seq<T>)
    ensures x + (y + z) == (x + y) + z
  {
  }

  lemma {:induction false} PointsInConcat(a: seq<Record>, b: seq<Record>)
    ensures PointsIn(a + b) == PointsIn(a) + PointsIn(b)
  {
    if a == [] {
      assert a + b == b;
    } else {
      PointsInConcat(a[1..], b);
      assert (a + b)[1..] == a[1..] + b;
      Regroup(PointOf(a[0]), PointsIn(a[1..]), PointsIn(b));
    }
  }

  lemma {:induction false} ErrorsInConcat(a: seq<Record>, b: seq<Record>)
    ensures ErrorsIn(a + b) == ErrorsIn(a) + ErrorsIn(b)
  {
    if a == [] {
      assert a + b == b;
    } else {
      ErrorsInConcat(a[1..], b);
      assert (a + b)[1..] == a[1..] + b;
      Regroup(ErrorOf(a[0]), ErrorsIn(a[1..]), ErrorsIn(b));
    }
  }

  lemma InConcat(a: seq<Record>, b: seq<Record>)
    ensures PointsIn(a + b) == PointsIn(a) + PointsIn(b)
    ensures ErrorsIn(a + b) == ErrorsIn(a) + ErrorsIn(b)
  {
    PointsInConcat(a, b);
    ErrorsInConcat(a, b);
  }

  lemma InInsert(l: seq<Record>, x: Record, r: seq<Record>)
    ensures PointsIn(l + [x] + r) == PointsIn(l) + PointOf(x) + PointsIn(r)
    ensures ErrorsIn(l + [x] + r) == ErrorsIn(l) + ErrorOf(x) + ErrorsIn(r)
  {
    InConcat(l + [x], r);
    InConcat(l, [x]);
    assert PointsIn([x]) == PointOf(x) && ErrorsIn([x]) == ErrorOf(x);
  }

  lemma InAppend(rs: seq<Record>, r: Record)
    ensures PointsIn(rs + [r]) == PointsIn(rs) + PointOf(r)
    ensures ErrorsIn(rs + [r]) == ErrorsIn(rs) + ErrorOf(r)
  {
    InConcat(rs, [r]);
    assert PointsIn([r]) == PointOf(r) && ErrorsIn([r]) == ErrorOf(r);
  }

  lemma InsertSame<T>(x: seq<T>, t: seq<T>, l: seq<T>, r: seq<T>)
    requires multiset(t) == multiset(l + r)
    ensures multiset(x + t) == multiset(l + x + r)
  {
  }

  /** The same records in another order hold the same points and errors. */
  lemma {:induction false} InPermutation(a: seq<Record>, b: seq<Record>)
    requires multiset(a) == multiset(b)
    ensures multiset(PointsIn(a)) == multiset(PointsIn(b)) && multiset(ErrorsIn(a)) == multiset(ErrorsIn(b))
    decreases |a|
  {
    if a == [] {
      assert |multiset(b)| == 0;
      assert b == [];
    } else {
      var k := MatchHead(a, b);
      var l, r := b[..k], b[k + 1..];
      InPermutation(a[1..], l + r);
      InInsert(l, a[0], r);
      InConcat(l, r);
      InsertSame(PointOf(a[0]), PointsIn(a[1..]), PointsIn(l), PointsIn(r));
      InsertSame(ErrorOf(a[0]), ErrorsIn(a[1..]), ErrorsIn(l), ErrorsIn(r));
    }
  }

  lemma {:induction false} InPointRecords(dps: seq<DP>)
    ensures PointsIn(PointRecords(dps)) == dps && ErrorsIn(PointRecords(dps)) == []
  {
    if dps != [] {
      assert PointRecords(dps)[1..] == PointRecords(dps[1..]);
      InPointRecords(dps[1..]);
    }
  }

  lemma {:induction false} InErrorRecords(errs: seq<TError>)
    ensures ErrorsIn(ErrorRecords(errs)) == errs && PointsIn(ErrorRecords(errs)) == []
  {
    if errs != [] {
      assert ErrorRecords(errs)[1..] == ErrorRecords(errs[1..]);
      InErrorRecords(errs[1..]);
    }
  }
}
