/** The request count of a point is the reader's running total, at least one.
    The client adds the counts up over all points; this says when that sum is a
    number of requests: when no host is heard of twice. */
module RequestCounts {
  import opened Folds
  import opened Records
  import opened Engine

  /** The points of one remote host, in the order they were made. */
  function PointsOfHost(dps: seq<DP>, addr: string): seq<DP> {
    if dps == [] then []
    else
      var last := dps[|dps| - 1];
      PointsOfHost(dps[..|dps| - 1], addr) + if last.remote == addr then [last] else []
  }

  function Counts(dps: seq<DP>): seq<int> {
    Column(dps, (d: DP) => d.txCount)
  }

  /** The counts a client has for one host. */
  function CountsOfHost(dps: seq<DP>, addr: string): seq<int> {
    Counts(PointsOfHost(dps, addr))
  }

  lemma CountsAppend(dps: seq<DP>, d: DP, addr: string)
    ensures CountsOfHost(dps + [d], addr)
         == if d.remote == addr then CountsOfHost(dps, addr) + [d.txCount as int] else CountsOfHost(dps, addr)
  {
    assert (dps + [d])[..|dps|] == dps;
  }

  // Every count is at least one, ascending, and at most the reader's total

  ghost predicate Within(counts: seq<int>, most: int) {
    forall i :: 0 <= i < |counts| ==> 1 <= counts[i] <= most
  }

  ghost predicate HostOk(produced: seq<DP>, addr: string, most: int) {
    Ascending(CountsOfHost(produced, addr)) && Within(CountsOfHost(produced, addr), most)
  }

  /** A request is counted before its body can be read, so statistics, and the
      lock that is needed to make them, imply a request. */
  ghost predicate ReaderCounts(r: Reader) {
    && |r.bodies| == r.txCount
    && (r.hasStats || !r.section.Free? ==> r.txCount >= 1)
    && (forall k :: 0 <= k < |r.senders| && (r.senders[k].stage.Sent? || r.senders[k].stage.Draining?) ==>
          r.txCount >= 1)
  }

  ghost predicate HarvestCounts(s: State) {
    && (s.harvest.Swapping? && s.harvest.ri < |s.readers| ==> s.readers[s.harvest.ri].txCount >= 1)
    && (s.harvest.Reading? && s.harvest.ri < |s.readers| ==>
          && s.readers[s.harvest.ri].txCount >= 1
          && (s.harvest.count.Some? ==>
                && 1 <= s.harvest.count.value <= s.readers[s.harvest.ri].txCount
                && Within(CountsOfHost(s.produced, s.readers[s.harvest.ri].addr), s.harvest.count.value)))
  }

  /** The hosts of a test: its readers' addresses, all different, are addrs, and
      every point is about one of them. */
  ghost predicate Hosts(s: State, addrs: seq<string>) {
    && |s.readers| == |addrs| && Distinct(addrs)
    && (forall i :: 0 <= i < |addrs| ==> s.readers[i].addr == addrs[i])
    && (forall j :: 0 <= j < |s.produced| ==> s.produced[j].remote in addrs && s.produced[j].txCount >= 1)
  }

  ghost predicate CountsOk(s: State, addrs: seq<string>) {
    && Hosts(s, addrs) && HarvestCounts(s)
    && (forall i :: 0 <= i < |s.readers| ==> ReaderCounts(s.readers[i]))
    && (forall i :: 0 <= i < |s.readers| ==> HostOk(s.produced, s.readers[i].addr, s.readers[i].txCount))
  }

  lemma ReaderCountsKept(r: Reader, cancelled: bool, a: ReaderAction)
    requires ReaderCounts(r)
    ensures var r' := StepReader(r, cancelled, a); ReaderCounts(r') && r'.addr == r.addr && r.txCount <= r'.txCount
  {
  }

  lemma WithinMore(counts: seq<int>, most: int, more: int)
    requires Within(counts, most) && most <= more
    ensures Within(counts, more)
  {
  }

  lemma ReaderStepCounts(s: State, i: nat, ra: ReaderAction, addrs: seq<string>)
    requires CountsOk(s, addrs) && i < |s.readers|
    ensures CountsOk(Apply(s, OnReader(i, ra)), addrs)
  {
    var r, r', s' := s.readers[i], StepReader(s.readers[i], s.cancelled, ra), Apply(s, OnReader(i, ra));
    ReaderCountsKept(r, s.cancelled, ra);
    assert HostOk(s.produced, r.addr, r.txCount);
    WithinMore(CountsOfHost(s.produced, r.addr), r.txCount, r'.txCount);
    assert s'.readers == s.readers[i := r'];
  }

  lemma HarvestStepCounts(s: State, a: Action, addrs: seq<string>)
    requires CountsOk(s, addrs) && !a.OnReader? && !a.Reset?
    ensures CountsOk(Apply(s, a), addrs)
  {
    var s' := Apply(s, a);
    SameReaders(s, a);
    forall i | 0 <= i < |s'.readers|
      ensures ReaderCounts(s'.readers[i]) && HostOk(s'.produced, s'.readers[i].addr, s'.readers[i].txCount)
    {
      assert ReaderCounts(s.readers[i]) && HostOk(s.produced, s.readers[i].addr, s.readers[i].txCount);
    }
  }

  /** What the harvester leaves alone in every reader until the reset. */
  lemma SameReaders(s: State, a: Action)
    requires !a.OnReader? && !a.Reset?
    ensures var s' := Apply(s, a);
      && |s'.readers| == |s.readers| && s'.produced == s.produced
      && forall i :: 0 <= i < |s.readers| ==>
           var r, r' := s.readers[i], s'.readers[i];
           && r'.addr == r.addr && r'.txCount == r.txCount && r'.bodies == r.bodies && r'.senders == r.senders
           && r'.hasStats == r.hasStats && r'.section == r.section
  {
  }

  lemma HostAppend(produced: seq<DP>, d: DP, addr: string, most: int)
    requires HostOk(produced, addr, most)
    requires d.remote == addr ==> 1 <= d.txCount <= most && Within(CountsOfHost(produced, addr), d.txCount)
    ensures HostOk(produced + [d], addr, most)
  {
    CountsAppend(produced, d, addr);
  }

  lemma ResetCounts(s: State, env: Env, addrs: seq<string>)
    requires CountsOk(s, addrs) && CanReset(s)
    ensures CountsOk(Apply(s, Reset(env)), addrs)
  {
    var s', d, h := Apply(s, Reset(env)), ResetPoint(s, env), s.harvest.ri;
    forall i | 0 <= i < |s.readers|
      ensures ReaderCounts(s'.readers[i]) && HostOk(s.produced + [d], s.readers[i].addr, s.readers[i].txCount)
    {
      assert ReaderCounts(s.readers[i]);
      assert addrs[i] == addrs[h] ==> i == h;
      HostAppend(s.produced, d, s.readers[i].addr, s.readers[i].txCount);
    }
    assert addrs[h] in addrs;
  }

  lemma ApplyCounts(s: State, a: Action, addrs: seq<string>)
    requires CountsOk(s, addrs)
    ensures CountsOk(Apply(s, a), addrs)
  {
    match a
    case OnReader(i, ra) =>
      if i < |s.readers| {
        ReaderStepCounts(s, i, ra, addrs);
      }
    case Reset(env) =>
      if CanReset(s) {
        ResetCounts(s, env, addrs);
      }
    case _ => HarvestStepCounts(s, a, addrs);
  }

  lemma {:induction false} RunCounts(s: State, acts: seq<Action>, addrs: seq<string>)
    requires CountsOk(s, addrs)
    ensures CountsOk(Exec(s, acts), addrs)
  {
    if acts != [] {
      RunCounts(s, acts[..|acts| - 1], addrs);
      ApplyCounts(Exec(s, acts[..|acts| - 1]), acts[|acts| - 1], addrs);
    }
  }

  lemma StartCounts(config: Config, addrs: seq<string>, n: nat)
    requires Distinct(addrs)
    ensures CountsOk(Start(config, addrs, n), addrs)
  {
  }

  /** In every run on distinct hosts, each point carries at least one request,
      a host's counts ascend, and none exceeds the requests sent to it. */
  lemma CountsAreTotals(config: Config, addrs: seq<string>, n: nat, acts: seq<Action>)
    requires Distinct(addrs)
    ensures var s := Exec(Start(config, addrs, n), acts);
      && Hosts(s, addrs)
      && forall i :: 0 <= i < |addrs| ==> HostOk(s.produced, addrs[i], s.readers[i].txCount)
  {
    StartCounts(config, addrs, n);
    RunCounts(Start(config, addrs, n), acts, addrs);
  }

  // Sums

  /** What has been reported of a host: its largest, which is its latest, count. */
  function Reported(dps: seq<DP>, addr: string): int {
    Fold(Max, CountsOfHost(dps, addr))
  }

  function AllReported(dps: seq<DP>, addrs: seq<string>): int {
    if addrs == [] then 0 else Reported(dps, addrs[0]) + AllReported(dps, addrs[1..])
  }

  function AllCounts(dps: seq<DP>, addrs: seq<string>): int {
    if addrs == [] then 0 else Fold(Add, CountsOfHost(dps, addrs[0])) + AllCounts(dps, addrs[1..])
  }

  /** No host has two points. */
  ghost predicate HeardOnce(dps: seq<DP>, addrs: seq<string>) {
    forall i :: 0 <= i < |addrs| ==> |CountsOfHost(dps, addrs[i])| <= 1
  }

  lemma {:induction false} SumOverMax(counts: seq<int>)
    requires forall i :: 0 <= i < |counts| ==> counts[i] >= 1
    ensures Fold(Max, counts) <= Fold(Add, counts)
    ensures counts != [] ==> Fold(Max, counts) >= 1
    ensures Fold(Max, counts) == Fold(Add, counts) <==> |counts| <= 1
  {
    if counts != [] {
      SumOverMax(counts[1..]);
    }
  }

  lemma {:induction false} CountsOfPoints(dps: seq<DP>, addr: string)
    requires forall j :: 0 <= j < |dps| ==> dps[j].txCount >= 1
    ensures forall i :: 0 <= i < |CountsOfHost(dps, addr)| ==> CountsOfHost(dps, addr)[i] >= 1
  {
    if dps != [] {
      var init, d := dps[..|dps| - 1], dps[|dps| - 1];
      assert dps == init + [d];
      CountsOfPoints(init, addr);
      CountsAppend(init, d, addr);
    }
  }

  lemma {:induction false} SumsOverReported(dps: seq<DP>, addrs: seq<string>)
    requires forall j :: 0 <= j < |dps| ==> dps[j].txCount >= 1
    ensures AllReported(dps, addrs) <= AllCounts(dps, addrs)
    ensures AllReported(dps, addrs) == AllCounts(dps, addrs) <==> HeardOnce(dps, addrs)
  {
    if addrs != [] {
      SumsOverReported(dps, addrs[1..]);
      CountsOfPoints(dps, addrs[0]);
      SumOverMax(CountsOfHost(dps, addrs[0]));
      HeardSplit(dps, addrs);
    }
  }

  lemma HeardSplit(dps: seq<DP>, addrs: seq<string>)
    requires addrs != []
    ensures HeardOnce(dps, addrs) <==> |CountsOfHost(dps, addrs[0])| <= 1 && HeardOnce(dps, addrs[1..])
  {
    assert forall i :: 0 < i < |addrs| ==> addrs[i] == addrs[1..][i - 1];
  }

  lemma {:induction false} CountsJoin(dps: seq<DP>, d: DP, addrs: seq<string>)
    requires Distinct(addrs)
    ensures AllCounts(dps + [d], addrs) == AllCounts(dps, addrs) + if d.remote in addrs then d.txCount else 0
  {
    if addrs != [] {
      CountsJoin(dps, d, addrs[1..]);
      CountsAppend(dps, d, addrs[0]);
      FoldAppend(Add, CountsOfHost(dps, addrs[0]), d.txCount);
      assert forall i :: 0 < i < |addrs| ==> addrs[i] == addrs[1..][i - 1] && addrs[i] != addrs[0];
      assert d.remote in addrs <==> d.remote == addrs[0] || d.remote in addrs[1..];
    }
  }

  lemma {:induction false} NoCounts(addrs: seq<string>)
    ensures AllCounts([], addrs) == 0
  {
    if addrs != [] {
      NoCounts(addrs[1..]);
    }
  }

  /** The sum over all points is the sum over hosts of their points. */
  lemma {:induction false} CountsByHost(dps: seq<DP>, addrs: seq<string>)
    requires Distinct(addrs) && forall j :: 0 <= j < |dps| ==> dps[j].remote in addrs
    ensures Fold(Add, Counts(dps)) == AllCounts(dps, addrs)
  {
    if dps == [] {
      NoCounts(addrs);
    } else {
      var init, d := dps[..|dps| - 1], dps[|dps| - 1];
      assert dps == init + [d];
      CountsByHost(init, addrs);
      CountsJoin(init, d, addrs);
      assert Counts(dps) == Counts(init) + [d.txCount as int];
      FoldAppend(Add, Counts(init), d.txCount);
    }
  }

  /** For any points of a test's hosts in any order, such as a client holds at
      any moment: their counts add up to at least what has been reported of all
      hosts, and to exactly that if and only if no host has two points. */
  lemma SumOfPoints(dps: seq<DP>, addrs: seq<string>)
    requires Distinct(addrs) && forall j :: 0 <= j < |dps| ==> dps[j].remote in addrs && dps[j].txCount >= 1
    ensures Fold(Add, Counts(dps)) >= AllReported(dps, addrs)
    ensures Fold(Add, Counts(dps)) == AllReported(dps, addrs) <==> HeardOnce(dps, addrs)
  {
    CountsByHost(dps, addrs);
    SumsOverReported(dps, addrs);
  }

  lemma LatestIsLargest(counts: seq<int>)
    requires Ascending(counts) && counts != [] && counts[|counts| - 1] >= 0
    ensures Fold(Max, counts) == counts[|counts| - 1]
  {
    FoldIsExtreme(Max, counts);
    var last := |counts| - 1;
    assert Op(Max, Fold(Max, counts), counts[last]) == Fold(Max, counts);
    assert forall i :: 0 <= i < last ==> counts[i] <= counts[last];
  }

  /** In every run on distinct hosts: a host's counts add up to its latest one
      exactly when it has one point, and to more otherwise. */
  lemma SumOfCounts(config: Config, addrs: seq<string>, n: nat, acts: seq<Action>, i: nat)
    requires Distinct(addrs) && i < |addrs|
    ensures var s := Exec(Start(config, addrs, n), acts);
      var counts := CountsOfHost(s.produced, addrs[i]);
      |s.readers| == |addrs| &&
      (counts != [] ==>
        && Fold(Add, counts) >= counts[|counts| - 1] >= 1 && counts[|counts| - 1] <= s.readers[i].txCount
        && (Fold(Add, counts) == counts[|counts| - 1] <==> |counts| == 1))
  {
    CountsAreTotals(config, addrs, n, acts);
    var s := Exec(Start(config, addrs, n), acts);
    var counts := CountsOfHost(s.produced, addrs[i]);
    assert HostOk(s.produced, addrs[i], s.readers[i].txCount);
    if counts != [] {
      SumOverMax(counts);
      LatestIsLargest(counts);
    }
  }
}
