/** The client's TXC over all servers and all of their remote hosts. */
module ClientCounts {
  import opened Folds
  import opened Records
  import opened RequestCounts
  import opened Cluster
  import P = Pipeline
  import RealTime

  /** What has been reported to the client of all hosts of all servers. */
  function ReportedByAll(servers: seq<P.State>, hosts: seq<seq<string>>): int
    requires |servers| == |hosts|
  {
    if servers == [] then 0
    else AllReported(servers[0].d.client.points, hosts[0]) + ReportedByAll(servers[1..], hosts[1..])
  }

  /** The client has not heard twice about any host from any server. */
  ghost predicate AllHeardOnce(servers: seq<P.State>, hosts: seq<seq<string>>)
    requires |servers| == |hosts|
  {
    forall i :: 0 <= i < |servers| ==> HeardOnce(servers[i].d.client.points, hosts[i])
  }

  ghost predicate ServerCounts(s: P.State, addrs: seq<string>) {
    Distinct(addrs) && forall j :: 0 <= j < |s.d.client.points| ==>
      s.d.client.points[j].remote in addrs && s.d.client.points[j].txCount >= 1
  }

  /** The client's points of a server are points that the server made. */
  lemma ServerCountsOk(s: P.State, addrs: seq<string>, n: nat)
    requires P.Inv(s, n) && CountsOk(s.e, addrs)
    ensures ServerCounts(s, addrs)
  {
    P.PointsConserved(s.d);
    forall j | 0 <= j < |s.d.client.points|
      ensures s.d.client.points[j].remote in addrs && s.d.client.points[j].txCount >= 1
    {
      Conserved(s.d.client.points, P.Undelivered(s.d), s.d.produced, j);
    }
  }

  lemma Conserved(points: seq<DP>, rest: seq<DP>, all: seq<DP>, j: nat)
    requires multiset(points + rest) == multiset(all) && j < |points|
    ensures exists k :: 0 <= k < |all| && all[k] == points[j]
  {
    assert (points + rest)[j] == points[j];
    assert points[j] in multiset(all);
  }

  lemma CountsConcat(a: seq<DP>, b: seq<DP>)
    ensures Fold(Add, Counts(a + b)) == Fold(Add, Counts(a)) + Fold(Add, Counts(b))
  {
    ColumnConcat(a, b, (d: DP) => d.txCount);
    FoldConcat(Add, Counts(a), Counts(b));
  }

  lemma {:induction false} SumOverServers(servers: seq<P.State>, hosts: seq<seq<string>>)
    requires |servers| == |hosts| && forall i :: 0 <= i < |servers| ==> ServerCounts(servers[i], hosts[i])
    ensures Fold(Add, Counts(PointsFrom(servers))) >= ReportedByAll(servers, hosts)
    ensures Fold(Add, Counts(PointsFrom(servers))) == ReportedByAll(servers, hosts) <==> AllHeardOnce(servers, hosts)
  {
    if servers == [] {
      assert Counts([]) == [];
    } else {
      assert ServerCounts(servers[0], hosts[0]);
      SumOfPoints(servers[0].d.client.points, hosts[0]);
      SumOverServers(servers[1..], hosts[1..]);
      CountsConcat(servers[0].d.client.points, PointsFrom(servers[1..]));
      HeardSplitServers(servers, hosts);
    }
  }

  lemma HeardSplitServers(servers: seq<P.State>, hosts: seq<seq<string>>)
    requires |servers| == |hosts| > 0
    ensures AllHeardOnce(servers, hosts)
       <==> HeardOnce(servers[0].d.client.points, hosts[0]) && AllHeardOnce(servers[1..], hosts[1..])
  {
    assert forall i :: 0 < i < |servers| ==> servers[i] == servers[1..][i - 1] && hosts[i] == hosts[1..][i - 1];
  }

  // Runs

  ghost predicate AllCountsOk(c: State, hosts: seq<seq<string>>) {
    |c.servers| == |hosts| && forall i :: 0 <= i < |hosts| ==> CountsOk(c.servers[i].e, hosts[i])
  }

  lemma PipelineCounts(s: P.State, a: P.Action, addrs: seq<string>)
    requires CountsOk(s.e, addrs)
    ensures CountsOk(P.Apply(s, a).e, addrs)
  {
    var ea := P.EngineSide(s, a);
    if ea.Some? {
      ApplyCounts(s.e, ea.value, addrs);
    }
  }

  lemma {:induction false} RunAllCounts(c: State, acts: seq<Action>, hosts: seq<seq<string>>)
    requires AllCountsOk(c, hosts)
    ensures AllCountsOk(Exec(c, acts), hosts)
  {
    if acts != [] {
      var last := |acts| - 1;
      RunAllCounts(c, acts[..last], hosts);
      var t := Exec(c, acts[..last]);
      if acts[last].i < |t.servers| {
        PipelineCounts(t.servers[acts[last].i], acts[last].a, hosts[acts[last].i]);
      }
    }
  }

  lemma StartAllCounts(config: Config, hosts: seq<seq<string>>, n: nat, save: bool)
    requires forall i :: 0 <= i < |hosts| ==> Distinct(hosts[i])
    ensures AllCountsOk(Start(config, hosts, n, save), hosts)
  {
    forall i | 0 <= i < |hosts|
      ensures CountsOk(Start(config, hosts, n, save).servers[i].e, hosts[i])
    {
      StartCounts(config, hosts[i], n);
    }
  }

  /** In every run of any number of servers, each with distinct hosts: the sum
      that the client prints as TXC, modulo 2^64, is at least what has been
      reported to it of all hosts of all servers, and is exactly that if and only
      if it has at most one point about each host from each server. */
  lemma TxcOfClient(config: Config, hosts: seq<seq<string>>, n: nat, save: bool, acts: seq<Action>)
    requires forall i :: 0 <= i < |hosts| ==> Distinct(hosts[i])
    ensures var c := Exec(Start(config, hosts, n, save), acts);
      var sum := Fold(Add, Counts(c.points));
      && RealTime.Total(c.points, RealTime.TX_COUNT) == Wrap(sum)
      && |c.servers| == |hosts|
      && sum >= ReportedByAll(c.servers, hosts)
      && (sum == ReportedByAll(c.servers, hosts) <==> AllHeardOnce(c.servers, hosts))
  {
    ReachableInv(config, hosts, n, save, acts);
    StartAllCounts(config, hosts, n, save);
    RunAllCounts(Start(config, hosts, n, save), acts, hosts);
    TxcOf(Exec(Start(config, hosts, n, save), acts), hosts, n);
  }

  lemma TxcOf(c: State, hosts: seq<seq<string>>, n: nat)
    requires Inv(c, n) && AllCountsOk(c, hosts)
    ensures var sum := Fold(Add, Counts(c.points));
      && RealTime.Total(c.points, RealTime.TX_COUNT) == Wrap(sum)
      && sum >= ReportedByAll(c.servers, hosts)
      && (sum == ReportedByAll(c.servers, hosts) <==> AllHeardOnce(c.servers, hosts))
  {
    forall i | 0 <= i < |hosts| ensures ServerCounts(c.servers[i], hosts[i]) {
      ServerCountsOk(c.servers[i], hosts[i], n);
    }
    SumOverServers(c.servers, hosts);
    FoldPermutation(Add, c.points, PointsFrom(c.servers), (d: DP) => d.txCount);
    assert Column(c.points, RealTime.TX_COUNT) == Counts(c.points);
  }
}
