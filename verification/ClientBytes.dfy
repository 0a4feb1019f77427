/** The client's TXT against the requests of all servers. */
module ClientBytes {
  import opened Folds
  import opened Records
  import opened Measurement
  import opened ByteBounds
  import opened Cluster
  import P = Pipeline
  import RealTime

  ghost predicate AllBounded(c: State, config: Config) {
    forall i :: 0 <= i < |c.servers| ==> Bounded(c.servers[i].e) && c.servers[i].e.config == config
  }

  lemma PipelineBounded(s: P.State, a: P.Action)
    requires Bounded(s.e)
    ensures Bounded(P.Apply(s, a).e) && P.Apply(s, a).e.config == s.e.config
  {
    var ea := P.EngineSide(s, a);
    if ea.Some? {
      ApplyBounded(s.e, ea.value);
      ConfigStays(s.e, ea.value);
    }
  }

  lemma {:induction false} RunAllBounded(c: State, acts: seq<Action>, config: Config)
    requires AllBounded(c, config)
    ensures AllBounded(Exec(c, acts), config)
  {
    if acts != [] {
      var last := |acts| - 1;
      RunAllBounded(c, acts[..last], config);
      var t := Exec(c, acts[..last]);
      if acts[last].i < |t.servers| {
        PipelineBounded(t.servers[acts[last].i], acts[last].a);
      }
    }
  }

  lemma StartAllBounded(config: Config, hosts: seq<seq<string>>, n: nat, save: bool)
    ensures AllBounded(Start(config, hosts, n, save), config)
  {
    forall i | 0 <= i < |hosts| ensures Bounded(Start(config, hosts, n, save).servers[i].e) {
      StartBounded(config, hosts[i], n);
    }
  }

  /** The requests that all servers have sent. */
  function AllRequests(servers: seq<P.State>): int {
    if servers == [] then 0 else Requests(servers[0].e.readers) + AllRequests(servers[1..])
  }

  /** What a server has counted is at least what it has reported, the client's
      points included. */
  ghost predicate CountedCovers(s: P.State) {
    Fold(Add, Bytes(s.d.client.points)) + BytesElsewhere(s) <= s.e.counted
  }

  lemma ServerCovers(s: P.State, n: nat)
    requires P.Inv(s, n) && Bounded(s.e)
    ensures CountedCovers(s)
  {
    P.PointsConserved(s.d);
    P.SplitValues(s.d.client.points, P.Undelivered(s.d), s.d.produced, Add, (d: DP) => d.txTotal);
  }

  lemma {:induction false} AllCover(servers: seq<P.State>)
    requires forall i :: 0 <= i < |servers| ==> CountedCovers(servers[i])
    ensures Fold(Add, Bytes(PointsFrom(servers))) + AllBytesElsewhere(servers) <= Counted(servers)
  {
    if servers == [] {
      assert Bytes([]) == [];
    } else {
      assert CountedCovers(servers[0]);
      AllCover(servers[1..]);
      BytesConcat(servers[0].d.client.points, PointsFrom(servers[1..]));
    }
  }

  lemma {:induction false} CountedPerRequest(servers: seq<P.State>, config: Config)
    requires !config.testType.StreamTest?
    requires forall i :: 0 <= i < |servers| ==> Bounded(servers[i].e) && servers[i].e.config == config
    ensures Counted(servers) <= config.payload * AllRequests(servers)
  {
    if servers != [] {
      var first, rest := Requests(servers[0].e.readers), AllRequests(servers[1..]);
      AllPutOutIsBounded(servers[0].e.readers, config.payload);
      CountedPerRequest(servers[1..], config);
      PerRequest(config.payload, first, rest);
    }
  }

  lemma PerRequest(p: int, a: int, b: int)
    ensures p * (a + b) == p * a + p * b
  {
  }

  lemma {:induction false} NotNegative(s: seq<int>)
    requires forall i :: 0 <= i < |s| ==> s[i] >= 0
    ensures Fold(Add, s) >= 0
  {
    if s != [] {
      NotNegative(s[1..]);
    }
  }

  lemma ElsewhereIsNatural(s: P.State)
    ensures BytesElsewhere(s) >= 0
  {
    NotNegative(Bytes(P.Undelivered(s.d)));
    NotNegative(Residues(s.e.readers));
  }

  lemma {:induction false} AllElsewhereIsNatural(servers: seq<P.State>)
    ensures AllBytesElsewhere(servers) >= 0
  {
    if servers != [] {
      ElsewhereIsNatural(servers[0]);
      AllElsewhereIsNatural(servers[1..]);
    }
  }

  lemma ReachableBytes(config: Config, hosts: seq<seq<string>>, n: nat, save: bool, acts: seq<Action>)
    ensures var c := Exec(Start(config, hosts, n, save), acts);
      && Inv(c, n) && AllBounded(c, config)
      && 0 <= Fold(Add, Bytes(c.points)) == Fold(Add, Bytes(PointsFrom(c.servers)))
      && Fold(Add, Bytes(c.points)) + AllBytesElsewhere(c.servers) <= Counted(c.servers)
      && AllBytesElsewhere(c.servers) >= 0
  {
    ReachableInv(config, hosts, n, save, acts);
    StartAllBounded(config, hosts, n, save);
    RunAllBounded(Start(config, hosts, n, save), acts, config);
    var c := Exec(Start(config, hosts, n, save), acts);
    forall i | 0 <= i < |c.servers| ensures CountedCovers(c.servers[i]) {
      ServerCovers(c.servers[i], n);
    }
    AllCover(c.servers);
    FoldPermutation(Add, c.points, PointsFrom(c.servers), (d: DP) => d.txTotal);
    NotNegative(Bytes(c.points));
    AllElsewhereIsNatural(c.servers);
  }

  lemma WrapAtMost(x: nat)
    ensures 0 <= Wrap(x) <= x
  {
  }

  /** In every run of a request test on any number of servers, the client's TXT is
      at most PayloadSize times the requests that all servers have sent. */
  lemma TxtPerRequest(config: Config, hosts: seq<seq<string>>, n: nat, save: bool, acts: seq<Action>)
    requires !config.testType.StreamTest?
    ensures var c := Exec(Start(config, hosts, n, save), acts);
      RealTime.Total(c.points, RealTime.TX_TOTAL) <= config.payload * AllRequests(c.servers)
  {
    ReachableBytes(config, hosts, n, save, acts);
    var c := Exec(Start(config, hosts, n, save), acts);
    CountedPerRequest(c.servers, config);
    P.SameBytes(c.points);
    WrapAtMost(Fold(Add, Bytes(c.points)));
  }

  lemma SmallAndCongruent(a: int, b: int)
    requires 0 <= a <= b < TWO_64 && Wrap(a) == Wrap(b)
    ensures a == b
  {
  }

  lemma ExactBytes(counted: int, points: int, elsewhere: int)
    requires Balanced(counted, Wrap(points), elsewhere)
    requires 0 <= points && 0 <= elsewhere && points + elsewhere <= counted < TWO_64
    ensures counted == Wrap(points) + elsewhere && Wrap(points) == points
  {
    UnwrappedBalanced(counted, points, elsewhere);
    SmallAndCongruent(points + elsewhere, counted);
  }

  /** In every run in which fewer than 2^64 bytes have been counted, nothing wraps:
      the bytes counted on all servers are exactly the client's TXT plus, over all
      servers, those under way, in a point being made, and in the readers. */
  lemma BytesAreExact(config: Config, hosts: seq<seq<string>>, n: nat, save: bool, acts: seq<Action>)
    requires Counted(Exec(Start(config, hosts, n, save), acts).servers) < TWO_64
    ensures var c := Exec(Start(config, hosts, n, save), acts);
      Counted(c.servers) == RealTime.Total(c.points, RealTime.TX_TOTAL) + AllBytesElsewhere(c.servers)
  {
    ReachableBytes(config, hosts, n, save, acts);
    var c := Exec(Start(config, hosts, n, save), acts);
    BytesOfClient(c, n);
    P.SameBytes(c.points);
    ExactBytes(Counted(c.servers), Fold(Add, Bytes(c.points)), AllBytesElsewhere(c.servers));
  }
}
