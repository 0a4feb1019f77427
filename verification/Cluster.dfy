/** All servers of a test and the one client behind them. Every handler of every
    connection appends to the same collection, so arrivals from different
    servers interleave in any way. */
module Cluster {
  import opened Folds
  import opened Records
  import D = Delivery
  import DR = DeliveryRuns
  import opened Measurement
  import P = Pipeline
  import RealTime

  /** points and errors are the client's responseDPS and responseERR. */
  datatype State = State(servers: seq<P.State>, points: seq<DP>, errors: seq<TError>)

  datatype Action = On(i: nat, a: P.Action)

  /** The batch that a server's step hands to the client, if it is a handler's. */
  function HandledBy(s: P.State, a: P.Action): Batch {
    if a.Deliver? && a.a.ClientHandle? && a.a.k < |s.d.client.handlers|
    then s.d.client.handlers[a.a.k]
    else Batch([], [])
  }

  function Start(config: Config, hosts: seq<seq<string>>, n: nat, save: bool): State {
    State(seq(|hosts|, i requires 0 <= i < |hosts| => P.Start(config, hosts[i], n, save)), [], [])
  }

  function Apply(c: State, a: Action): State {
    if a.i < |c.servers| then
      var b := HandledBy(c.servers[a.i], a.a);
      State(c.servers[a.i := P.Apply(c.servers[a.i], a.a)], c.points + b.points, c.errors + b.errors)
    else c
  }

  function Exec(c: State, acts: seq<Action>): State {
    if acts == [] then c else Apply(Exec(c, acts[..|acts| - 1]), acts[|acts| - 1])
  }

  /** What came from each server, one server after the other. */
  function PointsFrom(servers: seq<P.State>): seq<DP> {
    if servers == [] then [] else servers[0].d.client.points + PointsFrom(servers[1..])
  }

  function ErrorsFrom(servers: seq<P.State>): seq<TError> {
    if servers == [] then [] else servers[0].d.client.errors + ErrorsFrom(servers[1..])
  }

  ghost predicate AllInv(servers: seq<P.State>, n: nat) {
    forall i :: 0 <= i < |servers| ==> P.Inv(servers[i], n)
  }

  /** The client's collection is what came from the servers, in some order. */
  ghost predicate Collected(c: State) {
    && multiset(c.points) == multiset(PointsFrom(c.servers))
    && multiset(c.errors) == multiset(ErrorsFrom(c.servers))
  }

  ghost predicate Inv(c: State, n: nat) {
    AllInv(c.servers, n) && Collected(c)
  }

  lemma HandlerAppends(s: P.State, a: P.Action)
    ensures P.Apply(s, a).d.client.points == s.d.client.points + HandledBy(s, a).points
    ensures P.Apply(s, a).d.client.errors == s.d.client.errors + HandledBy(s, a).errors
  {
    if a.Deliver? && P.Independent(a.a) {
      DeliveryAppends(s.d, a.a);
    } else {
      OthersAppendNothing(s, a);
    }
    assert s.d.client.points + [] == s.d.client.points && s.d.client.errors + [] == s.d.client.errors;
  }

  lemma DeliveryAppends(d: D.State, a: D.Action)
    ensures var b := if a.ClientHandle? && a.k < |d.client.handlers| then d.client.handlers[a.k] else Batch([], []);
      && D.Apply(d, a).client.points == d.client.points + b.points
      && D.Apply(d, a).client.errors == d.client.errors + b.errors
  {
    assert d.client.points + [] == d.client.points && d.client.errors + [] == d.client.errors;
  }

  lemma OthersAppendNothing(s: P.State, a: P.Action)
    requires !(a.Deliver? && P.Independent(a.a))
    ensures P.Apply(s, a).d.client == s.d.client && HandledBy(s, a) == Batch([], [])
  {
  }

  lemma {:induction false} FromUpdate(servers: seq<P.State>, i: nat, s: P.State, b: Batch)
    requires i < |servers|
    requires s.d.client.points == servers[i].d.client.points + b.points
    requires s.d.client.errors == servers[i].d.client.errors + b.errors
    ensures multiset(PointsFrom(servers[i := s])) == multiset(PointsFrom(servers) + b.points)
    ensures multiset(ErrorsFrom(servers[i := s])) == multiset(ErrorsFrom(servers) + b.errors)
  {
    if i == 0 {
      assert servers[0 := s][1..] == servers[1..];
      SwapTail(servers[0].d.client.points, b.points, PointsFrom(servers[1..]));
      SwapTail(servers[0].d.client.errors, b.errors, ErrorsFrom(servers[1..]));
    } else {
      assert servers[i := s][1..] == servers[1..][i - 1 := s];
      FromUpdate(servers[1..], i - 1, s, b);
      SameHead(servers[0].d.client.points, PointsFrom(servers[1..]), b.points, PointsFrom(servers[i := s][1..]));
      SameHead(servers[0].d.client.errors, ErrorsFrom(servers[1..]), b.errors, ErrorsFrom(servers[i := s][1..]));
    }
  }

  lemma SwapTail<T>(x: seq<T>, b: seq<T>, rest: seq<T>)
    ensures multiset((x + b) + rest) == multiset((x + rest) + b)
  {
  }

  lemma SameHead<T>(x: seq<T>, rest: seq<T>, b: seq<T>, all: seq<T>)
    requires multiset(all) == multiset(rest + b)
    ensures multiset(x + all) == multiset((x + rest) + b)
  {
  }

  lemma AppendBoth<T>(a: seq<T>, b: seq<T>, x: seq<T>, bx: seq<T>)
    requires multiset(a) == multiset(b) && multiset(bx) == multiset(b + x)
    ensures multiset(a + x) == multiset(bx)
  {
  }

  lemma ApplyCollected(c: State, a: Action)
    requires Collected(c)
    ensures Collected(Apply(c, a))
  {
    if a.i < |c.servers| {
      var s, b := P.Apply(c.servers[a.i], a.a), HandledBy(c.servers[a.i], a.a);
      HandlerAppends(c.servers[a.i], a.a);
      FromUpdate(c.servers, a.i, s, b);
      AppendBoth(c.points, PointsFrom(c.servers), b.points, PointsFrom(c.servers[a.i := s]));
      AppendBoth(c.errors, ErrorsFrom(c.servers), b.errors, ErrorsFrom(c.servers[a.i := s]));
    }
  }

  lemma UpdateInv(servers: seq<P.State>, i: nat, s: P.State, n: nat)
    requires AllInv(servers, n) && i < |servers| && P.Inv(s, n)
    ensures AllInv(servers[i := s], n)
  {
  }

  lemma ApplyInv(c: State, a: Action, n: nat)
    requires Inv(c, n)
    ensures Inv(Apply(c, a), n)
  {
    if a.i < |c.servers| {
      P.ApplyInv(c.servers[a.i], a.a, n);
      UpdateInv(c.servers, a.i, P.Apply(c.servers[a.i], a.a), n);
    }
    ApplyCollected(c, a);
  }

  lemma {:induction false} RunInv(c: State, acts: seq<Action>, n: nat)
    requires Inv(c, n)
    ensures Inv(Exec(c, acts), n)
  {
    if acts != [] {
      RunInv(c, acts[..|acts| - 1], n);
      ApplyInv(Exec(c, acts[..|acts| - 1]), acts[|acts| - 1], n);
    }
  }

  lemma {:induction false} NothingFrom(servers: seq<P.State>)
    requires forall i :: 0 <= i < |servers| ==> servers[i].d.client.points == [] && servers[i].d.client.errors == []
    ensures PointsFrom(servers) == [] && ErrorsFrom(servers) == []
  {
    if servers != [] {
      NothingFrom(servers[1..]);
    }
  }

  lemma StartInv(config: Config, hosts: seq<seq<string>>, n: nat, save: bool)
    ensures Inv(Start(config, hosts, n, save), n)
  {
    var c := Start(config, hosts, n, save);
    forall i | 0 <= i < |c.servers| ensures P.Inv(c.servers[i], n) {
      P.StartInv(config, hosts[i], n, save);
    }
    NothingFrom(c.servers);
  }

  lemma ReachableInv(config: Config, hosts: seq<seq<string>>, n: nat, save: bool, acts: seq<Action>)
    ensures Inv(Exec(Start(config, hosts, n, save), acts), n)
  {
    StartInv(config, hosts, n, save);
    RunInv(Start(config, hosts, n, save), acts, n);
  }

  // Bytes

  /** All bytes that the body readers of all servers counted. */
  function Counted(servers: seq<P.State>): int {
    if servers == [] then 0 else servers[0].e.counted + Counted(servers[1..])
  }

  /** Bytes that are not with the client: in undelivered points, in a point
      being made, or in a reader. */
  function BytesElsewhere(s: P.State): int {
    Fold(Add, Bytes(P.Undelivered(s.d))) + P.Residue(s.e)
  }

  function AllBytesElsewhere(servers: seq<P.State>): int {
    if servers == [] then 0 else BytesElsewhere(servers[0]) + AllBytesElsewhere(servers[1..])
  }

  lemma BytesConcat(a: seq<DP>, b: seq<DP>)
    ensures Fold(Add, Bytes(a + b)) == Fold(Add, Bytes(a)) + Fold(Add, Bytes(b))
  {
    ColumnConcat(a, b, (d: DP) => d.txTotal);
    FoldConcat(Add, Bytes(a), Bytes(b));
  }

  lemma WrapSum(a: int, a': int, b: int, b': int)
    requires Wrap(a) == Wrap(a') && Wrap(b) == Wrap(b')
    ensures Wrap(a + b) == Wrap(a' + b')
  {
    WrapAdd(a, b);
    WrapAdd(a', b);
    WrapAdd(b, a');
    WrapAdd(b', a');
    assert b + a' == a' + b && b' + a' == a' + b';
  }

  /** counted bytes are those of a client's points and those elsewhere. */
  ghost predicate Balanced(counted: int, points: int, elsewhere: int) {
    Wrap(counted) == Wrap(points + elsewhere)
  }

  lemma JoinBalanced(c1: int, p1: int, e1: int, c2: int, p2: int, e2: int, c: int, p: int, e: int)
    requires Balanced(c1, p1, e1) && Balanced(c2, p2, e2)
    requires c == c1 + c2 && p == p1 + p2 && e == e1 + e2
    ensures Balanced(c, p, e)
  {
    WrapSum(c1, p1 + e1, c2, p2 + e2);
    assert (p1 + e1) + (p2 + e2) == p + e;
  }

  lemma WrappedBalanced(counted: int, points: int, elsewhere: int)
    requires Balanced(counted, points, elsewhere)
    ensures Balanced(counted, Wrap(points), elsewhere)
  {
    WrapAdd(points, elsewhere);
  }

  lemma UnwrappedBalanced(counted: int, points: int, elsewhere: int)
    requires Balanced(counted, Wrap(points), elsewhere)
    ensures Balanced(counted, points, elsewhere)
  {
    WrapAdd(points, elsewhere);
  }

  ghost predicate ServerBalanced(s: P.State) {
    Balanced(s.e.counted, Fold(Add, Bytes(s.d.client.points)), BytesElsewhere(s))
  }

  lemma ServerBytes(s: P.State, n: nat)
    requires P.Inv(s, n)
    ensures ServerBalanced(s)
  {
    P.BytesLocated(s);
    P.SameBytes(s.d.client.points);
    FromLocated(s.e.counted, P.LocatedBytes(s), Fold(Add, Bytes(s.d.client.points)), BytesElsewhere(s));
  }

  lemma FromLocated(counted: int, located: int, points: int, elsewhere: int)
    requires Wrap(counted) == Wrap(located) && located == Wrap(points) + elsewhere
    ensures Balanced(counted, points, elsewhere)
  {
    UnwrappedBalanced(counted, points, elsewhere);
  }

  lemma {:induction false} AllBytes(servers: seq<P.State>)
    requires forall i :: 0 <= i < |servers| ==> ServerBalanced(servers[i])
    ensures Balanced(Counted(servers), Fold(Add, Bytes(PointsFrom(servers))), AllBytesElsewhere(servers))
  {
    if servers == [] {
      assert Bytes([]) == [];
    } else {
      var s, rest := servers[0], servers[1..];
      AllBytes(rest);
      BytesConcat(s.d.client.points, PointsFrom(rest));
      assert ServerBalanced(s);
      JoinBalanced(s.e.counted, Fold(Add, Bytes(s.d.client.points)), BytesElsewhere(s),
                   Counted(rest), Fold(Add, Bytes(PointsFrom(rest))), AllBytesElsewhere(rest),
                   Counted(servers), Fold(Add, Bytes(PointsFrom(servers))), AllBytesElsewhere(servers));
    }
  }

  lemma SameTotal(points: seq<DP>, from: seq<DP>)
    requires multiset(points) == multiset(from)
    ensures RealTime.Total(points, RealTime.TX_TOTAL) == Wrap(Fold(Add, Bytes(from)))
  {
    FoldPermutation(Add, points, from, RealTime.TX_TOTAL);
    P.SameBytes(from);
  }

  /** The printed total and all that is not printed yet. */
  lemma BytesOfClient(c: State, n: nat)
    requires Inv(c, n)
    ensures Balanced(Counted(c.servers), RealTime.Total(c.points, RealTime.TX_TOTAL), AllBytesElsewhere(c.servers))
  {
    forall i | 0 <= i < |c.servers| ensures ServerBalanced(c.servers[i]) {
      ServerBytes(c.servers[i], n);
    }
    AllBytes(c.servers);
    SameTotal(c.points, PointsFrom(c.servers));
    WrappedBalanced(Counted(c.servers), Fold(Add, Bytes(PointsFrom(c.servers))), AllBytesElsewhere(c.servers));
  }

  /** In every run of any number of servers and their client, modulo 2^64: the
      bytes counted by all body readers of all servers are the client's TXT plus,
      over all servers, the bytes of points under way, of a point being made,
      and left in the readers' counters. */
  lemma BytesAreConserved(config: Config, hosts: seq<seq<string>>, n: nat, save: bool, acts: seq<Action>)
    ensures var c := Exec(Start(config, hosts, n, save), acts);
      Balanced(Counted(c.servers), RealTime.Total(c.points, RealTime.TX_TOTAL), AllBytesElsewhere(c.servers))
  {
    ReachableInv(config, hosts, n, save, acts);
    BytesOfClient(Exec(Start(config, hosts, n, save), acts), n);
  }

  // Extremes

  /** All samples of extreme f that the readers of all servers recorded. */
  function Taken(servers: seq<P.State>, f: Field): seq<int> {
    if servers == [] then [] else servers[0].e.taken.At(f) + Taken(servers[1..], f)
  }

  /** Extreme f over what is not with the client: points under way, the live
      fields, and the samples wiped between a load and its reset. */
  function ExtremeElsewhere(s: P.State, f: Field): int {
    Op(Extreme(f), Fold(Extreme(f), Values(P.Undelivered(s.d), f)), P.Leftover(s, f))
  }

  function AllExtremesElsewhere(servers: seq<P.State>, f: Field): int {
    if servers == [] then Id(Extreme(f))
    else Op(Extreme(f), ExtremeElsewhere(servers[0], f), AllExtremesElsewhere(servers[1..], f))
  }

  ghost predicate Located(m: Monoid, taken: int, points: int, elsewhere: int) {
    taken == Op(m, points, elsewhere)
  }

  lemma JoinLocated(m: Monoid, t1: int, p1: int, e1: int, t2: int, p2: int, e2: int)
    requires Located(m, t1, p1, e1) && Located(m, t2, p2, e2)
    ensures Located(m, Op(m, t1, t2), Op(m, p1, p2), Op(m, e1, e2))
  {
  }

  ghost predicate ServerLocated(s: P.State, f: Field) {
    Located(Extreme(f), Fold(Extreme(f), s.e.taken.At(f)), Fold(Extreme(f), Values(s.d.client.points, f)),
            ExtremeElsewhere(s, f))
  }

  lemma ServerExtreme(s: P.State, f: Field, n: nat)
    requires P.Inv(s, n)
    ensures ServerLocated(s, f)
  {
    var m := Extreme(f);
    P.ExtremesLocated(s, f);
    Reassociate(m, Fold(m, Values(s.d.client.points, f)), Fold(m, Values(P.Undelivered(s.d), f)),
                Fold(m, Lives(s.e.readers, f)), Fold(m, s.e.missed.At(f)));
  }

  lemma Reassociate(m: Monoid, a: int, b: int, c: int, d: int)
    ensures Op(m, Op(m, Op(m, a, b), c), d) == Op(m, a, Op(m, b, Op(m, c, d)))
  {
  }

  lemma ValuesConcat(a: seq<DP>, b: seq<DP>, f: Field)
    ensures Fold(Extreme(f), Values(a + b, f))
         == Op(Extreme(f), Fold(Extreme(f), Values(a, f)), Fold(Extreme(f), Values(b, f)))
  {
    ColumnConcat(a, b, (d: DP) => Get(d, f));
    FoldConcat(Extreme(f), Values(a, f), Values(b, f));
  }

  lemma {:induction false} AllExtremes(servers: seq<P.State>, f: Field)
    requires forall i :: 0 <= i < |servers| ==> ServerLocated(servers[i], f)
    ensures Located(Extreme(f), Fold(Extreme(f), Taken(servers, f)), Fold(Extreme(f), Values(PointsFrom(servers), f)),
                    AllExtremesElsewhere(servers, f))
  {
    if servers == [] {
      assert Values([], f) == [];
    } else {
      var m, s, rest := Extreme(f), servers[0], servers[1..];
      AllExtremes(rest, f);
      FoldConcat(m, s.e.taken.At(f), Taken(rest, f));
      ValuesConcat(s.d.client.points, PointsFrom(rest), f);
      JoinLocated(m, Fold(m, s.e.taken.At(f)), Fold(m, Values(s.d.client.points, f)), ExtremeElsewhere(s, f),
                  Fold(m, Taken(rest, f)), Fold(m, Values(PointsFrom(rest), f)), AllExtremesElsewhere(rest, f));
    }
  }

  lemma ExtremesOfClient(c: State, f: Field, n: nat)
    requires Inv(c, n)
    ensures Located(Extreme(f), Fold(Extreme(f), Taken(c.servers, f)), Fold(Extreme(f), Values(c.points, f)),
                    AllExtremesElsewhere(c.servers, f))
  {
    forall i | 0 <= i < |c.servers| ensures ServerLocated(c.servers[i], f) {
      ServerExtreme(c.servers[i], f, n);
    }
    AllExtremes(c.servers, f);
    FoldPermutation(Extreme(f), c.points, PointsFrom(c.servers), (d: DP) => Get(d, f));
  }

  /** In every run of any number of servers and their client, for each of the
      four extremes: the extreme over all samples ever recorded on any server is
      the extreme over the client's points and, over all servers, the points
      under way, the live fields, and the samples wiped between a load and its reset. */
  lemma ExtremesCompose(config: Config, hosts: seq<seq<string>>, n: nat, save: bool,
                        acts: seq<Action>, f: Field)
    ensures var c := Exec(Start(config, hosts, n, save), acts);
      Fold(Extreme(f), Taken(c.servers, f))
        == Op(Extreme(f), Fold(Extreme(f), Values(c.points, f)), AllExtremesElsewhere(c.servers, f))
  {
    ReachableInv(config, hosts, n, save, acts);
    ExtremesOfClient(Exec(Start(config, hosts, n, save), acts), f, n);
  }

  // The end of a test

  ghost predicate Finished(servers: seq<P.State>) {
    forall i :: 0 <= i < |servers| ==> P.Finished(servers[i])
  }

  function AllResidues(servers: seq<P.State>): int {
    if servers == [] then 0 else P.Residue(servers[0].e) + AllResidues(servers[1..])
  }

  function Leftovers(servers: seq<P.State>, f: Field): int {
    if servers == [] then Id(Extreme(f)) else Op(Extreme(f), P.Leftover(servers[0], f), Leftovers(servers[1..], f))
  }

  /** The points that all servers made, one server after the other. */
  function Made(servers: seq<P.State>): seq<DP> {
    if servers == [] then [] else servers[0].d.produced + Made(servers[1..])
  }

  /** What all servers' files of the test hold. */
  function Saved(servers: seq<P.State>): seq<Record> {
    if servers == [] then [] else servers[0].d.file + Saved(servers[1..])
  }

  /** Nothing of a server is under way. */
  ghost predicate ServerDone(s: P.State, f: Field) {
    && BytesElsewhere(s) == P.Residue(s.e)
    && ExtremeElsewhere(s, f) == P.Leftover(s, f)
    && multiset(s.d.client.points) == multiset(s.d.produced)
  }

  lemma ServerFinished(s: P.State, f: Field, n: nat)
    requires P.Inv(s, n) && P.Finished(s)
    ensures ServerDone(s, f)
  {
    P.NothingUnderWay(s.d);
    P.EmptyColumns(f);
    LeftoverIsProper(s, f);
    P.PointsConserved(s.d);
    assert s.d.client.points + [] == s.d.client.points;
  }

  lemma LeftoverIsProper(s: P.State, f: Field)
    ensures Op(Extreme(f), Id(Extreme(f)), P.Leftover(s, f)) == P.Leftover(s, f)
  {
    FoldAbsorbsId(Extreme(f), Lives(s.e.readers, f));
    FoldAbsorbsId(Extreme(f), s.e.missed.At(f));
  }

  lemma JoinBoth<T>(a: seq<T>, a': seq<T>, b: seq<T>, b': seq<T>)
    requires multiset(a) == multiset(a') && multiset(b) == multiset(b')
    ensures multiset(a + b) == multiset(a' + b')
  {
  }

  lemma {:induction false} AllFinished(servers: seq<P.State>, f: Field)
    requires forall i :: 0 <= i < |servers| ==> ServerDone(servers[i], f)
    ensures AllBytesElsewhere(servers) == AllResidues(servers)
    ensures AllExtremesElsewhere(servers, f) == Leftovers(servers, f)
    ensures multiset(PointsFrom(servers)) == multiset(Made(servers))
  {
    if servers != [] {
      var s, rest := servers[0], servers[1..];
      assert ServerDone(s, f);
      AllFinished(rest, f);
      JoinBoth(s.d.client.points, s.d.produced, PointsFrom(rest), Made(rest));
    }
  }

  /** When every server's Done has been read and all handlers have run: the
      client holds every point made on any server exactly once, and its TXT and
      extremes are all there was, except for what readers still hold and for
      samples wiped between a load and its reset. */
  lemma FinishedRun(config: Config, hosts: seq<seq<string>>, n: nat, save: bool,
                    acts: seq<Action>, f: Field)
    requires Finished(Exec(Start(config, hosts, n, save), acts).servers)
    ensures var c := Exec(Start(config, hosts, n, save), acts);
      && multiset(c.points) == multiset(Made(c.servers))
      && Balanced(Counted(c.servers), RealTime.Total(c.points, RealTime.TX_TOTAL), AllResidues(c.servers))
      && Fold(Extreme(f), Taken(c.servers, f))
           == Op(Extreme(f), Fold(Extreme(f), Values(c.points, f)), Leftovers(c.servers, f))
  {
    ReachableInv(config, hosts, n, save, acts);
    FinishedClient(Exec(Start(config, hosts, n, save), acts), f, n);
  }

  lemma FinishedClient(c: State, f: Field, n: nat)
    requires Inv(c, n) && Finished(c.servers)
    ensures multiset(c.points) == multiset(Made(c.servers))
    ensures Balanced(Counted(c.servers), RealTime.Total(c.points, RealTime.TX_TOTAL), AllResidues(c.servers))
    ensures Located(Extreme(f), Fold(Extreme(f), Taken(c.servers, f)), Fold(Extreme(f), Values(c.points, f)),
                    Leftovers(c.servers, f))
  {
    forall i | 0 <= i < |c.servers| ensures ServerDone(c.servers[i], f) {
      ServerFinished(c.servers[i], f, n);
    }
    AllFinished(c.servers, f);
    BytesOfClient(c, n);
    ExtremesOfClient(c, f, n);
  }

  /** The client has exactly what the server's file holds. */
  ghost predicate ServerSaved(s: P.State) {
    && multiset(s.d.client.points) == multiset(PointsIn(s.d.file))
    && multiset(s.d.client.errors) == multiset(ErrorsIn(s.d.file))
  }

  lemma ServerFile(s: P.State, n: nat)
    requires P.Inv(s, n) && P.Finished(s) && s.d.save && s.d.intact
    ensures ServerSaved(s)
  {
    DR.DoneClient(s.d);
    DR.FileFacts(s.d);
  }

  lemma {:induction false} AllSaved(servers: seq<P.State>)
    requires forall i :: 0 <= i < |servers| ==> ServerSaved(servers[i])
    ensures multiset(PointsFrom(servers)) == multiset(PointsIn(Saved(servers)))
    ensures multiset(ErrorsFrom(servers)) == multiset(ErrorsIn(Saved(servers)))
  {
    if servers != [] {
      var s, rest := servers[0], servers[1..];
      assert ServerSaved(s);
      AllSaved(rest);
      InConcat(s.d.file, Saved(rest));
      JoinBoth(s.d.client.points, PointsIn(s.d.file), PointsFrom(rest), PointsIn(Saved(rest)));
      JoinBoth(s.d.client.errors, ErrorsIn(s.d.file), ErrorsFrom(rest), ErrorsIn(Saved(rest)));
    }
  }

  lemma {:induction false} SaveStays(c: State, acts: seq<Action>)
    requires forall i :: 0 <= i < |c.servers| ==> c.servers[i].d.save
    ensures var c' := Exec(c, acts);
      |c'.servers| == |c.servers| && forall i :: 0 <= i < |c'.servers| ==> c'.servers[i].d.save
  {
    if acts != [] {
      var last := |acts| - 1;
      SaveStays(c, acts[..last]);
      var t := Exec(c, acts[..last]);
      if acts[last].i < |t.servers| {
        SaveKept(t.servers[acts[last].i], acts[last].a);
      }
    }
  }

  lemma SaveKept(s: P.State, a: P.Action)
    ensures P.Apply(s, a).d.save == s.d.save
  {
  }

  /** No write to any server's file has failed. */
  ghost predicate AllIntact(servers: seq<P.State>) {
    forall i :: 0 <= i < |servers| ==> servers[i].d.intact
  }

  /** The live client and the saved files agree: when every server's Done has
      been read, all handlers have run, and no write to a file has failed, the
      client holds exactly the points and errors of all servers' files. */
  lemma ClientHoldsTheFiles(config: Config, hosts: seq<seq<string>>, n: nat, acts: seq<Action>)
    requires Finished(Exec(Start(config, hosts, n, true), acts).servers)
    requires AllIntact(Exec(Start(config, hosts, n, true), acts).servers)
    ensures var c := Exec(Start(config, hosts, n, true), acts);
      && multiset(c.points) == multiset(PointsIn(Saved(c.servers)))
      && multiset(c.errors) == multiset(ErrorsIn(Saved(c.servers)))
  {
    ReachableInv(config, hosts, n, true, acts);
    SaveStays(Start(config, hosts, n, true), acts);
    var c := Exec(Start(config, hosts, n, true), acts);
    forall i | 0 <= i < |c.servers| ensures ServerSaved(c.servers[i]) {
      ServerFile(c.servers[i], n);
    }
    AllSaved(c.servers);
  }
}
