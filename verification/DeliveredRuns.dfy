/** Whatever a server's readers and harvester do, the points can all reach the
    client: every run of the measuring side without a cancel is part of a run of
    the whole, in which each harvest is flushed, read and handled at once. Its
    consequence is a client that prints more requests than were sent. */
module DeliveredRuns {
  import opened Folds
  import opened Records
  import E = Engine
  import D = Delivery
  import P = Pipeline
  import C = Cluster
  import Witnesses
  import RealTime

  /** All points so far are with the client, except those of the harvest under way. */
  ghost predicate UpToDate(s: P.State) {
    && s.d.conns.Keys == {D.RUNNER} && s.d.conns[D.RUNNER].open
    && s.d.client.handlers == [] && s.d.client.read == |s.d.conns[D.RUNNER].log| && !s.d.client.done
    && s.d.errs == D.NO_ERRORS && !s.d.cancelled && !s.e.cancelled
    && s.e.produced == s.d.client.points + s.d.dps
    && (if s.e.harvest.Rest? then s.d.phase == D.Looping && s.d.dps == [] else s.d.phase == D.Harvesting)
  }

  // A flush, read and handled

  function FlushSteps(): seq<P.Action> {
    [P.CopyPoints(true), P.Deliver(D.TakeErrors(true)), P.Deliver(D.SendTo(D.RUNNER, true)), P.Deliver(D.EndFlush),
     P.Deliver(D.ClientRead), P.Deliver(D.ClientHandle(0))]
  }

  function Run(s: P.State, acts: seq<P.Action>): P.State
    decreases |acts|
  {
    if acts == [] then s else Run(P.Apply(s, acts[0]), acts[1..])
  }

  lemma {:induction false} RunIsExec(s: P.State, acts: seq<P.Action>, more: seq<P.Action>)
    ensures P.Exec(s, acts + more) == Run(P.Exec(s, acts), more)
    decreases |more|
  {
    if more == [] {
      assert acts + more == acts;
    } else {
      var a := more[0];
      assert (acts + [a])[..|acts|] == acts;
      assert acts + more == (acts + [a]) + more[1..];
      RunIsExec(s, acts + [a], more[1..]);
    }
  }

  /** The phase in which a harvest has ended and its points wait for the flush. */
  ghost predicate Harvested(s: P.State) {
    && s.d.conns.Keys == {D.RUNNER} && s.d.conns[D.RUNNER].open
    && s.d.client.handlers == [] && s.d.client.read == |s.d.conns[D.RUNNER].log| && !s.d.client.done
    && s.d.errs == D.NO_ERRORS && !s.d.cancelled && !s.e.cancelled
    && s.e.produced == s.d.client.points + s.d.dps
    && s.e.harvest.Rest? && s.d.phase == D.Harvesting
  }

  lemma FlushSends(s: P.State)
    requires Harvested(s)
    ensures var t := P.Apply(P.Apply(P.Apply(P.Apply(s, P.CopyPoints(true)), P.Deliver(D.TakeErrors(true))),
                              P.Deliver(D.SendTo(D.RUNNER, true))), P.Deliver(D.EndFlush));
      && t.e == s.e && t.d.phase == D.Looping && t.d.dps == [] && t.d.errs == D.NO_ERRORS && !t.d.cancelled
      && t.d.conns.Keys == {D.RUNNER} && t.d.conns[D.RUNNER].open && t.d.client == s.d.client
      && t.d.conns[D.RUNNER].log == s.d.conns[D.RUNNER].log + [D.Stats(Batch(s.d.dps, []))]
  {
    var s1 := P.Apply(s, P.CopyPoints(true));
    var s2 := P.Apply(s1, P.Deliver(D.TakeErrors(true)));
    assert D.OpenIds(s.d.conns) == {D.RUNNER};
    assert s2.d.phase == D.Sending({D.RUNNER});
    var s3 := P.Apply(s2, P.Deliver(D.SendTo(D.RUNNER, true)));
    assert s3.d.phase.todo == {};
  }

  lemma ReadAndHandled(s: P.State, b: Batch)
    requires s.d.conns.Keys == {D.RUNNER} && !s.d.client.done && s.d.client.handlers == []
    requires s.d.client.read + 1 == |s.d.conns[D.RUNNER].log| && s.d.conns[D.RUNNER].log[s.d.client.read] == D.Stats(b)
    ensures var t := P.Apply(P.Apply(s, P.Deliver(D.ClientRead)), P.Deliver(D.ClientHandle(0)));
      t == s.(d := s.d.(client := D.Client(s.d.client.read + 1, [], s.d.client.points + b.points,
                                           s.d.client.errors + b.errors, false)))
  {
    var s1 := P.Apply(s, P.Deliver(D.ClientRead));
    assert s1.d.client.handlers == [b];
    assert P.Apply(s1, P.Deliver(D.ClientHandle(0))).d.client.handlers == [];
  }

  lemma FlushDelivers(s: P.State)
    requires Harvested(s)
    ensures UpToDate(Run(s, FlushSteps())) && Run(s, FlushSteps()).e == s.e
  {
    FlushSends(s);
    var s1 := P.Apply(s, P.CopyPoints(true));
    var s2 := P.Apply(s1, P.Deliver(D.TakeErrors(true)));
    var s3 := P.Apply(s2, P.Deliver(D.SendTo(D.RUNNER, true)));
    var s4 := P.Apply(s3, P.Deliver(D.EndFlush));
    ReadAndHandled(s4, Batch(s.d.dps, []));
    SixSteps(s);
    assert s.e.produced + [] == s.e.produced;
  }

  lemma SixSteps(s: P.State)
    ensures Run(s, FlushSteps())
         == P.Apply(P.Apply(P.Apply(P.Apply(P.Apply(P.Apply(s, P.CopyPoints(true)), P.Deliver(D.TakeErrors(true))),
              P.Deliver(D.SendTo(D.RUNNER, true))), P.Deliver(D.EndFlush)), P.Deliver(D.ClientRead)),
              P.Deliver(D.ClientHandle(0)))
  {
    var f := FlushSteps();
    assert f[1..][1..] == f[2..] && f[2..][1..] == f[3..] && f[3..][1..] == f[4..] && f[4..][1..] == f[5..];
    assert f[5..][1..] == [];
    RunTwo(s, f);
    RunTwo(P.Apply(P.Apply(s, f[0]), f[1]), f[2..]);
    RunTwo(P.Apply(P.Apply(P.Apply(P.Apply(s, f[0]), f[1]), f[2]), f[3]), f[4..]);
  }

  lemma RunTwo(s: P.State, f: seq<P.Action>)
    requires |f| >= 2
    ensures Run(s, f) == Run(P.Apply(P.Apply(s, f[0]), f[1]), f[2..])
  {
    assert f[1..][0] == f[1] && f[1..][1..] == f[2..];
  }

  // One step

  /** The step of the whole that takes a step of the measuring side. */
  function Lifted(a: E.Action): P.Action {
    match a
    case OnReader(i, ra) => P.Measure(i, ra)
    case Cancel => P.Stop
    case StartHarvest => P.NextRound
    case Look => P.Look
    case Swap => P.Swap
    case LoadCount => P.LoadCount
    case LoadErrs(_) => P.LoadErrs
    case Load(f) => P.Load(f)
    case Reset(env) => P.Reset(env)
  }

  lemma LiftedStep(s: P.State, a: E.Action)
    requires UpToDate(s) && !a.Cancel? && (a.LoadErrs? ==> a.n == 0)
    ensures var t := P.Apply(s, Lifted(a));
      t.e == E.Apply(s.e, a) && (UpToDate(t) || Harvested(t))
  {
    match a
    case Reset(env) =>
      if E.CanReset(s.e) {
        Regroup(s.d.client.points, s.d.dps, [E.ResetPoint(s.e, env)]);
      }
    case _ =>
  }

  /** Every run of the measuring side without a cancel and without errors is part
      of a run of the whole that leaves no point undelivered after a harvest. */
  lemma {:induction false} EveryRunCanBeDelivered(config: Config, addrs: seq<string>, n: nat, save: bool,
                                                  acts: seq<E.Action>)
    returns (all: seq<P.Action>)
    requires Witnesses.Plain(acts)
    ensures var s := P.Exec(P.Start(config, addrs, n, save), all);
      s.e == E.Exec(E.Start(config, addrs, n), acts) && UpToDate(s)
    decreases |acts|
  {
    var s0 := P.Start(config, addrs, n, save);
    if acts == [] {
      all := [];
    } else {
      var init, a := acts[..|acts| - 1], acts[|acts| - 1];
      var before := EveryRunCanBeDelivered(config, addrs, n, save, init);
      var s := P.Exec(s0, before);
      LiftedStep(s, a);
      all := before + [Lifted(a)];
      assert all[..|before|] == before;
      var t := P.Exec(s0, all);
      if Harvested(t) {
        FlushDelivers(t);
        RunIsExec(s0, all, FlushSteps());
        all := all + FlushSteps();
      }
    }
  }

  // Two servers

  function OnFirst(acts: seq<P.Action>): (all: seq<C.Action>)
    ensures |all| == |acts| && forall k :: 0 <= k < |acts| ==> all[k] == C.On(0, acts[k])
  {
    seq(|acts|, k requires 0 <= k < |acts| => C.On(0, acts[k]))
  }

  lemma {:induction false} FirstRuns(c: C.State, acts: seq<P.Action>)
    requires c.servers != [] && c.points == c.servers[0].d.client.points
    ensures var t := C.Exec(c, OnFirst(acts));
      && t.servers == c.servers[0 := P.Exec(c.servers[0], acts)]
      && t.points == t.servers[0].d.client.points
    decreases |acts|
  {
    if acts != [] {
      var last := |acts| - 1;
      assert OnFirst(acts)[..last] == OnFirst(acts[..last]);
      FirstRuns(c, acts[..last]);
      FirstStep(C.Exec(c, OnFirst(acts[..last])), acts[last]);
    }
  }

  lemma FirstStep(c: C.State, a: P.Action)
    requires c.servers != [] && c.points == c.servers[0].d.client.points
    ensures var t := C.Apply(c, C.On(0, a));
      t.servers == c.servers[0 := P.Apply(c.servers[0], a)] && t.points == t.servers[0].d.client.points
  {
    C.HandlerAppends(c.servers[0], a);
  }

  /** The requests that two servers of one reader each have sent. */
  function RequestsOfTwo(c: C.State): nat
    requires |c.servers| == 2 && |c.servers[0].e.readers| == |c.servers[1].e.readers| == 1
  {
    c.servers[0].e.readers[0].txCount + c.servers[1].e.readers[0].txCount
  }

  lemma TwoCounts(points: seq<DP>)
    requires |points| == 2 && points[0].txCount == points[1].txCount == 1
    ensures RealTime.Total(points, RealTime.TX_COUNT) == 2
  {
    var c := Column(points, RealTime.TX_COUNT);
    assert c == ([] + [1]) + [1];
    FoldAppend(Add, [] + [1], 1);
    FoldAppend(Add, [], 1);
  }

  /** From the start of a test of two servers that measure each other: a run in
      which one request has been sent, and the client's TXC is two. */
  lemma TxcIsTooHigh(config: Config, a: string, b: string, save: bool, env: E.Env) returns (all: seq<C.Action>)
    ensures var c := C.Exec(C.Start(config, [[b], [a]], 1, save), all);
      && |c.servers| == 2 && |c.servers[0].e.readers| == |c.servers[1].e.readers| == 1
      && RequestsOfTwo(c) == 1 && RealTime.Total(c.points, RealTime.TX_COUNT) == 2
  {
    var acts := Witnesses.CountsTwice(config, b, env);
    var first := EveryRunCanBeDelivered(config, [b], 1, save, acts);
    all := OnFirst(first);
    var c0 := C.Start(config, [[b], [a]], 1, save);
    FirstRuns(c0, first);
    var c := C.Exec(c0, all);
    var s := c.servers[0];
    assert s == P.Exec(P.Start(config, [b], 1, save), first);
    assert s.d.client.points + [] == s.d.client.points;
    TwoCounts(c.points);
    assert c.servers[1] == P.Start(config, [a], 1, save);
  }
}
