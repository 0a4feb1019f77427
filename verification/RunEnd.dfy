/** Every test can end: from wherever readers, harvester, flush and client are,
    the steps that are left to do lead to a client that is back on Done with all
    points and, for what was reported in time, all errors. */
module RunEnd {
  import opened Folds
  import opened Records
  import E = Engine
  import ER = EngineRuns
  import opened Tokens
  import D = Delivery
  import DR = DeliveryRuns
  import TE = TestEnd
  import P = Pipeline
  import C = Cluster

  // Runs of one server

  lemma {:induction false} ExecConcat(s: P.State, a: seq<P.Action>, b: seq<P.Action>)
    ensures P.Exec(s, a + b) == P.Exec(P.Exec(s, a), b)
    decreases |b|
  {
    if b == [] {
      assert a + b == a;
    } else {
      var init, last := b[..|b| - 1], b[|b| - 1];
      assert a + b == (a + init) + [last] && b == init + [last];
      ExecConcat(s, a, init);
      ExecLast(s, a + init, last);
      ExecLast(P.Exec(s, a), init, last);
    }
  }

  lemma ExecLast(s: P.State, acts: seq<P.Action>, a: P.Action)
    ensures P.Exec(s, acts + [a]) == P.Apply(P.Exec(s, acts), a)
  {
    assert (acts + [a])[..|acts|] == acts;
  }

  lemma ExecOne(s: P.State, a: P.Action)
    ensures P.Exec(s, [a]) == P.Apply(s, a)
  {
    ExecLast(s, [], a);
    assert [] + [a] == [a];
  }

  lemma ExecTwo(s: P.State, a: P.Action, b: P.Action)
    ensures P.Exec(s, [a, b]) == P.Apply(P.Apply(s, a), b)
  {
    ExecOne(s, a);
    ExecLast(s, [a], b);
    assert [a] + [b] == [a, b];
  }

  /** Delivering steps taken by the whole. */
  function Delivering(acts: seq<D.Action>): (all: seq<P.Action>)
    ensures |all| == |acts| && forall k :: 0 <= k < |acts| ==> all[k] == P.Deliver(acts[k])
  {
    seq(|acts|, k requires 0 <= k < |acts| => P.Deliver(acts[k]))
  }

  lemma {:induction false} DeliveringRun(s: P.State, acts: seq<D.Action>)
    requires TE.AllOrderly(acts)
    ensures P.Exec(s, Delivering(acts)) == P.State(s.e, D.Exec(s.d, acts))
    decreases |acts|
  {
    if acts != [] {
      var init := acts[..|acts| - 1];
      assert Delivering(acts)[..|acts| - 1] == Delivering(init);
      DeliveringRun(s, init);
      assert TE.Orderly(acts[|acts| - 1]);
    }
  }

  // The harvest

  /** The harvester is at a reader that there is. */
  ghost predicate Placed(e: E.State) {
    (e.harvest.Swapping? || e.harvest.Reading?) ==> e.harvest.ri < |e.readers|
  }

  lemma PlacedStep(e: E.State, a: E.Action)
    requires Placed(e)
    ensures Placed(E.Apply(e, a))
  {
  }

  /** How far the harvest is from its end. */
  function Left(e: E.State): nat {
    match e.harvest
    case Rest => 0
    case Visit(ri) => if ri < |e.readers| then 3 * (|e.readers| - ri) + 1 else 1
    case Swapping(ri) => if ri < |e.readers| then 3 * (|e.readers| - ri) else 0
    case Reading(ri, _, _, _) => if ri < |e.readers| then 3 * (|e.readers| - ri) - 1 else 0
  }

  /** Only readers, harvest and points have changed since. */
  ghost predicate SameRound(s: P.State, t: P.State) {
    && t.d == s.d.(dps := t.d.dps, produced := t.d.produced)
    && |t.e.readers| == |s.e.readers| && Placed(t.e)
  }

  lemma LockIsFreed(s: P.State) returns (acts: seq<P.Action>)
    requires s.e.harvest.Reading? && Placed(s.e)
    ensures var t := P.Exec(s, acts);
      && t.d == s.d && t.e.harvest == s.e.harvest && |t.e.readers| == |s.e.readers|
      && t.e.readers[s.e.harvest.ri].section.Free?
  {
    var i := s.e.harvest.ri;
    var a := P.Measure(i, E.Advance);
    acts := [a, a] + [a];
    ExecTwo(s, a, a);
    ExecLast(s, [a, a], a);
    var r := s.e.readers[i];
    ThreeAdvances(r, s.e.cancelled);
    AdvanceOne(s, i);
    AdvanceOne(P.Apply(s, a), i);
    AdvanceOne(P.Apply(P.Apply(s, a), a), i);
  }

  lemma AdvanceOne(s: P.State, i: nat)
    requires i < |s.e.readers|
    ensures var t := P.Apply(s, P.Measure(i, E.Advance));
      && t.d == s.d && t.e.harvest == s.e.harvest && t.e.cancelled == s.e.cancelled
      && t.e.readers == s.e.readers[i := E.StepReader(s.e.readers[i], s.e.cancelled, E.Advance)]
  {
  }

  lemma ThreeAdvances(r: E.Reader, cancelled: bool)
    ensures E.StepReader(E.StepReader(E.StepReader(r, cancelled, E.Advance), cancelled, E.Advance),
                         cancelled, E.Advance).section.Free?
  {
  }

  lemma LoadOne(s: P.State, f: Field)
    requires s.d.phase.Harvesting? && s.e.harvest.Reading? && Placed(s.e)
    ensures var t := P.Apply(s, P.Load(f)); var i := s.e.harvest.ri;
      && t.d == s.d && t.e.harvest == s.e.harvest && |t.e.readers| == |s.e.readers|
      && t.e.readers[i].section == s.e.readers[i].section
      && t.e.readers[i].cells.At(f).seen.Some?
      && forall g: Field :: s.e.readers[i].cells.At(g).seen.Some? ==> t.e.readers[i].cells.At(g).seen.Some?
  {
  }

  lemma AllLoaded(r: E.Reader)
    requires r.cells.At(TTFBH).seen.Some? && r.cells.At(TTFBL).seen.Some?
    requires r.cells.At(RMSH).seen.Some? && r.cells.At(RMSL).seen.Some?
    ensures E.AllSeen(r)
  {
  }

  /** Count, errors and the four extremes can be loaded. */
  lemma EverythingIsLoaded(s: P.State) returns (acts: seq<P.Action>)
    requires s.d.phase.Harvesting? && s.e.harvest.Reading? && Placed(s.e) && s.e.readers[s.e.harvest.ri].section.Free?
    ensures var t := P.Exec(s, acts);
      && t.d == s.d && |t.e.readers| == |s.e.readers| && t.e.harvest.Reading? && t.e.harvest.ri == s.e.harvest.ri
      && E.CanReset(t.e)
  {
    var s2 := P.Apply(P.Apply(s, P.LoadCount), P.LoadErrs);
    var s3 := P.Apply(s2, P.Load(TTFBL));
    var s4 := P.Apply(s3, P.Load(TTFBH));
    var s5 := P.Apply(s4, P.Load(RMSL));
    var s6 := P.Apply(s5, P.Load(RMSH));
    LoadOne(s2, TTFBL);
    LoadOne(s3, TTFBH);
    LoadOne(s4, RMSL);
    LoadOne(s5, RMSH);
    AllLoaded(s6.e.readers[s.e.harvest.ri]);
    acts := [P.LoadCount, P.LoadErrs] + [P.Load(TTFBL), P.Load(TTFBH)] + [P.Load(RMSL), P.Load(RMSH)];
    ExecTwo(s, P.LoadCount, P.LoadErrs);
    ExecTwo(s2, P.Load(TTFBL), P.Load(TTFBH));
    ExecTwo(s4, P.Load(RMSL), P.Load(RMSH));
    ExecConcat(s, [P.LoadCount, P.LoadErrs], [P.Load(TTFBL), P.Load(TTFBH)]);
    ExecConcat(s, [P.LoadCount, P.LoadErrs] + [P.Load(TTFBL), P.Load(TTFBH)], [P.Load(RMSL), P.Load(RMSH)]);
  }

  lemma ReaderIsHarvested(s: P.State, env: E.Env) returns (acts: seq<P.Action>)
    requires s.d.phase.Harvesting? && s.e.harvest.Reading? && Placed(s.e)
    ensures var t := P.Exec(s, acts); SameRound(s, t) && t.e.harvest == E.Visit(s.e.harvest.ri + 1)
  {
    var first := LockIsFreed(s);
    var s1 := P.Exec(s, first);
    var second := EverythingIsLoaded(s1);
    var s2 := P.Exec(s1, second);
    ResetEffect(s2, env);
    acts := first + second + [P.Reset(env)];
    ExecConcat(s, first, second);
    ExecLast(s, first + second, P.Reset(env));
  }

  lemma ResetEffect(s: P.State, env: E.Env)
    requires s.d.phase.Harvesting? && E.CanReset(s.e)
    ensures var t := P.Apply(s, P.Reset(env));
      && t.d == s.d.(dps := t.d.dps, produced := t.d.produced)
      && |t.e.readers| == |s.e.readers| && t.e.harvest == E.Visit(s.e.harvest.ri + 1)
  {
  }

  /** A harvest under way can be brought to its end. */
  lemma {:induction false} HarvestEnds(s: P.State, env: E.Env) returns (acts: seq<P.Action>)
    requires s.d.phase.Harvesting? && Placed(s.e)
    ensures var t := P.Exec(s, acts); SameRound(s, t) && t.e.harvest.Rest?
    decreases Left(s.e)
  {
    if s.e.harvest.Rest? {
      acts := [];
    } else {
      var first: seq<P.Action>;
      if s.e.harvest.Reading? {
        first := ReaderIsHarvested(s, env);
      } else {
        first := [if s.e.harvest.Visit? then P.Look else P.Swap];
        ExecOne(s, first[0]);
        LookOrSwap(s);
      }
      var rest := HarvestEnds(P.Exec(s, first), env);
      acts := first + rest;
      ExecConcat(s, first, rest);
    }
  }

  lemma LookOrSwap(s: P.State)
    requires s.d.phase.Harvesting? && Placed(s.e) && (s.e.harvest.Visit? || s.e.harvest.Swapping?)
    ensures var t := P.Apply(s, if s.e.harvest.Visit? then P.Look else P.Swap);
      SameRound(s, t) && Left(t.e) < Left(s.e)
  {
  }

  // The rest of a round

  /** The test's loop can be left: with a harvest or a flush under way, after them. */
  ghost predicate Reachable(s: P.State, n: nat) {
    P.Inv(s, n) && Placed(s.e) && s.d.conns[D.RUNNER].open
  }

  /** What no step towards the end loses. */
  ghost predicate Goes(s: P.State, t: P.State) {
    && t.d.accepted == s.d.accepted && s.d.produced <= t.d.produced && t.d.save == s.d.save
    && (s.d.intact ==> t.d.intact)
    && (s.d.phase.Harvesting? || s.d.phase.Building? ==>
          t.d.phase.Harvesting? || t.d.phase.Building? || t.d.errs == D.NO_ERRORS)
  }

  lemma HarvestingEnds(s: P.State, n: nat, env: E.Env) returns (acts: seq<P.Action>)
    requires Reachable(s, n) && s.d.phase.Harvesting?
    ensures var t := P.Exec(s, acts); Reachable(t, n) && t.d.phase.Building? && Goes(s, t)
  {
    var first := HarvestEnds(s, env);
    var s1 := P.Exec(s, first);
    P.RunInv(s, first, n);
    ProducedGrows(s, first);
    acts := first + [P.CopyPoints(true)];
    ExecLast(s, first, P.CopyPoints(true));
    P.ApplyInv(s1, P.CopyPoints(true), n);
    CopyEffect(s1);
    CopyGoes(s, s1, P.Apply(s1, P.CopyPoints(true)));
  }

  lemma CopyEffect(s: P.State)
    requires s.d.phase.Harvesting? && s.e.harvest.Rest?
    ensures var t := P.Apply(s, P.CopyPoints(true));
      && t.e == s.e && t.d.phase.Building? && t.d.conns == s.d.conns && t.d.accepted == s.d.accepted
      && t.d.produced == s.d.produced && t.d.save == s.d.save && t.d.intact == s.d.intact
  {
  }

  lemma CopyGoes(s: P.State, s1: P.State, t: P.State)
    requires SameRound(s, s1) && s.d.produced <= s1.d.produced && t.d.phase.Building?
    requires t.d.accepted == s1.d.accepted && t.d.produced == s1.d.produced && t.d.save == s1.d.save
    requires t.d.intact == s1.d.intact
    ensures Goes(s, t)
  {
  }

  lemma {:induction false} ProducedGrows(s: P.State, acts: seq<P.Action>)
    ensures s.d.produced <= P.Exec(s, acts).d.produced
  {
    if acts != [] {
      ProducedGrows(s, acts[..|acts| - 1]);
      ProducedStep(P.Exec(s, acts[..|acts| - 1]), acts[|acts| - 1]);
    }
  }

  lemma ProducedStep(s: P.State, a: P.Action)
    ensures s.d.produced <= P.Apply(s, a).d.produced
  {
    var da := P.DeliverySide(s, a);
    if da.Some? {
      DeliveryProduces(s.d, da.value);
    }
  }

  lemma DeliveryProduces(d: D.State, a: D.Action)
    ensures d.produced <= D.Apply(d, a).produced
  {
  }

  lemma BuildingEnds(s: P.State, n: nat) returns (acts: seq<P.Action>)
    requires Reachable(s, n) && s.d.phase.Building?
    ensures var t := P.Exec(s, acts); Reachable(t, n) && t.d.phase.Sending? && Goes(s, t)
  {
    acts := [P.Deliver(D.TakeErrors(true))];
    ExecOne(s, acts[0]);
    BuildingEffect(s);
    P.ApplyInv(s, acts[0], n);
  }

  lemma BuildingEffect(s: P.State)
    requires s.d.phase.Building?
    ensures var t := P.Apply(s, P.Deliver(D.TakeErrors(true)));
      t.e == s.e && t.d.phase.Sending? && t.d.conns == s.d.conns && t.d.errs == D.NO_ERRORS && Goes(s, t)
  {
  }

  lemma SendingEnds(s: P.State, n: nat) returns (acts: seq<P.Action>)
    requires Reachable(s, n) && s.d.phase.Sending?
    ensures var t := P.Exec(s, acts);
      Reachable(t, n) && t.d.phase.Looping? && Goes(s, t) && t.d.errs == s.d.errs
  {
    var steps := TE.FanOutEnds(s.d);
    acts := Delivering(steps);
    DeliveringRun(s, steps);
    P.RunInv(s, acts, n);
  }

  lemma LoopingEnds(s: P.State, n: nat) returns (acts: seq<P.Action>)
    requires Reachable(s, n) && s.d.phase.Looping?
    ensures var t := P.Exec(s, acts);
      Reachable(t, n) && t.d.phase.Closing? && Goes(s, t) && t.d.errs == s.d.errs
  {
    acts := [P.Leave];
    ExecOne(s, P.Leave);
    LoopingEffect(s);
    P.ApplyInv(s, P.Leave, n);
  }

  lemma LoopingEffect(s: P.State)
    requires s.d.phase.Looping? && Placed(s.e)
    ensures var t := P.Apply(s, P.Leave);
      && Placed(t.e) && t.d.phase.Closing? && t.d.conns == s.d.conns && t.d.errs == s.d.errs && Goes(s, t)
  {
  }

  lemma LeavingEnds(s: P.State, n: nat) returns (acts: seq<P.Action>)
    requires Reachable(s, n) && (s.d.phase.Closing? || s.d.phase == D.Ended(true))
    ensures var t := P.Exec(s, acts);
      P.Inv(t, n) && P.Finished(t) && Goes(s, t) && t.d.errs == s.d.errs
  {
    var steps := TE.ClosingEnds(s.d);
    acts := Delivering(steps);
    DeliveringRun(s, steps);
    P.RunInv(s, acts, n);
  }

  /** How many phases are before the end. */
  function Phases(p: D.Phase): nat {
    match p
    case Harvesting => 4
    case Building(_) => 3
    case Sending(_) => 2
    case Looping => 1
    case Closing => 0
    case Ended(_) => 0
  }

  lemma PhaseEnds(s: P.State, n: nat, env: E.Env) returns (acts: seq<P.Action>)
    requires Reachable(s, n) && Phases(s.d.phase) > 0
    ensures var t := P.Exec(s, acts);
      && Reachable(t, n) && Goes(s, t) && Phases(t.d.phase) == Phases(s.d.phase) - 1
      && (Phases(s.d.phase) <= 2 ==> t.d.errs == s.d.errs)
      && (Phases(s.d.phase) == 1 ==> t.d.phase.Closing?)
  {
    if s.d.phase.Harvesting? {
      acts := HarvestingEnds(s, n, env);
    } else if s.d.phase.Building? {
      acts := BuildingEnds(s, n);
    } else if s.d.phase.Sending? {
      acts := SendingEnds(s, n);
    } else {
      acts := LoopingEnds(s, n);
    }
  }

  /** From any state that a run reaches without a failed write to the runner, the
      test can end with the client back on Done and all its handlers run. No
      accepted error is forgotten on the way, and the errors that are pending
      before the last flush takes them are with the client as well. */
  lemma {:induction false} TestEnds(s: P.State, n: nat, env: E.Env) returns (acts: seq<P.Action>)
    requires Reachable(s, n) && s.d.phase != D.Ended(false)
    ensures P.Inv(P.Exec(s, acts), n) && P.Finished(P.Exec(s, acts)) && Ends(s, P.Exec(s, acts))
    decreases Phases(s.d.phase)
  {
    if Phases(s.d.phase) == 0 {
      acts := LeavingEnds(s, n);
      EndsDirectly(s, P.Exec(s, acts));
    } else {
      var first := PhaseEnds(s, n, env);
      var s1 := P.Exec(s, first);
      OpenIsNotFailed(s1, Phases(s.d.phase));
      var rest := TestEnds(s1, n, env);
      acts := first + rest;
      ExecConcat(s, first, rest);
      EndsAfter(s, s1, P.Exec(s1, rest));
    }
  }

  /** What the end of a test keeps. */
  ghost predicate Ends(s: P.State, t: P.State) {
    && t.d.accepted == s.d.accepted && s.d.produced <= t.d.produced
    && t.d.save == s.d.save && (s.d.intact ==> t.d.intact)
    && (Phases(s.d.phase) >= 3 ==> t.d.errs == D.NO_ERRORS)
    && (Phases(s.d.phase) <= 2 ==> t.d.errs == s.d.errs)
  }

  lemma EndsDirectly(s: P.State, t: P.State)
    requires Goes(s, t) && Phases(s.d.phase) == 0 && t.d.errs == s.d.errs
    ensures Ends(s, t)
  {
  }

  lemma EndsAfter(s: P.State, s1: P.State, t: P.State)
    requires Goes(s, s1) && Phases(s1.d.phase) == Phases(s.d.phase) - 1 && Ends(s1, t)
    requires Phases(s.d.phase) <= 2 ==> s1.d.errs == s.d.errs
    ensures Ends(s, t)
  {
  }

  /** A phase ends in an earlier one or in a test about to close, never in a failed one. */
  lemma OpenIsNotFailed(s: P.State, before: nat)
    requires before > 0 && Phases(s.d.phase) == before - 1 && (before == 1 ==> s.d.phase.Closing?)
    ensures s.d.phase != D.Ended(false)
  {
  }

  // Whole runs

  /** A test whose Done could not be sent has lost its runner. */
  ghost predicate FailedIsClosed(d: D.State) {
    D.RUNNER in d.conns && (d.phase == D.Ended(false) ==> !d.conns[D.RUNNER].open)
  }

  lemma FailedIsClosedStep(d: D.State, a: D.Action)
    requires FailedIsClosed(d)
    ensures FailedIsClosed(D.Apply(d, a))
  {
  }

  lemma {:induction false} RunPlaced(s: P.State, acts: seq<P.Action>)
    requires Placed(s.e) && FailedIsClosed(s.d)
    ensures Placed(P.Exec(s, acts).e) && FailedIsClosed(P.Exec(s, acts).d)
  {
    if acts != [] {
      var t, a := P.Exec(s, acts[..|acts| - 1]), acts[|acts| - 1];
      RunPlaced(s, acts[..|acts| - 1]);
      var ea := P.EngineSide(t, a);
      if ea.Some? {
        PlacedStep(t.e, ea.value);
      }
      var da := P.DeliverySide(t, a);
      if da.Some? {
        FailedIsClosedStep(t.d, da.value);
      }
    }
  }

  /** Every run in which the runner's connection is still open goes on to a run in
      which the client is back on Done and all its handlers have run. */
  lemma EveryRunCanEnd(config: Config, addrs: seq<string>, n: nat, save: bool, acts: seq<P.Action>, env: E.Env)
    returns (more: seq<P.Action>)
    requires var d := P.Exec(P.Start(config, addrs, n, save), acts).d; D.RUNNER in d.conns && d.conns[D.RUNNER].open
    ensures var s0 := P.Start(config, addrs, n, save); var s, t := P.Exec(s0, acts), P.Exec(s0, acts + more);
      P.Finished(t) && P.Inv(t, n) && Ends(s, t)
  {
    var s0 := P.Start(config, addrs, n, save);
    P.ReachableInv(config, addrs, n, save, acts);
    RunPlaced(s0, acts);
    more := TestEnds(P.Exec(s0, acts), n, env);
    ExecConcat(s0, acts, more);
  }

  lemma ErrorsArrived(t: P.State, n: nat)
    requires P.Inv(t, n) && P.Finished(t) && t.d.errs == D.NO_ERRORS
    ensures multiset(t.d.client.errors) == multiset(t.d.accepted)
  {
    DR.DoneClient(t.d);
    assert AllErrors(t.d.batches) + [] == AllErrors(t.d.batches);
  }

  lemma MemberOf<T>(x: T, a: seq<T>, b: seq<T>)
    requires multiset(a) == multiset(b) && x in b
    ensures x in a
  {
    assert x in multiset(b);
  }

  lemma ReportAccepts(s: P.State, id: D.ErrorId, err: TError)
    requires id !in s.d.errs.errMap
    ensures var t := P.Apply(s, P.Report(id, err));
      && t.e == s.e && t.d.phase == s.d.phase && t.d.conns == s.d.conns && t.d.accepted == s.d.accepted + [err]
  {
  }

  /** An error that is reported while points are harvested or copied, under an id
      that is not pending, can still reach the client: the run goes on to one in
      which the client has returned on Done and holds it. */
  lemma ReportedErrorCanArrive(config: Config, addrs: seq<string>, n: nat, save: bool, acts: seq<P.Action>,
                               id: D.ErrorId, err: TError, env: E.Env)
    returns (more: seq<P.Action>)
    requires var d := P.Exec(P.Start(config, addrs, n, save), acts).d;
      && D.RUNNER in d.conns && d.conns[D.RUNNER].open && id !in d.errs.errMap
      && (d.phase.Harvesting? || d.phase.Building?)
    ensures var t := P.Exec(P.Start(config, addrs, n, save), acts + [P.Report(id, err)] + more);
      P.Finished(t) && err in t.d.client.errors
  {
    var s0 := P.Start(config, addrs, n, save);
    ExecLast(s0, acts, P.Report(id, err));
    ReportAccepts(P.Exec(s0, acts), id, err);
    more := EveryRunCanEnd(config, addrs, n, save, acts + [P.Report(id, err)], env);
    var s, t := P.Exec(s0, acts + [P.Report(id, err)]), P.Exec(s0, acts + [P.Report(id, err)] + more);
    ErrorsArrived(t, n);
    assert s.d.accepted[|s.d.accepted| - 1] == err;
    MemberOf(err, t.d.client.errors, t.d.accepted);
  }

  // After a stop

  /** Both sides are cancelled, and no more work is to come than was under way. */
  ghost predicate Winding(s: P.State, t: P.State, i: nat) {
    && t.e.cancelled && t.d.cancelled && |t.e.readers| == |s.e.readers|
    && |t.d.batches| + TE.Due(t.d) <= |s.d.batches| + TE.Due(s.d)
    && (i < |s.e.readers| ==>
          t.e.readers[i].txCount + MayStillSend(t.e.readers[i])
            <= s.e.readers[i].txCount + MayStillSend(s.e.readers[i]))
  }

  lemma WindingStep(s: P.State, t: P.State, a: P.Action, i: nat)
    requires Winding(s, t, i)
    ensures Winding(s, P.Apply(t, a), i)
  {
    var ea := P.EngineSide(t, a);
    if ea.Some? {
      EngineWinds(t.e, ea.value, i);
    }
    var da := P.DeliverySide(t, a);
    if da.Some? {
      TE.CancelledStep(t.d, da.value);
    }
  }

  lemma EngineWinds(e: E.State, a: E.Action, i: nat)
    requires e.cancelled
    ensures var e' := E.Apply(e, a);
      && e'.cancelled && |e'.readers| == |e.readers|
      && (i < |e.readers| ==>
            e'.readers[i].txCount + MayStillSend(e'.readers[i]) <= e.readers[i].txCount + MayStillSend(e.readers[i]))
  {
    if i < |e.readers| {
      ER.SendsInCancelledStep(e, a, i);
    }
  }

  lemma {:induction false} WindingRun(s: P.State, acts: seq<P.Action>, i: nat)
    requires s.e.cancelled && s.d.cancelled
    ensures Winding(s, P.Exec(s, acts), i)
  {
    if acts != [] {
      WindingRun(s, acts[..|acts| - 1], i);
      WindingStep(s, P.Exec(s, acts[..|acts| - 1]), acts[|acts| - 1], i);
    }
  }

  /** When a running test is stopped, both its sides are cancelled, and however the
      run goes on, at most one more batch is made and each reader sends at most n
      more requests. */
  lemma StopEndsWork(config: Config, addrs: seq<string>, n: nat, save: bool, before: seq<P.Action>,
                     after: seq<P.Action>, i: nat)
    requires i < |addrs|
    ensures var s := P.Exec(P.Start(config, addrs, n, save), before);
      var t := P.Exec(P.Apply(s, P.Stop), after);
      && t.e.cancelled && t.d.cancelled && |t.d.batches| <= |s.d.batches| + 1
      && |t.e.readers| == |s.e.readers| == |addrs|
      && t.e.readers[i].txCount <= s.e.readers[i].txCount + n
  {
    var s := P.Exec(P.Start(config, addrs, n, save), before);
    var c := P.Apply(s, P.Stop);
    P.ReachableInv(config, addrs, n, save, before);
    ReadersOfRun(config, addrs, n, save, before);
    WindingRun(c, after, i);
    assert Partition(s.e.readers[i], n);
    PartitionBounds(s.e.readers[i], n);
    MayStillSendBound(s.e.readers[i].senders);
    MayStillSendBound(P.Exec(c, after).e.readers[i].senders);
  }

  lemma {:induction false} ReadersOfRun(config: Config, addrs: seq<string>, n: nat, save: bool, acts: seq<P.Action>)
    ensures |P.Exec(P.Start(config, addrs, n, save), acts).e.readers| == |addrs|
  {
    if acts != [] {
      var s := P.Exec(P.Start(config, addrs, n, save), acts[..|acts| - 1]);
      ReadersOfRun(config, addrs, n, save, acts[..|acts| - 1]);
      var ea := P.EngineSide(s, acts[|acts| - 1]);
    }
  }

  // All servers

  function OnServer(i: nat, acts: seq<P.Action>): (all: seq<C.Action>)
    ensures |all| == |acts| && forall k :: 0 <= k < |acts| ==> all[k] == C.On(i, acts[k])
  {
    seq(|acts|, k requires 0 <= k < |acts| => C.On(i, acts[k]))
  }

  lemma {:induction false} ServerRuns(c: C.State, i: nat, acts: seq<P.Action>)
    requires i < |c.servers|
    ensures C.Exec(c, OnServer(i, acts)).servers == c.servers[i := P.Exec(c.servers[i], acts)]
    decreases |acts|
  {
    if acts != [] {
      var last := |acts| - 1;
      assert OnServer(i, acts)[..last] == OnServer(i, acts[..last]);
      ServerRuns(c, i, acts[..last]);
    }
  }

  lemma {:induction false} ClusterConcat(c: C.State, a: seq<C.Action>, b: seq<C.Action>)
    ensures C.Exec(c, a + b) == C.Exec(C.Exec(c, a), b)
    decreases |b|
  {
    if b == [] {
      assert a + b == a;
    } else {
      var init, last := b[..|b| - 1], b[|b| - 1];
      assert a + b == (a + init) + [last] && b == init + [last];
      ClusterConcat(c, a, init);
      assert (a + b)[..|a + b| - 1] == a + init && b[..|b| - 1] == init;
    }
  }

  /** A server that a run has reached with its runner's connection open. */
  ghost predicate CanEnd(s: P.State, n: nat) {
    Reachable(s, n) && s.d.phase != D.Ended(false)
  }

  /** The servers up to k have finished, without harm to their files; the others are as they were. */
  ghost predicate FinishedTo(c: C.State, t: C.State, k: nat) {
    && |t.servers| == |c.servers|
    && (forall i :: 0 <= i < k && i < |c.servers| ==>
          && P.Finished(t.servers[i]) && t.servers[i].d.save == c.servers[i].d.save
          && (c.servers[i].d.intact ==> t.servers[i].d.intact))
    && (forall i :: k <= i < |c.servers| ==> t.servers[i] == c.servers[i])
  }

  lemma OneMoreFinished(c: C.State, t: C.State, t': C.State, k: nat)
    requires k < |c.servers| && FinishedTo(c, t, k) && |t'.servers| == |t.servers|
    requires forall i :: 0 <= i < |t.servers| && i != k ==> t'.servers[i] == t.servers[i]
    requires P.Finished(t'.servers[k]) && Ends(c.servers[k], t'.servers[k])
    ensures FinishedTo(c, t', k + 1)
  {
  }

  lemma {:induction false} ServersEnd(c: C.State, k: nat, n: nat, env: E.Env) returns (acts: seq<C.Action>)
    requires k <= |c.servers| && AllCanEnd(c.servers, n)
    ensures FinishedTo(c, C.Exec(c, acts), k)
  {
    if k == 0 {
      acts := [];
    } else {
      var before := ServersEnd(c, k - 1, n, env);
      var t := C.Exec(c, before);
      assert CanEnd(c.servers[k - 1], n);
      var steps := TestEnds(t.servers[k - 1], n, env);
      acts := before + OnServer(k - 1, steps);
      ClusterConcat(c, before, OnServer(k - 1, steps));
      ServerRuns(t, k - 1, steps);
      OneMoreFinished(c, t, C.Exec(c, acts), k - 1);
    }
  }

  ghost predicate AllCanEnd(servers: seq<P.State>, n: nat) {
    forall i :: 0 <= i < |servers| ==> CanEnd(servers[i], n)
  }

  ghost predicate Sane(s: P.State) {
    Placed(s.e) && FailedIsClosed(s.d)
  }

  ghost predicate AllSane(servers: seq<P.State>) {
    forall i :: 0 <= i < |servers| ==> Sane(servers[i])
  }

  lemma SaneStep(s: P.State, a: P.Action)
    requires Sane(s)
    ensures Sane(P.Apply(s, a))
  {
    RunPlaced(s, [a]);
    ExecOne(s, a);
  }

  lemma {:induction false} RunAllSane(c: C.State, acts: seq<C.Action>)
    requires AllSane(c.servers)
    ensures AllSane(C.Exec(c, acts).servers)
  {
    if acts != [] {
      var t, a := C.Exec(c, acts[..|acts| - 1]), acts[|acts| - 1];
      RunAllSane(c, acts[..|acts| - 1]);
      if a.i < |t.servers| {
        SaneStep(t.servers[a.i], a.a);
      }
    }
  }

  ghost predicate RunnerOpen(s: P.State) {
    D.RUNNER in s.d.conns && s.d.conns[D.RUNNER].open
  }

  /** No server has lost its runner. */
  ghost predicate AllOpen(servers: seq<P.State>) {
    forall i :: 0 <= i < |servers| ==> RunnerOpen(servers[i])
  }

  lemma OpenCanEnd(servers: seq<P.State>, n: nat)
    requires C.AllInv(servers, n) && AllSane(servers) && AllOpen(servers)
    ensures AllCanEnd(servers, n)
  {
    forall i | 0 <= i < |servers| ensures CanEnd(servers[i], n) {
      assert P.Inv(servers[i], n) && Sane(servers[i]) && RunnerOpen(servers[i]);
    }
  }

  lemma StartIsSane(config: Config, hosts: seq<seq<string>>, n: nat, save: bool)
    ensures AllSane(C.Start(config, hosts, n, save).servers)
  {
  }

  /** Every run of any number of servers in which all runner connections are still
      open goes on to one that has finished on all of them, as the statements
      about finished runs ask for. */
  lemma EveryClusterCanEnd(config: Config, hosts: seq<seq<string>>, n: nat, save: bool, acts: seq<C.Action>,
                           env: E.Env)
    returns (more: seq<C.Action>)
    requires AllOpen(C.Exec(C.Start(config, hosts, n, save), acts).servers)
    ensures var c0 := C.Start(config, hosts, n, save); var c, t := C.Exec(c0, acts), C.Exec(c0, acts + more);
      && C.Finished(t.servers)
      && (C.AllIntact(c.servers) ==> C.AllIntact(t.servers))
  {
    var c0 := C.Start(config, hosts, n, save);
    C.ReachableInv(config, hosts, n, save, acts);
    StartIsSane(config, hosts, n, save);
    RunAllSane(c0, acts);
    var c := C.Exec(c0, acts);
    OpenCanEnd(c.servers, n);
    more := ServersEnd(c, |c.servers|, n, env);
    ClusterConcat(c0, acts, more);
    AllFinished(c, C.Exec(c0, acts + more));
  }

  lemma AllFinished(c: C.State, t: C.State)
    requires FinishedTo(c, t, |c.servers|)
    ensures C.Finished(t.servers) && (C.AllIntact(c.servers) ==> C.AllIntact(t.servers))
  {
  }
}
