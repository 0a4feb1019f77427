/** A whole test: the measuring and the delivering side run together, with one
    main goroutine driving both, and the client at the end. */
module Pipeline {
  import opened Folds
  import opened Records
  import E = Engine
  import opened Measurement
  import opened EngineRuns
  import D = Delivery
  import opened DeliveryRuns
  import RealTime

  datatype State = State(e: E.State, d: D.State)

  /** Actions of the main goroutine keep both sides in step; every other
      goroutine acts on one side at any time. */
  datatype Action =
    | Measure(i: nat, ra: E.ReaderAction)
    | Report(id: D.ErrorId, err: TError)
    | Stop
    | NextRound
    | Look
    | Swap
    | LoadCount
    | LoadErrs
    | Load(f: Field)
    | Reset(env: E.Env)
    | CopyPoints(saved: bool)
    | Leave
    | Deliver(a: D.Action)

  function Start(config: Config, addrs: seq<string>, n: nat, save: bool): State {
    State(E.Start(config, addrs, n), D.Start(save))
  }

  /** Delivery actions that no reader, clock or cancel takes part in. */
  predicate Independent(a: D.Action) {
    a.TakeErrors? || a.SendTo? || a.EndFlush? || a.Listen? || a.SendDone? || a.ClientRead? || a.ClientHandle?
  }

  function Apply(s: State, a: Action): State {
    var harvesting := s.d.phase.Harvesting?;
    match a
    case Measure(i, ra) => s.(e := E.Apply(s.e, E.OnReader(i, ra)))
    case Report(id, err) => s.(d := D.Apply(s.d, D.Report(id, err)))
    case Stop => State(E.Apply(s.e, E.Cancel), D.Apply(s.d, D.Cancel))
    case NextRound =>
      if s.d.phase.Looping? && !s.d.cancelled
      then State(E.Apply(s.e, E.StartHarvest), D.Apply(s.d, D.NextRound))
      else s
    case Look => if harvesting then s.(e := E.Apply(s.e, E.Look)) else s
    case Swap => if harvesting then s.(e := E.Apply(s.e, E.Swap)) else s
    case LoadCount => if harvesting then s.(e := E.Apply(s.e, E.LoadCount)) else s
    case LoadErrs => if harvesting then s.(e := E.Apply(s.e, E.LoadErrs(|s.d.errs.errors|))) else s
    case Load(f) => if harvesting then s.(e := E.Apply(s.e, E.Load(f))) else s
    case Reset(env) =>
      if harvesting && E.CanReset(s.e)
      then State(E.Apply(s.e, E.Reset(env)), D.Apply(s.d, D.Produce(E.ResetPoint(s.e, env))))
      else s
    case CopyPoints(saved) => if s.e.harvest.Rest? then s.(d := D.Apply(s.d, D.CopyPoints(saved))) else s
    case Leave =>
      if s.d.phase.Looping? then State(E.Apply(s.e, E.Cancel), D.Apply(s.d, D.Leave)) else s
    case Deliver(da) => if Independent(da) then s.(d := D.Apply(s.d, da)) else s
  }

  function Exec(s: State, acts: seq<Action>): State {
    if acts == [] then s else Apply(Exec(s, acts[..|acts| - 1]), acts[|acts| - 1])
  }

  /** Both sides agree on the points made and on the context. */
  ghost predicate Linked(s: State) {
    s.e.produced == s.d.produced && s.e.cancelled == s.d.cancelled
  }

  /** Points never report more pending errors than there are error ids. */
  ghost predicate ErrCountsOk(e: E.State) {
    && (forall i :: 0 <= i < |e.produced| ==> e.produced[i].errCount <= 6)
    && (e.harvest.Reading? && e.harvest.errs.Some? ==> e.harvest.errs.value <= 6)
  }

  ghost predicate Inv(s: State, n: nat) {
    Sound(s.e, n) && Faithful(s.d) && Linked(s) && ErrCountsOk(s.e)
  }

  lemma EngineStep(e: E.State, a: E.Action, n: nat)
    requires Sound(e, n)
    ensures Sound(E.Apply(e, a), n)
  {
    ApplyMeasured(e, a);
    ApplySeen(e, a);
    ApplyPartitioned(e, a, n);
  }

  lemma EngineSide(s: State, a: Action) returns (ea: Option<E.Action>)
    ensures Apply(s, a).e == if ea.Some? then E.Apply(s.e, ea.value) else s.e
    ensures ea.Some? && ea.value.LoadErrs? ==> ea.value.n == |s.d.errs.errors|
  {
    ea := None;
    if Apply(s, a).e != s.e {
      match a
      case Measure(i, ra) => ea := Some(E.OnReader(i, ra));
      case Stop => ea := Some(E.Cancel);
      case NextRound => ea := Some(E.StartHarvest);
      case Look => ea := Some(E.Look);
      case Swap => ea := Some(E.Swap);
      case LoadCount => ea := Some(E.LoadCount);
      case LoadErrs => ea := Some(E.LoadErrs(|s.d.errs.errors|));
      case Load(f) => ea := Some(E.Load(f));
      case Reset(env) => ea := Some(E.Reset(env));
      case Leave => ea := Some(E.Cancel);
      case _ =>
    }
  }

  lemma DeliverySide(s: State, a: Action) returns (da: Option<D.Action>)
    ensures Apply(s, a).d == if da.Some? then D.Apply(s.d, da.value) else s.d
  {
    da := None;
    if Apply(s, a).d != s.d {
      match a
      case Report(id, err) => da := Some(D.Report(id, err));
      case Stop => da := Some(D.Cancel);
      case NextRound => da := Some(D.NextRound);
      case Reset(env) => da := Some(D.Produce(E.ResetPoint(s.e, env)));
      case CopyPoints(saved) => da := Some(D.CopyPoints(saved));
      case Leave => da := Some(D.Leave);
      case Deliver(x) => da := Some(x);
      case _ =>
    }
  }

  lemma LinkKept(s: State, a: Action)
    requires Linked(s)
    ensures Linked(Apply(s, a))
  {
  }

  lemma ErrCountsKept(e: E.State, a: E.Action)
    requires ErrCountsOk(e) && (a.LoadErrs? ==> a.n <= 6)
    ensures ErrCountsOk(E.Apply(e, a))
  {
  }

  lemma ApplyInv(s: State, a: Action, n: nat)
    requires Inv(s, n)
    ensures Inv(Apply(s, a), n)
  {
    LinkKept(s, a);
    PendingErrorsBounded(s.d.errs);
    var ea := EngineSide(s, a);
    if ea.Some? {
      EngineStep(s.e, ea.value, n);
      ErrCountsKept(s.e, ea.value);
    }
    var da := DeliverySide(s, a);
    if da.Some? {
      ApplyFaithful(s.d, da.value);
    }
  }

  lemma {:induction false} RunInv(s: State, acts: seq<Action>, n: nat)
    requires Inv(s, n)
    ensures Inv(Exec(s, acts), n)
  {
    if acts != [] {
      RunInv(s, acts[..|acts| - 1], n);
      ApplyInv(Exec(s, acts[..|acts| - 1]), acts[|acts| - 1], n);
    }
  }

  lemma StartInv(config: Config, addrs: seq<string>, n: nat, save: bool)
    ensures Inv(Start(config, addrs, n, save), n)
  {
    StartSound(config, addrs, n);
    StartFaithful(save);
  }

  lemma ReachableInv(config: Config, addrs: seq<string>, n: nat, save: bool, acts: seq<Action>)
    ensures Inv(Exec(Start(config, addrs, n, save), acts), n)
  {
    StartInv(config, addrs, n, save);
    RunInv(Start(config, addrs, n, save), acts, n);
  }

  /** Points made but not yet in the client's hands: held by handlers that have
      not run, in batches not yet read off the runner connection, being
      flushed, or waiting for the next flush. */
  function Undelivered(d: D.State): seq<DP> {
    AllPoints(d.client.handlers) + AllPoints(Unread(d)) + InFlight(d.phase) + d.dps
  }

  /** The batches that the client has not taken off the runner connection. */
  function Unread(d: D.State): seq<Batch> {
    if D.RUNNER in d.conns && Taken(d) <= |d.batches| then d.batches[Taken(d)..] else d.batches
  }

  /** Every point is with the client or undelivered, exactly once. */
  lemma PointsConserved(d: D.State)
    requires Faithful(d)
    ensures D.RUNNER in d.conns && Taken(d) <= |d.batches|
    ensures multiset(d.client.points + Undelivered(d)) == multiset(d.produced)
  {
    var k := Taken(d);
    assert Unread(d) == d.batches[k..];
    assert d.batches == d.batches[..k] + d.batches[k..];
    AllConcat(d.batches[..k], d.batches[k..]);
    assert d.produced == AllPoints(d.batches[..k]) + AllPoints(d.batches[k..]) + InFlight(d.phase) + d.dps;
    Gather(d.client.points, AllPoints(d.client.handlers), AllPoints(d.batches[..k]), AllPoints(d.batches[k..]),
           InFlight(d.phase), d.dps);
  }

  lemma Gather<T>(p: seq<T>, h: seq<T>, taken: seq<T>, rest: seq<T>, x: seq<T>, y: seq<T>)
    requires multiset(p) + multiset(h) == multiset(taken)
    ensures multiset(p + (h + rest + x + y)) == multiset(taken + rest + x + y)
  {
    assert p + (h + rest + x + y) == (p + h) + (rest + x + y);
    assert taken + rest + x + y == taken + (rest + x + y);
  }

  /** While no write to the runner has failed, every batch is on its
      connection, except the one being sent at this moment. */
  lemma UndeliveredIsInTransit(d: D.State)
    requires Faithful(d) && d.conns[D.RUNNER].open
    ensures var sending := if d.phase.Sending? && D.RUNNER in d.phase.todo then 1 else 0;
      && sending <= |d.batches|
      && d.conns[D.RUNNER].log == StatsLog(d.batches[..|d.batches| - sending]) + Final(d, D.RUNNER)
  {
    RunnerLog(d);
    ConnFacts(d, D.RUNNER);
  }

  lemma SplitValues(points: seq<DP>, rest: seq<DP>, produced: seq<DP>, m: Monoid, g: DP -> int)
    requires multiset(points + rest) == multiset(produced)
    ensures Fold(m, Column(produced, g)) == Op(m, Fold(m, Column(points, g)), Fold(m, Column(rest, g)))
  {
    FoldPermutation(m, points + rest, produced, g);
    ColumnConcat(points, rest, g);
    FoldConcat(m, Column(points, g), Column(rest, g));
  }

  /** Extreme f over the samples of a state, by where they are now: with the
      client, under way, live in the readers, or wiped by a reset. */
  function LocatedExtreme(s: State, f: Field): int {
    var m := Extreme(f);
    Op(m, Op(m, Op(m, Fold(m, Values(s.d.client.points, f)), Fold(m, Values(Undelivered(s.d), f))),
                Fold(m, Lives(s.e.readers, f))),
       Fold(m, s.e.missed.At(f)))
  }

  lemma ExtremesLocated(s: State, f: Field)
    requires Accounted(s.e, f) && Faithful(s.d) && s.e.produced == s.d.produced
    ensures Fold(Extreme(f), s.e.taken.At(f)) == LocatedExtreme(s, f)
  {
    PointsConserved(s.d);
    SplitValues(s.d.client.points, Undelivered(s.d), s.d.produced, Extreme(f), (d: DP) => Get(d, f));
  }

  /** In every run, for each of the four latency extremes: the extreme over all
      samples ever recorded is the extreme over the client's points, the points
      still under way, the live fields of the readers, and the samples that a
      reset wiped after the snapshot. */
  lemma ExtremesCompose(config: Config, addrs: seq<string>, n: nat, save: bool,
                        acts: seq<Action>, f: Field)
    ensures var s := Exec(Start(config, addrs, n, save), acts);
      Fold(Extreme(f), s.e.taken.At(f)) == LocatedExtreme(s, f)
  {
    ReachableInv(config, addrs, n, save, acts);
    ExtremesLocated(Exec(Start(config, addrs, n, save), acts), f);
  }

  /** The bytes of a state by where they are now. */
  function LocatedBytes(s: State): int {
    RealTime.Total(s.d.client.points, RealTime.TX_TOTAL) + (Fold(Add, Bytes(Undelivered(s.d))) + Residue(s.e))
  }

  /** Bytes counted and not yet in a point. */
  function Residue(e: E.State): int {
    InHarvest(e.harvest) + Fold(Add, Residues(e.readers))
  }

  lemma BytesOutsidePoints(e: E.State)
    requires BytesAccounted(e)
    ensures Wrap(e.counted) == Wrap(Fold(Add, Bytes(e.produced)) + Residue(e))
  {
    var all, h, r := Fold(Add, Bytes(e.produced)), InHarvest(e.harvest), Fold(Add, Residues(e.readers));
    assert all + h + r == all + (h + r);
  }

  lemma BytesBalance(e: E.State, points: seq<DP>, rest: seq<DP>, located: int)
    requires BytesAccounted(e) && multiset(points + rest) == multiset(e.produced)
    requires located == RealTime.Total(points, RealTime.TX_TOTAL) + (Fold(Add, Bytes(rest)) + Residue(e))
    ensures Wrap(e.counted) == Wrap(located)
  {
    BytesOutsidePoints(e);
    SplitValues(points, rest, e.produced, Add, RealTime.TX_TOTAL);
    SameBytes(e.produced);
    SameBytes(points);
    SameBytes(rest);
    TotalBalance(Fold(Add, Bytes(points)), Fold(Add, Bytes(rest)) + Residue(e),
                 Fold(Add, Bytes(e.produced)) + Residue(e), located);
  }

  lemma TotalBalance(a: int, b: int, all: int, located: int)
    requires all == a + b && located == Wrap(a) + b
    ensures Wrap(all) == Wrap(located)
  {
    WrapAdd(a, b);
  }

  lemma BytesLocated(s: State)
    requires BytesAccounted(s.e) && Faithful(s.d) && s.e.produced == s.d.produced
    ensures Wrap(s.e.counted) == Wrap(LocatedBytes(s))
  {
    PointsConserved(s.d);
    BytesBalance(s.e, s.d.client.points, Undelivered(s.d), LocatedBytes(s));
  }

  /** In every run, modulo 2^64 as the counters are: the bytes counted by all
      body readers are the client's TXT plus the bytes of points under way, of
      the point being made, and left in the readers' counters. */
  lemma BytesAreConserved(config: Config, addrs: seq<string>, n: nat, save: bool, acts: seq<Action>)
    ensures var s := Exec(Start(config, addrs, n, save), acts);
      Wrap(s.e.counted) == Wrap(LocatedBytes(s))
  {
    ReachableInv(config, addrs, n, save, acts);
    BytesLocated(Exec(Start(config, addrs, n, save), acts));
  }

  lemma SameBytes(dps: seq<DP>)
    ensures Column(dps, RealTime.TX_TOTAL) == Bytes(dps)
  {
  }

  ghost predicate Finished(s: State) {
    s.d.client.done && s.d.client.handlers == []
  }

  function Leftover(s: State, f: Field): int {
    Op(Extreme(f), Fold(Extreme(f), Lives(s.e.readers, f)), Fold(Extreme(f), s.e.missed.At(f)))
  }

  ghost predicate BytesComplete(s: State) {
    Wrap(s.e.counted) == Wrap(RealTime.Total(s.d.client.points, RealTime.TX_TOTAL) + Residue(s.e))
  }

  ghost predicate ExtremesComplete(s: State, f: Field) {
    Fold(Extreme(f), s.e.taken.At(f))
      == Op(Extreme(f), Fold(Extreme(f), Values(s.d.client.points, f)), Leftover(s, f))
  }

  lemma EmptyColumns(f: Field)
    ensures Values([], f) == [] && Bytes([]) == []
  {
  }

  lemma FinishedBytes(s: State)
    requires Undelivered(s.d) == []
    requires Wrap(s.e.counted) == Wrap(LocatedBytes(s))
    ensures BytesComplete(s)
  {
    EmptyColumns(RMSH);
    assert LocatedBytes(s) == RealTime.Total(s.d.client.points, RealTime.TX_TOTAL) + Residue(s.e);
  }

  lemma FinishedExtremes(s: State, f: Field)
    requires Undelivered(s.d) == []
    requires Fold(Extreme(f), s.e.taken.At(f)) == LocatedExtreme(s, f)
    ensures ExtremesComplete(s, f)
  {
    EmptyColumns(f);
    FoldAbsorbsId(Extreme(f), Values(s.d.client.points, f));
  }

  lemma FinishedFacts(s: State, n: nat, f: Field)
    requires Inv(s, n) && Finished(s)
    ensures BytesComplete(s) && ExtremesComplete(s, f)
  {
    NothingUnderWay(s.d);
    BytesLocated(s);
    ExtremesLocated(s, f);
    FinishedBytes(s);
    FinishedExtremes(s, f);
  }

  /** When the client has returned on Done and its handlers have run, nothing
      is under way: its TXT and extremes, with what the readers still hold, are
      all there was, except for samples wiped between a snapshot and its reset. */
  lemma FinishedRun(config: Config, addrs: seq<string>, n: nat, save: bool,
                    acts: seq<Action>, f: Field)
    ensures var s := Exec(Start(config, addrs, n, save), acts);
      Finished(s) ==> BytesComplete(s) && ExtremesComplete(s, f)
  {
    ReachableInv(config, addrs, n, save, acts);
    var s := Exec(Start(config, addrs, n, save), acts);
    if Finished(s) {
      FinishedFacts(s, n, f);
    }
  }

  lemma NothingUnderWay(d: D.State)
    requires Faithful(d) && d.client.done && d.client.handlers == []
    ensures D.RUNNER in d.conns && Taken(d) == |d.batches| && Undelivered(d) == []
  {
    assert d.batches[|d.batches|..] == [];
  }

  /** In every run no point reports more than six pending errors. */
  lemma ErrCountBounded(config: Config, addrs: seq<string>, n: nat, save: bool, acts: seq<Action>)
    ensures var s := Exec(Start(config, addrs, n, save), acts);
      forall i :: 0 <= i < |s.d.produced| ==> s.d.produced[i].errCount <= 6
  {
    ReachableInv(config, addrs, n, save, acts);
  }

  /** A reader that the harvester skips for having no stats shows only starting
      values, unless a body reader or sender is in the middle of its writes. */
  lemma SkippedReaderHidesNothing(config: Config, addrs: seq<string>, n: nat, save: bool,
                                  acts: seq<Action>, i: nat, f: Field)
    ensures var s := Exec(Start(config, addrs, n, save), acts);
      i < |s.e.readers| && !s.e.readers[i].hasStats && s.e.readers[i].section.Free? ==>
        s.e.readers[i].cells.At(f).live == Id(Extreme(f))
  {
    ReachableInv(config, addrs, n, save, acts);
    var s := Exec(Start(config, addrs, n, save), acts);
    if i < |s.e.readers| {
      assert ReaderOk(s.e.readers[i]);
    }
  }

  /** A harvest is under way only in its phase of a round. */
  ghost predicate HarvestInPhase(s: State) {
    !s.d.phase.Harvesting? ==> s.e.harvest.Rest?
  }

  lemma HarvestInPhaseStep(s: State, a: Action)
    requires HarvestInPhase(s)
    ensures HarvestInPhase(Apply(s, a))
  {
  }

  /** In every run, a flush begins only after the harvest of its round is over:
      it carries the points of all readers. */
  lemma {:induction false} FlushFollowsHarvest(config: Config, addrs: seq<string>, n: nat, save: bool,
                                               acts: seq<Action>)
    ensures HarvestInPhase(Exec(Start(config, addrs, n, save), acts))
  {
    if acts != [] {
      FlushFollowsHarvest(config, addrs, n, save, acts[..|acts| - 1]);
      HarvestInPhaseStep(Exec(Start(config, addrs, n, save), acts[..|acts| - 1]), acts[|acts| - 1]);
    }
  }
}
