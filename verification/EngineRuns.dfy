/** What holds in every run of the measuring side, whatever the interleaving. */
module EngineRuns {
  import opened Folds
  import opened Records
  import opened Engine
  import opened Tokens
  import opened Measurement

  ghost predicate Partitioned(s: State, n: nat) {
    forall i :: 0 <= i < |s.readers| ==> Partition(s.readers[i], n)
  }

  /** Only the reader being harvested has been read and not yet reset. */
  ghost predicate SeenWhileReading(s: State) {
    forall i, f: Field :: 0 <= i < |s.readers| && s.readers[i].cells.At(f).seen.Some? ==>
      s.harvest.Reading? && s.harvest.ri == i
  }

  ghost predicate Sound(s: State, n: nat) {
    Measured(s) && Partitioned(s, n) && SeenWhileReading(s)
  }

  lemma {:induction false} FoldOfIds(m: Monoid, s: seq<int>)
    requires forall i :: 0 <= i < |s| ==> s[i] == Id(m)
    ensures Fold(m, s) == Id(m)
  {
    if s != [] {
      FoldOfIds(m, s[1..]);
    }
  }

  lemma NewReaderSound(addr: string, n: nat, limit: Option<nat>)
    ensures ReaderOk(NewReader(addr, n, limit)) && Partition(NewReader(addr, n, limit), n)
    ensures forall f: Field :: NewReader(addr, n, limit).cells.At(f) == FreshCell(f)
  {
    NewReaderPartitions(addr, n, limit);
    FreshReaderOk(NewReader(addr, n, limit));
  }

  lemma NothingYet(s: State, f: Field)
    requires s.produced == [] && s.taken == NO_SAMPLES && s.missed == NO_SAMPLES
    requires forall i :: 0 <= i < |s.readers| ==> s.readers[i].cells.At(f) == FreshCell(f)
    ensures Accounted(s, f)
  {
    FoldOfIds(Extreme(f), Lives(s.readers, f));
  }

  lemma StartSound(config: Config, addrs: seq<string>, n: nat)
    ensures Sound(Start(config, addrs, n), n)
  {
    var s := Start(config, addrs, n);
    forall i | 0 <= i < |s.readers|
      ensures ReaderOk(s.readers[i]) && Partition(s.readers[i], n)
      ensures forall f: Field :: s.readers[i].cells.At(f) == FreshCell(f)
    {
      NewReaderSound(addrs[i], n, Limit(config));
    }
    forall f: Field ensures Accounted(s, f) {
      NothingYet(s, f);
    }
    FoldOfIds(Add, Residues(s.readers));
  }

  lemma SeenKept(r: Reader, cancelled: bool, a: ReaderAction, f: Field)
    ensures StepReader(r, cancelled, a).cells.At(f).seen == r.cells.At(f).seen
  {
  }

  lemma ApplySeen(s: State, a: Action)
    requires SeenWhileReading(s)
    ensures SeenWhileReading(Apply(s, a))
  {
    match a
    case OnReader(i, ra) =>
      if i < |s.readers| {
        forall f: Field
          ensures StepReader(s.readers[i], s.cancelled, ra).cells.At(f).seen == s.readers[i].cells.At(f).seen
        {
          SeenKept(s.readers[i], s.cancelled, ra, f);
        }
      }
    case Reset(env) =>
      if CanReset(s) {
        forall f: Field ensures Cleared(s.readers[s.harvest.ri]).cells.At(f).seen.None? {
          PointShowsSeen(s, env, f);
        }
      }
    case _ =>
  }

  lemma SameTokens(s: State, s': State, n: nat)
    requires Partitioned(s, n) && |s.readers| == |s'.readers|
    requires forall i :: 0 <= i < |s.readers| ==>
      && s'.readers[i].channel == s.readers[i].channel && s'.readers[i].held == s.readers[i].held
      && s'.readers[i].senders == s.readers[i].senders
    ensures Partitioned(s', n)
  {
    forall i | 0 <= i < |s.readers| ensures Partition(s'.readers[i], n) {
      assert Partition(s.readers[i], n);
    }
  }

  lemma ApplyPartitioned(s: State, a: Action, n: nat)
    requires Partitioned(s, n)
    ensures Partitioned(Apply(s, a), n)
  {
    if a.OnReader? {
      if a.i < |s.readers| {
        var r' := StepReader(s.readers[a.i], s.cancelled, a.ra);
        assert Partition(s.readers[a.i], n);
        PartitionKept(s.readers[a.i], s.cancelled, a.ra, n);
        assert Apply(s, a).readers == s.readers[a.i := r'];
        OneReaderKept(s, a.i, r', Apply(s, a), n);
      }
    } else {
      HarvestKeepsTokens(s, a);
      SameTokens(s, Apply(s, a), n);
    }
  }

  lemma OneReaderKept(s: State, i: nat, r: Reader, s': State, n: nat)
    requires Partitioned(s, n) && i < |s.readers| && Partition(r, n) && s'.readers == s.readers[i := r]
    ensures Partitioned(s', n)
  {
  }

  lemma HarvestKeepsTokens(s: State, a: Action)
    requires !a.OnReader?
    ensures |Apply(s, a).readers| == |s.readers|
    ensures forall i :: 0 <= i < |s.readers| ==>
      && Apply(s, a).readers[i].channel == s.readers[i].channel && Apply(s, a).readers[i].held == s.readers[i].held
      && Apply(s, a).readers[i].senders == s.readers[i].senders
  {
  }

  lemma {:induction false} RunSound(s: State, acts: seq<Action>, n: nat)
    requires Sound(s, n)
    ensures Sound(Exec(s, acts), n)
  {
    if acts != [] {
      var last := |acts| - 1;
      RunSound(s, acts[..last], n);
      var t := Exec(s, acts[..last]);
      ApplyMeasured(t, acts[last]);
      ApplySeen(t, acts[last]);
      ApplyPartitioned(t, acts[last], n);
    }
  }

  /** In every run of a test with n tokens per reader, every reader has at most
      n requests in flight, on distinct tokens, and no sender blocks on its way out. */
  lemma ConcurrencyIsBounded(config: Config, addrs: seq<string>, n: nat, acts: seq<Action>)
    ensures var s := Exec(Start(config, addrs, n), acts);
      forall i :: 0 <= i < |s.readers| ==>
        var r := s.readers[i];
        && |r.senders| <= n
        && (forall j, k :: 0 <= j < k < |r.senders| ==> r.senders[j].cid != r.senders[k].cid)
        && (r.senders != [] ==> |r.channel| < n)
  {
    StartSound(config, addrs, n);
    RunSound(Start(config, addrs, n), acts, n);
    var s := Exec(Start(config, addrs, n), acts);
    forall i | 0 <= i < |s.readers|
      ensures |s.readers[i].senders| <= n
      ensures forall j, k :: 0 <= j < k < |s.readers[i].senders| ==>
        s.readers[i].senders[j].cid != s.readers[i].senders[k].cid
      ensures s.readers[i].senders != [] ==> |s.readers[i].channel| < n
    {
      PartitionBounds(s.readers[i], n);
    }
  }

  lemma {:induction false} SendsInCancelledRun(s: State, acts: seq<Action>, i: nat)
    requires s.cancelled && i < |s.readers|
    ensures var s' := Exec(s, acts);
      && s'.cancelled && |s'.readers| == |s.readers|
      && s.readers[i].txCount <= s'.readers[i].txCount
      && s'.readers[i].txCount + MayStillSend(s'.readers[i]) <= s.readers[i].txCount + MayStillSend(s.readers[i])
  {
    if acts != [] {
      var last := |acts| - 1;
      SendsInCancelledRun(s, acts[..last], i);
      SendsInCancelledStep(Exec(s, acts[..last]), acts[last], i);
    }
  }

  lemma SendsInCancelledStep(s: State, a: Action, i: nat)
    requires s.cancelled && i < |s.readers|
    ensures var s' := Apply(s, a);
      && s'.cancelled && |s'.readers| == |s.readers|
      && s.readers[i].txCount <= s'.readers[i].txCount
      && s'.readers[i].txCount + MayStillSend(s'.readers[i]) <= s.readers[i].txCount + MayStillSend(s.readers[i])
  {
    if a.OnReader? && a.i == i {
      SendsAfterCancel(s.readers[i], a.ra);
    }
  }

  /** However many tokens are still handed out after a cancel, each reader
      counts at most the requests whose senders were past the context check
      at that moment, hence at most its concurrency. */
  lemma CancelBoundsWork(config: Config, addrs: seq<string>, n: nat,
                         before: seq<Action>, after: seq<Action>, i: nat)
    requires i < |addrs|
    ensures var s := Apply(Exec(Start(config, addrs, n), before), Cancel);
      var s' := Exec(s, after);
      && |s.readers| == |s'.readers| == |addrs|
      && s.readers[i].txCount <= s'.readers[i].txCount
      && s'.readers[i].txCount <= s.readers[i].txCount + MayStillSend(s.readers[i])
      && MayStillSend(s.readers[i]) <= n
  {
    var s0 := Start(config, addrs, n);
    var s := Apply(Exec(s0, before), Cancel);
    StartSound(config, addrs, n);
    RunSound(s0, before, n);
    ReadersStay(s0, before);
    PartitionBounds(s.readers[i], n);
    MayStillSendBound(s.readers[i].senders);
    SendsInCancelledRun(s, after, i);
    MayStillSendBound(Exec(s, after).readers[i].senders);
  }

  /** Stopped dispatchers hold no token, and there are none before a cancel. */
  ghost predicate DispatchOk(s: State) {
    forall i :: 0 <= i < |s.readers| && !s.readers[i].dispatching ==> s.cancelled && s.readers[i].held.None?
  }

  lemma DispatchStep(s: State, a: Action)
    requires DispatchOk(s)
    ensures DispatchOk(Apply(s, a))
  {
    if a.OnReader? && a.i < |s.readers| {
      var r := s.readers[a.i];
      if !r.dispatching {
        StoppedForGood(r, s.cancelled, a.ra);
      } else if !StepReader(r, s.cancelled, a.ra).dispatching {
        StopsOnlyCancelled(r, s.cancelled, a.ra);
      }
    }
  }

  lemma {:induction false} RunDispatch(s: State, acts: seq<Action>)
    requires DispatchOk(s)
    ensures DispatchOk(Exec(s, acts))
  {
    if acts != [] {
      RunDispatch(s, acts[..|acts| - 1]);
      DispatchStep(Exec(s, acts[..|acts| - 1]), acts[|acts| - 1]);
    }
  }

  /** In every run, a dispatcher has stopped only if the test is cancelled; and once
      the test is cancelled, every reader can come to rest without another
      request, with all n tokens back in its channel. */
  lemma EveryReaderCanRest(config: Config, addrs: seq<string>, n: nat, acts: seq<Action>, i: nat)
    returns (steps: seq<ReaderAction>)
    requires i < |addrs|
    ensures var s := Exec(Start(config, addrs, n), acts);
      && |s.readers| == |addrs|
      && (!s.readers[i].dispatching ==> s.cancelled)
      && var r := Steps(s.readers[i], true, steps);
      && r.senders == [] && r.held.None? && !r.dispatching && multiset(r.channel) == Ids(n)
      && r.txCount == s.readers[i].txCount
  {
    var s0 := Start(config, addrs, n);
    StartSound(config, addrs, n);
    RunSound(s0, acts, n);
    ReadersStay(s0, acts);
    RunDispatch(s0, acts);
    steps := TokensComeBack(Exec(s0, acts).readers[i], n);
  }

  lemma {:induction false} ReadersStay(s: State, acts: seq<Action>)
    ensures |Exec(s, acts).readers| == |s.readers|
  {
    if acts != [] {
      ReadersStay(s, acts[..|acts| - 1]);
    }
  }

  /** The steps of a harvest of one reader, with no other goroutine in between. */
  function Uninterrupted(errs: nat, env: Env): seq<Action> {
    [Look, Swap, LoadCount, LoadErrs(errs), Load(TTFBL), Load(TTFBH), Load(RMSL), Load(RMSH), Reset(env)]
  }

  /** The harvest of a reader as one atomic operation. */
  function HarvestedPoint(s: State, r: Reader, errs: nat, env: Env): DP {
    DP(s.config.testType, s.config.testId, env.created, env.local, r.addr,
       r.cells.rmsH.live, r.cells.rmsL.live, r.cells.ttfbH.live, r.cells.ttfbL.live,
       env.rate, r.tx, r.txCount, errs, env.dropped, env.memory, env.cpu)
  }

  lemma {:induction false} ExecCons(s: State, a: Action, acts: seq<Action>)
    ensures Exec(s, [a] + acts) == Exec(Apply(s, a), acts)
    decreases |acts|
  {
    var all, last := [a] + acts, |acts|;
    if acts == [] {
      assert all[..last] == [];
    } else {
      assert all[..last] == [a] + acts[..last - 1] && all[last] == acts[last - 1];
      ExecCons(s, a, acts[..last - 1]);
    }
  }

  lemma LoadAll(s: State, i: nat)
    requires s.harvest.Reading? && s.harvest.ri == i < |s.readers|
    requires forall f: Field :: s.readers[i].cells.At(f).seen.None?
    ensures var r := s.readers[i];
      Apply(Apply(Apply(Apply(s, Load(TTFBL)), Load(TTFBH)), Load(RMSL)), Load(RMSH))
        == s.(readers := s.readers[i := r.(cells := SeenCells(r))])
  {
    var c := s.readers[i].cells;
    assert c.At(TTFBH).seen.None? && c.At(TTFBL).seen.None? && c.At(RMSH).seen.None? && c.At(RMSL).seen.None?;
    var s1 := Apply(s, Load(TTFBL));
    var s2 := Apply(s1, Load(TTFBH));
    var s3 := Apply(s2, Load(RMSL));
    var s4 := Apply(s3, Load(RMSH));
    assert s4.readers == s.readers[i := s4.readers[i]];
  }

  function SeenCells(r: Reader): Cells {
    Quad(Cell(r.cells.ttfbH.live, Some(r.cells.ttfbH.live), []), Cell(r.cells.ttfbL.live, Some(r.cells.ttfbL.live), []),
         Cell(r.cells.rmsH.live, Some(r.cells.rmsH.live), []), Cell(r.cells.rmsL.live, Some(r.cells.rmsL.live), []))
  }

  lemma NoGaps(missed: Samples, r: Reader)
    ensures AddGaps(missed, r.(cells := SeenCells(r))) == missed
  {
    assert missed.ttfbH + [] == missed.ttfbH && missed.ttfbL + [] == missed.ttfbL;
    assert missed.rmsH + [] == missed.rmsH && missed.rmsL + [] == missed.rmsL;
  }

  lemma ReadyToLoad(s: State, errs: nat)
    requires s.harvest.Visit? && s.harvest.ri < |s.readers| && s.readers[s.harvest.ri].hasStats
    ensures var i := s.harvest.ri; var r := s.readers[i];
      Apply(Apply(Apply(Apply(s, Look), Swap), LoadCount), LoadErrs(errs))
        == s.(readers := s.readers[i := r.(tx := 0)], harvest := Reading(i, r.tx, Some(r.txCount), Some(errs)))
  {
  }

  lemma ResetSeen(s: State, t: State, r: Reader, errs: nat, env: Env)
    requires t.harvest.Reading? && t.harvest == Reading(t.harvest.ri, r.tx, Some(r.txCount), Some(errs))
    requires t.harvest.ri < |t.readers|
    requires t.readers[t.harvest.ri] == r.(tx := 0, cells := SeenCells(r)) && r.section.Free?
    requires t.config == s.config
    ensures var i := t.harvest.ri;
      Apply(t, Reset(env))
        == t.(readers := t.readers[i := r.(hasStats := false, cells := FreshCells(), tx := 0)],
              harvest := Visit(i + 1), produced := t.produced + [HarvestedPoint(s, r, errs, env)])
  {
    NoGaps(t.missed, r.(tx := 0));
    assert SeenCells(r.(tx := 0)) == SeenCells(r);
    assert ResetPoint(t, env) == HarvestedPoint(s, r, errs, env);
  }

  lemma LoadAndReset(s: State, t: State, r: Reader, errs: nat, env: Env)
    requires t.harvest.Reading? && t.harvest == Reading(t.harvest.ri, r.tx, Some(r.txCount), Some(errs))
    requires t.harvest.ri < |t.readers| && t.readers[t.harvest.ri] == r.(tx := 0) && r.section.Free?
    requires forall f: Field :: r.cells.At(f).seen.None?
    requires t.config == s.config
    ensures var i := t.harvest.ri;
      Apply(Apply(Apply(Apply(Apply(t, Load(TTFBL)), Load(TTFBH)), Load(RMSL)), Load(RMSH)), Reset(env))
        == t.(readers := t.readers[i := r.(hasStats := false, cells := FreshCells(), tx := 0)],
              harvest := Visit(i + 1), produced := t.produced + [HarvestedPoint(s, r, errs, env)])
  {
    var i := t.harvest.ri;
    LoadAll(t, i);
    var r' := r.(tx := 0, cells := SeenCells(r));
    assert SeenCells(r.(tx := 0)) == SeenCells(r);
    var t' := t.(readers := t.readers[i := r']);
    ResetSeen(s, t', r, errs, env);
    var again := r.(hasStats := false, cells := FreshCells(), tx := 0);
    assert t'.readers[i := again] == t.readers[i := again];
  }

  /** When nothing comes in between, the stepwise harvest of a reader is the
      atomic one: the point shows the live values, the reader starts over,
      and no sample is lost. */
  lemma UninterruptedHarvest(s: State, errs: nat, env: Env)
    requires SeenWhileReading(s) && s.harvest.Visit? && s.harvest.ri < |s.readers|
    requires s.readers[s.harvest.ri].hasStats && s.readers[s.harvest.ri].section.Free?
    ensures var i := s.harvest.ri; var r := s.readers[i];
      Exec(s, Uninterrupted(errs, env))
        == s.(readers := s.readers[i := r.(hasStats := false, cells := FreshCells(), tx := 0)],
              harvest := Visit(i + 1), produced := s.produced + [HarvestedPoint(s, r, errs, env)])
  {
    var i, r := s.harvest.ri, s.readers[s.harvest.ri];
    Unroll(s, errs, env);
    ReadyToLoad(s, errs);
    var t := s.(readers := s.readers[i := r.(tx := 0)], harvest := Reading(i, r.tx, Some(r.txCount), Some(errs)));
    LoadAndReset(s, t, r, errs, env);
    var again := r.(hasStats := false, cells := FreshCells(), tx := 0);
    assert t.readers[i := again] == s.readers[i := again];
  }

  lemma Unroll(s: State, errs: nat, env: Env)
    ensures Exec(s, Uninterrupted(errs, env))
         == Apply(Apply(Apply(Apply(Apply(Apply(Apply(Apply(Apply(s, Look), Swap), LoadCount), LoadErrs(errs)),
              Load(TTFBL)), Load(TTFBH)), Load(RMSL)), Load(RMSH)), Reset(env))
  {
    var u := Uninterrupted(errs, env);
    ExecDrop(s, u, 0);
    ExecDrop(Apply(s, u[0]), u, 1);
    var s2 := Apply(Apply(s, u[0]), u[1]);
    ExecDrop(s2, u, 2);
    ExecDrop(Apply(s2, u[2]), u, 3);
    var s4 := Apply(Apply(s2, u[2]), u[3]);
    ExecDrop(s4, u, 4);
    ExecDrop(Apply(s4, u[4]), u, 5);
    var s6 := Apply(Apply(s4, u[4]), u[5]);
    ExecDrop(s6, u, 6);
    ExecDrop(Apply(s6, u[6]), u, 7);
    ExecDrop(Apply(Apply(s6, u[6]), u[7]), u, 8);
  }

  lemma ExecDrop(s: State, u: seq<Action>, k: nat)
    requires k < |u|
    ensures Exec(s, u[k..]) == Exec(Apply(s, u[k]), u[k + 1..])
  {
    assert u[k..] == [u[k]] + u[k + 1..];
    ExecCons(s, u[k], u[k + 1..]);
  }

  lemma {:induction false} ExecConcat(s: State, a: seq<Action>, b: seq<Action>)
    ensures Exec(s, a + b) == Exec(Exec(s, a), b)
    decreases |b|
  {
    if b == [] {
      assert a + b == a;
    } else {
      var last := |b| - 1;
      assert a + b == (a + b[..last]) + [b[last]];
      ExecConcat(s, a, b[..last]);
      ExecLast(s, a + b[..last], b[last]);
    }
  }

  lemma ExecLast(s: State, acts: seq<Action>, a: Action)
    ensures Exec(s, acts + [a]) == Apply(Exec(s, acts), a)
  {
    assert (acts + [a])[..|acts|] == acts;
  }

  lemma ExecFour(s: State, a: Action, b: Action, c: Action, d: Action)
    ensures Exec(s, [a, b, c, d]) == Apply(Apply(Apply(Apply(s, a), b), c), d)
  {
    var u := [a, b, c, d];
    ExecDrop(s, u, 0);
    ExecDrop(Apply(s, a), u, 1);
    ExecDrop(Apply(Apply(s, a), b), u, 2);
    ExecDrop(Apply(Apply(Apply(s, a), b), c), u, 3);
  }

  /** What a sender's answer does to its reader once its three writes are through. */
  function Answered(r: Reader, sample: Micros): Reader {
    var answered := StepReader(r, false, Answer(0, sample));
    StepReader(StepReader(StepReader(answered, false, Advance), false, Advance), false, Advance)
  }

  lemma AnsweredReader(r: Reader, cancelled: bool, sample: Micros)
    requires r.section.Free? && r.senders != [] && r.senders[0].stage == Sent
    ensures var a := Answered(r, sample);
      && a.section.Free? && a.hasStats
      && a.cells == r.cells.(rmsH := RecordIn(r.cells.rmsH, RMSH, sample), rmsL := RecordIn(r.cells.rmsL, RMSL, sample))
      && a == StepReader(StepReader(StepReader(StepReader(r, cancelled, Answer(0, sample)),
                         cancelled, Advance), cancelled, Advance), cancelled, Advance)
  {
  }
}
