/** Three short runs from the start of a test with one remote host, one token and
    one request: one loses a latency sample, one shows a high without its low,
    and one reports its request twice. */
module Witnesses {
  import opened Folds
  import opened Records
  import opened Engine
  import opened EngineRuns

  function On(a: ReaderAction): Action {
    OnReader(0, a)
  }

  /** A request is dispatched and sent. */
  function Dispatch(): seq<Action> {
    [On(Take), On(Spawn), On(Check(0)), On(Send(0))]
  }

  /** The first read of its body, which takes as long as since. */
  function FirstByte(since: Micros): seq<Action> {
    [On(Read(0, since)), On(Advance), On(Advance), On(Advance)]
  }

  function Response(done: Micros): seq<Action> {
    [On(Answer(0, done)), On(Advance), On(Advance), On(Advance)]
  }

  function Dispatched(addr: string, limit: Option<nat>): Reader {
    Reader(addr, false, Free, FreshCells(), 0, 1, [], None, true, [Sender(1, Sent)], [Body(false, 0)], limit)
  }

  function Started(addr: string, limit: Option<nat>, since: Micros): Reader {
    Dispatched(addr, limit).(hasStats := true, bodies := [Body(true, 0)],
      cells := FreshCells().(ttfbH := Cell(Op(Max, 0, since), None, []),
                             ttfbL := Cell(Op(Min, MAX_INT64, since), None, [])))
  }

  /** What matters of a state with one reader and nothing harvested yet. */
  ghost predicate Shows(s: State, r: Reader) {
    s.readers == [r] && s.harvest == Rest && s.produced == [] && s.missed == NO_SAMPLES && s.taken.rmsH == []
  }

  /** A step of the only reader, in a state of which nothing else changes. */
  lemma OneStep(s: State, a: ReaderAction)
    requires |s.readers| == 1 && !a.Count?
    ensures Apply(s, On(a)) == s.(readers := [StepReader(s.readers[0], s.cancelled, a)],
                                  taken := Note(s.taken, Writes(s.readers[0], a)))
  {
    assert s.readers[0 := StepReader(s.readers[0], s.cancelled, a)] == [StepReader(s.readers[0], s.cancelled, a)];
  }

  lemma DispatchedReader(addr: string, limit: Option<nat>)
    ensures var r := NewReader(addr, 1, limit);
      var r1 := StepReader(r, false, Take);
      var r2 := StepReader(r1, false, Spawn);
      var r3 := StepReader(r2, false, Check(0));
      && StepReader(r3, false, Send(0)) == Dispatched(addr, limit)
      && Writes(r, Take) == Writes(r1, Spawn) == Writes(r2, Check(0)) == Writes(r3, Send(0)) == None
  {
    var r := NewReader(addr, 1, limit);
    assert r.channel == [1] && r.channel[1..] == [];
    var r2 := StepReader(StepReader(r, false, Take), false, Spawn);
    assert r2.senders == [Sender(1, Waiting)];
    var r3 := StepReader(r2, false, Check(0));
    assert r3.senders == [Sender(1, Checked)];
    var r4 := StepReader(r3, false, Send(0));
    assert r4.senders == [Sender(1, Sent)] && r4.bodies == [Body(false, 0)];
  }

  lemma AfterDispatch(config: Config, addr: string)
    ensures Shows(Exec(Start(config, [addr], 1), Dispatch()), Dispatched(addr, Limit(config)))
  {
    var s := Start(config, [addr], 1);
    assert s.readers == [NewReader(addr, 1, Limit(config))];
    ExecFour(s, On(Take), On(Spawn), On(Check(0)), On(Send(0)));
    OneStep(s, Take);
    var s1 := Apply(s, On(Take));
    OneStep(s1, Spawn);
    var s2 := Apply(s1, On(Spawn));
    OneStep(s2, Check(0));
    OneStep(Apply(s2, On(Check(0))), Send(0));
    DispatchedReader(addr, Limit(config));
  }

  lemma AfterFirstByte(s: State, addr: string, limit: Option<nat>, since: Micros)
    requires Shows(s, Dispatched(addr, limit))
    ensures Shows(Exec(s, FirstByte(since)), Started(addr, limit, since))
  {
    ExecFour(s, On(Read(0, since)), On(Advance), On(Advance), On(Advance));
    var s1 := Apply(s, On(Read(0, since)));
    assert s1.readers[0].bodies == [Body(true, 0)] && s1.readers[0].section == WriteHigh(Ttfb, since);
    var s2 := Apply(s1, On(Advance));
    var s3 := Apply(s2, On(Advance));
    var s4 := Apply(s3, On(Advance));
    assert s4.readers[0] == Started(addr, limit, since);
  }

  function Prefix(since: Micros): seq<Action> {
    Dispatch() + FirstByte(since)
  }

  lemma AfterPrefix(config: Config, addr: string, since: Micros)
    ensures Shows(Exec(Start(config, [addr], 1), Prefix(since)), Started(addr, Limit(config), since))
  {
    AfterDispatch(config, addr);
    AfterFirstByte(Exec(Start(config, [addr], 1), Dispatch()), addr, Limit(config), since);
    ExecConcat(Start(config, [addr], 1), Dispatch(), FirstByte(since));
  }

  // A lost sample

  function LoadSteps(): seq<Action> {
    [StartHarvest, Look, Swap, LoadCount] + [LoadErrs(0), Load(TTFBL), Load(TTFBH), Load(RMSL)]
  }

  lemma AfterLoads(s: State, r: Reader)
    requires Shows(s, r) && r.hasStats && r.section.Free? && forall f: Field :: r.cells.At(f).seen.None?
    ensures var t := Apply(Exec(s, LoadSteps()), Load(RMSH));
      && t.harvest == Reading(0, r.tx, Some(r.txCount), Some(0))
      && t.readers == [r.(tx := 0, cells := SeenCells(r))]
      && t.produced == [] && t.missed == NO_SAMPLES && t.taken == s.taken
  {
    var s1 := Apply(s, StartHarvest);
    var first, second := [StartHarvest, Look, Swap, LoadCount], [LoadErrs(0), Load(TTFBL), Load(TTFBH), Load(RMSL)];
    ExecConcat(s, first, second);
    ExecFour(s, StartHarvest, Look, Swap, LoadCount);
    ExecFour(Exec(s, first), LoadErrs(0), Load(TTFBL), Load(TTFBH), Load(RMSL));
    ReadyToLoad(s1, 0);
    var s5 := Apply(Exec(s, first), LoadErrs(0));
    assert s5.readers == [r.(tx := 0)];
    assert r.(tx := 0).cells == r.cells;
    LoadAll(s5, 0);
    assert SeenCells(r.(tx := 0)) == SeenCells(r);
  }

  lemma ResponseWrites(r: Reader, cancelled: bool, done: Micros)
    requires r.section.Free? && r.senders != [] && r.senders[0].stage == Sent
    ensures var r1 := StepReader(r, cancelled, Answer(0, done));
      var r2 := StepReader(r1, cancelled, Advance);
      var r3 := StepReader(r2, cancelled, Advance);
      && Writes(r, Answer(0, done)) == None && Writes(r1, Advance) == Some((RMSH, done as int))
      && Writes(r2, Advance) == Some((RMSL, done as int)) && Writes(r3, Advance) == None
  {
  }

  lemma AfterResponse(s: State, done: Micros)
    requires |s.readers| == 1 && s.readers[0].section.Free?
    requires s.readers[0].senders != [] && s.readers[0].senders[0].stage == Sent
    requires s.taken.rmsH == []
    ensures var t := Exec(s, Response(done)); var r := s.readers[0];
      && t == s.(readers := t.readers, taken := t.taken) && |t.readers| == 1
      && t.readers[0].section.Free?
      && t.readers[0].cells
           == r.cells.(rmsH := RecordIn(r.cells.rmsH, RMSH, done), rmsL := RecordIn(r.cells.rmsL, RMSL, done))
      && t.taken.rmsH == [done]
  {
    var r := s.readers[0];
    var s1 := Apply(s, On(Answer(0, done)));
    var s2 := Apply(s1, On(Advance));
    var s3 := Apply(s2, On(Advance));
    ExecFour(s, On(Answer(0, done)), On(Advance), On(Advance), On(Advance));
    OneStep(s, Answer(0, done));
    OneStep(s1, Advance);
    OneStep(s2, Advance);
    OneStep(s3, Advance);
    ResponseWrites(r, s.cancelled, done);
    AnsweredReader(r, s.cancelled, done);
  }

  /** From the start of a test with one remote host, for any sample: a run
      records the sample as a round trip, and neither a point nor a live field
      has it: they show the starting values. */
  lemma LosesSample(config: Config, addr: string, done: Micros, env: Env) returns (acts: seq<Action>)
    ensures var s := Exec(Start(config, [addr], 1), acts);
      && s.taken.rmsH == [done] && s.missed.rmsH == [done]
      && |s.readers| == 1 && s.readers[0].cells == FreshCells()
      && |s.produced| == 1 && s.produced[0].rmsH == 0 && s.produced[0].rmsL == MAX_INT64
  {
    var s0 := Start(config, [addr], 1);
    var since: Micros := 1;
    var r := Started(addr, Limit(config), since);
    AfterPrefix(config, addr, since);
    var s1 := Exec(s0, Prefix(since));
    AfterLoads(s1, r);
    var s2 := Apply(Exec(s1, LoadSteps()), Load(RMSH));
    AfterResponse(s2, done);
    var s3 := Exec(s2, Response(done));
    PointAfterResponse(s3, r, done, env);
    acts := Prefix(since) + LoadSteps() + [Load(RMSH)] + Response(done) + [Reset(env)];
    ExecConcat(s0, Prefix(since), LoadSteps());
    ExecLast(s0, Prefix(since) + LoadSteps(), Load(RMSH));
    ExecConcat(s0, Prefix(since) + LoadSteps() + [Load(RMSH)], Response(done));
    ExecLast(s0, Prefix(since) + LoadSteps() + [Load(RMSH)] + Response(done), Reset(env));
  }

  lemma PointAfterResponse(s: State, r: Reader, done: Micros, env: Env)
    requires s.harvest == Reading(0, r.tx, Some(r.txCount), Some(0)) && |s.readers| == 1 && s.readers[0].section.Free?
    requires r.cells.rmsH.live == 0 && r.cells.rmsL.live == MAX_INT64 && s.missed == NO_SAMPLES && s.produced == []
    requires s.readers[0].cells == SeenCells(r).(rmsH := RecordIn(SeenCells(r).rmsH, RMSH, done),
                                                 rmsL := RecordIn(SeenCells(r).rmsL, RMSL, done))
    ensures var t := Apply(s, Reset(env));
      && t.taken == s.taken && t.missed.rmsH == [done] && |t.readers| == 1 && t.readers[0].cells == FreshCells()
      && |t.produced| == 1 && t.produced[0].rmsH == 0 && t.produced[0].rmsL == MAX_INT64
  {
    assert CanReset(s);
  }

  // A high without its low

  function FirstLoads(): seq<Action> {
    [StartHarvest, Look, Swap, LoadCount]
  }

  function LoadsAndHigh(done: Micros): seq<Action> {
    [Load(TTFBL), Load(TTFBH), On(Answer(0, done)), On(Advance)]
  }

  function LoadsAndLow(): seq<Action> {
    [Load(RMSL), Load(RMSH), On(Advance), On(Advance)]
  }

  lemma AfterHigh(s: State, q: Reader, done: Micros)
    requires s.readers == [q] && q.section.Free? && q.senders != [] && q.senders[0].stage == Sent
    requires s.harvest.Reading? && s.harvest.ri == 0 && forall f: Field :: q.cells.At(f).seen.None?
    requires q.cells.rmsH.live == 0 && q.cells.rmsL.live == MAX_INT64
    ensures var t := Exec(s, LoadsAndHigh(done));
      && t == s.(readers := t.readers, taken := t.taken) && |t.readers| == 1
      && t.readers[0].section == WriteLow(Rms, done)
      && t.readers[0].cells.ttfbL.seen.Some? && t.readers[0].cells.ttfbH.seen.Some?
      && t.readers[0].cells.rmsL == q.cells.rmsL && t.readers[0].cells.rmsH == RecordIn(q.cells.rmsH, RMSH, done)
  {
    assert q.cells.At(TTFBL).seen.None? && q.cells.At(TTFBH).seen.None?;
    ExecFour(s, Load(TTFBL), Load(TTFBH), On(Answer(0, done)), On(Advance));
    var s1 := Apply(s, Load(TTFBL));
    assert s1.readers[0].cells.At(TTFBH).seen.None?;
    var s2 := Apply(s1, Load(TTFBH));
    OneStep(s2, Answer(0, done));
    OneStep(Apply(s2, On(Answer(0, done))), Advance);
  }

  lemma TwoLoads(s: State, done: int)
    requires |s.readers| == 1 && s.harvest.Reading? && s.harvest.ri == 0
    requires s.readers[0].cells.rmsL == Cell(MAX_INT64, None, []) && s.readers[0].cells.rmsH == Cell(done, None, [])
    ensures var t := Apply(Apply(s, Load(RMSL)), Load(RMSH)); var r := s.readers[0];
      t == s.(readers := [r.(cells := r.cells.(rmsL := Cell(MAX_INT64, Some(MAX_INT64), []),
                                               rmsH := Cell(done, Some(done), [])))])
  {
    var r := s.readers[0];
    assert r.cells.At(RMSL).seen.None?;
    var s1 := Apply(s, Load(RMSL));
    assert s1.readers == [Snapshot(r, RMSL)];
    assert s1.readers[0].cells.At(RMSH).seen.None?;
    assert Apply(s1, Load(RMSH)).readers == [Snapshot(Snapshot(r, RMSL), RMSH)];
  }

  lemma AfterLow(s: State, done: Micros)
    requires |s.readers| == 1 && s.readers[0].section == WriteLow(Rms, done)
    requires s.harvest.Reading? && s.harvest.ri == 0
    requires s.readers[0].cells.rmsL == Cell(MAX_INT64, None, []) && s.readers[0].cells.rmsH == Cell(done, None, [])
    ensures var t := Exec(s, LoadsAndLow());
      && t == s.(readers := t.readers, taken := t.taken) && |t.readers| == 1
      && t.readers[0].section.Free?
      && t.readers[0].cells.ttfbL == s.readers[0].cells.ttfbL && t.readers[0].cells.ttfbH == s.readers[0].cells.ttfbH
      && t.readers[0].cells.rmsL.seen == Some(MAX_INT64) && t.readers[0].cells.rmsH.seen == Some(done as int)
  {
    ExecFour(s, Load(RMSL), Load(RMSH), On(Advance), On(Advance));
    TwoLoads(s, done);
    var s2 := Apply(Apply(s, Load(RMSL)), Load(RMSH));
    OneStep(s2, Advance);
    OneStep(Apply(s2, On(Advance)), Advance);
  }

  function LoadsAndReset(done: Micros, env: Env): seq<Action> {
    LoadsAndHigh(done) + LoadsAndLow() + [Reset(env)]
  }

  lemma PointOfLoads(s: State, done: Micros, env: Env)
    requires s.harvest.Reading? && s.harvest.ri == 0 && s.harvest.count.Some? && s.harvest.errs.Some?
    requires |s.readers| == 1 && s.readers[0].section.Free? && AllSeen(s.readers[0]) && s.produced == []
    requires s.readers[0].cells.rmsL.seen == Some(MAX_INT64) && s.readers[0].cells.rmsH.seen == Some(done as int)
    ensures var t := Apply(s, Reset(env));
      |t.produced| == 1 && t.produced[0].rmsH == done && t.produced[0].rmsL == MAX_INT64
  {
  }

  lemma PointOfHigh(s: State, q: Reader, done: Micros, env: Env)
    requires s.readers == [q] && q.section.Free? && q.senders != [] && q.senders[0].stage == Sent
    requires s.harvest.Reading? && s.harvest.ri == 0 && s.harvest.count.Some? && s.harvest.errs.Some?
    requires q.cells.rmsH == FreshCell(RMSH) && q.cells.rmsL == FreshCell(RMSL) && s.produced == []
    requires forall f: Field :: q.cells.At(f).seen.None?
    ensures var t := Exec(s, LoadsAndReset(done, env));
      |t.produced| == 1 && t.produced[0].rmsH == done && t.produced[0].rmsL == MAX_INT64
  {
    AfterHigh(s, q, done);
    var s3 := Exec(s, LoadsAndHigh(done));
    AfterLow(s3, done);
    PointOfLoads(Exec(s3, LoadsAndLow()), done, env);
    ExecConcat(s, LoadsAndHigh(done), LoadsAndLow());
    ExecLast(s, LoadsAndHigh(done) + LoadsAndLow(), Reset(env));
  }

  lemma AfterFirstLoads(s: State, r: Reader)
    requires Shows(s, r) && r.hasStats
    ensures var t := Exec(s, FirstLoads() + [LoadErrs(0)]);
      t.readers == [r.(tx := 0)] && t.harvest == Reading(0, r.tx, Some(r.txCount), Some(0)) && t.produced == []
  {
    ExecLast(s, FirstLoads(), LoadErrs(0));
    ExecFour(s, StartHarvest, Look, Swap, LoadCount);
    ReadyToLoad(Apply(s, StartHarvest), 0);
  }

  /** From the start of a test with one remote host, for any sample: a run whose
      one point shows the sample as the highest round trip, and no lowest one. */
  lemma HighWithoutLow(config: Config, addr: string, done: Micros, env: Env) returns (acts: seq<Action>)
    ensures var s := Exec(Start(config, [addr], 1), acts);
      |s.produced| == 1 && s.produced[0].rmsH == done && s.produced[0].rmsL == MAX_INT64
  {
    var s0 := Start(config, [addr], 1);
    var since: Micros := 1;
    var r := Started(addr, Limit(config), since);
    var first := FirstLoads() + [LoadErrs(0)];
    AfterPrefix(config, addr, since);
    var s1 := Exec(s0, Prefix(since));
    AfterFirstLoads(s1, r);
    UnseenReader(r.(tx := 0));
    PointOfHigh(Exec(s1, first), r.(tx := 0), done, env);
    acts := Prefix(since) + (first + LoadsAndReset(done, env));
    ExecConcat(s0, Prefix(since), first + LoadsAndReset(done, env));
    ExecConcat(s1, first, LoadsAndReset(done, env));
  }

  lemma UnseenReader(r: Reader)
    requires r.cells.ttfbH.seen.None? && r.cells.ttfbL.seen.None? && r.cells.rmsH.seen.None? && r.cells.rmsL.seen.None?
    ensures forall f: Field :: r.cells.At(f).seen.None?
  {
  }

  // A request counted twice

  function Again(): seq<Action> {
    [Look, On(Read(0, 0)), On(Advance), StartHarvest]
  }

  lemma AfterHarvest(s: State, r: Reader, env: Env)
    requires Shows(s, r) && r.hasStats && r.section.Free? && forall f: Field :: r.cells.At(f).seen.None?
    ensures var t := Exec(Apply(s, StartHarvest), Uninterrupted(0, env));
      && t.readers == [r.(hasStats := false, cells := FreshCells(), tx := 0)] && t.harvest == Visit(1)
      && |t.produced| == 1 && t.produced[0].txCount == r.txCount
  {
    var s1 := Apply(s, StartHarvest);
    assert SeenWhileReading(s1);
    UninterruptedHarvest(s1, 0, env);
  }

  lemma AfterAgain(s: State, r: Reader)
    requires s.readers == [r] && s.harvest == Visit(1) && r.section.Free? && r.bodies == [Body(true, 0)]
    ensures var t := Exec(s, Again());
      t.readers == [r.(hasStats := true)] && t.harvest == Visit(0) && t.produced == s.produced
  {
    ExecFour(s, Look, On(Read(0, 0)), On(Advance), StartHarvest);
  }

  /** A run without a cancel in which no errors are pending. */
  ghost predicate Plain(acts: seq<Action>) {
    forall k :: 0 <= k < |acts| ==> !acts[k].Cancel? && (acts[k].LoadErrs? ==> acts[k].n == 0)
  }

  function HarvestTwice(env: Env): seq<Action> {
    [StartHarvest] + Uninterrupted(0, env) + Again() + Uninterrupted(0, env) + [Look]
  }

  lemma PlainRun(since: Micros, env: Env)
    ensures Plain(Prefix(since) + HarvestTwice(env))
  {
    assert Plain(Dispatch()) && Plain(FirstByte(since)) && Plain(Uninterrupted(0, env)) && Plain(Again());
    assert Plain(Prefix(since));
    assert Plain([StartHarvest] + Uninterrupted(0, env));
    assert Plain([StartHarvest] + Uninterrupted(0, env) + Again());
    assert Plain([StartHarvest] + Uninterrupted(0, env) + Again() + Uninterrupted(0, env));
    assert Plain(HarvestTwice(env));
  }

  lemma AfterTwo(s: State, r: Reader, env: Env)
    requires Shows(s, r) && r.hasStats && r.section.Free? && forall f: Field :: r.cells.At(f).seen.None?
    requires r.bodies == [Body(true, 0)]
    ensures var t := Exec(s, HarvestTwice(env));
      && |t.readers| == 1 && t.readers[0].txCount == r.txCount && t.harvest.Rest?
      && |t.produced| == 2 && t.produced[0].txCount == t.produced[1].txCount == r.txCount
  {
    var u := Uninterrupted(0, env);
    AfterHarvest(s, r, env);
    var s2 := Exec(Apply(s, StartHarvest), u);
    var again := r.(hasStats := false, cells := FreshCells(), tx := 0);
    AfterAgain(s2, again);
    var s3 := Exec(s2, Again());
    UnseenReader(again.(hasStats := true));
    assert SeenWhileReading(s3);
    UninterruptedHarvest(s3, 0, env);
    ExecLast(s, [], StartHarvest);
    assert [] + [StartHarvest] == [StartHarvest];
    ExecConcat(s, [StartHarvest], u);
    ExecConcat(s, [StartHarvest] + u, Again());
    ExecConcat(s, [StartHarvest] + u + Again(), u);
    ExecLast(s, [StartHarvest] + u + Again() + u, Look);
  }

  /** From the start of a test with one remote host: a run in which one request
      is sent, and the counts of two points add up to two. */
  lemma CountsTwice(config: Config, addr: string, env: Env) returns (acts: seq<Action>)
    ensures Plain(acts)
    ensures var s := Exec(Start(config, [addr], 1), acts);
      && |s.readers| == 1 && s.readers[0].txCount == 1 && s.harvest.Rest?
      && |s.produced| == 2 && s.produced[0].txCount == s.produced[1].txCount == 1
  {
    var since: Micros := 1;
    var r := Started(addr, Limit(config), since);
    AfterPrefix(config, addr, since);
    UnseenReader(r);
    AfterTwo(Exec(Start(config, [addr], 1), Prefix(since)), r, env);
    acts := Prefix(since) + HarvestTwice(env);
    ExecConcat(Start(config, [addr], 1), Prefix(since), HarvestTwice(env));
    PlainRun(since, env);
  }
}
