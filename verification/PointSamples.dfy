/** What a single point shows, in terms of the samples and bytes of its reader:
    each extreme is taken over the samples between the last reset and its load,
    and the bytes are those between two swaps. */
module PointSamples {
  import opened Folds
  import opened Records
  import opened Engine
  import opened Measurement
  import opened EngineRuns
  import opened LostSamples

  /** The samples written to one extreme of one reader since its last reset, and,
      once the harvester has loaded it, those that had been written then. */
  datatype Window = Window(since: seq<int>, loaded: Option<seq<int>>)

  predicate Loads(s: State, a: Action, i: nat, f: Field) {
    a.Load? && a.f == f && CanLoad(s, f) && s.harvest.ri == i
  }

  predicate Resets(s: State, a: Action, i: nat) {
    a.Reset? && CanReset(s) && s.harvest.ri == i
  }

  function Next(w: Window, s: State, a: Action, i: nat, f: Field): Window {
    if Resets(s, a, i) then Window([], None)
    else if Loads(s, a, i, f) then Window(w.since, Some(w.since))
    else Window(w.since + StepWrites(s, a, i, f), w.loaded)
  }

  /** The window of extreme f of reader i after a run. */
  function WindowOf(s: State, acts: seq<Action>, i: nat, f: Field): Window {
    if acts == [] then Window([], None)
    else
      var last := |acts| - 1;
      Next(WindowOf(s, acts[..last], i, f), Exec(s, acts[..last]), acts[last], i, f)
  }

  ghost predicate AreLatencies(s: seq<int>) {
    forall i :: 0 <= i < |s| ==> 0 <= s[i] <= MAX_INT64
  }

  /** A cell and its window. */
  ghost predicate Matches(c: Cell, f: Field, w: Window) {
    && c.live == Fold(Extreme(f), w.since) && AreLatencies(w.since)
    && (c.seen.Some? <==> w.loaded.Some?)
    && (c.seen.Some? ==> c.seen.value == Fold(Extreme(f), w.loaded.value) && w.since == w.loaded.value + c.gap)
  }

  lemma RecordMatches(c: Cell, f: Field, w: Window, x: Micros)
    requires Matches(c, f, w)
    ensures Matches(RecordIn(c, f, x), f, Window(w.since + [x as int], w.loaded))
  {
    FoldAppend(Extreme(f), w.since, x);
    if w.loaded.Some? {
      Regroup(w.loaded.value, c.gap, [x as int]);
    }
  }

  lemma LoadMatches(c: Cell, f: Field, w: Window)
    requires Matches(c, f, w)
    ensures Matches(Cell(c.live, Some(c.live), []), f, Window(w.since, Some(w.since)))
  {
    assert w.since + [] == w.since;
  }

  lemma ReaderMatches(s: State, i: nat, ra: ReaderAction, f: Field, w: Window)
    requires i < |s.readers| && Matches(s.readers[i].cells.At(f), f, w)
    ensures var a := OnReader(i, ra);
      Matches(Apply(s, a).readers[i].cells.At(f), f, Next(w, s, a, i, f))
  {
    var r := s.readers[i];
    var write := Writes(r, ra);
    CellStep(r, s.cancelled, ra, f);
    if write.Some? && write.value.0 == f {
      RecordMatches(r.cells.At(f), f, w, write.value.1);
    } else {
      assert w.since + [] == w.since;
    }
  }

  lemma HarvestMatches(s: State, a: Action, i: nat, f: Field, w: Window)
    requires i < |s.readers| && !a.OnReader? && Matches(s.readers[i].cells.At(f), f, w)
    ensures Matches(Apply(s, a).readers[i].cells.At(f), f, Next(w, s, a, i, f))
  {
    if a.Load? && CanLoad(s, a.f) && s.harvest.ri == i {
      LoadedMatches(s, a.f, i, f, w);
    } else if Resets(s, a, i) {
      PointShowsSeen(s, a.env, f);
    } else {
      OtherCells(s, a, i);
      assert w.since + [] == w.since;
    }
  }

  lemma LoadedMatches(s: State, g: Field, i: nat, f: Field, w: Window)
    requires i < |s.readers| && CanLoad(s, g) && s.harvest.ri == i && Matches(s.readers[i].cells.At(f), f, w)
    ensures Matches(Apply(s, Load(g)).readers[i].cells.At(f), f, Next(w, s, Load(g), i, f))
  {
    if g == f {
      SnapshotCell(s.readers[i], f);
      LoadMatches(s.readers[i].cells.At(f), f, w);
    } else {
      OtherLoads(s.readers[i], g, f);
      assert w.since + [] == w.since;
    }
  }

  lemma OtherCells(s: State, a: Action, i: nat)
    requires i < |s.readers| && !a.OnReader? && !Resets(s, a, i)
    requires !(a.Load? && CanLoad(s, a.f) && s.harvest.ri == i)
    ensures Apply(s, a).readers[i].cells == s.readers[i].cells
  {
  }

  lemma StepMatches(s: State, a: Action, i: nat, f: Field, w: Window)
    requires i < |s.readers| && Matches(s.readers[i].cells.At(f), f, w)
    ensures i < |Apply(s, a).readers| && Matches(Apply(s, a).readers[i].cells.At(f), f, Next(w, s, a, i, f))
  {
    if a.OnReader? && a.i == i {
      ReaderMatches(s, i, a.ra, f, w);
    } else if a.OnReader? {
      OtherMatches(s, a.i, a.ra, i, f, w);
    } else {
      HarvestMatches(s, a, i, f, w);
    }
  }

  lemma OtherMatches(s: State, j: nat, ra: ReaderAction, i: nat, f: Field, w: Window)
    requires i < |s.readers| && i != j && Matches(s.readers[i].cells.At(f), f, w)
    ensures var a := OnReader(j, ra);
      i < |Apply(s, a).readers| && Matches(Apply(s, a).readers[i].cells.At(f), f, Next(w, s, a, i, f))
  {
    OtherReader(s, j, ra, i);
    assert StepWrites(s, OnReader(j, ra), i, f) == [];
    assert w.since + [] == w.since;
  }

  lemma OtherReader(s: State, j: nat, ra: ReaderAction, i: nat)
    requires i < |s.readers| && i != j
    ensures i < |Apply(s, OnReader(j, ra)).readers| && Apply(s, OnReader(j, ra)).readers[i] == s.readers[i]
  {
  }

  lemma {:induction false} RunMatches(s: State, acts: seq<Action>, i: nat, f: Field)
    requires i < |s.readers| && s.readers[i].cells.At(f) == FreshCell(f)
    ensures i < |Exec(s, acts).readers|
    ensures Matches(Exec(s, acts).readers[i].cells.At(f), f, WindowOf(s, acts, i, f))
  {
    if acts != [] {
      var last := |acts| - 1;
      RunMatches(s, acts[..last], i, f);
      StepMatches(Exec(s, acts[..last]), acts[last], i, f, WindowOf(s, acts[..last], i, f));
    }
  }

  // Points

  /** For each point that a run makes, the samples that extreme f was taken over. */
  function SamplesOfPoints(s: State, acts: seq<Action>, f: Field): seq<seq<int>> {
    if acts == [] then []
    else
      var last := |acts| - 1;
      var t := Exec(s, acts[..last]);
      SamplesOfPoints(s, acts[..last], f)
        + if acts[last].Reset? && CanReset(t) then [WindowOf(s, acts[..last], t.harvest.ri, f).loaded.GetOr([])] else []
  }

  ghost predicate FreshReaders(s: State) {
    forall i, f: Field :: 0 <= i < |s.readers| ==> s.readers[i].cells.At(f) == FreshCell(f)
  }

  lemma PointOfWindow(s: State, acts: seq<Action>, env: Env, f: Field)
    requires FreshReaders(s) && CanReset(Exec(s, acts)) && |Exec(s, acts).readers| == |s.readers|
    ensures var t := Exec(s, acts); var w := WindowOf(s, acts, t.harvest.ri, f);
      && w.loaded.Some? && AreLatencies(w.loaded.value)
      && Get(ResetPoint(t, env), f) == Fold(Extreme(f), w.loaded.value)
  {
    var t := Exec(s, acts);
    var w := WindowOf(s, acts, t.harvest.ri, f);
    RunMatches(s, acts, t.harvest.ri, f);
    PointShowsSeen(t, env, f);
    assert forall k :: 0 <= k < |w.loaded.value| ==> w.loaded.value[k] == w.since[k];
  }

  lemma ProducedStep(s: State, a: Action)
    ensures Apply(s, a).produced == s.produced + if a.Reset? && CanReset(s) then [ResetPoint(s, a.env)] else []
  {
    assert s.produced + [] == s.produced;
  }

  lemma {:induction false} PointsOfRun(s: State, acts: seq<Action>, f: Field)
    requires FreshReaders(s) && s.produced == []
    ensures var t, w := Exec(s, acts), SamplesOfPoints(s, acts, f);
      && |w| == |t.produced|
      && forall j :: 0 <= j < |w| ==> AreLatencies(w[j]) && Get(t.produced[j], f) == Fold(Extreme(f), w[j])
  {
    if acts != [] {
      var last := |acts| - 1;
      var t := Exec(s, acts[..last]);
      PointsOfRun(s, acts[..last], f);
      ProducedStep(t, acts[last]);
      if acts[last].Reset? && CanReset(t) {
        ReadersStay(s, acts[..last]);
        PointOfWindow(s, acts[..last], acts[last].env, f);
      }
    }
  }

  lemma StartIsFresh(config: Config, addrs: seq<string>, n: nat)
    ensures FreshReaders(Start(config, addrs, n))
  {
    forall i | 0 <= i < |addrs|
      ensures forall f: Field :: Start(config, addrs, n).readers[i].cells.At(f) == FreshCell(f)
    {
      NewReaderSound(addrs[i], n, Limit(config));
    }
  }

  /** In every run, each extreme that a point shows is the extreme over the
      samples written to its reader between the last reset and the load. */
  lemma PointsShowTheirSamples(config: Config, addrs: seq<string>, n: nat, acts: seq<Action>, f: Field)
    ensures var s0 := Start(config, addrs, n);
      var s, w := Exec(s0, acts), SamplesOfPoints(s0, acts, f);
      && |w| == |s.produced|
      && forall j :: 0 <= j < |w| ==> AreLatencies(w[j]) && Get(s.produced[j], f) == Fold(Extreme(f), w[j])
  {
    StartIsFresh(config, addrs, n);
    PointsOfRun(Start(config, addrs, n), acts, f);
  }

  // The two ends of a latency

  /** A sample whose high has been stored and whose low is about to be. */
  function HalfWritten(r: Reader, k: Kind): seq<int> {
    if r.section.WriteLow? && r.section.kind == k then [r.section.sample as int] else []
  }

  lemma PairStep(s: State, a: Action, i: nat, k: Kind, high: Window, low: Window)
    requires i < |s.readers| && high.since == low.since + HalfWritten(s.readers[i], k)
    ensures i < |Apply(s, a).readers|
    ensures Next(high, s, a, i, HighOf(k)).since
         == Next(low, s, a, i, LowOf(k)).since + HalfWritten(Apply(s, a).readers[i], k)
  {
    if a.OnReader? && a.i == i {
      ReaderPair(s.readers[i], s.cancelled, a.ra, k, low.since);
      assert high.since + [] == high.since && low.since + [] == low.since;
    } else {
      assert high.since + [] == high.since && low.since + [] == low.since;
      assert !Resets(s, a, i) ==> Apply(s, a).readers[i].section == s.readers[i].section;
    }
  }

  /** The sample that a writes to extreme f of r. */
  function WritesTo(r: Reader, a: ReaderAction, f: Field): seq<int> {
    var w := Writes(r, a);
    if w.Some? && w.value.0 == f then [w.value.1] else []
  }

  lemma ReaderPair(r: Reader, cancelled: bool, a: ReaderAction, k: Kind, lows: seq<int>)
    ensures lows + HalfWritten(r, k) + WritesTo(r, a, HighOf(k))
         == lows + WritesTo(r, a, LowOf(k)) + HalfWritten(StepReader(r, cancelled, a), k)
  {
    if a.Advance? {
      assert lows + [] == lows;
    } else {
      assert StepReader(r, cancelled, a).section.WriteLow? ==> StepReader(r, cancelled, a).section == r.section;
      assert r.section.WriteLow? ==> StepReader(r, cancelled, a).section == r.section;
    }
  }

  lemma {:induction false} RunPair(s: State, acts: seq<Action>, i: nat, k: Kind)
    requires i < |s.readers| && HalfWritten(s.readers[i], k) == []
    ensures i < |Exec(s, acts).readers|
    ensures WindowOf(s, acts, i, HighOf(k)).since
         == WindowOf(s, acts, i, LowOf(k)).since + HalfWritten(Exec(s, acts).readers[i], k)
  {
    if acts != [] {
      var last := |acts| - 1;
      RunPair(s, acts[..last], i, k);
      PairStep(Exec(s, acts[..last]), acts[last], i, k, WindowOf(s, acts[..last], i, HighOf(k)),
               WindowOf(s, acts[..last], i, LowOf(k)));
    }
  }

  /** One of the two is how the other starts. */
  ghost predicate Together(low: seq<int>, high: seq<int>) {
    low <= high || high <= low
  }

  lemma PrefixesOfOne(a: seq<int>, b: seq<int>, all: seq<int>)
    requires a <= all && b <= all
    ensures Together(a, b)
  {
  }

  lemma WindowsTogether(s: State, acts: seq<Action>, k: Kind)
    requires FreshReaders(s) && CanReset(Exec(s, acts)) && |Exec(s, acts).readers| == |s.readers|
    requires forall i :: 0 <= i < |s.readers| ==> s.readers[i].section.Free?
    ensures var i := Exec(s, acts).harvest.ri;
      Together(WindowOf(s, acts, i, LowOf(k)).loaded.GetOr([]), WindowOf(s, acts, i, HighOf(k)).loaded.GetOr([]))
  {
    var i := Exec(s, acts).harvest.ri;
    RunMatches(s, acts, i, HighOf(k));
    RunMatches(s, acts, i, LowOf(k));
    RunPair(s, acts, i, k);
    var high, low := WindowOf(s, acts, i, HighOf(k)), WindowOf(s, acts, i, LowOf(k));
    PrefixesOfOne(low.loaded.GetOr([]), high.loaded.GetOr([]), high.since);
  }

  lemma {:induction false} PairsOfRun(s: State, acts: seq<Action>, k: Kind)
    requires FreshReaders(s) && forall i :: 0 <= i < |s.readers| ==> s.readers[i].section.Free?
    ensures var high, low := SamplesOfPoints(s, acts, HighOf(k)), SamplesOfPoints(s, acts, LowOf(k));
      |high| == |low| && forall j :: 0 <= j < |high| ==> Together(low[j], high[j])
  {
    if acts != [] {
      var last := |acts| - 1;
      PairsOfRun(s, acts[..last], k);
      if acts[last].Reset? && CanReset(Exec(s, acts[..last])) {
        ReadersStay(s, acts[..last]);
        WindowsTogether(s, acts[..last], k);
      }
    }
  }

  lemma FoldBounds(m: Monoid, s: seq<int>, i: nat)
    requires m != Add && i < |s|
    ensures Op(m, Fold(m, s), s[i]) == Fold(m, s)
  {
    FoldIsExtreme(m, s);
  }

  lemma EndsInOrder(low: seq<int>, high: seq<int>)
    requires Together(low, high) && AreLatencies(low) && AreLatencies(high)
    ensures Fold(Min, low) <= Fold(Max, high)
       <==> (low != [] && high != []) || (low == [] && MAX_INT64 in high) || (high == [] && 0 in low)
  {
    if low != [] && high != [] {
      FoldBounds(Min, low, 0);
      FoldBounds(Max, high, 0);
    } else {
      FoldIsExtreme(Max, high);
      FoldIsExtreme(Min, low);
    }
  }

  /** In every run, the two ends of a latency that a point shows are over the
      same samples up to where each was loaded. So its low is at most its high if
      and only if both were loaded after some sample, or the one that was is
      already at the starting value of the other. */
  lemma LowIsAtMostHigh(config: Config, addrs: seq<string>, n: nat, acts: seq<Action>, j: nat, k: Kind)
    ensures var s0 := Start(config, addrs, n);
      var s, lows, highs := Exec(s0, acts), SamplesOfPoints(s0, acts, LowOf(k)), SamplesOfPoints(s0, acts, HighOf(k));
      && |lows| == |highs| == |s.produced|
      && (j < |lows| ==>
            && Together(lows[j], highs[j])
            && (Get(s.produced[j], LowOf(k)) <= Get(s.produced[j], HighOf(k))
                <==> || (lows[j] != [] && highs[j] != [])
                     || (lows[j] == [] && MAX_INT64 in highs[j])
                     || (highs[j] == [] && 0 in lows[j])))
  {
    var s0 := Start(config, addrs, n);
    PointsShowTheirSamples(config, addrs, n, acts, LowOf(k));
    PointsShowTheirSamples(config, addrs, n, acts, HighOf(k));
    StartIsFresh(config, addrs, n);
    PairsOfRun(s0, acts, k);
    if j < |SamplesOfPoints(s0, acts, LowOf(k))| {
      EndsInOrder(SamplesOfPoints(s0, acts, LowOf(k))[j], SamplesOfPoints(s0, acts, HighOf(k))[j]);
    }
  }
}
