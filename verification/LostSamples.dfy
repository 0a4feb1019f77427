/** Exactly which latency samples a harvest loses: those written to an extreme
    after the harvester has loaded it and before the reset. */
module LostSamples {
  import opened Folds
  import opened Records
  import opened Engine
  import opened Measurement
  import opened EngineRuns

  /** The sample that action a writes to extreme f of reader i. */
  function StepWrites(s: State, a: Action, i: nat, f: Field): seq<int> {
    if a.OnReader? && a.i == i < |s.readers| then
      var w := Writes(s.readers[i], a.ra);
      if w.Some? && w.value.0 == f then [w.value.1] else []
    else []
  }

  /** All samples that a run writes to extreme f of reader i, in order. */
  function Written(s: State, acts: seq<Action>, i: nat, f: Field): seq<int> {
    if acts == [] then []
    else
      var last := |acts| - 1;
      Written(s, acts[..last], i, f) + StepWrites(Exec(s, acts[..last]), acts[last], i, f)
  }

  ghost predicate NoReset(acts: seq<Action>) {
    forall k :: 0 <= k < |acts| ==> !acts[k].Reset?
  }

  /** Reader i is being harvested and its extreme f has been loaded. */
  ghost predicate Loaded(s: State, i: nat, f: Field) {
    s.harvest.Reading? && s.harvest.ri == i < |s.readers| && s.readers[i].cells.At(f).seen.Some?
  }

  lemma CellStep(r: Reader, cancelled: bool, a: ReaderAction, f: Field)
    ensures var w := Writes(r, a); var c, c' := r.cells.At(f), StepReader(r, cancelled, a).cells.At(f);
      c' == if w.Some? && w.value.0 == f then RecordIn(c, f, w.value.1) else c
  {
    var w := Writes(r, a);
    if w.Some? && w.value.0 == f {
      WrittenCell(r, cancelled, a);
    } else {
      OtherCellsKept(r, cancelled, a, f);
    }
  }

  lemma GapStep(s: State, a: Action, i: nat, f: Field)
    requires Loaded(s, i, f) && !a.Reset?
    ensures var s' := Apply(s, a);
      && Loaded(s', i, f) && s'.missed == s.missed
      && s'.readers[i].cells.At(f).seen == s.readers[i].cells.At(f).seen
      && s'.readers[i].cells.At(f).gap == s.readers[i].cells.At(f).gap + StepWrites(s, a, i, f)
  {
    match a
    case OnReader(j, ra) =>
      if j == i {
        CellStep(s.readers[i], s.cancelled, ra, f);
      }
    case Load(g) =>
      if CanLoad(s, g) {
        OtherLoads(s.readers[i], g, f);
      }
    case _ =>
  }

  lemma OtherLoads(r: Reader, g: Field, f: Field)
    requires g != f
    ensures Snapshot(r, g).cells.At(f) == r.cells.At(f)
  {
  }

  lemma {:induction false} GapGrows(s: State, acts: seq<Action>, i: nat, f: Field)
    requires Loaded(s, i, f) && NoReset(acts)
    ensures var s' := Exec(s, acts);
      && Loaded(s', i, f) && s'.missed == s.missed
      && s'.readers[i].cells.At(f).seen == s.readers[i].cells.At(f).seen
      && s'.readers[i].cells.At(f).gap == s.readers[i].cells.At(f).gap + Written(s, acts, i, f)
  {
    if acts == [] {
      assert s.readers[i].cells.At(f).gap + [] == s.readers[i].cells.At(f).gap;
    } else {
      var last := |acts| - 1;
      GapGrows(s, acts[..last], i, f);
      GapStep(Exec(s, acts[..last]), acts[last], i, f);
      Regroup(s.readers[i].cells.At(f).gap, Written(s, acts[..last], i, f),
              StepWrites(Exec(s, acts[..last]), acts[last], i, f));
    }
  }

  /** Whatever happens between loading an extreme and the reset: the point shows
      the value loaded, and what is lost is exactly what was written in
      between, so nothing is lost if and only if nothing was. */
  lemma LostBetweenLoadAndReset(s: State, f: Field, acts: seq<Action>, env: Env)
    requires CanLoad(s, f) && NoReset(acts) && CanReset(Exec(Apply(s, Load(f)), acts))
    ensures var i, s1 := s.harvest.ri, Apply(s, Load(f)); var s2 := Exec(s1, acts); var t := Apply(s2, Reset(env));
      && Get(ResetPoint(s2, env), f) == s.readers[i].cells.At(f).live
      && t.missed.At(f) == s.missed.At(f) + Written(s1, acts, i, f)
      && (t.missed.At(f) == s.missed.At(f) <==> Written(s1, acts, i, f) == [])
  {
    var i, s1 := s.harvest.ri, Apply(s, Load(f));
    SnapshotCell(s.readers[i], f);
    GapGrows(s1, acts, i, f);
    PointShowsSeen(Exec(s1, acts), env, f);
    var written := Written(s1, acts, i, f);
    assert [] + written == written;
    assert |s.missed.At(f) + written| == |s.missed.At(f)| + |written|;
  }

  lemma SnapshotCell(r: Reader, f: Field)
    ensures Snapshot(r, f).cells.At(f) == Cell(r.cells.At(f).live, Some(r.cells.At(f).live), [])
  {
  }

  // Whole runs

  /** The sample that action a writes to some reader's extreme f while that
      extreme is loaded and not yet reset. */
  function StepInWindow(s: State, a: Action, f: Field): seq<int> {
    if a.OnReader? && a.i < |s.readers| && s.readers[a.i].cells.At(f).seen.Some? then StepWrites(s, a, a.i, f) else []
  }

  function InWindows(s: State, acts: seq<Action>, f: Field): seq<int> {
    if acts == [] then []
    else
      var last := |acts| - 1;
      InWindows(s, acts[..last], f) + StepInWindow(Exec(s, acts[..last]), acts[last], f)
  }

  /** Samples that the coming reset will wipe. */
  function Pending(s: State, f: Field): seq<int> {
    if s.harvest.Reading? && s.harvest.ri < |s.readers| then s.readers[s.harvest.ri].cells.At(f).gap else []
  }

  lemma NoGapUnloaded(s: State, i: nat, f: Field, n: nat)
    requires Sound(s, n) && i < |s.readers|
    ensures s.readers[i].cells.At(f).seen.None? ==> s.readers[i].cells.At(f).gap == []
  {
    assert ReaderOk(s.readers[i]);
    assert CellOk(s.readers[i].cells.At(f), f);
  }

  lemma ReaderWindow(s: State, i: nat, ra: ReaderAction, f: Field, n: nat)
    requires Sound(s, n) && i < |s.readers|
    ensures var s' := Apply(s, OnReader(i, ra));
      && s'.missed == s.missed
      && Pending(s', f) == Pending(s, f) + StepInWindow(s, OnReader(i, ra), f)
  {
    CellStep(s.readers[i], s.cancelled, ra, f);
    NoGapUnloaded(s, i, f, n);
    OnlyHarvestedIsLoaded(s, i, f, n);
    assert Pending(s, f) + [] == Pending(s, f);
  }

  lemma OnlyHarvestedIsLoaded(s: State, i: nat, f: Field, n: nat)
    requires Sound(s, n) && i < |s.readers|
    ensures s.readers[i].cells.At(f).seen.Some? ==> s.harvest.Reading? && s.harvest.ri == i
  {
  }

  /** Nothing is lost, and nothing is about to be, by a step after which the
      harvested reader's gap is the same. */
  lemma SameWindow(s: State, s': State, f: Field)
    requires s'.missed == s.missed && Pending(s', f) == Pending(s, f)
    ensures s'.missed.At(f) + Pending(s', f) == s.missed.At(f) + Pending(s, f)
  {
  }

  lemma LoadWindow(s: State, g: Field, f: Field, n: nat)
    requires Sound(s, n) && CanLoad(s, g)
    ensures Pending(Apply(s, Load(g)), f) == Pending(s, f)
  {
    NoGapUnloaded(s, s.harvest.ri, f, n);
    SnapshotCell(s.readers[s.harvest.ri], f);
    if g != f {
      OtherLoads(s.readers[s.harvest.ri], g, f);
    }
  }

  lemma ResetWindow(s: State, env: Env, f: Field)
    requires CanReset(s)
    ensures var s' := Apply(s, Reset(env)); s'.missed.At(f) + Pending(s', f) == s.missed.At(f) + Pending(s, f)
  {
    PointShowsSeen(s, env, f);
    assert s.missed.At(f) + Pending(s, f) + [] == s.missed.At(f) + Pending(s, f);
  }

  lemma SwapWindow(s: State, f: Field, n: nat)
    requires Sound(s, n) && s.harvest.Swapping? && s.harvest.ri < |s.readers|
    ensures Pending(Apply(s, Swap), f) == Pending(s, f) == []
  {
    NoGapUnloaded(s, s.harvest.ri, f, n);
  }

  lemma OtherWindow(s: State, a: Action, f: Field)
    requires !a.OnReader? && !a.Reset? && !a.Load? && !a.Swap?
    ensures Apply(s, a).missed == s.missed && Pending(Apply(s, a), f) == Pending(s, f)
  {
  }

  lemma HarvestWindow(s: State, a: Action, f: Field, n: nat)
    requires Sound(s, n) && !a.OnReader?
    ensures var s' := Apply(s, a); s'.missed.At(f) + Pending(s', f) == s.missed.At(f) + Pending(s, f)
  {
    if a.Reset? && CanReset(s) {
      ResetWindow(s, a.env, f);
    } else {
      if a.Swap? && s.harvest.Swapping? && s.harvest.ri < |s.readers| {
        SwapWindow(s, f, n);
      } else if a.Load? && CanLoad(s, a.f) {
        LoadWindow(s, a.f, f, n);
      } else if !a.Swap? && !a.Load? && !a.Reset? {
        OtherWindow(s, a, f);
      }
      SameWindow(s, Apply(s, a), f);
    }
  }

  lemma WindowStep(s: State, a: Action, f: Field, n: nat)
    requires Sound(s, n)
    ensures var s' := Apply(s, a);
      s'.missed.At(f) + Pending(s', f) == s.missed.At(f) + Pending(s, f) + StepInWindow(s, a, f)
  {
    if a.OnReader? && a.i < |s.readers| {
      ReaderWindow(s, a.i, a.ra, f, n);
      Regroup(s.missed.At(f), Pending(s, f), StepInWindow(s, a, f));
    } else if !a.OnReader? {
      HarvestWindow(s, a, f, n);
    }
  }

  lemma {:induction false} WindowsOfRun(s: State, acts: seq<Action>, f: Field, n: nat)
    requires Sound(s, n)
    ensures var s' := Exec(s, acts);
      s'.missed.At(f) + Pending(s', f) == s.missed.At(f) + Pending(s, f) + InWindows(s, acts, f)
  {
    if acts != [] {
      var last := |acts| - 1;
      WindowsOfRun(s, acts[..last], f, n);
      RunSound(s, acts[..last], n);
      WindowStep(Exec(s, acts[..last]), acts[last], f, n);
      Regroup(s.missed.At(f) + Pending(s, f), InWindows(s, acts[..last], f),
              StepInWindow(Exec(s, acts[..last]), acts[last], f));
    }
  }

  /** In every run: the samples lost, and those about to be by the reset that is
      under way, are exactly those written between a load and its reset. When no
      harvest is under way, none has been lost if and only if none was written there. */
  lemma LostSamplesExactly(config: Config, addrs: seq<string>, n: nat, acts: seq<Action>, f: Field)
    ensures var s0 := Start(config, addrs, n); var s := Exec(s0, acts);
      && s.missed.At(f) + Pending(s, f) == InWindows(s0, acts, f)
      && (!s.harvest.Reading? ==> (s.missed.At(f) == [] <==> InWindows(s0, acts, f) == []))
  {
    var s0 := Start(config, addrs, n);
    StartSound(config, addrs, n);
    WindowsOfRun(s0, acts, f, n);
    assert [] + InWindows(s0, acts, f) == InWindows(s0, acts, f);
  }
}
