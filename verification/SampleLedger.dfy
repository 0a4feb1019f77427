/** Where every single sample is, and which bytes each point reports. */
module SampleLedger {
  import opened Folds
  import opened Records
  import opened Engine
  import opened Measurement
  import opened EngineRuns
  import opened LostSamples
  import opened PointSamples

  function All(ws: seq<seq<int>>): seq<int> {
    if ws == [] then [] else All(ws[..|ws| - 1]) + ws[|ws| - 1]
  }

  function Total(ms: seq<multiset<int>>): multiset<int> {
    if ms == [] then multiset{} else ms[0] + Total(ms[1..])
  }

  lemma {:induction false} OneChanges(ms: seq<multiset<int>>, i: nat, m: multiset<int>)
    requires i < |ms|
    ensures Total(ms[i := m]) + ms[i] == Total(ms) + m
  {
    if i == 0 {
      assert ms[0 := m][1..] == ms[1..];
      SwapLast(Total(ms[1..]), m, ms[0]);
    } else {
      assert ms[i := m][1..] == ms[1..][i - 1 := m];
      OneChanges(ms[1..], i - 1, m);
      AddToBoth(Total(ms[1..]), Total(ms[i := m][1..]), ms[i], m, ms[0]);
    }
  }

  lemma SwapLast(u: multiset<int>, w: multiset<int>, w': multiset<int>)
    ensures w + u + w' == w' + u + w
  {
  }

  lemma AddToBoth(u: multiset<int>, u': multiset<int>, w: multiset<int>, w': multiset<int>, x: multiset<int>)
    requires u' + w == u + w'
    ensures x + u' + w == x + u + w'
  {
    forall e ensures (x + u' + w)[e] == (x + u + w')[e] {
      assert (u' + w)[e] == (u + w')[e];
    }
  }

  /** The samples in each of the first n readers' windows. */
  function Windows(s: State, acts: seq<Action>, n: nat, f: Field): (ms: seq<multiset<int>>)
    ensures |ms| == n && forall i :: 0 <= i < n ==> ms[i] == multiset(WindowOf(s, acts, i, f).since)
  {
    seq(n, i requires 0 <= i < n => multiset(WindowOf(s, acts, i, f).since))
  }

  /** The samples that are in no point yet, nor wiped. */
  function Unreported(s: State, acts: seq<Action>, n: nat, f: Field): multiset<int> {
    Total(Windows(s, acts, n, f))
  }

  lemma OneWindowChanges(s: State, acts: seq<Action>, acts': seq<Action>, n: nat, i: nat, f: Field)
    requires i < n
    requires forall j: nat :: j != i ==> WindowOf(s, acts', j, f).since == WindowOf(s, acts, j, f).since
    ensures Unreported(s, acts', n, f) + multiset(WindowOf(s, acts, i, f).since)
         == Unreported(s, acts, n, f) + multiset(WindowOf(s, acts', i, f).since)
  {
    var m := multiset(WindowOf(s, acts', i, f).since);
    assert Windows(s, acts', n, f) == Windows(s, acts, n, f)[i := m];
    OneChanges(Windows(s, acts, n, f), i, m);
  }

  lemma NoWindowChanges(s: State, acts: seq<Action>, acts': seq<Action>, n: nat, f: Field)
    requires forall j: nat :: j < n ==> WindowOf(s, acts', j, f).since == WindowOf(s, acts, j, f).since
    ensures Unreported(s, acts', n, f) == Unreported(s, acts, n, f)
  {
    assert Windows(s, acts', n, f) == Windows(s, acts, n, f);
  }

  /** Every sample is in one place. */
  ghost predicate Balanced(s: State, acts: seq<Action>, f: Field) {
    var t := Exec(s, acts);
    multiset(t.taken.At(f))
      == multiset(All(SamplesOfPoints(s, acts, f))) + multiset(t.missed.At(f)) + Unreported(s, acts, |s.readers|, f)
  }

  lemma AllAppend(ws: seq<seq<int>>, w: seq<int>)
    ensures All(ws + [w]) == All(ws) + w
  {
    assert (ws + [w])[..|ws|] == ws;
  }

  lemma SinceAfter(s: State, acts: seq<Action>, a: Action, i: nat, f: Field)
    ensures var t := Exec(s, acts);
      WindowOf(s, acts + [a], i, f).since
        == if Resets(t, a, i) then [] else WindowOf(s, acts, i, f).since + StepWrites(t, a, i, f)
  {
    assert (acts + [a])[..|acts|] == acts;
    assert StepWrites(Exec(s, acts), a, i, f) == [] ==>
      WindowOf(s, acts, i, f).since + [] == WindowOf(s, acts, i, f).since;
  }

  lemma TakenAfter(s: State, a: Action, f: Field)
    ensures Apply(s, a).taken.At(f) == s.taken.At(f) + if a.OnReader? then StepWrites(s, a, a.i, f) else []
    ensures !(a.Reset? && CanReset(s)) ==> Apply(s, a).missed == s.missed
  {
    assert s.taken.At(f) + [] == s.taken.At(f);
  }

  lemma PointsAfter(s: State, acts: seq<Action>, a: Action, f: Field)
    ensures var t, w := Exec(s, acts), SamplesOfPoints(s, acts, f);
      SamplesOfPoints(s, acts + [a], f)
        == if a.Reset? && CanReset(t) then w + [WindowOf(s, acts, t.harvest.ri, f).loaded.GetOr([])] else w
  {
    assert (acts + [a])[..|acts|] == acts;
  }

  lemma ExecAfter(s: State, acts: seq<Action>, a: Action)
    ensures Exec(s, acts + [a]) == Apply(Exec(s, acts), a)
  {
    assert (acts + [a])[..|acts|] == acts;
  }

  lemma WriteKeepsBalance(s: State, acts: seq<Action>, a: Action, f: Field)
    requires Balanced(s, acts, f) && a.OnReader? && |Exec(s, acts).readers| == |s.readers|
    ensures Balanced(s, acts + [a], f)
  {
    var t, i := Exec(s, acts), a.i;
    ExecAfter(s, acts, a);
    PointsAfter(s, acts, a, f);
    TakenAfter(t, a, f);
    forall j: nat | j != i ensures WindowOf(s, acts + [a], j, f).since == WindowOf(s, acts, j, f).since {
      SinceAfter(s, acts, a, j, f);
      assert WindowOf(s, acts, j, f).since + [] == WindowOf(s, acts, j, f).since;
    }
    if i < |s.readers| {
      SinceAfter(s, acts, a, i, f);
      OneWindowChanges(s, acts, acts + [a], |s.readers|, i, f);
      AddSample(t.taken.At(f), multiset(All(SamplesOfPoints(s, acts, f))), multiset(t.missed.At(f)),
                Unreported(s, acts, |s.readers|, f), WindowOf(s, acts, i, f).since, StepWrites(t, a, i, f),
                Unreported(s, acts + [a], |s.readers|, f));
    } else {
      assert t.taken.At(f) + [] == t.taken.At(f);
      NoWindowChanges(s, acts, acts + [a], |s.readers|, f);
    }
  }

  /** The window of a reader that can be reset. */
  lemma LoadedWindow(s: State, acts: seq<Action>, f: Field)
    requires CanReset(Exec(s, acts)) && FreshReaders(s) && |Exec(s, acts).readers| == |s.readers|
    ensures var t := Exec(s, acts);
      var w := WindowOf(s, acts, t.harvest.ri, f);
      w.loaded.Some? && w.since == w.loaded.value + t.readers[t.harvest.ri].cells.At(f).gap
  {
    var t := Exec(s, acts);
    RunMatches(s, acts, t.harvest.ri, f);
    AllAreSeen(t.readers[t.harvest.ri], f);
  }

  lemma AllAreSeen(r: Reader, f: Field)
    requires AllSeen(r)
    ensures r.cells.At(f).seen.Some?
  {
  }

  lemma ResetEffect(t: State, a: Action, f: Field)
    requires a.Reset? && CanReset(t)
    ensures Apply(t, a).taken.At(f) == t.taken.At(f)
    ensures Apply(t, a).missed.At(f) == t.missed.At(f) + t.readers[t.harvest.ri].cells.At(f).gap
  {
    PointShowsSeen(t, a.env, f);
  }

  /** What a reset does to the places of a sample. */
  lemma ResetMoves(s: State, acts: seq<Action>, a: Action, f: Field)
    requires a.Reset? && CanReset(Exec(s, acts)) && FreshReaders(s) && |Exec(s, acts).readers| == |s.readers|
    ensures var t, t' := Exec(s, acts), Exec(s, acts + [a]);
      var i := t.harvest.ri; var w := WindowOf(s, acts, i, f);
      && w.loaded.Some? && w.since == w.loaded.value + t.readers[i].cells.At(f).gap
      && t'.taken.At(f) == t.taken.At(f) && t'.missed.At(f) == t.missed.At(f) + t.readers[i].cells.At(f).gap
      && All(SamplesOfPoints(s, acts + [a], f)) == All(SamplesOfPoints(s, acts, f)) + w.loaded.value
  {
    LoadedWindow(s, acts, f);
    ExecAfter(s, acts, a);
    ResetEffect(Exec(s, acts), a, f);
    PointsAfter(s, acts, a, f);
    AllAppend(SamplesOfPoints(s, acts, f), WindowOf(s, acts, Exec(s, acts).harvest.ri, f).loaded.value);
  }

  lemma ResetWindows(s: State, acts: seq<Action>, a: Action, f: Field)
    requires a.Reset? && CanReset(Exec(s, acts)) && |Exec(s, acts).readers| == |s.readers|
    ensures var i := Exec(s, acts).harvest.ri;
      Unreported(s, acts + [a], |s.readers|, f) + multiset(WindowOf(s, acts, i, f).since)
        == Unreported(s, acts, |s.readers|, f) + multiset([])
  {
    var i := Exec(s, acts).harvest.ri;
    forall j: nat | j != i ensures WindowOf(s, acts + [a], j, f).since == WindowOf(s, acts, j, f).since {
      SinceAfter(s, acts, a, j, f);
      assert WindowOf(s, acts, j, f).since + [] == WindowOf(s, acts, j, f).since;
    }
    SinceAfter(s, acts, a, i, f);
    OneWindowChanges(s, acts, acts + [a], |s.readers|, i, f);
  }

  lemma ResetKeepsBalance(s: State, acts: seq<Action>, a: Action, f: Field)
    requires Balanced(s, acts, f) && a.Reset? && CanReset(Exec(s, acts))
    requires FreshReaders(s) && |Exec(s, acts).readers| == |s.readers|
    ensures Balanced(s, acts + [a], f)
  {
    var t := Exec(s, acts);
    var i := t.harvest.ri;
    ResetMoves(s, acts, a, f);
    ResetWindows(s, acts, a, f);
    MoveWindow(t.taken.At(f), All(SamplesOfPoints(s, acts, f)), t.missed.At(f), Unreported(s, acts, |s.readers|, f),
               WindowOf(s, acts, i, f).loaded.value, t.readers[i].cells.At(f).gap,
               Unreported(s, acts + [a], |s.readers|, f));
  }

  lemma MoveWindow(taken: seq<int>, points: seq<int>, missed: seq<int>, was: multiset<int>,
                   loaded: seq<int>, gap: seq<int>, now: multiset<int>)
    requires multiset(taken) == multiset(points) + multiset(missed) + was
    requires now + multiset(loaded + gap) == was + multiset([])
    ensures multiset(taken) == multiset(points + loaded) + multiset(missed + gap) + now
  {
    forall e ensures was[e] == (now + multiset(loaded) + multiset(gap))[e] {
      assert (now + multiset(loaded + gap))[e] == (was + multiset([]))[e];
    }
  }

  lemma AddSample(taken: seq<int>, points: multiset<int>, missed: multiset<int>, was: multiset<int>,
                  since: seq<int>, x: seq<int>, now: multiset<int>)
    requires multiset(taken) == points + missed + was
    requires now + multiset(since) == was + multiset(since + x)
    ensures multiset(taken + x) == points + missed + now
  {
    assert now + multiset(since) == was + multiset(x) + multiset(since);
    CancelSame(now, was + multiset(x), multiset(since));
  }

  lemma CancelSame(a: multiset<int>, b: multiset<int>, x: multiset<int>)
    requires a + x == b + x
    ensures a == b
  {
    assert a == a + x - x && b == b + x - x;
  }

  lemma OtherKeepsBalance(s: State, acts: seq<Action>, a: Action, f: Field)
    requires Balanced(s, acts, f) && !a.OnReader? && !(a.Reset? && CanReset(Exec(s, acts)))
    ensures Balanced(s, acts + [a], f)
  {
    ExecAfter(s, acts, a);
    PointsAfter(s, acts, a, f);
    TakenAfter(Exec(s, acts), a, f);
    forall j: nat ensures WindowOf(s, acts + [a], j, f).since == WindowOf(s, acts, j, f).since {
      SinceAfter(s, acts, a, j, f);
      assert WindowOf(s, acts, j, f).since + [] == WindowOf(s, acts, j, f).since;
    }
    assert Exec(s, acts).taken.At(f) + [] == Exec(s, acts).taken.At(f);
    NoWindowChanges(s, acts, acts + [a], |s.readers|, f);
  }

  lemma {:induction false} NothingInAny(ms: seq<multiset<int>>)
    requires forall i :: 0 <= i < |ms| ==> ms[i] == multiset{}
    ensures Total(ms) == multiset{}
  {
    if ms != [] {
      NothingInAny(ms[1..]);
    }
  }

  lemma {:induction false} RunBalanced(s: State, acts: seq<Action>, f: Field)
    requires FreshReaders(s) && s.taken == NO_SAMPLES && s.missed == NO_SAMPLES
    ensures Balanced(s, acts, f)
  {
    if acts == [] {
      NothingInAny(Windows(s, [], |s.readers|, f));
    } else {
      var init, a := acts[..|acts| - 1], acts[|acts| - 1];
      assert acts == init + [a];
      RunBalanced(s, init, f);
      ReadersStay(s, init);
      if a.OnReader? {
        WriteKeepsBalance(s, init, a, f);
      } else if a.Reset? && CanReset(Exec(s, init)) {
        ResetKeepsBalance(s, init, a, f);
      } else {
        OtherKeepsBalance(s, init, a, f);
      }
    }
  }

  /** In every run, every sample that was recorded is, exactly once, among those
      that some point shows an extreme of, or was wiped between a load and its
      reset, or is still in a reader. */
  lemma SamplesAreConserved(config: Config, addrs: seq<string>, n: nat, acts: seq<Action>, f: Field)
    ensures var s0 := Start(config, addrs, n); var s := Exec(s0, acts);
      multiset(s.taken.At(f))
        == multiset(All(SamplesOfPoints(s0, acts, f))) + multiset(s.missed.At(f)) + Unreported(s0, acts, |addrs|, f)
  {
    StartIsFresh(config, addrs, n);
    RunBalanced(Start(config, addrs, n), acts, f);
  }

  // Bytes

  /** The bytes that action a counts for reader i. */
  function CountedBy(s: State, a: Action, i: nat): nat {
    if a.OnReader? && a.i == i < |s.readers| && Counts(s.readers[i], a.ra) then a.ra.n else 0
  }

  predicate Swaps(s: State, a: Action) {
    a.Swap? && s.harvest.Swapping? && s.harvest.ri < |s.readers|
  }

  /** The bytes counted for reader i since its last swap. */
  function SinceSwap(s: State, acts: seq<Action>, i: nat): nat {
    if acts == [] then 0
    else
      var last := |acts| - 1;
      var t := Exec(s, acts[..last]);
      if Swaps(t, acts[last]) && t.harvest.ri == i then 0
      else SinceSwap(s, acts[..last], i) + CountedBy(t, acts[last], i)
  }

  /** The bytes that had been counted since the swap before the latest one, for the same reader. */
  function AtSwap(s: State, acts: seq<Action>): nat {
    if acts == [] then 0
    else
      var last := |acts| - 1;
      var t := Exec(s, acts[..last]);
      if Swaps(t, acts[last]) then SinceSwap(s, acts[..last], t.harvest.ri) else AtSwap(s, acts[..last])
  }

  function BytesOfPoints(s: State, acts: seq<Action>): seq<nat> {
    if acts == [] then []
    else
      var last := |acts| - 1;
      BytesOfPoints(s, acts[..last])
        + if acts[last].Reset? && CanReset(Exec(s, acts[..last])) then [AtSwap(s, acts[..last])] else []
  }

  lemma ReaderBytes(s: State, a: Action, i: nat, since: nat, now: nat)
    requires i < |s.readers| && s.readers[i].tx == Wrap(since)
    requires now == if Swaps(s, a) && s.harvest.ri == i then 0 else since + CountedBy(s, a, i)
    ensures i < |Apply(s, a).readers| && Apply(s, a).readers[i].tx == Wrap(now)
  {
    WrapAdd(since, CountedBy(s, a, i));
    if a.OnReader? && a.i == i {
      CountOne(s.readers[i], s.cancelled, a.ra, since);
    }
  }

  lemma CountOne(r: Reader, cancelled: bool, a: ReaderAction, since: nat)
    requires r.tx == Wrap(since)
    ensures StepReader(r, cancelled, a).tx == if Counts(r, a) then Wrap(r.tx + a.n) else r.tx
  {
  }

  lemma {:induction false} RunReaderBytes(s: State, acts: seq<Action>, i: nat)
    requires i < |s.readers| && s.readers[i].tx == 0
    ensures i < |Exec(s, acts).readers| && Exec(s, acts).readers[i].tx == Wrap(SinceSwap(s, acts, i))
  {
    if acts != [] {
      var last := |acts| - 1;
      RunReaderBytes(s, acts[..last], i);
      ReaderBytes(Exec(s, acts[..last]), acts[last], i, SinceSwap(s, acts[..last], i), SinceSwap(s, acts, i));
    }
  }

  ghost predicate NoBytes(s: State) {
    s.harvest.Rest? && s.produced == [] && forall i :: 0 <= i < |s.readers| ==> s.readers[i].tx == 0
  }

  lemma SwappedStep(s: State, a: Action)
    ensures var s' := Apply(s, a);
      s'.harvest.Reading? ==>
        if Swaps(s, a) then s'.harvest.swapped == s.readers[s.harvest.ri].tx
        else s.harvest.Reading? && s'.harvest.swapped == s.harvest.swapped
  {
  }

  lemma {:induction false} RunSwapped(s: State, acts: seq<Action>)
    requires NoBytes(s)
    ensures var t := Exec(s, acts); t.harvest.Reading? ==> t.harvest.swapped == Wrap(AtSwap(s, acts))
  {
    if acts != [] {
      var last := |acts| - 1;
      var t := Exec(s, acts[..last]);
      RunSwapped(s, acts[..last]);
      SwappedStep(t, acts[last]);
      if Swaps(t, acts[last]) {
        ReadersStay(s, acts[..last]);
        RunReaderBytes(s, acts[..last], t.harvest.ri);
      }
    }
  }

  lemma {:induction false} BytesOfRun(s: State, acts: seq<Action>)
    requires NoBytes(s)
    ensures var t, b := Exec(s, acts), BytesOfPoints(s, acts);
      |b| == |t.produced| && forall j :: 0 <= j < |b| ==> t.produced[j].txTotal == Wrap(b[j])
  {
    if acts != [] {
      var last := |acts| - 1;
      BytesOfRun(s, acts[..last]);
      RunSwapped(s, acts[..last]);
      ProducedStep(Exec(s, acts[..last]), acts[last]);
    }
  }

  /** In every run, each point reports the bytes that its reader counted between
      the two swaps before it, modulo 2^64. */
  lemma PointsShowTheirBytes(config: Config, addrs: seq<string>, n: nat, acts: seq<Action>)
    ensures var s0 := Start(config, addrs, n);
      var s, b := Exec(s0, acts), BytesOfPoints(s0, acts);
      |b| == |s.produced| && forall j :: 0 <= j < |b| ==> s.produced[j].txTotal == Wrap(b[j])
  {
    BytesOfRun(Start(config, addrs, n), acts);
  }
}
