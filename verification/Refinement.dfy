/** The objects of the server and the interleaved machines describe one program:
    each method is the run of its steps with nothing in between. And the two
    ends meet: what servers save in any runs is what a download collects. */
module Refinement {
  import opened Folds
  import opened Records
  import opened Payload
  import E = Engine
  import ER = EngineRuns
  import D = Delivery
  import DR = DeliveryRuns
  import RF = RecordFormat
  import Server

  // Measuring

  function ViewOf(r: E.Reader): View {
    View(r.addr, r.hasStats,
         E.Quad(r.cells.ttfbH.live, r.cells.ttfbL.live, r.cells.rmsH.live, r.cells.rmsL.live), r.tx, r.txCount)
  }

  lemma {:induction false} StepsCons(r: E.Reader, cancelled: bool, a: E.ReaderAction, acts: seq<E.ReaderAction>)
    ensures E.Steps(r, cancelled, [a] + acts) == E.Steps(E.StepReader(r, cancelled, a), cancelled, acts)
    decreases |acts|
  {
    var all, last := [a] + acts, |acts|;
    if acts == [] {
      assert all[..last] == [];
    } else {
      assert all[..last] == [a] + acts[..last - 1] && all[last] == acts[last - 1];
      StepsCons(r, cancelled, a, acts[..last - 1]);
    }
  }

  lemma FourSteps(r: E.Reader, c: bool, a1: E.ReaderAction, a2: E.ReaderAction, a3: E.ReaderAction, a4: E.ReaderAction)
    ensures E.Steps(r, c, [a1, a2, a3, a4])
         == E.StepReader(E.StepReader(E.StepReader(E.StepReader(r, c, a1), c, a2), c, a3), c, a4)
  {
    assert [a1, a2, a3, a4] == [a1] + ([a2] + ([a3] + ([a4] + [])));
    StepsCons(r, c, a1, [a2] + ([a3] + ([a4] + [])));
    StepsCons(E.StepReader(r, c, a1), c, a2, [a3] + ([a4] + []));
    StepsCons(E.StepReader(E.StepReader(r, c, a1), c, a2), c, a3, [a4] + []);
    StepsCons(E.StepReader(E.StepReader(E.StepReader(r, c, a1), c, a2), c, a3), c, a4, []);
  }

  lemma {:induction false} StepsAppend(r: E.Reader, cancelled: bool, acts: seq<E.ReaderAction>, a: E.ReaderAction)
    ensures E.Steps(r, cancelled, acts + [a]) == E.StepReader(E.Steps(r, cancelled, acts), cancelled, a)
  {
    assert (acts + [a])[..|acts|] == acts;
  }

  /** The first Read of a body that nobody interrupts has the effect that the
      object's Read promises. */
  lemma FirstReadRefines(r: E.Reader, cancelled: bool, b: nat, since: E.Micros, n: nat)
    requires r.section.Free? && b < |r.bodies| && !r.bodies[b].registered
    requires r.limit.Some? ==> r.bodies[b].pos + n <= r.limit.value
    ensures var r' := E.Steps(r, cancelled, [E.Read(b, since), E.Advance, E.Advance, E.Advance] + [E.Count(b, n)]);
      r'.section.Free? && ViewOf(r') == Heard(ViewOf(r), false, since).(tx := Wrap(r.tx + n))
  {
    FirstByteRefines(r, cancelled, b, since);
    StepsAppend(r, cancelled, [E.Read(b, since), E.Advance, E.Advance, E.Advance], E.Count(b, n));
  }

  lemma FirstByteRefines(r: E.Reader, cancelled: bool, b: nat, since: E.Micros)
    requires r.section.Free? && b < |r.bodies| && !r.bodies[b].registered
    ensures var r' := E.Steps(r, cancelled, [E.Read(b, since), E.Advance, E.Advance, E.Advance]);
      && r'.section.Free? && r'.bodies == r.bodies[b := E.Body(true, r.bodies[b].pos)]
      && r'.limit == r.limit && r'.tx == r.tx
      && ViewOf(r') == Heard(ViewOf(r), false, since)
  {
    FourSteps(r, cancelled, E.Read(b, since), E.Advance, E.Advance, E.Advance);
  }

  /** So has every later Read of the body: no sample, but statistics. */
  lemma LaterReadRefines(r: E.Reader, cancelled: bool, b: nat, since: E.Micros, n: nat)
    requires r.section.Free? && b < |r.bodies| && r.bodies[b].registered
    requires r.limit.Some? ==> r.bodies[b].pos + n <= r.limit.value
    ensures var r' := E.Steps(r, cancelled, [E.Read(b, since)] + [E.Advance] + [E.Count(b, n)]);
      r'.section.Free? && ViewOf(r') == Heard(ViewOf(r), true, since).(tx := Wrap(r.tx + n))
  {
    StepsAppend(r, cancelled, [], E.Read(b, since));
    assert [] + [E.Read(b, since)] == [E.Read(b, since)];
    StepsAppend(r, cancelled, [E.Read(b, since)], E.Advance);
    StepsAppend(r, cancelled, [E.Read(b, since)] + [E.Advance], E.Count(b, n));
  }

  /** So has a sender that records its round trip. */
  lemma RoundTripRefines(r: E.Reader, cancelled: bool, k: nat, done: E.Micros)
    requires r.section.Free? && k < |r.senders| && r.senders[k].stage == E.Sent
    ensures var r' := E.Steps(r, cancelled, [E.Answer(k, done), E.Advance, E.Advance, E.Advance]);
      && r'.section.Free?
      && ViewOf(r') == ViewOf(r).(hasStats := true,
           extremes := ViewOf(r).extremes.(rmsH := Op(Max, r.cells.rmsH.live, done),
                                           rmsL := Op(Min, r.cells.rmsL.live, done)))
  {
    FourSteps(r, cancelled, E.Answer(k, done), E.Advance, E.Advance, E.Advance);
  }

  /** The harvest of a reader that nobody interrupts makes the point, and
      leaves the reader, that the object's harvest promises. */
  lemma HarvestRefines(s: E.State, errs: nat, env: E.Env)
    requires ER.SeenWhileReading(s) && s.harvest.Visit? && s.harvest.ri < |s.readers|
    requires s.readers[s.harvest.ri].hasStats && s.readers[s.harvest.ri].section.Free?
    ensures var i := s.harvest.ri; var s' := E.Exec(s, ER.Uninterrupted(errs, env));
      && |s'.readers| == |s.readers|
      && s'.produced
           == s.produced + [Server.PointFrom(s.config.testType, s.config.testId, ViewOf(s.readers[i]), errs, env)]
      && ViewOf(s'.readers[i]) == Server.Harvested(ViewOf(s.readers[i]))
      && s'.missed == s.missed
  {
    ER.UninterruptedHarvest(s, errs, env);
  }

  function ViewsOf(readers: seq<E.Reader>): (vs: seq<View>)
    ensures |vs| == |readers| && forall i :: 0 <= i < |vs| ==> vs[i] == ViewOf(readers[i])
  {
    seq(|readers|, i requires 0 <= i < |readers| => ViewOf(readers[i]))
  }

  /** The harvest of the first k readers: one look at each that has no stats. */
  function HarvestSteps(readers: seq<E.Reader>, k: nat, errs: nat, envs: seq<E.Env>): seq<E.Action>
    requires k <= |readers| == |envs|
  {
    if k == 0 then []
    else
      HarvestSteps(readers, k - 1, errs, envs)
        + if readers[k - 1].hasStats then ER.Uninterrupted(errs, envs[k - 1]) else [E.Look]
  }

  /** Readers up to k have been harvested, and the others are as they were. */
  ghost predicate HarvestedTo(s: E.State, t: E.State, k: nat, errs: nat, envs: seq<E.Env>)
    requires k <= |s.readers| == |envs|
  {
    && t.harvest == E.Visit(k) && |t.readers| == |s.readers| && t.config == s.config && t.missed == s.missed
    && t.produced == s.produced
         + Server.PointsFrom(s.config.testType, s.config.testId, ViewsOf(s.readers)[..k], errs, envs)
    && ER.SeenWhileReading(t)
    && (forall i :: 0 <= i < k ==> ViewOf(t.readers[i]) == Server.Harvested(ViewOf(s.readers[i])))
    && (forall i :: k <= i < |s.readers| ==> t.readers[i] == s.readers[i])
  }

  lemma HarvestOne(s: E.State, t: E.State, k: nat, errs: nat, envs: seq<E.Env>)
    requires k < |s.readers| == |envs| && HarvestedTo(s, t, k, errs, envs) && s.readers[k].section.Free?
    ensures var steps := if s.readers[k].hasStats then ER.Uninterrupted(errs, envs[k]) else [E.Look];
      HarvestedTo(s, E.Exec(t, steps), k + 1, errs, envs)
  {
    if s.readers[k].hasStats {
      HarvestOneWithStats(s, t, k, errs, envs);
    } else {
      HarvestNone(s, t, k, errs, envs);
    }
  }

  lemma HarvestNone(s: E.State, t: E.State, k: nat, errs: nat, envs: seq<E.Env>)
    requires k < |s.readers| == |envs| && HarvestedTo(s, t, k, errs, envs) && !s.readers[k].hasStats
    ensures HarvestedTo(s, E.Exec(t, [E.Look]), k + 1, errs, envs)
  {
    PointsStep(s, k, errs, envs);
    ER.ExecLast(t, [], E.Look);
    assert [] + [E.Look] == [E.Look];
  }

  /** The points of one more reader. */
  lemma PointsStep(s: E.State, k: nat, errs: nat, envs: seq<E.Env>)
    requires k < |s.readers| == |envs|
    ensures var vs := ViewsOf(s.readers);
      Server.PointsFrom(s.config.testType, s.config.testId, vs[..k + 1], errs, envs)
        == if s.readers[k].hasStats
           then Server.PointsFrom(s.config.testType, s.config.testId, vs[..k], errs, envs)
                  + [Server.PointFrom(s.config.testType, s.config.testId, vs[k], errs, envs[k])]
           else Server.PointsFrom(s.config.testType, s.config.testId, vs[..k], errs, envs)
  {
    var vs := ViewsOf(s.readers);
    assert vs[..k + 1][..k] == vs[..k];
    var before := Server.PointsFrom(s.config.testType, s.config.testId, vs[..k], errs, envs);
    assert before + [] == before;
  }

  lemma HarvestOneWithStats(s: E.State, t: E.State, k: nat, errs: nat, envs: seq<E.Env>)
    requires k < |s.readers| == |envs| && HarvestedTo(s, t, k, errs, envs)
    requires s.readers[k].section.Free? && s.readers[k].hasStats
    ensures HarvestedTo(s, E.Exec(t, ER.Uninterrupted(errs, envs[k])), k + 1, errs, envs)
  {
    var vs := ViewsOf(s.readers);
    PointsStep(s, k, errs, envs);
    HarvestRefines(t, errs, envs[k]);
    ER.UninterruptedHarvest(t, errs, envs[k]);
    Regroup(s.produced, Server.PointsFrom(s.config.testType, s.config.testId, vs[..k], errs, envs),
            [Server.PointFrom(s.config.testType, s.config.testId, vs[k], errs, envs[k])]);
    Unseen(t, k, errs, envs[k]);
  }

  lemma Unseen(t: E.State, k: nat, errs: nat, env: E.Env)
    requires ER.SeenWhileReading(t) && t.harvest == E.Visit(k) && k < |t.readers|
    requires t.readers[k].hasStats && t.readers[k].section.Free?
    ensures ER.SeenWhileReading(E.Exec(t, ER.Uninterrupted(errs, env)))
  {
    ER.UninterruptedHarvest(t, errs, env);
    ER.NewReaderSound("", 0, None);
  }

  lemma {:induction false} HarvestFirst(s: E.State, k: nat, errs: nat, envs: seq<E.Env>)
    requires k <= |s.readers| == |envs| && ER.SeenWhileReading(s) && s.harvest == E.Visit(0)
    requires forall i :: 0 <= i < |s.readers| ==> s.readers[i].section.Free?
    ensures HarvestedTo(s, E.Exec(s, HarvestSteps(s.readers, k, errs, envs)), k, errs, envs)
  {
    if k == 0 {
      assert s.produced + [] == s.produced;
    } else {
      HarvestFirst(s, k - 1, errs, envs);
      HarvestOne(s, E.Exec(s, HarvestSteps(s.readers, k - 1, errs, envs)), k - 1, errs, envs);
      ER.ExecConcat(s, HarvestSteps(s.readers, k - 1, errs, envs),
                    if s.readers[k - 1].hasStats then ER.Uninterrupted(errs, envs[k - 1]) else [E.Look]);
    }
  }

  /** A whole harvest that nobody interrupts makes the points, and leaves the
      readers, that the object's GenerateDataPoints promises. */
  lemma HarvestAllRefines(s: E.State, errs: nat, envs: seq<E.Env>)
    requires |envs| == |s.readers| && ER.SeenWhileReading(s) && s.harvest.Rest?
    requires forall i :: 0 <= i < |s.readers| ==> s.readers[i].section.Free?
    ensures var acts := [E.StartHarvest] + HarvestSteps(s.readers, |s.readers|, errs, envs) + [E.Look];
      var t := E.Exec(s, acts);
      && t.harvest.Rest? && |t.readers| == |s.readers| && t.missed == s.missed
      && t.produced == s.produced
           + Server.PointsFrom(s.config.testType, s.config.testId, ViewsOf(s.readers), errs, envs)
      && forall i :: 0 <= i < |s.readers| ==> ViewOf(t.readers[i]) == Server.Harvested(ViewOf(s.readers[i]))
  {
    var s1, steps := E.Apply(s, E.StartHarvest), HarvestSteps(s.readers, |s.readers|, errs, envs);
    assert ER.SeenWhileReading(s1);
    HarvestFirst(s1, |s.readers|, errs, envs);
    StartedThenLooked(s, steps);
    LastLook(s1, E.Exec(s1, steps), errs, envs);
  }

  lemma LastLook(s: E.State, t: E.State, errs: nat, envs: seq<E.Env>)
    requires |envs| == |s.readers| && HarvestedTo(s, t, |s.readers|, errs, envs)
    ensures E.Apply(t, E.Look) == t.(harvest := E.Rest)
    ensures t.produced
         == s.produced + Server.PointsFrom(s.config.testType, s.config.testId, ViewsOf(s.readers), errs, envs)
  {
    assert ViewsOf(s.readers)[..|s.readers|] == ViewsOf(s.readers);
  }

  lemma StartedThenLooked(s: E.State, steps: seq<E.Action>)
    ensures E.Exec(s, [E.StartHarvest] + steps + [E.Look])
         == E.Apply(E.Exec(E.Apply(s, E.StartHarvest), steps), E.Look)
  {
    ER.ExecLast(s, [], E.StartHarvest);
    assert [] + [E.StartHarvest] == [E.StartHarvest];
    ER.ExecConcat(s, [E.StartHarvest], steps);
    ER.ExecLast(s, [E.StartHarvest] + steps, E.Look);
  }

  // Delivering

  /** A flush that nobody interrupts does what the object's flush promises: both
      lists are emptied, the batch is the one to fan out, and if the test is saved
      and no write fails, the bytes of the file grow by those of the batch. */
  lemma FlushRefines(cs: RF.Codecs, s: D.State, first: bool, second: bool)
    requires s.phase.Harvesting? && s.intact
    ensures var batch := Batch(s.dps, s.errs.errors);
      var t := D.Apply(D.Apply(s, D.CopyPoints(first)), D.TakeErrors(second));
      && t.dps == [] && t.errs == D.NO_ERRORS && t.conns == s.conns
      && t.phase == D.Sending(D.OpenIds(s.conns)) && t.batches == s.batches + [batch]
      && (t.intact <==> !s.save || (first && second))
      && (t.intact ==> cs.Encode(t.file) == cs.Encode(s.file) + if s.save then cs.Encode(DR.RecordsOf(batch)) else [])
  {
    var batch := Batch(s.dps, s.errs.errors);
    Regroup(s.file, PointRecords(s.dps), ErrorRecords(s.errs.errors));
    RF.EncodeConcat(cs, s.file, DR.RecordsOf(batch));
    assert cs.Encode(s.file) + [] == cs.Encode(s.file);
  }

  /** Any fan-out that visits every connection still to do ends with each of
      them delivered to, or dropped on a failed write, and all others as before. */
  lemma {:induction false} FanOutRefines(s: D.State, ids: seq<nat>, oks: seq<bool>)
    requires s.phase.Sending? && s.batches != [] && s.phase.todo <= s.conns.Keys
    requires |oks| == |ids| && (forall i, j :: 0 <= i < j < |ids| ==> ids[i] != ids[j])
    requires forall id :: id in ids <==> id in s.phase.todo
    ensures var t := Sent(s, ids, oks); var b := s.batches[|s.batches| - 1];
      && t.phase == D.Sending({})
      && t.conns.Keys == s.conns.Keys
      && (forall i :: 0 <= i < |ids| ==> t.conns[ids[i]] == D.Deliver(s.conns[ids[i]], b, oks[i]))
      && (forall id :: id in s.conns && id !in ids ==> t.conns[id] == s.conns[id])
    decreases |ids|
  {
    if ids == [] {
      assert s.phase.todo == {};
    } else {
      var s' := D.Apply(s, D.SendTo(ids[0], oks[0]));
      assert ids[0] in s.phase.todo;
      assert ids[0] !in ids[1..];
      assert forall id :: id in ids[1..] <==> id in s'.phase.todo;
      FanOutRefines(s', ids[1..], oks[1..]);
      assert forall i :: 0 < i < |ids| ==> ids[i] == ids[1..][i - 1];
    }
  }

  function Sent(s: D.State, ids: seq<nat>, oks: seq<bool>): D.State
    requires |oks| == |ids|
    decreases |ids|
  {
    if ids == [] then s else Sent(D.Apply(s, D.SendTo(ids[0], oks[0])), ids[1..], oks[1..])
  }

  // Both ends

  /** A server has finished a saved run: nothing is left to flush. */
  ghost predicate Ended(s: D.State) {
    s.phase.Closing? || s.phase.Ended?
  }

  function FilesOf(runs: seq<D.State>): seq<seq<Record>> {
    seq(|runs|, i requires 0 <= i < |runs| => runs[i].file)
  }

  function Made(runs: seq<D.State>): seq<DP> {
    if runs == [] then [] else runs[0].produced + Made(runs[1..])
  }

  lemma EndedFile(acts: seq<D.Action>)
    requires DR.NoWriteFails(D.Start(true), acts)
    ensures var s := D.Exec(D.Start(true), acts); Ended(s) ==> PointsIn(s.file) == s.produced
  {
    DR.FileIsAllBatches(acts);
    DR.StartFaithful(true);
    DR.RunFaithful(D.Start(true), acts);
    var s := D.Exec(D.Start(true), acts);
    if Ended(s) {
      assert PointsIn(s.file) + [] == PointsIn(s.file);
    }
  }

  lemma {:induction false} FilesHoldRuns(runs: seq<D.State>)
    requires forall i :: 0 <= i < |runs| ==> PointsIn(runs[i].file) == runs[i].produced
    ensures PointsIn(RF.Together(FilesOf(runs))) == Made(runs)
  {
    if runs != [] {
      assert FilesOf(runs)[1..] == FilesOf(runs[1..]);
      FilesHoldRuns(runs[1..]);
      InConcat(runs[0].file, RF.Together(FilesOf(runs[1..])));
    }
  }

  /** Saved runs that have ended, and in which no write to the file failed. */
  ghost predicate FinishedRuns(runs: seq<D.State>, scripts: seq<seq<D.Action>>) {
    && |runs| == |scripts|
    && forall i :: 0 <= i < |runs| ==>
         runs[i] == D.Exec(D.Start(true), scripts[i]) && Ended(runs[i]) && DR.NoWriteFails(D.Start(true), scripts[i])
  }

  /** For any finished runs on any servers whose files were written without
      failure: the file that a download writes,
      and the analysis and the CSV export read back from it, hold every point
      ever made on any of the servers exactly once, and nothing else, but for the
      points of lines whose handlers had not run when the client went on. */
  lemma EveryPointIsAnalyzed(cs: RF.Codecs, scripts: seq<seq<D.Action>>, runs: seq<D.State>,
                             arrival: seq<seq<RF.Byte>>, late: seq<seq<RF.Byte>>, dps: seq<DP>, errs: seq<TError>)
    requires cs.Faithful() && FinishedRuns(runs, scripts)
    requires forall i :: 0 <= i < |runs| ==> RF.Fits(cs, runs[i].file)
    requires multiset(arrival + late) == multiset(RF.Streamed(cs, FilesOf(runs)))
    requires multiset(dps) == multiset(RF.ReceiveAll(cs, arrival).points) && RF.PointsByCreated(dps)
    requires multiset(errs) == multiset(RF.ReceiveAll(cs, arrival).errors) && RF.ErrorsByCreated(errs)
    ensures multiset(dps + RF.ReceiveAll(cs, late).points) == multiset(Made(runs))
    ensures var scanned := RF.Scan(cs.Encode(RF.Downloaded(dps, errs)));
      && RF.Analyze(cs, scanned.lines) == RF.Read(dps, [])
      && forall room: nat :: RF.Written(RF.CsvRows(cs, scanned.lines), room)
                               == if |dps| <= room then (dps, true) else (dps[..room], false)
  {
    forall i | 0 <= i < |runs| ensures PointsIn(runs[i].file) == runs[i].produced {
      EndedFile(scripts[i]);
    }
    FilesHoldRuns(runs);
    RF.WholePath(cs, FilesOf(runs), arrival, late, dps, errs);
  }
}
