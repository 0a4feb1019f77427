/** A running test as an object of the server: error collection, the harvest of
    all readers, the flush to file and connections, and the test's main loop. */
module Server {
  import opened Folds
  import opened Records
  import E = Engine
  import D = Delivery
  import DR = DeliveryRuns
  import RF = RecordFormat
  import opened Payload

  /** A point made from a reader, and the reader after that. */
  function PointFrom(testType: TestType, testId: string, v: View, errCount: nat, env: E.Env): DP {
    DP(testType, testId, env.created, env.local, v.addr,
       v.extremes.rmsH, v.extremes.rmsL, v.extremes.ttfbH, v.extremes.ttfbL,
       env.rate, v.tx, v.txCount, errCount, env.dropped, env.memory, env.cpu)
  }

  function Harvested(v: View): View {
    if v.hasStats then View(v.addr, false, E.Quad(0, MAX_INT64, 0, MAX_INT64), 0, v.txCount) else v
  }

  /** One point per reader that has stats, in reader order. */
  function PointsFrom(testType: TestType, testId: string, vs: seq<View>, errCount: nat, envs: seq<E.Env>): seq<DP>
    requires |vs| <= |envs|
  {
    if vs == [] then []
    else
      var n := |vs| - 1;
      PointsFrom(testType, testId, vs[..n], errCount, envs)
        + if vs[n].hasStats then [PointFrom(testType, testId, vs[n], errCount, envs[n])] else []
  }

  lemma {:induction false} AtMostOnePointEach(testType: TestType, testId: string, vs: seq<View>, errCount: nat,
                                              envs: seq<E.Env>)
    requires |vs| <= |envs|
    ensures |PointsFrom(testType, testId, vs, errCount, envs)| <= |vs|
    decreases |vs|
  {
    if vs != [] {
      AtMostOnePointEach(testType, testId, vs[..|vs| - 1], errCount, envs);
    }
  }

  /** The points of one more reader, behind those that there are. */
  lemma OneMoreReader(testType: TestType, testId: string, vs: seq<View>, i: nat, errCount: nat, envs: seq<E.Env>,
                      dps: seq<DP>)
    requires i < |vs| <= |envs|
    ensures dps + PointsFrom(testType, testId, vs[..i + 1], errCount, envs)
         == if vs[i].hasStats
            then dps + PointsFrom(testType, testId, vs[..i], errCount, envs)
                   + [PointFrom(testType, testId, vs[i], errCount, envs[i])]
            else dps + PointsFrom(testType, testId, vs[..i], errCount, envs)
  {
    var before := PointsFrom(testType, testId, vs[..i], errCount, envs);
    assert vs[..i + 1][..i] == vs[..i];
    assert before + [] == before;
    Regroup(dps, before, [PointFrom(testType, testId, vs[i], errCount, envs[i])]);
  }

  /** How many of these have stats. */
  function WithStats(vs: seq<View>): nat {
    if vs == [] then 0 else WithStats(vs[..|vs| - 1]) + if vs[|vs| - 1].hasStats then 1 else 0
  }

  /** The point of one reader, field by field. */
  predicate IsPointOf(d: DP, testType: TestType, testId: string, v: View, errCount: nat, env: E.Env) {
    && d.testType == testType && d.testId == testId && d.remote == v.addr
    && d.created == env.created && d.local == env.local
    && d.rmsH == v.extremes.rmsH && d.rmsL == v.extremes.rmsL
    && d.ttfbH == v.extremes.ttfbH && d.ttfbL == v.extremes.ttfbL
    && d.tx == env.rate && d.txTotal == v.tx && d.txCount == v.txCount && d.errCount == errCount
    && d.droppedPackets == env.dropped && d.memoryUsedPercent == env.memory && d.cpuUsedPercent == env.cpu
  }

  /** A harvest makes as many points as there are readers with stats, and the
      point of each is at the place that its order among them gives it. */
  lemma {:induction false} PointsFromExactly(testType: TestType, testId: string, vs: seq<View>, errCount: nat,
                                             envs: seq<E.Env>)
    requires |vs| <= |envs|
    ensures var ps := PointsFrom(testType, testId, vs, errCount, envs);
      && |ps| == WithStats(vs)
      && forall i :: 0 <= i < |vs| && vs[i].hasStats ==>
           && WithStats(vs[..i]) < |ps|
           && IsPointOf(ps[WithStats(vs[..i])], testType, testId, vs[i], errCount, envs[i])
    decreases |vs|
  {
    if vs != [] {
      var n := |vs| - 1;
      PointsFromExactly(testType, testId, vs[..n], errCount, envs);
      forall i | 0 <= i < |vs| && vs[i].hasStats
        ensures WithStats(vs[..i]) < WithStats(vs)
        ensures IsPointOf(PointsFrom(testType, testId, vs, errCount, envs)[WithStats(vs[..i])],
                          testType, testId, vs[i], errCount, envs[i])
      {
        if i < n {
          assert vs[..n][..i] == vs[..i] && vs[..n][i] == vs[i];
        }
      }
    }
  }

  /** What one round of a test finds after its sleep. */
  datatype Round = Round(views: seq<View>, errors: seq<TError>, envs: seq<E.Env>)

  function BatchOf(testType: TestType, testId: string, r: Round): Batch {
    Batch(if |r.views| <= |r.envs| then PointsFrom(testType, testId, r.views, |r.errors|, r.envs) else [], r.errors)
  }

  function StatsOf(testType: TestType, testId: string, rounds: seq<Round>): (log: seq<D.Signal>)
    ensures |log| == |rounds|
    ensures forall k :: 0 <= k < |rounds| ==> log[k] == D.Stats(BatchOf(testType, testId, rounds[k]))
  {
    seq(|rounds|, k requires 0 <= k < |rounds| => D.Stats(BatchOf(testType, testId, rounds[k])))
  }

  /** The outcome of the write to a connection in a round. */
  type Outcomes = (nat, nat) -> bool

  /** The first round below n whose write to the runner fails, or n. */
  function FirstFailure(oks: Outcomes, n: nat): (k: nat)
    ensures k <= n && (forall j :: 0 <= j < k ==> oks(j, D.RUNNER)) && (k < n ==> !oks(k, D.RUNNER))
  {
    if n == 0 then 0
    else
      var before := FirstFailure(oks, n - 1);
      if before == n - 1 && oks(n - 1, D.RUNNER) then n else before
  }

  class Test {
    const testType: TestType
    const testId: string
    const save: bool
    const codecs: RF.Codecs
    const readers: seq<NetPerfReader>
    var errors: seq<TError>
    var errMap: set<D.ErrorId>
    var dps: seq<DP>
    const storage: nat -> Option<RF.Disk>  // what each attempt to create a file gives
    var dataFile: RF.File?
    var attempts: nat
    var conns: map<nat, D.Conn>
    var cancelled: bool
    ghost var ids: seq<D.ErrorId>  // the ids of the pending errors
    ghost var produced: nat        // how many points have been made

    ghost function Log(): D.ErrLog
      reads this
    {
      D.ErrLog(errors, ids, errMap)
    }

    /** The bytes in the test's file, none if there is no file. */
    function Content(): seq<RF.Byte>
      reads this, if dataFile == null then {} else {dataFile}
    {
      if dataFile == null then [] else dataFile.content
    }

    function Writes(): nat
      reads this, if dataFile == null then {} else {dataFile}
    {
      if dataFile == null then 0 else dataFile.writes
    }

    function FileSet(): set<object>
      reads this
    {
      if dataFile == null then {} else {dataFile}
    }

    function Views(): seq<View>
      reads this, readers
    {
      seq(|readers|, i requires 0 <= i < |readers| reads this, readers => readers[i].Now())
    }

    /** What a round finds now. */
    ghost function Seen(envs: seq<E.Env>): Round
      reads this, readers
    {
      Round(Views(), errors, envs)
    }

    ghost predicate Valid()
      reads this
    {
      DR.ErrLogOk(Log()) && forall i, j :: 0 <= i < j < |readers| ==> readers[i] != readers[j]
    }

    method AddError(err: Option<string>, id: D.ErrorId, now: int)
      requires Valid()
      modifies this`errors, this`errMap, this`ids
      ensures Valid()
      ensures Log() == if err.None? then old(Log()) else D.AddError(old(Log()), id, TError(err.value, now))
      ensures err.Some? && id !in old(errMap) ==>
        errors == old(errors) + [TError(err.value, now)] && errMap == old(errMap) + {id}
      ensures err.None? || id in old(errMap) ==> errors == old(errors) && errMap == old(errMap)
    {
      if err.None? {
        return;
      }
      DR.AddErrorOk(Log(), id, TError(err.value, now));
      if id in errMap {
        return;
      }
      errors := errors + [TError(err.value, now)];
      errMap := errMap + {id};
      ids := ids + [id];
    }

    /** Swaps the byte counter, reads the rest, and starts the reader over. */
    method HarvestReader(r: NetPerfReader, env: E.Env) returns (d: DP)
      requires r.hasStats
      modifies r
      ensures d == PointFrom(testType, testId, old(r.Now()), |errors|, env)
      ensures r.Now() == Harvested(old(r.Now()))
      ensures IsPointOf(d, testType, testId, old(r.Now()), |errors|, env)
      ensures d.rmsH == old(r.RMSH) && d.rmsL == old(r.RMSL) && d.ttfbH == old(r.TTFBH) && d.ttfbL == old(r.TTFBL)
      ensures d.txTotal == old(r.TX) && d.txCount == r.TXCount == old(r.TXCount)
      ensures !r.hasStats && r.TX == 0 && r.RMSH == r.TTFBH == 0 && r.RMSL == r.TTFBL == MAX_INT64
    {
      var tx := r.TX;
      r.TX := 0;
      d := DP(testType, testId, env.created, env.local, r.addr,
              r.RMSH, r.RMSL, r.TTFBH, r.TTFBL, env.rate, tx, r.TXCount, |errors|,
              env.dropped, env.memory, env.cpu);
      r.hasStats := false;
      r.TTFBH := 0;
      r.TTFBL := MAX_INT64;
      r.RMSH := 0;
      r.RMSL := MAX_INT64;
    }

    method AppendPoint(r: NetPerfReader, env: E.Env)
      requires r.hasStats
      modifies r, this`dps, this`produced
      ensures dps == old(dps) + [PointFrom(testType, testId, old(r.Now()), |errors|, env)]
      ensures r.Now() == Harvested(old(r.Now())) && produced == old(produced) + 1
    {
      var d := HarvestReader(r, env);
      dps := dps + [d];
      produced := produced + 1;
    }

    /** Harvests every reader that has stats; envs holds what each point takes
        from clocks and host statistics. */
    method GenerateDataPoints(envs: seq<E.Env>)
      requires Valid() && |envs| == |readers|
      modifies this`dps, this`produced, readers
      ensures Valid()
      ensures dps == old(dps) + PointsFrom(testType, testId, old(Views()), |errors|, envs)
      ensures forall i :: 0 <= i < |readers| ==> readers[i].Now() == Harvested(old(readers[i].Now()))
      ensures produced - old(produced) == |dps| - |old(dps)| <= |readers|
    {
      ghost var vs := Views();
      for i := 0 to |readers|
        invariant Valid()
        invariant dps == old(dps) + PointsFrom(testType, testId, vs[..i], |errors|, envs)
        invariant produced - old(produced) == |dps| - |old(dps)|
        invariant forall j :: 0 <= j < i ==> readers[j].Now() == Harvested(vs[j])
        invariant forall j :: i <= j < |readers| ==> readers[j].Now() == vs[j]
      {
        var r := readers[i];
        OneMoreReader(testType, testId, vs, i, |errors|, envs, old(dps));
        if r.hasStats {
          AppendPoint(r, envs[i]);
        }
      }
      assert vs[..|readers|] == vs;
      AtMostOnePointEach(testType, testId, vs, |errors|, envs);
    }

    /** Flushes one batch: points and pending errors go to the file, in that
        order, and to every open connection; a connection that fails is dropped.
        The file is created if there is none. Failed creations and writes are
        ignored: the file grows by what its disk takes of the batch. */
    method SendAndSaveData(k: nat, oks: Outcomes)
      requires Valid()
      modifies this`errors, this`errMap, this`ids, this`dps, this`dataFile, this`attempts, this`conns, FileSet()
      ensures Valid() && dps == [] && Log() == D.NO_ERRORS
      ensures FileStep(old(dataFile), old(attempts)) && (dataFile == old(dataFile) || fresh(dataFile))
      ensures !save ==> Content() == old(Content())
      ensures save && dataFile != null ==>
        Content() == old(Content())
          + RF.Saved(dataFile.disk, old(Writes()), RF.Chunks(codecs, DR.RecordsOf(Batch(old(dps), old(errors)))))
      ensures save && old(dataFile) != null ==> dataFile == old(dataFile)
      ensures save && old(dataFile) == null ==>
        (dataFile != null <==> storage(old(attempts)).Some?) && attempts == old(attempts) + 1
      ensures var points, errs := PointRecords(old(dps)), ErrorRecords(old(errors));
        save && dataFile != null && RF.TakesAll(dataFile.disk, old(Writes()), RF.Chunks(codecs, points + errs)) ==>
          Content() == old(Content()) + codecs.Encode(points + errs)
      ensures WasSent(old(conns), Batch(old(dps), old(errors)), k, oks)
    {
      var batch := SaveBatch();
      if save && dataFile != null {
        FlushSavesExactly(codecs, dataFile.disk, old(Writes()), old(Content()), batch);
      }
      SendToAll(batch, k, oks);
    }

    /** Every connection that was open has the batch behind its log if its write
        succeeded, and is closed if not; the others are as they were. */
    ghost predicate WasSent(was: map<nat, D.Conn>, batch: Batch, k: nat, oks: Outcomes)
      reads this
    {
      && conns.Keys == was.Keys
      && forall id :: id in conns ==>
           if !was[id].open then conns[id] == was[id]
           else if oks(k, id)
           then
             && conns[id].open && conns[id].log == was[id].log + [D.Stats(batch)]
             && conns[id] == D.Deliver(was[id], batch, true)
           else !conns[id].open && conns[id].log == was[id].log
    }

    /** The part of a flush before the connections: it empties the pending lists
        into the file, the points first. */
    method SaveBatch() returns (batch: Batch)
      requires Valid()
      modifies this`errors, this`errMap, this`ids, this`dps, this`dataFile, this`attempts, FileSet()
      ensures Valid() && dps == [] && Log() == D.NO_ERRORS && batch == Batch(old(dps), old(errors))
      ensures FileStep(old(dataFile), old(attempts)) && (dataFile == old(dataFile) || fresh(dataFile))
      ensures !save ==> Content() == old(Content())
      ensures save && dataFile != null ==>
        Content() == old(Content()) + RF.Saved(dataFile.disk, old(Writes()), RF.Chunks(codecs, DR.RecordsOf(batch)))
    {
      batch := Batch(dps, errors);
      ghost var content, writes := Content(), Writes();
      if save {
        if dataFile == null {
          NewTestFile();
        }
        SaveToFile(PointRecords(batch.points));
      }
      ghost var half, more := Content(), Writes();
      dps := [];
      errors, errMap, ids := [], {}, [];
      if save {
        SaveToFile(ErrorRecords(batch.errors));
        if dataFile != null {
          BatchSaved(codecs, dataFile.disk, batch, content, writes, half, more, Content());
        }
      }
    }

    /** The file after a flush: the one there was, or else the one that storage
        gave for this attempt to create one, if it gave one. */
    ghost predicate FileStep(was: RF.File?, attempt: nat)
      reads this
    {
      if was != null || !save then dataFile == was && attempts == attempt
      else
        && attempts == attempt + 1 && (dataFile != null <==> storage(attempt).Some?)
        && (dataFile != null ==> dataFile.disk == storage(attempt).value)
    }

    /** Creates an empty file, or fails to. */
    method NewTestFile()
      requires dataFile == null && save
      modifies this`dataFile, this`attempts
      ensures FileStep(old(dataFile), old(attempts)) && Content() == [] && Writes() == 0
      ensures dataFile == null || fresh(dataFile)
    {
      var disk := storage(attempts);
      attempts := attempts + 1;
      if disk.Some? {
        dataFile := new RF.File(disk.value);
      }
    }

    /** Writing to a missing file fails, which is ignored as well. */
    method SaveToFile(rs: seq<Record>)
      modifies FileSet()
      ensures dataFile == null ==> Content() == old(Content())
      ensures dataFile != null ==>
        && Content() == old(Content()) + RF.Saved(dataFile.disk, old(Writes()), RF.Chunks(codecs, rs))
        && Writes() == old(Writes()) + |RF.Chunks(codecs, rs)|
    {
      if dataFile != null {
        dataFile.SaveRecords(codecs, rs);
      }
    }

    /** The fan-out of round k: its outcome does not depend on the order in which
        the connections are visited. */
    method SendToAll(batch: Batch, k: nat, oks: Outcomes)
      modifies this`conns
      ensures WasSent(old(conns), batch, k, oks)
    {
      var todo := D.OpenIds(conns);
      while todo != {}
        invariant conns.Keys == old(conns.Keys)
        invariant forall id :: id in todo ==> id in conns && old(conns)[id].open
        invariant forall id :: id in conns && (id in todo || !old(conns)[id].open) ==> conns[id] == old(conns)[id]
        invariant forall id :: id in conns && id !in todo && old(conns)[id].open ==>
          conns[id] == D.Deliver(old(conns)[id], batch, oks(k, id))
        decreases |todo|
      {
        var id :| id in todo;
        conns := conns[id := D.Deliver(conns[id], batch, oks(k, id))];
        todo := todo - {id};
      }
    }

    /** Whatever the other goroutines do while the main goroutine sleeps: read,
        answer, report errors, register; and what clocks and host statistics show
        after that. */
    method Meanwhile() returns (envs: seq<E.Env>)
      requires Valid()
      modifies this`errors, this`errMap, this`ids, this`conns, readers
      ensures Valid() && |envs| == |readers|
      ensures forall id :: id in old(conns) ==> id in conns && conns[id] == old(conns)[id]
    {
      envs := seq(|readers|, i => E.Env(0, "", 0, 0, 0, 0));
    }

    /** The harvest before a flush: what is pending after it is the round's batch. */
    method MakeBatch(envs: seq<E.Env>)
      requires Valid() && |envs| == |readers| && dps == []
      modifies this`dps, this`produced, readers
      ensures Valid() && Batch(dps, errors) == BatchOf(testType, testId, old(Seen(envs)))
      ensures produced <= old(produced) + |readers|
    {
      ghost var points := PointsFrom(testType, testId, Views(), |errors|, envs);
      assert [] + points == points;
      GenerateDataPoints(envs);
    }

    /** A harvest and its flush: the batch is made of exactly the points of the
        readers that have stats and of the errors that are pending. */
    method Flush(envs: seq<E.Env>, k: nat, oks: Outcomes)
      requires Valid() && |envs| == |readers| && dps == []
      modifies this`errors, this`errMap, this`ids, this`dps, this`dataFile, this`attempts, this`conns
      modifies this`produced, readers, FileSet()
      ensures Valid() && dps == [] && produced <= old(produced) + |readers|
      ensures dataFile == old(dataFile) || (old(dataFile) == null && fresh(dataFile))
      ensures WasSent(old(conns), BatchOf(testType, testId, old(Seen(envs))), k, oks)
    {
      MakeBatch(envs);
      SendAndSaveData(k, oks);
    }

    /** The runner's connection after these rounds. */
    ghost predicate RunnerHas(rounds: seq<Round>, oks: Outcomes)
      reads this
    {
      && D.RUNNER in conns
      && conns[D.RUNNER].log == StatsOf(testType, testId, rounds)[..FirstFailure(oks, |rounds|)]
      && (conns[D.RUNNER].open <==> FirstFailure(oks, |rounds|) == |rounds|)
    }

    /** One round: what is found after the sleep goes out in one batch. */
    method RunRound(oks: Outcomes, ghost rounds: seq<Round>, k: nat) returns (ghost found: Round)
      requires Valid() && dps == [] && RunnerHas(rounds, oks) && k == |rounds|
      modifies this`errors, this`errMap, this`ids, this`dps, this`dataFile, this`attempts, this`conns
      modifies this`produced, readers, FileSet()
      ensures Valid() && dps == [] && RunnerHas(rounds + [found], oks)
      ensures dataFile == old(dataFile) || fresh(dataFile)
      ensures produced <= old(produced) + |readers|
    {
      var envs := Meanwhile();
      found := Seen(envs);
      ghost var runner := conns[D.RUNNER];
      Flush(envs, k, oks);
      RoundSent(testType, testId, rounds, found, oks, runner.log, conns[D.RUNNER].log);
    }

    /** The loop goes on while nobody else has cancelled the test and no more than
        duration seconds are over. */
    method RunRounds(duration: int, clock: nat -> nat, stops: nat -> bool, oks: Outcomes)
      returns (flushes: nat, ghost rounds: seq<Round>)
      requires Valid() && dps == [] && RunnerHas([], oks) && Ticks(clock)
      modifies this`errors, this`errMap, this`ids, this`dps, this`dataFile, this`attempts, this`conns
      modifies this`produced, readers, FileSet()
      ensures Valid() && |rounds| == flushes && RunnerHas(rounds, oks)
      ensures forall k: nat :: k < flushes ==> !stops(k) && clock(k) <= duration * SECOND
      ensures stops(flushes) || clock(flushes) > duration * SECOND
      ensures flushes <= if duration < 0 then 0 else duration + 1
      ensures produced <= old(produced) + flushes * |readers|
    {
      flushes, rounds := 0, [];
      while !stops(flushes) && clock(flushes) <= duration * SECOND
        invariant Valid() && dps == [] && |rounds| == flushes && RunnerHas(rounds, oks)
        invariant dataFile == old(dataFile) || fresh(dataFile)
        invariant forall k: nat :: k < flushes ==> !stops(k) && clock(k) <= duration * SECOND
        invariant flushes * SECOND <= clock(flushes)
        invariant flushes <= if duration < 0 then 0 else duration + 1
        invariant produced <= old(produced) + flushes * |readers|
        decreases duration * SECOND - clock(flushes)
      {
        ghost var found := RunRound(oks, rounds, flushes);
        MulStep(flushes, |readers|);
        rounds := rounds + [found];
        flushes := flushes + 1;
      }
    }

    /** Runs until more than duration seconds are over or others have cancelled the
        test. clock(k) is the time since its start, and stops(k) whether others
        have cancelled it, when the loop comes to its head for the k-th time; it
        sleeps at least a second in between. rounds is what it finds after each
        sleep. The runner's log is the batches of these rounds, each made of the
        points of the readers with stats and of the errors pending then, and one
        Done, up to the first write that fails. */
    method CreateAndRunTest(duration: int, clock: nat -> nat, stops: nat -> bool, oks: Outcomes, doneOk: bool)
      returns (flushes: nat, ghost rounds: seq<Round>)
      requires Valid() && D.RUNNER !in conns && dps == [] && Ticks(clock)
      modifies this, readers, FileSet()
      ensures Valid() && cancelled && |rounds| == flushes
      ensures forall k: nat :: k < flushes ==> !stops(k) && clock(k) <= duration * SECOND
      ensures stops(flushes) || clock(flushes) > duration * SECOND
      ensures flushes <= if duration < 0 then 0 else duration + 1
      ensures produced <= old(produced) + flushes * |readers|
      ensures D.RUNNER in conns
      ensures conns[D.RUNNER].open <==> FirstFailure(oks, flushes) == flushes && doneOk
      ensures var sent := FirstFailure(oks, flushes);
        conns[D.RUNNER].log
          == StatsOf(testType, testId, rounds)[..sent] + if sent == flushes && doneOk then [D.Done] else []
    {
      conns := conns[D.RUNNER := D.Conn(true, [], 0, 0)];
      flushes, rounds := RunRounds(duration, clock, stops, oks);
      cancelled := true;
      ghost var log := conns[D.RUNNER].log;
      SendDone(doneOk);
      assert log + [] == log;
    }

    method SendDone(ok: bool)
      requires Valid() && D.RUNNER in conns
      modifies this`conns
      ensures Valid() && conns.Keys == old(conns.Keys)
      ensures var was, now := old(conns)[D.RUNNER], conns[D.RUNNER];
        if was.open && ok then now.open && now.log == was.log + [D.Done] else !now.open && now.log == was.log
    {
      var c := conns[D.RUNNER];
      if c.open && ok {
        conns := conns[D.RUNNER := c.(log := c.log + [D.Done])];
      } else {
        conns := conns[D.RUNNER := c.(open := false)];
      }
    }
  }

  /** The loop sleeps at least a second between two looks at the clock. */
  ghost predicate Ticks(clock: nat -> nat) {
    forall k: nat :: clock(k + 1) >= clock(k) + SECOND
  }

  /** One more round behind the runner's log, unless an earlier write has failed. */
  lemma RoundSent(testType: TestType, testId: string, rounds: seq<Round>, found: Round, oks: Outcomes,
                  was: seq<D.Signal>, now: seq<D.Signal>)
    requires var k := |rounds|; var sent := FirstFailure(oks, k);
      && was == StatsOf(testType, testId, rounds)[..sent]
      && now == if sent == k && oks(k, D.RUNNER) then was + [D.Stats(BatchOf(testType, testId, found))] else was
    ensures now == StatsOf(testType, testId, rounds + [found])[..FirstFailure(oks, |rounds| + 1)]
  {
  }

  /** Cancels the tests with this id, or all of them for an empty id. */
  method StopAllTests(tests: seq<Test>, id: string)
    modifies tests
    ensures forall t :: t in tests ==> t.cancelled == (old(t.cancelled) || id == "" || t.testId == id)
  {
    for i := 0 to |tests|
      invariant forall t :: t in tests ==>
        t.cancelled == (old(t.cancelled) || (t in tests[..i] && (id == "" || t.testId == id)))
    {
      if id == "" || tests[i].testId == id {
        tests[i].cancelled := true;
      }
    }
  }

  lemma MulStep(a: nat, b: nat)
    ensures (a + 1) * b == a * b + b
  {
  }

  lemma BatchSaved(cs: RF.Codecs, disk: RF.Disk, batch: Batch, was: seq<RF.Byte>, w: nat,
                   half: seq<RF.Byte>, v: nat, now: seq<RF.Byte>)
    requires half == was + RF.Saved(disk, w, RF.Chunks(cs, PointRecords(batch.points)))
    requires v == w + |RF.Chunks(cs, PointRecords(batch.points))|
    requires now == half + RF.Saved(disk, v, RF.Chunks(cs, ErrorRecords(batch.errors)))
    ensures now == was + RF.Saved(disk, w, RF.Chunks(cs, DR.RecordsOf(batch)))
  {
    RF.ChunksConcat(cs, PointRecords(batch.points), ErrorRecords(batch.errors));
    RF.SavedTwice(disk, RF.Chunks(cs, PointRecords(batch.points)), RF.Chunks(cs, ErrorRecords(batch.errors)),
                  was, w, half, now);
  }

  /** A flush grows the file by exactly the batch if and only if the disk takes
      every write of it. */
  lemma FlushSavesExactly(cs: RF.Codecs, disk: RF.Disk, w: nat, file: seq<RF.Byte>, batch: Batch)
    ensures var chunks := RF.Chunks(cs, DR.RecordsOf(batch));
      file + RF.Saved(disk, w, chunks) == file + cs.Encode(DR.RecordsOf(batch)) <==> RF.TakesAll(disk, w, chunks)
  {
    var chunks := RF.Chunks(cs, DR.RecordsOf(batch));
    RF.ChunksEncode(cs, DR.RecordsOf(batch));
    RF.SavedExactly(disk, w, chunks);
    assert |file + RF.Saved(disk, w, chunks)| == |file| + |RF.Saved(disk, w, chunks)|;
  }
}
