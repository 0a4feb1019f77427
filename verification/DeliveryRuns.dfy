/** What every run of the delivering side keeps: no point and no error is lost,
    duplicated or reordered between a test, its file and its followers. */
module DeliveryRuns {
  import opened Folds
  import opened Records
  import opened Delivery

  // Errors

  /** Pending errors correspond one to one with the keys of errMap. */
  ghost predicate ErrLogOk(l: ErrLog) {
    |l.errors| == |l.ids| && Distinct(l.ids) && forall id :: id in l.errMap <==> id in l.ids
  }

  /** An error is suppressed exactly when its id is already pending. */
  lemma AddErrorOk(l: ErrLog, id: ErrorId, e: TError)
    requires ErrLogOk(l)
    ensures ErrLogOk(AddError(l, id, e))
    ensures AddError(l, id, e).errors == (if id in l.ids then l.errors else l.errors + [e])
  {
  }

  const ALL_IDS: set<ErrorId> :=
    {UnknownSignal, NetworkNewRequest, NetworkError, InvalidStatusCode, DataPointMarshaling, ErrorMarshaling}

  lemma EveryIdListed(id: ErrorId)
    ensures id in ALL_IDS
  {
    match id
    case UnknownSignal =>
    case NetworkNewRequest =>
    case NetworkError =>
    case InvalidStatusCode =>
    case DataPointMarshaling =>
    case ErrorMarshaling =>
  }

  lemma {:induction false} DistinctFits<T>(s: seq<T>, all: set<T>)
    requires forall i, j :: 0 <= i < j < |s| ==> s[i] != s[j]
    requires forall i :: 0 <= i < |s| ==> s[i] in all
    ensures |s| <= |all|
  {
    if s != [] {
      forall i | 0 <= i < |s[1..]| ensures s[1..][i] in all - {s[0]} {
        assert s[1..][i] == s[i + 1];
      }
      DistinctFits(s[1..], all - {s[0]});
    }
  }

  /** At most six errors are pending at any time. */
  lemma PendingErrorsBounded(l: ErrLog)
    requires ErrLogOk(l)
    ensures |l.errors| <= 6
  {
    forall i | 0 <= i < |l.ids| ensures l.ids[i] in ALL_IDS {
      EveryIdListed(l.ids[i]);
    }
    DistinctFits(l.ids, ALL_IDS);
    assert |ALL_IDS| == 6;
  }

  // Points, errors and file

  function InFlight(p: Phase): seq<DP> {
    if p.Building? then p.points else []
  }

  function RecordsOf(b: Batch): seq<Record> {
    PointRecords(b.points) + ErrorRecords(b.errors)
  }

  function FileOf(bs: seq<Batch>): seq<Record> {
    if bs == [] then [] else FileOf(bs[..|bs| - 1]) + RecordsOf(bs[|bs| - 1])
  }

  ghost predicate PointsOk(s: State) {
    && s.produced == AllPoints(s.batches) + InFlight(s.phase) + s.dps
    && (!s.phase.Harvesting? ==> s.dps == [])
  }

  ghost predicate ErrorsOk(s: State) {
    && ErrLogOk(s.errs)
    && s.accepted == AllErrors(s.batches) + s.errs.errors
    && (forall i :: 0 <= i < |s.batches| ==> |s.batches[i].errors| <= 6)
  }

  ghost predicate FileOk(s: State) {
    s.intact ==> s.file == if s.save then FileOf(s.batches) + PointRecords(InFlight(s.phase)) else []
  }

  lemma PointsKept(s: State, a: Action)
    requires PointsOk(s)
    ensures PointsOk(Apply(s, a))
  {
    match a
    case Produce(d) =>
      if s.phase.Harvesting? {
        PointsProduced(s, d, Apply(s, a));
      }
    case CopyPoints(_) =>
      if s.phase.Harvesting? {
        PointsCopied(s, Apply(s, a));
      }
    case TakeErrors(_) =>
      if s.phase.Building? {
        PointsTaken(s, Batch(s.phase.points, s.errs.errors), Apply(s, a));
      }
    case _ => SamePoints(s, Apply(s, a));
  }

  lemma PointsProduced(s: State, d: DP, s': State)
    requires PointsOk(s) && s'.phase == s.phase && s.phase.Harvesting?
    requires s'.produced == s.produced + [d] && s'.batches == s.batches && s'.dps == s.dps + [d]
    ensures PointsOk(s')
  {
    Regroup(AllPoints(s.batches) + InFlight(s.phase), s.dps, [d]);
  }

  lemma PointsCopied(s: State, s': State)
    requires PointsOk(s) && s.phase.Harvesting? && s'.phase == Building(s.dps) && s'.dps == []
    requires s'.produced == s.produced && s'.batches == s.batches
    ensures PointsOk(s')
  {
    var all := AllPoints(s.batches);
    assert all + [] + s.dps == all + s.dps + [];
  }

  lemma PointsTaken(s: State, b: Batch, s': State)
    requires PointsOk(s) && s.phase == Building(b.points) && s'.phase.Sending? && s'.dps == s.dps
    requires s'.produced == s.produced && s'.batches == s.batches + [b]
    ensures PointsOk(s')
  {
    AllAppend(s.batches, b);
    var all := AllPoints(s.batches) + b.points;
    assert all + [] == all;
  }

  lemma SamePoints(s: State, s': State)
    requires PointsOk(s)
    requires s'.produced == s.produced && s'.batches == s.batches && s'.dps == s.dps
    requires InFlight(s'.phase) == InFlight(s.phase) && (s.phase.Harvesting? ==> s'.phase.Harvesting?)
    requires s'.phase.Harvesting? || s'.dps == []
    ensures PointsOk(s')
  {
  }

  lemma ErrorsKept(s: State, a: Action)
    requires ErrorsOk(s)
    ensures ErrorsOk(Apply(s, a))
  {
    match a
    case Report(id, e) => AddErrorOk(s.errs, id, e);
    case TakeErrors(_) =>
      if s.phase.Building? {
        ErrorsTaken(s, Apply(s, a));
      }
    case _ => SameErrors(s, Apply(s, a));
  }

  lemma ErrorsTaken(s: State, s': State)
    requires ErrorsOk(s) && s'.errs == NO_ERRORS && s'.accepted == s.accepted
    requires |s'.batches| == |s.batches| + 1 && s'.batches[..|s.batches|] == s.batches
    requires s'.batches[|s.batches|].errors == s.errs.errors
    ensures ErrorsOk(s')
  {
    var b := s'.batches[|s.batches|];
    assert s'.batches == s.batches + [b];
    AllAppend(s.batches, b);
    PendingErrorsBounded(s.errs);
    assert AllErrors(s'.batches) + [] == AllErrors(s'.batches);
  }

  lemma SameErrors(s: State, s': State)
    requires ErrorsOk(s) && s'.errs == s.errs && s'.accepted == s.accepted && s'.batches == s.batches
    ensures ErrorsOk(s')
  {
  }

  lemma FileKept(s: State, a: Action)
    requires FileOk(s) && PointsOk(s)
    ensures FileOk(Apply(s, a))
  {
    if a.CopyPoints? && s.phase.Harvesting? {
      FileCopied(s, Apply(s, a));
    } else if a.TakeErrors? && s.phase.Building? {
      FileFlushed(s, Batch(s.phase.points, s.errs.errors), Apply(s, a));
    } else {
      OthersKeepFile(s, a);
      SameFile(s, Apply(s, a));
    }
  }

  lemma OthersKeepFile(s: State, a: Action)
    requires !(a.CopyPoints? && s.phase.Harvesting?) && !(a.TakeErrors? && s.phase.Building?)
    ensures var s' := Apply(s, a);
      && s'.file == s.file && s'.intact == s.intact && s'.save == s.save && s'.batches == s.batches
      && InFlight(s'.phase) == InFlight(s.phase)
  {
  }

  lemma FileCopied(s: State, s': State)
    requires FileOk(s) && s.phase.Harvesting? && s'.phase == Building(s.dps)
    requires s'.save == s.save && s'.batches == s.batches && (s'.intact ==> s.intact)
    requires s'.intact ==> s'.file == if s.save then s.file + PointRecords(s.dps) else s.file
    ensures FileOk(s')
  {
    assert FileOf(s.batches) + PointRecords([]) == FileOf(s.batches);
  }

  lemma FileFlushed(s: State, b: Batch, s': State)
    requires FileOk(s) && s.phase == Building(b.points) && s'.phase.Sending?
    requires s'.save == s.save && s'.batches == s.batches + [b] && (s'.intact ==> s.intact)
    requires s'.intact ==> s'.file == if s.save then s.file + ErrorRecords(b.errors) else s.file
    ensures FileOk(s')
  {
    FileTaken(s.batches, b);
  }

  lemma FileTaken(bs: seq<Batch>, b: Batch)
    ensures FileOf(bs) + PointRecords(b.points) + ErrorRecords(b.errors) == FileOf(bs + [b]) + PointRecords([])
  {
    assert (bs + [b])[..|bs|] == bs;
    Regroup(FileOf(bs), PointRecords(b.points), ErrorRecords(b.errors));
    assert FileOf(bs + [b]) + PointRecords([]) == FileOf(bs + [b]);
  }

  lemma SameFile(s: State, s': State)
    requires FileOk(s) && s'.file == s.file && s'.intact == s.intact && s'.save == s.save && s'.batches == s.batches
    requires InFlight(s'.phase) == InFlight(s.phase)
    ensures FileOk(s')
  {
  }

  // Connections

  function StatsLog(bs: seq<Batch>): seq<Signal> {
    seq(|bs|, i requires 0 <= i < |bs| => Stats(bs[i]))
  }

  function Final(s: State, id: nat): seq<Signal> {
    if id == RUNNER && s.phase == Ended(true) then [Done] else []
  }

  function Waiting(s: State, id: nat): nat {
    if s.phase.Sending? && id in s.phase.todo then 1 else 0
  }

  /** A log is the batches from registration on, without gap or duplicate; an
      open connection lacks at most the batch being sent right now. */
  ghost predicate ConnOk(s: State, id: nat)
    requires id in s.conns
  {
    var c := s.conns[id];
    && c.first <= c.next <= |s.batches|
    && c.log == StatsLog(s.batches[c.first..c.next]) + Final(s, id)
    && (c.open ==> c.next + Waiting(s, id) == |s.batches|)
    && (Waiting(s, id) == 1 ==> c.open)
  }

  ghost predicate ConnsOk(s: State) {
    && RUNNER in s.conns && s.conns[RUNNER].first == 0
    && (forall id :: id in s.conns ==> ConnOk(s, id))
    && (s.phase.Sending? ==> s.batches != [] && s.phase.todo <= s.conns.Keys)
    && (s.phase.Closing? || s.phase.Ended? ==> s.cancelled)
    && (s.phase == Ended(true) ==> s.conns[RUNNER].next == |s.batches|)
  }

  lemma StatsLogAppend(bs: seq<Batch>, i: nat, j: nat)
    requires i <= j < |bs|
    ensures StatsLog(bs[i..j + 1]) == StatsLog(bs[i..j]) + [Stats(bs[j])]
  {
  }

  lemma ConnsTakeErrors(s: State, saved: bool)
    requires ConnsOk(s) && s.phase.Building?
    ensures ConnsOk(Apply(s, TakeErrors(saved)))
  {
    var s' := Apply(s, TakeErrors(saved));
    forall id | id in s'.conns ensures ConnOk(s', id) {
      assert ConnOk(s, id);
      var c := s.conns[id];
      assert s'.batches[c.first..c.next] == s.batches[c.first..c.next];
    }
  }

  lemma ConnsSendTo(s: State, id: nat, ok: bool)
    requires ConnsOk(s) && s.phase.Sending? && id in s.phase.todo
    ensures ConnsOk(Apply(s, SendTo(id, ok)))
  {
    var s' := Apply(s, SendTo(id, ok));
    assert ConnOk(s, id);
    StatsLogAppend(s.batches, s.conns[id].first, |s.batches| - 1);
    forall k | k in s'.conns ensures ConnOk(s', k) {
      assert ConnOk(s, k);
    }
  }

  lemma ConnsListen(s: State, id: nat, seen: bool)
    requires ConnsOk(s)
    ensures ConnsOk(Apply(s, Listen(id, seen)))
  {
    var s' := Apply(s, Listen(id, seen));
    forall k | k in s'.conns ensures ConnOk(s', k) {
      if k in s.conns {
        assert ConnOk(s, k);
      }
    }
  }

  lemma ConnsSendDone(s: State, ok: bool)
    requires ConnsOk(s) && s.phase.Closing?
    ensures ConnsOk(Apply(s, SendDone(ok)))
  {
    var s' := Apply(s, SendDone(ok));
    forall k | k in s'.conns ensures ConnOk(s', k) {
      assert ConnOk(s, k);
    }
  }

  /** Steps that leave connections and batches alone. */
  lemma ConnsUntouched(s: State, s': State)
    requires ConnsOk(s) && s'.conns == s.conns && s'.batches == s.batches && (s.cancelled ==> s'.cancelled)
    requires forall id :: Waiting(s', id) == Waiting(s, id) && Final(s', id) == Final(s, id)
    requires s'.phase.Sending? ==> s'.phase == s.phase
    requires s'.phase.Closing? ==> s'.cancelled
    requires s'.phase.Ended? ==> s'.phase == s.phase
    ensures ConnsOk(s')
  {
    forall id | id in s'.conns ensures ConnOk(s', id) {
      assert ConnOk(s, id);
    }
  }

  lemma ConnsKept(s: State, a: Action)
    requires ConnsOk(s)
    ensures ConnsOk(Apply(s, a))
  {
    match a
    case TakeErrors(_) =>
      if s.phase.Building? {
        ConnsTakeErrors(s, a.saved);
      }
    case SendTo(id, ok) =>
      if s.phase.Sending? && id in s.phase.todo {
        ConnsSendTo(s, id, ok);
      }
    case Listen(id, seen) => ConnsListen(s, id, seen);
    case SendDone(ok) =>
      if s.phase.Closing? {
        ConnsSendDone(s, ok);
      }
    case _ => ConnsOther(s, a);
  }

  lemma ConnsOther(s: State, a: Action)
    requires ConnsOk(s) && !a.TakeErrors? && !a.SendTo? && !a.Listen? && !a.SendDone?
    ensures ConnsOk(Apply(s, a))
  {
    OthersTouchNothing(s, a);
    ConnsUntouched(s, Apply(s, a));
  }

  lemma OthersTouchNothing(s: State, a: Action)
    requires !a.TakeErrors? && !a.SendTo? && !a.Listen? && !a.SendDone?
    requires s.phase.Closing? ==> s.cancelled
    ensures var s' := Apply(s, a);
      && s'.conns == s.conns && s'.batches == s.batches && (s.cancelled ==> s'.cancelled)
      && (forall id :: Waiting(s', id) == Waiting(s, id) && Final(s', id) == Final(s, id))
      && (s'.phase.Sending? ==> s'.phase == s.phase) && (s'.phase.Closing? ==> s'.cancelled)
      && (s'.phase.Ended? ==> s'.phase == s.phase)
  {
  }

  // The client

  /** How many batches the client has taken off the runner connection. */
  function Taken(s: State): nat
    requires RUNNER in s.conns
  {
    if s.client.done then s.conns[RUNNER].next else s.client.read
  }

  /** Collected points and those of pending handlers are, as a multiset, the
      points of the batches taken off the connection; the same for errors. */
  ghost predicate ClientOk(s: State) {
    && RUNNER in s.conns
    && Taken(s) <= s.conns[RUNNER].next <= |s.batches|
    && (s.client.done ==> s.phase == Ended(true) && s.client.read == |s.conns[RUNNER].log|)
    && multiset(s.client.points) + multiset(AllPoints(s.client.handlers))
         == multiset(AllPoints(s.batches[..Taken(s)]))
    && multiset(s.client.errors) + multiset(AllErrors(s.client.handlers))
         == multiset(AllErrors(s.batches[..Taken(s)]))
  }

  lemma RunnerLog(s: State)
    requires ConnsOk(s)
    ensures var c := s.conns[RUNNER];
      c.next <= |s.batches| && c.log == StatsLog(s.batches[..c.next]) + Final(s, RUNNER)
  {
    assert ConnOk(s, RUNNER);
    assert s.batches[0..s.conns[RUNNER].next] == s.batches[..s.conns[RUNNER].next];
  }

  lemma TakeBalance(handlers: seq<Batch>, bs: seq<Batch>, n: nat, points: seq<DP>, errors: seq<TError>)
    requires n < |bs|
    requires multiset(points) + multiset(AllPoints(handlers)) == multiset(AllPoints(bs[..n]))
    requires multiset(errors) + multiset(AllErrors(handlers)) == multiset(AllErrors(bs[..n]))
    ensures multiset(points) + multiset(AllPoints(handlers + [bs[n]])) == multiset(AllPoints(bs[..n + 1]))
    ensures multiset(errors) + multiset(AllErrors(handlers + [bs[n]])) == multiset(AllErrors(bs[..n + 1]))
  {
    AllAppend(handlers, bs[n]);
    AllUpTo(bs, n);
    AddBoth(points, AllPoints(handlers), AllPoints(bs[..n]), bs[n].points);
    AddBoth(errors, AllErrors(handlers), AllErrors(bs[..n]), bs[n].errors);
  }

  lemma AllUpTo(bs: seq<Batch>, n: nat)
    requires n < |bs|
    ensures AllPoints(bs[..n + 1]) == AllPoints(bs[..n]) + bs[n].points
    ensures AllErrors(bs[..n + 1]) == AllErrors(bs[..n]) + bs[n].errors
  {
    assert bs[..n + 1] == bs[..n] + [bs[n]];
    AllAppend(bs[..n], bs[n]);
  }

  lemma AddBoth<T>(p: seq<T>, h: seq<T>, all: seq<T>, x: seq<T>)
    requires multiset(p) + multiset(h) == multiset(all)
    ensures multiset(p) + multiset(h + x) == multiset(all + x)
  {
  }

  lemma RunBalance(h: seq<Batch>, k: nat, points: seq<DP>, errors: seq<TError>)
    requires k < |h|
    ensures multiset(points + h[k].points) + multiset(AllPoints(h[..k] + h[k + 1..]))
         == multiset(points) + multiset(AllPoints(h))
    ensures multiset(errors + h[k].errors) + multiset(AllErrors(h[..k] + h[k + 1..]))
         == multiset(errors) + multiset(AllErrors(h))
  {
    var l, r := h[..k], h[k + 1..];
    TakenOut(h, k);
    MoveMiddle(points, h[k].points, AllPoints(l), AllPoints(r));
    MoveMiddle(errors, h[k].errors, AllErrors(l), AllErrors(r));
  }

  lemma TakenOut(h: seq<Batch>, k: nat)
    requires k < |h|
    ensures var l, r := h[..k], h[k + 1..];
      && AllPoints(h) == AllPoints(l) + h[k].points + AllPoints(r) && AllPoints(l + r) == AllPoints(l) + AllPoints(r)
      && AllErrors(h) == AllErrors(l) + h[k].errors + AllErrors(r) && AllErrors(l + r) == AllErrors(l) + AllErrors(r)
  {
    var l, r := h[..k], h[k + 1..];
    assert h == l + [h[k]] + r;
    AllInsert(l, h[k], r);
    AllConcat(l, r);
  }

  lemma MoveMiddle<T>(p: seq<T>, x: seq<T>, l: seq<T>, r: seq<T>)
    ensures multiset(p + x) + multiset(l + r) == multiset(p) + multiset(l + x + r)
  {
  }

  /** The next entry of the runner's log is the next batch, or the one Done. */
  lemma NextSignal(log: seq<Signal>, bs: seq<Batch>, final: seq<Signal>, n: nat)
    requires log == StatsLog(bs) + final && (final == [] || final == [Done]) && n < |log|
    ensures n < |bs| ==> log[n] == Stats(bs[n])
    ensures n >= |bs| ==> final == [Done] && log[n] == Done && n + 1 == |log|
  {
  }

  lemma ClientReadKeeps(s: State)
    requires ClientOk(s)
    requires s.conns[RUNNER].log == StatsLog(s.batches[..s.conns[RUNNER].next]) + Final(s, RUNNER)
    ensures ClientOk(Apply(s, ClientRead))
  {
    var n, c := s.client.read, s.conns[RUNNER];
    if n < |c.log| && !s.client.done {
      NextSignal(c.log, s.batches[..c.next], Final(s, RUNNER), n);
      if n < c.next {
        ClientTakes(s, Apply(s, ClientRead));
      } else {
        ClientReturns(s, Apply(s, ClientRead));
      }
    }
  }

  lemma ClientTakes(s: State, s': State)
    requires ClientOk(s) && !s.client.done && s.client.read < s.conns[RUNNER].next
    requires s'.conns == s.conns && s'.batches == s.batches
    requires var b := s.batches[s.client.read];
      s'.client == s.client.(read := s.client.read + 1, handlers := s.client.handlers + [b])
    ensures ClientOk(s')
  {
    TakeBalance(s.client.handlers, s.batches, s.client.read, s.client.points, s.client.errors);
  }

  lemma ClientReturns(s: State, s': State)
    requires ClientOk(s) && !s.client.done && s.client.read == s.conns[RUNNER].next
    requires s'.conns == s.conns && s'.batches == s.batches && s'.phase == s.phase == Ended(true)
    requires s'.client == s.client.(read := s.client.read + 1, done := true)
    requires s'.client.read == |s.conns[RUNNER].log|
    ensures ClientOk(s')
  {
  }

  lemma ClientHandleKeeps(s: State, k: nat)
    requires ClientOk(s)
    ensures ClientOk(Apply(s, ClientHandle(k)))
  {
    if k < |s.client.handlers| {
      HandlerRuns(s, k, Apply(s, ClientHandle(k)));
    }
  }

  lemma HandlerRuns(s: State, k: nat, s': State)
    requires ClientOk(s) && k < |s.client.handlers|
    requires s'.conns == s.conns && s'.batches == s.batches && s'.phase == s.phase
    requires s'.client.read == s.client.read && s'.client.done == s.client.done
    requires s'.client.handlers == s.client.handlers[..k] + s.client.handlers[k + 1..]
    requires s'.client.points == s.client.points + s.client.handlers[k].points
    requires s'.client.errors == s.client.errors + s.client.handlers[k].errors
    ensures ClientOk(s')
  {
    RunBalance(s.client.handlers, k, s.client.points, s.client.errors);
  }

  lemma ClientUntouched(s: State, a: Action)
    requires ConnsOk(s) && ClientOk(s) && !a.ClientRead? && !a.ClientHandle?
    ensures ClientOk(Apply(s, a))
  {
    RunnerLog(s);
    RunnerGrows(s, a);
    ClientSame(s, Apply(s, a));
  }

  lemma RunnerGrows(s: State, a: Action)
    requires ConnsOk(s) && !a.ClientRead? && !a.ClientHandle?
    ensures var s' := Apply(s, a);
      && RUNNER in s'.conns && s'.client == s.client && s.batches <= s'.batches
      && s.conns[RUNNER].next <= s'.conns[RUNNER].next <= |s'.batches|
      && (s.phase == Ended(true) ==> s'.conns[RUNNER] == s.conns[RUNNER] && s'.phase == s.phase)
  {
    assert ConnOk(s, RUNNER);
  }

  lemma ClientSame(s: State, s': State)
    requires ClientOk(s) && RUNNER in s'.conns && s'.client == s.client && s.batches <= s'.batches
    requires s.conns[RUNNER].next <= s'.conns[RUNNER].next <= |s'.batches|
    requires s.phase == Ended(true) ==> s'.conns[RUNNER] == s.conns[RUNNER] && s'.phase == s.phase
    ensures ClientOk(s')
  {
    assert s'.batches[..Taken(s)] == s.batches[..Taken(s)];
  }

  // Runs

  ghost predicate Faithful(s: State) {
    PointsOk(s) && ErrorsOk(s) && FileOk(s) && ConnsOk(s) && ClientOk(s)
  }

  lemma StartFaithful(save: bool)
    ensures Faithful(Start(save))
  {
    assert ConnOk(Start(save), RUNNER);
  }

  lemma ApplyFaithful(s: State, a: Action)
    requires Faithful(s)
    ensures Faithful(Apply(s, a))
  {
    PointsKept(s, a);
    ErrorsKept(s, a);
    FileKept(s, a);
    ConnsKept(s, a);
    match a
    case ClientRead =>
      RunnerLog(s);
      ClientReadKeeps(s);
    case ClientHandle(k) => ClientHandleKeeps(s, k);
    case _ => ClientUntouched(s, a);
  }

  lemma {:induction false} RunFaithful(s: State, acts: seq<Action>)
    requires Faithful(s)
    ensures Faithful(Exec(s, acts))
  {
    if acts != [] {
      RunFaithful(s, acts[..|acts| - 1]);
      ApplyFaithful(Exec(s, acts[..|acts| - 1]), acts[|acts| - 1]);
    }
  }

  // Theorems

  lemma {:induction false} FileHolds(bs: seq<Batch>)
    ensures PointsIn(FileOf(bs)) == AllPoints(bs) && ErrorsIn(FileOf(bs)) == AllErrors(bs)
  {
    if bs != [] {
      FileHolds(bs[..|bs| - 1]);
      InConcat(FileOf(bs[..|bs| - 1]), RecordsOf(bs[|bs| - 1]));
      BatchHolds(bs[|bs| - 1]);
    }
  }

  lemma BatchHolds(b: Batch)
    ensures PointsIn(RecordsOf(b)) == b.points && ErrorsIn(RecordsOf(b)) == b.errors
  {
    InConcat(PointRecords(b.points), ErrorRecords(b.errors));
    InPointRecords(b.points);
    InErrorRecords(b.errors);
    assert b.points + [] == b.points && [] + b.errors == b.errors;
  }

  lemma FileFacts(s: State)
    requires PointsOk(s) && ErrorsOk(s) && FileOk(s) && s.save && s.intact && !s.phase.Building?
    ensures PointsIn(s.file) == AllPoints(s.batches) && ErrorsIn(s.file) == AllErrors(s.batches)
    ensures s.produced == PointsIn(s.file) + s.dps
    ensures s.accepted == ErrorsIn(s.file) + s.errs.errors
  {
    FileHolds(s.batches);
    assert PointRecords([]) == [];
    assert FileOf(s.batches) + [] == FileOf(s.batches);
    assert AllPoints(s.batches) + [] == AllPoints(s.batches);
  }

  lemma {:induction false} SaveStays(s: State, acts: seq<Action>)
    ensures Exec(s, acts).save == s.save
  {
    if acts != [] {
      SaveStays(s, acts[..|acts| - 1]);
      SaveKept(Exec(s, acts[..|acts| - 1]), acts[|acts| - 1]);
    }
  }

  lemma SaveKept(s: State, a: Action)
    ensures Apply(s, a).save == s.save
  {
  }

  /** A write to the file fails in this step. */
  predicate WriteFails(s: State, a: Action) {
    s.save && ((a.CopyPoints? && s.phase.Harvesting? && !a.saved) || (a.TakeErrors? && s.phase.Building? && !a.saved))
  }

  /** No write to the file fails in the run. */
  predicate NoWriteFails(s: State, acts: seq<Action>) {
    acts == [] ||
      (NoWriteFails(s, acts[..|acts| - 1]) && !WriteFails(Exec(s, acts[..|acts| - 1]), acts[|acts| - 1]))
  }

  lemma IntactStep(s: State, a: Action)
    ensures Apply(s, a).intact == (s.intact && !WriteFails(s, a))
  {
  }

  /** The file is intact if and only if no write of the run has failed. */
  lemma {:induction false} IntactExactly(s: State, acts: seq<Action>)
    requires s.intact
    ensures Exec(s, acts).intact <==> NoWriteFails(s, acts)
  {
    if acts != [] {
      IntactExactly(s, acts[..|acts| - 1]);
      IntactStep(Exec(s, acts[..|acts| - 1]), acts[|acts| - 1]);
    }
  }

  /** In every run, between two flushes: the batches hold in order all points made
      and all errors accepted so far except those still pending; and if no write
      to the file has failed, the file holds in order what the batches hold. */
  lemma FileIsAllBatches(acts: seq<Action>)
    ensures var s := Exec(Start(true), acts);
      !s.phase.Building? ==>
        && s.produced == AllPoints(s.batches) + s.dps
        && s.accepted == AllErrors(s.batches) + s.errs.errors
        && (NoWriteFails(Start(true), acts) ==>
              PointsIn(s.file) == AllPoints(s.batches) && ErrorsIn(s.file) == AllErrors(s.batches))
  {
    StartFaithful(true);
    RunFaithful(Start(true), acts);
    SaveStays(Start(true), acts);
    IntactExactly(Start(true), acts);
    var s := Exec(Start(true), acts);
    if !s.phase.Building? {
      assert AllPoints(s.batches) + [] == AllPoints(s.batches);
      if s.intact {
        FileFacts(s);
      }
    }
  }

  /** In every run, errors stay in acceptance order, are flushed once, and no
      batch carries more than six. */
  lemma ErrorsAreConserved(save: bool, acts: seq<Action>)
    ensures var s := Exec(Start(save), acts);
      && s.accepted == AllErrors(s.batches) + s.errs.errors
      && |s.errs.errors| <= 6
      && (forall i :: 0 <= i < |s.batches| ==> |s.batches[i].errors| <= 6)
  {
    StartFaithful(save);
    RunFaithful(Start(save), acts);
    PendingErrorsBounded(Exec(Start(save), acts).errs);
  }

  /** One step of a follower: nothing, the next batch, a failed write that
      closes it for good, or the runner's Done. */
  lemma FollowerStep(s: State, a: Action, id: nat)
    requires ConnsOk(s) && id in s.conns
    ensures var s' := Apply(s, a);
      && id in s'.conns
      && var c, c' := s.conns[id], s'.conns[id];
      && c'.first == c.first
      && (!c.open ==> c' == c)
      && (c.open ==>
            || c' == c
            || (c'.log == c.log && c'.next == c.next && !c'.open)
            || (s.batches != [] && c'.log == c.log + [Stats(s.batches[|s.batches| - 1])] && c'.open)
            || (id == RUNNER && c'.log == c.log + [Done] && c'.open))
  {
    assert ConnOk(s, id);
  }

  lemma {:induction false} FollowerStays(s: State, acts: seq<Action>, id: nat)
    requires Faithful(s) && id in s.conns
    ensures id in Exec(s, acts).conns && Exec(s, acts).conns[id].first == s.conns[id].first
  {
    if acts != [] {
      var last := |acts| - 1;
      FollowerStays(s, acts[..last], id);
      RunFaithful(s, acts[..last]);
      FollowerStep(Exec(s, acts[..last]), acts[last], id);
    }
  }

  lemma ConnFacts(s: State, id: nat)
    requires ConnsOk(s) && id in s.conns
    ensures var c := s.conns[id];
      && c.first <= c.next <= |s.batches|
      && c.log == StatsLog(s.batches[c.first..c.next]) + Final(s, id)
      && (id != RUNNER ==> c.log == StatsLog(s.batches[c.first..c.next]))
      && (c.open ==> c.next + Waiting(s, id) == |s.batches|)
  {
    assert ConnOk(s, id);
    var log := StatsLog(s.batches[s.conns[id].first..s.conns[id].next]);
    assert log + [] == log;
  }

  lemma ListenStart(s: State, id: nat, seen: bool)
    requires id !in s.conns
    ensures var s' := Apply(s, Listen(id, seen));
      && id in s'.conns
      && (s'.conns[id].first == |s.batches| || (s.phase.Sending? && s'.conns[id].first + 1 == |s.batches|))
  {
  }

  /** A listener that registers after any run gets exactly the consecutive
      batches from its registration on: from the one being sent at that
      moment, or the next one, up to its first failed write, and all of them
      while no write has failed. */
  lemma ListenerGetsEverything(save: bool, before: seq<Action>, id: nat, seen: bool, after: seq<Action>)
    requires id !in Exec(Start(save), before).conns && id != RUNNER
    ensures var s := Exec(Start(save), before);
      var t := Exec(Apply(s, Listen(id, seen)), after);
      && id in t.conns
      && var c := t.conns[id];
      && (c.first == |s.batches| || (s.phase.Sending? && c.first + 1 == |s.batches|))
      && c.first <= c.next <= |t.batches|
      && c.log == StatsLog(t.batches[c.first..c.next])
      && (c.open && !t.phase.Sending? ==> c.next == |t.batches|)
  {
    var s := Exec(Start(save), before);
    StartFaithful(save);
    RunFaithful(Start(save), before);
    var s1 := Apply(s, Listen(id, seen));
    ListenStart(s, id, seen);
    ApplyFaithful(s, Listen(id, seen));
    RunFaithful(s1, after);
    FollowerStays(s1, after, id);
    ConnFacts(Exec(s1, after), id);
  }

  /** The runner's connection sees batches only, then one Done as its last
      signal; Done implies that the context is cancelled and that every batch
      of the test has been written before it. */
  lemma DoneIsLast(save: bool, acts: seq<Action>)
    ensures var s := Exec(Start(save), acts);
      && RUNNER in s.conns
      && var log := s.conns[RUNNER].log;
      && (Done !in log ==> exists n :: 0 <= n <= |s.batches| && log == StatsLog(s.batches[..n]))
      && (Done in log ==> s.cancelled && s.phase.Ended? && log == StatsLog(s.batches) + [Done])
  {
    StartFaithful(save);
    RunFaithful(Start(save), acts);
    var s := Exec(Start(save), acts);
    RunnerLog(s);
    assert s.batches[..|s.batches|] == s.batches;
    NoDoneInStats(s.batches[..s.conns[RUNNER].next]);
  }

  lemma NoDoneInStats(bs: seq<Batch>)
    ensures Done !in StatsLog(bs)
  {
    forall i | 0 <= i < |bs| ensures StatsLog(bs)[i] != Done {
    }
  }

  /** Once the client has returned on Done and its handlers have run, it holds
      exactly the points that the test made; and if no write to the file has
      failed, these are the points, and its errors the errors, of the file. */
  lemma ClientHoldsTheFile(acts: seq<Action>)
    ensures var s := Exec(Start(true), acts);
      s.client.done && s.client.handlers == [] ==>
        && multiset(s.client.points) == multiset(s.produced)
        && (NoWriteFails(Start(true), acts) ==>
              multiset(s.client.points) == multiset(PointsIn(s.file))
              && multiset(s.client.errors) == multiset(ErrorsIn(s.file)))
  {
    StartFaithful(true);
    RunFaithful(Start(true), acts);
    FileIsAllBatches(acts);
    var s := Exec(Start(true), acts);
    if s.client.done && s.client.handlers == [] {
      DoneClient(s);
      assert AllPoints(s.batches) + [] == AllPoints(s.batches);
    }
  }

  lemma DoneClient(s: State)
    requires Faithful(s) && s.client.done && s.client.handlers == []
    ensures multiset(s.client.points) == multiset(AllPoints(s.batches))
    ensures multiset(s.client.errors) == multiset(AllErrors(s.batches))
    ensures !s.phase.Building? && s.dps == []
  {
    assert s.batches[..|s.batches|] == s.batches;
  }
}
