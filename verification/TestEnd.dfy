/** How a test ends: when its Done is sent, what a cancel still lets through, and
    that the delivering side can always be brought to its end. */
module TestEnd {
  import opened Records
  import opened Delivery
  import opened DeliveryRuns

  // Done

  /** A write to the runner's connection fails in this step. */
  predicate FailsToRunner(s: State, a: Action) {
    || (a.SendTo? && a.con == RUNNER && s.phase.Sending? && RUNNER in s.phase.todo && !a.ok)
    || (a.SendDone? && s.phase.Closing? && !a.ok)
  }

  /** No write to the runner's connection fails in the run. */
  predicate NoRunnerWriteFails(s: State, acts: seq<Action>) {
    acts == [] ||
      (NoRunnerWriteFails(s, acts[..|acts| - 1]) && !FailsToRunner(Exec(s, acts[..|acts| - 1]), acts[|acts| - 1]))
  }

  /** The runner's connection is open, and a test that has ended has sent Done
      over it, exactly if nothing has failed so far. */
  ghost predicate RunnerOk(s: State, unfailed: bool) {
    && RUNNER in s.conns
    && (s.conns[RUNNER].open <==> unfailed)
    && (s.phase.Ended? ==> (s.phase.doneSent <==> unfailed))
  }

  lemma RunnerStep(s: State, a: Action, unfailed: bool)
    requires ConnsOk(s) && RunnerOk(s, unfailed)
    ensures RunnerOk(Apply(s, a), unfailed && !FailsToRunner(s, a))
  {
    if a.SendTo? {
      RunnerSendStep(s, a, unfailed);
    } else if a.SendDone? {
      RunnerDoneStep(s, a, unfailed);
    } else {
      OtherRunnerStep(s, a);
    }
  }

  lemma RunnerSendStep(s: State, a: Action, unfailed: bool)
    requires ConnsOk(s) && RunnerOk(s, unfailed) && a.SendTo?
    ensures RunnerOk(Apply(s, a), unfailed && !FailsToRunner(s, a))
  {
    assert ConnOk(s, RUNNER);
  }

  lemma RunnerDoneStep(s: State, a: Action, unfailed: bool)
    requires ConnsOk(s) && RunnerOk(s, unfailed) && a.SendDone?
    ensures RunnerOk(Apply(s, a), unfailed && !FailsToRunner(s, a))
  {
  }

  lemma OtherRunnerStep(s: State, a: Action)
    requires RUNNER in s.conns && !a.SendTo? && !a.SendDone?
    ensures var s' := Apply(s, a);
      && RUNNER in s'.conns && s'.conns[RUNNER].open == s.conns[RUNNER].open
      && (s'.phase.Ended? ==> s'.phase == s.phase)
  {
  }

  lemma {:induction false} RunnerRun(s: State, acts: seq<Action>)
    requires Faithful(s) && RunnerOk(s, true)
    ensures RunnerOk(Exec(s, acts), NoRunnerWriteFails(s, acts))
  {
    if acts != [] {
      var init := acts[..|acts| - 1];
      RunnerRun(s, init);
      RunFaithful(s, init);
      RunnerStep(Exec(s, init), acts[|acts| - 1], NoRunnerWriteFails(s, init));
    }
  }

  lemma DoneInLog(s: State)
    requires ConnsOk(s)
    ensures var log := s.conns[RUNNER].log;
      && (Done in log <==> s.phase == Ended(true))
      && (Done in log ==> log == StatsLog(s.batches) + [Done])
  {
    RunnerLog(s);
    NoDoneInStats(s.batches[..s.conns[RUNNER].next]);
    assert s.batches[..|s.batches|] == s.batches;
  }

  /** In every run of a test that has ended, Done is in the runner's log, after
      every batch and as its last entry, if and only if no write to the runner
      has failed. While the test runs, the connection is open if and only if none
      has failed so far. */
  lemma DoneExactly(save: bool, acts: seq<Action>)
    ensures var s := Exec(Start(save), acts);
      && RUNNER in s.conns
      && var c := s.conns[RUNNER];
      && (c.open <==> NoRunnerWriteFails(Start(save), acts))
      && (s.phase.Ended? ==>
            && (Done in c.log <==> NoRunnerWriteFails(Start(save), acts))
            && (Done in c.log ==> c.log == StatsLog(s.batches) + [Done]))
  {
    StartFaithful(save);
    RunFaithful(Start(save), acts);
    RunnerRun(Start(save), acts);
    DoneInLog(Exec(Start(save), acts));
  }

  // After a cancel

  /** Whether the round under way still makes a batch. */
  function Due(s: State): nat {
    if s.phase.Harvesting? || s.phase.Building? then 1 else 0
  }

  lemma CancelledStep(s: State, a: Action)
    requires s.cancelled
    ensures var s' := Apply(s, a); s'.cancelled && |s'.batches| + Due(s') <= |s.batches| + Due(s)
  {
  }

  lemma {:induction false} CancelledRun(s: State, acts: seq<Action>)
    requires s.cancelled
    ensures var s' := Exec(s, acts); s'.cancelled && |s'.batches| + Due(s') <= |s.batches| + Due(s)
  {
    if acts != [] {
      CancelledRun(s, acts[..|acts| - 1]);
      CancelledStep(Exec(s, acts[..|acts| - 1]), acts[|acts| - 1]);
    }
  }

  /** After a cancel, however the run goes on, no round begins: at most the batch
      of the round under way is still made, and none if its errors are taken. */
  lemma CancelEndsRounds(s: State, after: seq<Action>)
    ensures var c := Apply(s, Cancel); var t := Exec(c, after);
      && c.cancelled && t.cancelled && c.batches == s.batches
      && |t.batches| <= |s.batches| + 1
      && (!s.phase.Harvesting? && !s.phase.Building? ==> |t.batches| <= |s.batches|)
  {
    CancelledRun(Apply(s, Cancel), after);
  }

  // Bringing a test to its end

  lemma {:induction false} ExecConcat(s: State, a: seq<Action>, b: seq<Action>)
    ensures Exec(s, a + b) == Exec(Exec(s, a), b)
    decreases |b|
  {
    if b == [] {
      assert a + b == a;
    } else {
      var init, last := b[..|b| - 1], b[|b| - 1];
      assert a + b == (a + init) + [last];
      ExecConcat(s, a, init);
      ExecLast(s, a + init, last);
      assert b == init + [last];
      ExecLast(Exec(s, a), init, last);
    }
  }

  lemma ExecLast(s: State, acts: seq<Action>, a: Action)
    ensures Exec(s, acts + [a]) == Apply(Exec(s, acts), a)
  {
    assert (acts + [a])[..|acts|] == acts;
  }

  lemma ExecFirst(s: State, a: Action, acts: seq<Action>)
    ensures Exec(s, [a] + acts) == Exec(Apply(s, a), acts)
  {
    ExecConcat(s, [a], acts);
    ExecLast(s, [], a);
    assert [] + [a] == [a];
  }

  /** Steps that neither readers, nor the clock, nor a cancel take part in, and
      after which the runner's connection is still open if it was. */
  predicate Orderly(a: Action) {
    || (a.TakeErrors? && a.saved) || (a.SendTo? && a.ok) || a.EndFlush? || (a.SendDone? && a.ok)
    || a.ClientRead? || a.ClientHandle?
  }

  ghost predicate AllOrderly(acts: seq<Action>) {
    forall k :: 0 <= k < |acts| ==> Orderly(acts[k])
  }

  /** A fan-out can be brought to its end, with every connection open at its
      start still open. */
  lemma {:induction false} FanOutEnds(s: State) returns (acts: seq<Action>)
    requires ConnsOk(s) && s.phase.Sending?
    ensures AllOrderly(acts)
    ensures var t := Exec(s, acts);
      && ConnsOk(t) && t == s.(phase := Looping, conns := t.conns)
      && RUNNER in t.conns && (s.conns[RUNNER].open ==> t.conns[RUNNER].open)
      && s.conns[RUNNER].log <= t.conns[RUNNER].log
    decreases |s.phase.todo|
  {
    if s.phase.todo == {} {
      acts := [EndFlush];
      ExecLast(s, [], EndFlush);
      assert [] + [EndFlush] == acts;
      ConnsKept(s, EndFlush);
    } else {
      var id :| id in s.phase.todo;
      SendStep(s, id);
      var rest := FanOutEnds(Apply(s, SendTo(id, true)));
      acts := SendFirst(s, id, rest);
    }
  }

  lemma SendFirst(s: State, id: nat, rest: seq<Action>) returns (acts: seq<Action>)
    requires AllOrderly(rest)
    ensures AllOrderly(acts) && Exec(s, acts) == Exec(Apply(s, SendTo(id, true)), rest)
  {
    acts := [SendTo(id, true)] + rest;
    ExecFirst(s, SendTo(id, true), rest);
  }

  lemma SendStep(s: State, id: nat)
    requires ConnsOk(s) && s.phase.Sending? && id in s.phase.todo
    ensures var s' := Apply(s, SendTo(id, true));
      && ConnsOk(s') && s' == s.(phase := Sending(s.phase.todo - {id}), conns := s'.conns)
      && RUNNER in s'.conns && (s.conns[RUNNER].open ==> s'.conns[RUNNER].open)
      && s.conns[RUNNER].log <= s'.conns[RUNNER].log
  {
    ConnsSendTo(s, id, true);
  }

  /** The client can read the runner's log to its end, which is the Done. */
  lemma {:induction false} ReadToDone(s: State) returns (acts: seq<Action>)
    requires ConnsOk(s) && ClientOk(s) && s.phase == Ended(true)
    ensures AllOrderly(acts)
    ensures var t := Exec(s, acts); ConnsOk(t) && ClientOk(t) && t.client.done && t == s.(client := t.client)
    decreases |s.conns[RUNNER].log| - s.client.read, !s.client.done
  {
    acts := [];
    if !s.client.done {
      ReadStep(s);
      var rest := ReadToDone(Apply(s, ClientRead));
      acts := ReadFirst(s, rest);
    }
  }

  lemma ReadFirst(s: State, rest: seq<Action>) returns (acts: seq<Action>)
    requires AllOrderly(rest)
    ensures AllOrderly(acts) && Exec(s, acts) == Exec(Apply(s, ClientRead), rest)
  {
    acts := [ClientRead] + rest;
    ExecFirst(s, ClientRead, rest);
  }

  /** A read takes one signal off the log, and changes nothing but the client. */
  lemma ReadShape(s: State)
    requires RUNNER in s.conns && s.client.read < |s.conns[RUNNER].log| && !s.client.done
    ensures var s' := Apply(s, ClientRead); s' == s.(client := s'.client) && s'.client.read == s.client.read + 1
  {
  }

  lemma SameConns(s: State, s': State)
    requires ConnsOk(s) && s' == s.(client := s'.client)
    ensures ConnsOk(s')
  {
    ConnsUntouched(s, s');
  }

  lemma ReadStep(s: State)
    requires ConnsOk(s) && ClientOk(s) && s.phase == Ended(true) && !s.client.done
    ensures var s' := Apply(s, ClientRead);
      && ConnsOk(s') && ClientOk(s') && s' == s.(client := s'.client)
      && s.client.read < |s.conns[RUNNER].log| && s'.client.read == s.client.read + 1
  {
    ReadBehindDone(s);
    ReadShape(s);
    SameConns(s, Apply(s, ClientRead));
    RunnerLog(s);
    ClientReadKeeps(s);
  }

  lemma ReadBehindDone(s: State)
    requires ConnsOk(s) && ClientOk(s) && s.phase == Ended(true) && !s.client.done
    ensures s.client.read < |s.conns[RUNNER].log|
  {
    DoneInLog(s);
    assert s.conns[RUNNER].next == |s.batches|;
    assert Done in StatsLog(s.batches) + [Done] by {
      assert (StatsLog(s.batches) + [Done])[|s.batches|] == Done;
    }
  }

  lemma {:induction false} HandlersRun(s: State) returns (acts: seq<Action>)
    ensures AllOrderly(acts)
    ensures var t := Exec(s, acts);
      t.client.handlers == [] && t.client.done == s.client.done && t == s.(client := t.client)
    decreases |s.client.handlers|
  {
    acts := [];
    if s.client.handlers != [] {
      var rest := HandlersRun(Apply(s, ClientHandle(0)));
      acts := [ClientHandle(0)] + rest;
      ExecFirst(s, ClientHandle(0), rest);
    }
  }

  lemma OrderlyConcat(a: seq<Action>, b: seq<Action>)
    requires AllOrderly(a) && AllOrderly(b)
    ensures AllOrderly(a + b)
  {
  }

  /** A test that has left its loop can be brought to its end, with the client
      back on Done and all its handlers run. */
  lemma ClosingEnds(s: State) returns (acts: seq<Action>)
    requires Faithful(s) && s.conns[RUNNER].open && (s.phase.Closing? || s.phase == Ended(true))
    ensures AllOrderly(acts)
    ensures var t := Exec(s, acts);
      && t.client.done && t.client.handlers == [] && t.phase == Ended(true)
      && t == s.(phase := t.phase, conns := t.conns, client := t.client)
  {
    if s.phase.Closing? {
      ApplyFaithful(s, SendDone(true));
      DoneStep(s);
      var rest := EndedEnds(Apply(s, SendDone(true)));
      acts := [SendDone(true)] + rest;
      ExecFirst(s, SendDone(true), rest);
    } else {
      acts := EndedEnds(s);
    }
  }

  lemma DoneStep(s: State)
    requires RUNNER in s.conns && s.conns[RUNNER].open && s.phase.Closing?
    ensures var s' := Apply(s, SendDone(true));
      s'.phase == Ended(true) && s' == s.(phase := s'.phase, conns := s'.conns)
  {
  }

  lemma EndedEnds(s: State) returns (acts: seq<Action>)
    requires Faithful(s) && s.phase == Ended(true)
    ensures AllOrderly(acts)
    ensures var t := Exec(s, acts); t.client.done && t.client.handlers == [] && t == s.(client := t.client)
  {
    var first := ReadToDone(s);
    var second := HandlersRun(Exec(s, first));
    acts := first + second;
    OrderlyConcat(first, second);
    ExecConcat(s, first, second);
  }
}
