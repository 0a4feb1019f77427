/** The concurrency tokens of one reader: who can hold them, and what that
    says about the requests in flight and about work after a cancel. */
module Tokens {
  import opened Folds
  import opened Engine

  /** The ids 1 to n, each once. */
  function Ids(n: nat): multiset<int> {
    if n == 0 then multiset{} else Ids(n - 1) + multiset{n}
  }

  lemma {:induction false} IdsAreOneToN(n: nat, x: int)
    ensures Ids(n)[x] == if 1 <= x <= n then 1 else 0
    ensures |Ids(n)| == n
  {
    if n > 0 {
      IdsAreOneToN(n - 1, x);
    }
  }

  function Cids(senders: seq<Sender>): seq<int> {
    Column(senders, (s: Sender) => s.cid)
  }

  function Held(r: Reader): multiset<int> {
    if r.held.Some? then multiset{r.held.value} else multiset{}
  }

  /** Channel, dispatcher and live senders partition the ids 1 to n. */
  ghost predicate Partition(r: Reader, n: nat) {
    multiset(r.channel) + Held(r) + multiset(Cids(r.senders)) == Ids(n)
  }

  lemma {:induction false} NewChannelHasAll(n: nat)
    ensures multiset(seq(n, i => i + 1)) == Ids(n)
  {
    if n > 0 {
      NewChannelHasAll(n - 1);
      assert seq(n, i => i + 1) == seq(n - 1, i => i + 1) + [n];
    }
  }

  lemma NewReaderPartitions(addr: string, n: nat, limit: Option<nat>)
    ensures Partition(NewReader(addr, n, limit), n)
  {
    NewChannelHasAll(n);
  }

  lemma DropSenderKeeps(r: Reader, k: nat, n: nat)
    requires Partition(r, n)
    ensures Partition(DropSender(r, k), n)
  {
    if k < |r.senders| {
      CidsWithout(r.senders, k);
      MoveToken(r.channel, Held(r), Cids(r.senders[..k]), r.senders[k].cid, Cids(r.senders[k + 1..]));
    }
  }

  lemma CidsWithout(senders: seq<Sender>, k: nat)
    requires k < |senders|
    ensures Cids(senders) == Cids(senders[..k]) + [senders[k].cid] + Cids(senders[k + 1..])
    ensures Cids(senders[..k] + senders[k + 1..]) == Cids(senders[..k]) + Cids(senders[k + 1..])
  {
  }

  lemma MoveToken(channel: seq<int>, held: multiset<int>, l: seq<int>, x: int, m: seq<int>)
    ensures multiset(channel + [x]) + held + multiset(l + m) == multiset(channel) + held + multiset(l + [x] + m)
  {
  }

  lemma MoveSenderKeeps(r: Reader, k: nat, from: Stage, to: Stage)
    ensures Cids(MoveSender(r, k, from, to).senders) == Cids(r.senders)
  {
  }

  lemma TakeKeeps(r: Reader, n: nat)
    requires Partition(r, n) && r.held.None? && r.channel != []
    ensures Partition(r.(held := Some(r.channel[0]), channel := r.channel[1..]), n)
  {
    assert r.channel == [r.channel[0]] + r.channel[1..];
    assert multiset(r.channel) == multiset{r.channel[0]} + multiset(r.channel[1..]);
  }

  lemma SpawnKeeps(r: Reader, n: nat)
    requires Partition(r, n) && r.held.Some?
    ensures Partition(r.(held := None, senders := r.senders + [Sender(r.held.value, Waiting)]), n)
  {
    ColumnConcat(r.senders, [Sender(r.held.value, Waiting)], (s: Sender) => s.cid);
    assert Cids([Sender(r.held.value, Waiting)]) == [r.held.value];
  }

  lemma MovedPartition(r: Reader, k: nat, from: Stage, to: Stage, r': Reader, n: nat)
    requires Partition(r, n)
    requires r'.senders == MoveSender(r, k, from, to).senders && r'.channel == r.channel && r'.held == r.held
    ensures Partition(r', n)
  {
    MoveSenderKeeps(r, k, from, to);
  }

  lemma DispatcherKeepsPartition(r: Reader, cancelled: bool, a: ReaderAction, n: nat)
    requires Partition(r, n) && (a.Take? || a.Spawn? || a.StopDispatch?)
    ensures Partition(StepReader(r, cancelled, a), n)
  {
    if a.Take? && r.dispatching && r.held.None? && r.channel != [] {
      TakeKeeps(r, n);
    } else if a.Spawn? && r.held.Some? {
      SpawnKeeps(r, n);
    } else {
      SamePartition(r, StepReader(r, cancelled, a), n);
    }
  }

  lemma CheckKeepsPartition(r: Reader, cancelled: bool, k: nat, n: nat)
    requires Partition(r, n)
    ensures Partition(StepReader(r, cancelled, Check(k)), n)
  {
    if cancelled {
      DropSenderKeeps(r, k, n);
    } else {
      MovedPartition(r, k, Waiting, Checked, StepReader(r, cancelled, Check(k)), n);
    }
  }

  lemma SendKeepsPartition(r: Reader, cancelled: bool, k: nat, n: nat)
    requires Partition(r, n)
    ensures Partition(StepReader(r, cancelled, Send(k)), n)
  {
    MovedPartition(r, k, Checked, Sent, StepReader(r, cancelled, Send(k)), n);
  }

  lemma AnswerKeepsPartition(r: Reader, cancelled: bool, k: nat, done: Micros, n: nat)
    requires Partition(r, n)
    ensures Partition(StepReader(r, cancelled, Answer(k, done)), n)
  {
    if r.section.Free? {
      MovedPartition(r, k, Sent, Draining, StepReader(r, cancelled, Answer(k, done)), n);
    }
  }

  /** What body readers do has nothing to do with tokens. */
  lemma ReadersKeepTokens(r: Reader, cancelled: bool, a: ReaderAction)
    requires a.Read? || a.Advance? || a.Count?
    ensures var r' := StepReader(r, cancelled, a);
      r'.channel == r.channel && r'.held == r.held && r'.senders == r.senders
  {
  }

  /** The whole token protocol, for every interleaving of dispatcher, senders
      and body readers: each exit of a sender puts back exactly its token. */
  lemma PartitionKept(r: Reader, cancelled: bool, a: ReaderAction, n: nat)
    requires Partition(r, n)
    ensures Partition(StepReader(r, cancelled, a), n)
  {
    if a.Take? || a.Spawn? || a.StopDispatch? {
      DispatcherKeepsPartition(r, cancelled, a, n);
    } else if a.Check? {
      CheckKeepsPartition(r, cancelled, a.k, n);
    } else if a.Send? {
      SendKeepsPartition(r, cancelled, a.k, n);
    } else if a.Answer? {
      AnswerKeepsPartition(r, cancelled, a.k, a.done, n);
    } else if a.Leave? {
      DropSenderKeeps(r, a.k, n);
    } else {
      ReadersKeepTokens(r, cancelled, a);
      SamePartition(r, StepReader(r, cancelled, a), n);
    }
  }

  lemma SamePartition(r: Reader, r': Reader, n: nat)
    requires Partition(r, n) && r'.channel == r.channel && r'.held == r.held && r'.senders == r.senders
    ensures Partition(r', n)
  {
  }

  /** What the partition promises: at most n requests at once, no id twice,
      and room in the channel (capacity n) for every live sender's deferred send. */
  lemma PartitionBounds(r: Reader, n: nat)
    requires Partition(r, n)
    ensures |r.senders| <= n
    ensures r.senders != [] || r.held.Some? ==> |r.channel| < n
    ensures forall i, j :: 0 <= i < j < |r.senders| ==> r.senders[i].cid != r.senders[j].cid
    ensures forall i :: 0 <= i < |r.senders| ==> 1 <= r.senders[i].cid <= n && r.senders[i].cid !in r.channel
  {
    IdsAreOneToN(n, 0);
    var cids := Cids(r.senders);
    assert |multiset(r.channel) + Held(r) + multiset(cids)| == n;
    forall i, j | 0 <= i < j < |r.senders| ensures r.senders[i].cid != r.senders[j].cid {
      IdsAreOneToN(n, cids[i]);
      assert cids == cids[..i] + [cids[i]] + cids[i + 1..];
      assert cids[j] in cids[i + 1..];
    }
    forall i | 0 <= i < |r.senders| ensures 1 <= r.senders[i].cid <= n && r.senders[i].cid !in r.channel {
      IdsAreOneToN(n, cids[i]);
      assert cids[i] in multiset(cids);
    }
  }

  /** Senders that have passed the context check and not yet counted their request. */
  function PastCheck(senders: seq<Sender>): seq<int> {
    Column(senders, (s: Sender) => if s.stage.Checked? then 1 else 0)
  }

  function MayStillSend(r: Reader): int {
    Fold(Add, PastCheck(r.senders))
  }

  lemma {:induction false} MayStillSendBound(senders: seq<Sender>)
    ensures 0 <= Fold(Add, PastCheck(senders)) <= |senders|
  {
    if senders != [] {
      MayStillSendBound(senders[1..]);
      assert PastCheck(senders)[1..] == PastCheck(senders[1..]);
    }
  }

  lemma DropSenderSends(r: Reader, k: nat)
    ensures MayStillSend(DropSender(r, k)) <= MayStillSend(r)
  {
    if k < |r.senders| {
      var g := (s: Sender) => if s.stage.Checked? then 1 else 0;
      var l, m := r.senders[..k], r.senders[k + 1..];
      assert r.senders == l + ([r.senders[k]] + m);
      ColumnConcat(l, [r.senders[k]] + m, g);
      ColumnConcat([r.senders[k]], m, g);
      ColumnConcat(l, m, g);
      FoldConcat(Add, PastCheck(l), PastCheck([r.senders[k]]) + PastCheck(m));
      FoldConcat(Add, PastCheck([r.senders[k]]), PastCheck(m));
      FoldConcat(Add, PastCheck(l), PastCheck(m));
      MayStillSendBound([r.senders[k]]);
    }
  }

  lemma MoveSenderSends(r: Reader, k: nat, from: Stage, to: Stage)
    requires k < |r.senders| && r.senders[k].stage == from
    ensures MayStillSend(MoveSender(r, k, from, to))
         == MayStillSend(r) - (if from.Checked? then 1 else 0) + (if to.Checked? then 1 else 0)
  {
    var p, q := PastCheck(r.senders), PastCheck(MoveSender(r, k, from, to).senders);
    FoldSplit(Add, p, k);
    FoldSplit(Add, q, k);
    assert p[k := 0] == q[k := 0];
  }

  /** Once the test is cancelled, a request is only ever counted by a sender
      that was already past its context check. */
  lemma SendsAfterCancel(r: Reader, a: ReaderAction)
    ensures var r' := StepReader(r, true, a);
      r.txCount <= r'.txCount && r'.txCount + MayStillSend(r') <= r.txCount + MayStillSend(r)
  {
    match a
    case Spawn =>
      if r.held.Some? {
        var g := (s: Sender) => if s.stage.Checked? then 1 else 0;
        ColumnConcat(r.senders, [Sender(r.held.value, Waiting)], g);
        FoldConcat(Add, PastCheck(r.senders), PastCheck([Sender(r.held.value, Waiting)]));
        assert PastCheck([Sender(r.held.value, Waiting)]) == [0];
      }
    case Check(k) => DropSenderSends(r, k);
    case Send(k) =>
      if k < |r.senders| && r.senders[k].stage == Checked {
        MoveSenderSends(r, k, Checked, Sent);
      }
    case Answer(k, done) =>
      if k < |r.senders| && r.senders[k].stage == Sent {
        MoveSenderSends(r, k, Sent, Draining);
      }
    case Leave(k) => DropSenderSends(r, k);
    case _ =>
  }

  // Until all tokens are back

  lemma {:induction false} StepsConcat(r: Reader, cancelled: bool, a: seq<ReaderAction>, b: seq<ReaderAction>)
    ensures Steps(r, cancelled, a + b) == Steps(Steps(r, cancelled, a), cancelled, b)
    decreases |b|
  {
    if b == [] {
      assert a + b == a;
    } else {
      var init, last := b[..|b| - 1], b[|b| - 1];
      assert (a + b)[..|a + b| - 1] == a + init && (a + b)[|a + b| - 1] == last;
      StepsConcat(r, cancelled, a, init);
    }
  }

  lemma StepsOne(r: Reader, cancelled: bool, a: ReaderAction)
    ensures Steps(r, cancelled, [a]) == StepReader(r, cancelled, a)
  {
    assert [a][..0] == [];
  }

  lemma {:induction false} StepsKeepPartition(r: Reader, cancelled: bool, acts: seq<ReaderAction>, n: nat)
    requires Partition(r, n)
    ensures Partition(Steps(r, cancelled, acts), n)
  {
    if acts != [] {
      StepsKeepPartition(r, cancelled, acts[..|acts| - 1], n);
      PartitionKept(Steps(r, cancelled, acts[..|acts| - 1]), cancelled, acts[|acts| - 1], n);
    }
  }

  lemma {:induction false} SendersLeave(r: Reader, cancelled: bool) returns (acts: seq<ReaderAction>)
    ensures var t := Steps(r, cancelled, acts);
      t.senders == [] && t.held == r.held && t.dispatching == r.dispatching && t.txCount == r.txCount
    decreases |r.senders|
  {
    acts := [];
    if r.senders != [] {
      var rest := SendersLeave(StepReader(r, cancelled, Leave(0)), cancelled);
      StepsOne(r, cancelled, Leave(0));
      StepsConcat(r, cancelled, [Leave(0)], rest);
      acts := [Leave(0)] + rest;
    }
  }

  /** After a cancel a reader can come to rest, without another request: its
      dispatcher stopped, no sender left, and every token back in its channel. */
  lemma TokensComeBack(r: Reader, n: nat) returns (acts: seq<ReaderAction>)
    requires Partition(r, n)
    ensures var t := Steps(r, true, acts);
      t.senders == [] && t.held.None? && !t.dispatching && multiset(t.channel) == Ids(n) && t.txCount == r.txCount
  {
    var r1 := StepReader(r, true, Spawn);
    var r2 := StepReader(r1, true, StopDispatch);
    StepsOne(r, true, Spawn);
    StepsOne(r1, true, StopDispatch);
    StepsConcat(r, true, [Spawn], [StopDispatch]);
    var rest := SendersLeave(r2, true);
    acts := [Spawn] + [StopDispatch] + rest;
    StepsConcat(r, true, [Spawn] + [StopDispatch], rest);
    StepsKeepPartition(r, true, acts, n);
    var t := Steps(r, true, acts);
    assert Cids(t.senders) == [];
    assert multiset(t.channel) == multiset(t.channel) + Held(t) + multiset(Cids(t.senders));
  }

  /** A dispatcher that has stopped never takes a token again. */
  lemma StoppedForGood(r: Reader, cancelled: bool, a: ReaderAction)
    requires !r.dispatching && r.held.None?
    ensures var r' := StepReader(r, cancelled, a);
      !r'.dispatching && r'.held.None? && |r'.senders| <= |r.senders| && |r.channel| <= |r'.channel|
  {
  }

  /** A dispatcher stops only for a cancelled context, with no token in its hands. */
  lemma StopsOnlyCancelled(r: Reader, cancelled: bool, a: ReaderAction)
    requires r.dispatching && !StepReader(r, cancelled, a).dispatching
    ensures cancelled && StepReader(r, cancelled, a).held.None?
  {
  }
}
