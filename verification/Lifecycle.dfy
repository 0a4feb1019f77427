/** The client's connections: one handler per host, restarted after an error if
    configured, the done channel, and the counter of hosts doing work. */
module Lifecycle {
  import opened Folds

  /** A handler that dials and reads the server's greeting, that is about to
      announce itself on the done channel, that serves signals, that waits
      before it is started again, or that has finally exited. */
  datatype Host = Dialing | Announcing | Serving | Sleeping | Exited

  /** initializeClient: still counting, returned, or given up. */
  datatype Main = Counting | Ready | GaveUp

  /** announced is history: how often each host has announced itself. */
  datatype State = State(
    restart: bool, hosts: seq<Host>, buffered: nat, received: nat, hostsDoingWork: int,
    main: Main, cancelled: bool, announced: seq<nat>)

  datatype Action =
    | Connect(i: nat)
    | Announce(i: nat)              // the send on done, which blocks while the channel is full
    | Return(i: nat, failed: bool)  // the handler returns, with or without an error
    | Wake(i: nat)
    | Receive                       // initializeClient takes one announcement
    | GiveUp                        // its timeout, or the cancelled context
    | Cancel

  function Start(n: nat, restart: bool): State {
    State(restart, seq(n, i => Dialing), 0, 0, 0, Counting, false, seq(n, i => 0))
  }

  predicate At(s: State, i: nat, h: Host) {
    i < |s.hosts| && s.hosts[i] == h
  }

  function Apply(s: State, a: Action): State {
    match a
    case Connect(i) => if At(s, i, Dialing) then s.(hosts := s.hosts[i := Announcing]) else s
    case Announce(i) =>
      if At(s, i, Announcing) && s.buffered < |s.hosts| && i < |s.announced|
      then s.(hosts := s.hosts[i := Serving], buffered := s.buffered + 1,
              announced := s.announced[i := s.announced[i] + 1])
      else s
    case Return(i, failed) =>
      if At(s, i, Dialing) || At(s, i, Serving) then
        if !s.cancelled && s.restart && failed then s.(hosts := s.hosts[i := Sleeping])
        else s.(hosts := s.hosts[i := Exited], hostsDoingWork := s.hostsDoingWork - 1)
      else s
    case Wake(i) => if At(s, i, Sleeping) then s.(hosts := s.hosts[i := Dialing]) else s
    case Receive =>
      if s.main.Counting? && s.buffered > 0
      then s.(buffered := s.buffered - 1, received := s.received + 1, hostsDoingWork := s.hostsDoingWork + 1,
              main := if s.received + 1 == |s.hosts| then Ready else Counting)
      else s
    case GiveUp => if s.main.Counting? then s.(main := GaveUp) else s
    case Cancel => s.(cancelled := true)
  }

  function Exec(s: State, acts: seq<Action>): State {
    if acts == [] then s else Apply(Exec(s, acts[..|acts| - 1]), acts[|acts| - 1])
  }

  /** 1 for every host whose handler has not finally exited. */
  function LiveMarks(hosts: seq<Host>): seq<int> {
    Column(hosts, (h: Host) => if h.Exited? then 0 else 1)
  }

  function Live(hosts: seq<Host>): int {
    Fold(Add, LiveMarks(hosts))
  }

  function Announcements(s: State): int {
    Fold(Add, Column(s.announced, (k: nat) => k as int))
  }

  ghost predicate Inv(s: State) {
    && |s.announced| == |s.hosts|
    && s.buffered <= |s.hosts|
    && s.received + s.buffered == Announcements(s)
    && s.hostsDoingWork == s.received - (|s.hosts| - Live(s.hosts))
    && (s.main.Counting? ==> s.received < |s.hosts| || (|s.hosts| == 0 && s.received == 0))
    && (s.main.Ready? ==> s.received == |s.hosts| > 0)
  }

  lemma ReplaceHost(hosts: seq<Host>, i: nat, h: Host)
    requires i < |hosts|
    ensures Live(hosts[i := h])
         == Live(hosts) - (if hosts[i].Exited? then 0 else 1) + (if h.Exited? then 0 else 1)
  {
    var a, b := LiveMarks(hosts), LiveMarks(hosts[i := h]);
    FoldSplit(Add, a, i);
    FoldSplit(Add, b, i);
    assert a[i := 0] == b[i := 0];
  }

  lemma CountAnnouncement(announced: seq<nat>, i: nat)
    requires i < |announced|
    ensures Fold(Add, Column(announced[i := announced[i] + 1], (k: nat) => k as int))
         == Fold(Add, Column(announced, (k: nat) => k as int)) + 1
  {
    var g := (k: nat) => k as int;
    var a, b := Column(announced, g), Column(announced[i := announced[i] + 1], g);
    FoldSplit(Add, a, i);
    FoldSplit(Add, b, i);
    assert a[i := 0] == b[i := 0];
  }

  lemma MoveHostInv(s: State, i: nat, h: Host)
    requires Inv(s) && i < |s.hosts| && !s.hosts[i].Exited? && !h.Exited?
    ensures Inv(s.(hosts := s.hosts[i := h]))
  {
    ReplaceHost(s.hosts, i, h);
  }

  lemma ExitInv(s: State, i: nat)
    requires Inv(s) && i < |s.hosts| && !s.hosts[i].Exited?
    ensures Inv(s.(hosts := s.hosts[i := Exited], hostsDoingWork := s.hostsDoingWork - 1))
  {
    ReplaceHost(s.hosts, i, Exited);
  }

  lemma AnnounceInv(s: State, i: nat)
    requires Inv(s) && At(s, i, Announcing)
    ensures Inv(Apply(s, Announce(i)))
  {
    MoveHostInv(s, i, Serving);
    CountAnnouncement(s.announced, i);
  }

  lemma ReturnInv(s: State, i: nat, failed: bool)
    requires Inv(s)
    ensures Inv(Apply(s, Return(i, failed)))
  {
    if At(s, i, Dialing) || At(s, i, Serving) {
      MoveHostInv(s, i, Sleeping);
      ExitInv(s, i);
    }
  }

  lemma MainInv(s: State, a: Action)
    requires Inv(s) && (a.Receive? || a.GiveUp? || a.Cancel?)
    ensures Inv(Apply(s, a))
  {
  }

  lemma ApplyInv(s: State, a: Action)
    requires Inv(s)
    ensures Inv(Apply(s, a))
  {
    match a
    case Connect(i) =>
      if At(s, i, Dialing) {
        MoveHostInv(s, i, Announcing);
      }
    case Announce(i) =>
      if At(s, i, Announcing) {
        AnnounceInv(s, i);
      }
    case Return(i, failed) =>
      ReturnInv(s, i, failed);
    case Wake(i) =>
      if At(s, i, Sleeping) {
        MoveHostInv(s, i, Dialing);
      }
    case _ => MainInv(s, a);
  }

  lemma {:induction false} SameMarks(s: seq<int>, x: int)
    requires forall i :: 0 <= i < |s| ==> s[i] == x
    ensures Fold(Add, s) == x * |s|
  {
    if s != [] {
      SameMarks(s[1..], x);
      assert x * |s| == x + x * |s[1..]|;
    }
  }

  lemma StartInv(n: nat, restart: bool)
    ensures Inv(Start(n, restart))
  {
    var s := Start(n, restart);
    SameMarks(LiveMarks(s.hosts), 1);
    SameMarks(Column(s.announced, (k: nat) => k as int), 0);
  }

  lemma {:induction false} RunInv(s: State, acts: seq<Action>)
    requires Inv(s)
    ensures Inv(Exec(s, acts))
  {
    if acts != [] {
      RunInv(s, acts[..|acts| - 1]);
      ApplyInv(Exec(s, acts[..|acts| - 1]), acts[|acts| - 1]);
    }
  }

  lemma {:induction false} LiveRange(hosts: seq<Host>)
    ensures 0 <= Live(hosts) <= |hosts|
    ensures Live(hosts) == 0 <==> forall i :: 0 <= i < |hosts| ==> hosts[i] == Exited
  {
    if hosts != [] {
      LiveRange(hosts[1..]);
      assert LiveMarks(hosts)[1..] == LiveMarks(hosts[1..]);
      assert forall i :: 0 < i < |hosts| ==> hosts[i] == hosts[1..][i - 1];
    }
  }

  /** Once initializeClient has succeeded, the counter is the number of hosts
      whose handler has not finally exited, through any reconnections, drops
      and cancels; it is zero or less exactly when all of them have. */
  lemma CounterIsLiveHosts(n: nat, restart: bool, acts: seq<Action>)
    ensures var s := Exec(Start(n, restart), acts);
      s.main.Ready? ==>
        && s.hostsDoingWork == Live(s.hosts)
        && (s.hostsDoingWork <= 0 <==> forall i :: 0 <= i < |s.hosts| ==> s.hosts[i] == Exited)
  {
    StartInv(n, restart);
    RunInv(Start(n, restart), acts);
    LiveRange(Exec(Start(n, restart), acts).hosts);
  }

  lemma {:induction false} AtMostOnes(s: seq<nat>)
    requires forall i :: 0 <= i < |s| ==> s[i] <= 1
    ensures var sum := Fold(Add, Column(s, (k: nat) => k as int));
      sum <= |s| && (sum == |s| ==> forall i :: 0 <= i < |s| ==> s[i] == 1)
  {
    var g := (k: nat) => k as int;
    if s != [] {
      AtMostOnes(s[1..]);
      assert Column(s, g)[1..] == Column(s[1..], g);
      assert forall i :: 0 < i < |s| ==> s[i] == s[1..][i - 1];
    }
  }

  ghost predicate AnnouncedAtMostOnce(s: State) {
    forall i :: 0 <= i < |s.announced| ==> s.announced[i] <= 1
  }

  ghost predicate AllAnnouncedOnce(s: State) {
    forall i :: 0 <= i < |s.announced| ==> s.announced[i] == 1
  }

  /** When initializeClient succeeds, every host has connected exactly once with
      nothing left in the channel, if and only if no host has announced itself twice. */
  lemma ReadyMeansAnnouncedOnce(n: nat, restart: bool, acts: seq<Action>)
    ensures var s := Exec(Start(n, restart), acts);
      s.main.Ready? ==> (AnnouncedAtMostOnce(s) <==> AllAnnouncedOnce(s) && s.buffered == 0)
  {
    StartInv(n, restart);
    RunInv(Start(n, restart), acts);
    var s := Exec(Start(n, restart), acts);
    if AnnouncedAtMostOnce(s) {
      AtMostOnes(s.announced);
    }
  }

  // Without restarts

  /** A host that has not got to its announcement has made none. */
  ghost predicate OneLife(s: State) {
    && !s.restart && |s.announced| == |s.hosts|
    && forall i :: 0 <= i < |s.hosts| ==>
         s.announced[i] <= (if s.hosts[i].Dialing? || s.hosts[i].Announcing? then 0 else 1) && !s.hosts[i].Sleeping?
  }

  lemma ApplyOneLife(s: State, a: Action)
    requires OneLife(s)
    ensures OneLife(Apply(s, a))
  {
  }

  lemma {:induction false} RunOneLife(s: State, acts: seq<Action>)
    requires OneLife(s)
    ensures OneLife(Exec(s, acts))
  {
    if acts != [] {
      RunOneLife(s, acts[..|acts| - 1]);
      ApplyOneLife(Exec(s, acts[..|acts| - 1]), acts[|acts| - 1]);
    }
  }

  /** Without restarts, success means that every host has connected, exactly
      once, and that nothing is left in the channel. */
  lemma ReadyWithoutRestart(n: nat, acts: seq<Action>)
    ensures var s := Exec(Start(n, false), acts); s.main.Ready? ==> AllAnnouncedOnce(s) && s.buffered == 0
  {
    RunOneLife(Start(n, false), acts);
    ReadyMeansAnnouncedOnce(n, false, acts);
  }

  // With restarts

  lemma {:induction false} HostsStay(s: State, acts: seq<Action>)
    ensures |Exec(s, acts).hosts| == |s.hosts|
  {
    if acts != [] {
      HostsStay(s, acts[..|acts| - 1]);
    }
  }

  lemma {:induction false} ExecConcat(s: State, a: seq<Action>, b: seq<Action>)
    ensures Exec(s, a + b) == Exec(Exec(s, a), b)
    decreases |b|
  {
    if b == [] {
      assert a + b == a;
    } else {
      var last := |b| - 1;
      assert a + b == (a + b[..last]) + [b[last]];
      ExecConcat(s, a, b[..last]);
      ExecLast(s, a + b[..last], b[last]);
    }
  }

  lemma ExecLast(s: State, acts: seq<Action>, a: Action)
    ensures Exec(s, acts + [a]) == Apply(Exec(s, acts), a)
  {
    assert (acts + [a])[..|acts|] == acts;
  }

  /** Host 0 connects, announces itself, fails, and is dialing again. */
  function Cycle(): seq<Action> {
    [Connect(0), Announce(0), Return(0, true)] + [Wake(0)]
  }

  function Round(): seq<Action> {
    Cycle() + [Receive]
  }

  function Times(acts: seq<Action>, k: nat): seq<Action> {
    if k == 0 then [] else Times(acts, k - 1) + acts
  }

  /** All hosts are dialing, and only host 0 has ever announced itself. */
  function OnlyFirst(n: nat, received: nat, buffered: nat): State {
    State(true, seq(n, i => Dialing), buffered, received, received,
          if received == n > 0 then Ready else Counting, false,
          seq(n, i => if i == 0 then received + buffered else 0))
  }

  lemma OneCycle(n: nat, received: nat, buffered: nat)
    requires n > 0 && buffered < n
    ensures Exec(OnlyFirst(n, received, buffered), Cycle()) == OnlyFirst(n, received, buffered + 1)
  {
    var s, t := OnlyFirst(n, received, buffered), OnlyFirst(n, received, buffered + 1);
    var hosts := s.hosts;
    var s1 := Apply(s, Connect(0));
    var s2 := Apply(s1, Announce(0));
    var s3 := Apply(s2, Return(0, true));
    assert s1.hosts == hosts[0 := Announcing] && s2.hosts == hosts[0 := Serving] && s3.hosts == hosts[0 := Sleeping];
    assert s2.announced == t.announced;
    assert Apply(s3, Wake(0)).hosts == hosts;
    assert Cycle() == ([Connect(0)] + [Announce(0)] + [Return(0, true)]) + [Wake(0)];
    ExecLast(s, [], Connect(0));
    ExecLast(s, [Connect(0)], Announce(0));
    ExecLast(s, [Connect(0)] + [Announce(0)], Return(0, true));
    ExecLast(s, [Connect(0)] + [Announce(0)] + [Return(0, true)], Wake(0));
    assert [] + [Connect(0)] == [Connect(0)];
  }

  lemma OneRound(n: nat, received: nat)
    requires received < n
    ensures Exec(OnlyFirst(n, received, 0), Round()) == OnlyFirst(n, received + 1, 0)
  {
    OneCycle(n, received, 0);
    ExecLast(OnlyFirst(n, received, 0), Cycle(), Receive);
    assert OnlyFirst(n, received, 1).announced == OnlyFirst(n, received + 1, 0).announced;
  }

  lemma {:induction false} Rounds(n: nat, k: nat)
    requires k <= n
    ensures Exec(OnlyFirst(n, 0, 0), Times(Round(), k)) == OnlyFirst(n, k, 0)
  {
    if k > 0 {
      Rounds(n, k - 1);
      ExecConcat(OnlyFirst(n, 0, 0), Times(Round(), k - 1), Round());
      OneRound(n, k - 1);
    }
  }

  lemma {:induction false} Cycles(n: nat, k: nat)
    requires k <= n
    ensures Exec(OnlyFirst(n, n, 0), Times(Cycle(), k)) == OnlyFirst(n, n, k)
  {
    if k > 0 {
      Cycles(n, k - 1);
      ExecConcat(OnlyFirst(n, n, 0), Times(Cycle(), k - 1), Cycle());
      OneCycle(n, n, k - 1);
    }
  }

  lemma StartsWithFirst(n: nat)
    ensures Start(n, true) == OnlyFirst(n, 0, 0)
  {
    assert Start(n, true).hosts == OnlyFirst(n, 0, 0).hosts;
    assert Start(n, true).announced == OnlyFirst(n, 0, 0).announced;
  }

  /** A host that keeps dropping and reconnecting while the others are still
      dialing is counted for all of them: initializeClient succeeds with none of
      the others ever connected. */
  lemma ReadyTooEarly(n: nat) returns (acts: seq<Action>)
    requires n >= 1
    ensures var s := Exec(Start(n, true), acts);
      s.main.Ready? && |s.announced| == n && forall i :: 1 <= i < n ==> At(s, i, Dialing) && s.announced[i] == 0
  {
    acts := Times(Round(), n);
    StartsWithFirst(n);
    Rounds(n, n);
  }

  /** Host i is at its announcement, and the channel that nobody empties any more is full. */
  predicate Blocked(s: State, i: nat) {
    s.main.Ready? && s.buffered == |s.hosts| && At(s, i, Announcing)
  }

  /** After that, as many reconnections as hosts fill the channel, and the next
      one blocks. */
  lemma BlockedRun(n: nat) returns (acts: seq<Action>)
    requires n >= 1
    ensures Blocked(Exec(Start(n, true), acts), 0)
  {
    acts := Times(Round(), n) + Times(Cycle(), n) + [Connect(0)];
    StartsWithFirst(n);
    Rounds(n, n);
    Cycles(n, n);
    ExecConcat(Start(n, true), Times(Round(), n), Times(Cycle(), n));
    ExecLast(Start(n, true), Times(Round(), n) + Times(Cycle(), n), Connect(0));
  }

  // Exact conditions

  ghost predicate AllConnected(s: State) {
    forall i :: 0 <= i < |s.announced| ==> s.announced[i] >= 1
  }

  /** Whenever initializeClient has succeeded, every host has connected. */
  ghost predicate SuccessIsConnected(n: nat, restart: bool) {
    forall acts :: Exec(Start(n, restart), acts).main.Ready? ==> AllConnected(Exec(Start(n, restart), acts))
  }

  ghost predicate NeverBlocked(n: nat, restart: bool) {
    forall acts, i: nat :: !Blocked(Exec(Start(n, restart), acts), i)
  }

  lemma SingleHost(acts: seq<Action>, n: nat, restart: bool)
    requires n <= 1
    ensures var s := Exec(Start(n, restart), acts); s.main.Ready? ==> AllConnected(s)
  {
    StartInv(n, restart);
    RunInv(Start(n, restart), acts);
    HostsStay(Start(n, restart), acts);
    var s := Exec(Start(n, restart), acts);
    if s.main.Ready? {
      OnlyAnnouncements(s.announced);
    }
  }

  lemma OnlyAnnouncements(announced: seq<nat>)
    requires |announced| == 1
    ensures Fold(Add, Column(announced, (k: nat) => k as int)) == announced[0]
  {
    var c := Column(announced, (k: nat) => k as int);
    assert c == [announced[0] as int];
    FoldAppend(Add, [], announced[0]);
    assert [] + c == c;
  }

  /** Success means that every host has connected if and only if hosts are not
      restarted on errors, or there is at most one. */
  lemma SuccessIsConnectedExactly(n: nat, restart: bool)
    ensures SuccessIsConnected(n, restart) <==> !restart || n <= 1
  {
    if restart && n > 1 {
      var acts := ReadyTooEarly(n);
      assert Exec(Start(n, restart), acts).announced[1] == 0;
    } else {
      forall acts | Exec(Start(n, restart), acts).main.Ready?
        ensures AllConnected(Exec(Start(n, restart), acts))
      {
        if n <= 1 {
          SingleHost(acts, n, restart);
        } else {
          ReadyWithoutRestart(n, acts);
        }
      }
    }
  }

  /** No host ever blocks for good at its announcement if and only if hosts are
      not restarted on errors, or there are none. */
  lemma NeverBlockedExactly(n: nat, restart: bool)
    ensures NeverBlocked(n, restart) <==> !restart || n == 0
  {
    if restart && n > 0 {
      var acts := BlockedRun(n);
      assert Blocked(Exec(Start(n, restart), acts), 0);
    } else {
      forall acts, i: nat ensures !Blocked(Exec(Start(n, restart), acts), i) {
        HostsStay(Start(n, restart), acts);
        if n > 0 {
          ReadyWithoutRestart(n, acts);
        }
      }
    }
  }

  lemma BlockedStays(s: State, a: Action, i: nat)
    requires Blocked(s, i)
    ensures Blocked(Apply(s, a), i)
  {
  }

  lemma BlockedIsLive(s: State, i: nat)
    requires Inv(s) && Blocked(s, i)
    ensures s.hostsDoingWork > 0
  {
    LiveRange(s.hosts);
  }

  /** Nobody receives from the done channel after initializeClient has
      returned: once as many reconnections as hosts have filled it, a host that
      reconnects blocks for ever, and the counter never reaches zero again. */
  lemma {:induction false} FullChannelBlocks(s: State, acts: seq<Action>, i: nat)
    requires Inv(s) && Blocked(s, i)
    ensures Blocked(Exec(s, acts), i) && Exec(s, acts).hostsDoingWork > 0
  {
    if acts == [] {
      BlockedIsLive(s, i);
    } else {
      var t := Exec(s, acts[..|acts| - 1]);
      FullChannelBlocks(s, acts[..|acts| - 1], i);
      RunInv(s, acts[..|acts| - 1]);
      ApplyInv(t, acts[|acts| - 1]);
      BlockedStays(t, acts[|acts| - 1], i);
      BlockedIsLive(Apply(t, acts[|acts| - 1]), i);
    }
  }

  /** From the start of any client: a host that is ever blocked stays blocked,
      and the counter never lets the waiting loop finish. */
  lemma BlockedForGood(n: nat, restart: bool, before: seq<Action>, after: seq<Action>, i: nat)
    requires Blocked(Exec(Start(n, restart), before), i)
    ensures var s := Exec(Start(n, restart), before + after); Blocked(s, i) && s.hostsDoingWork > 0
  {
    StartInv(n, restart);
    RunInv(Start(n, restart), before);
    FullChannelBlocks(Exec(Start(n, restart), before), after, i);
    ExecConcat(Start(n, restart), before, after);
  }

  // After a cancel

  ghost predicate Asleep(s: State, i: nat) {
    At(s, i, Sleeping)
  }

  /** Once the context is cancelled, a handler that returns, for whatever reason
      and however it is configured, has exited for good and is no longer counted. */
  lemma ReturnAfterCancel(s: State, i: nat, failed: bool)
    requires s.cancelled && (At(s, i, Dialing) || At(s, i, Serving))
    ensures var s' := Apply(s, Return(i, failed)); At(s', i, Exited) && s'.hostsDoingWork == s.hostsDoingWork - 1
  {
  }

  /** Without a cancel it is put to sleep for a restart exactly if it failed and
      restarts are configured. */
  lemma ReturnBeforeCancel(s: State, i: nat, failed: bool)
    requires !s.cancelled && (At(s, i, Dialing) || At(s, i, Serving))
    ensures var s' := Apply(s, Return(i, failed));
      && (At(s', i, Sleeping) <==> s.restart && failed)
      && (At(s', i, Exited) <==> !(s.restart && failed))
      && s'.hostsDoingWork == s.hostsDoingWork - if s.restart && failed then 0 else 1
  {
  }

  lemma NoNewSleepers(s: State, a: Action, i: nat)
    requires s.cancelled && !Asleep(s, i)
    ensures Apply(s, a).cancelled && !Asleep(Apply(s, a), i)
  {
  }

  /** After Cancel, in no continuation is any host ever put to sleep for a restart again. */
  lemma {:induction false} CancelEndsRestarts(s: State, acts: seq<Action>, i: nat)
    requires !Asleep(s, i)
    ensures var t := Exec(Apply(s, Cancel), acts); t.cancelled && !Asleep(t, i)
  {
    if acts != [] {
      CancelEndsRestarts(s, acts[..|acts| - 1], i);
      NoNewSleepers(Exec(Apply(s, Cancel), acts[..|acts| - 1]), acts[|acts| - 1], i);
    }
  }

  /** Once initializeClient has given up, it never succeeds, and nothing is counted any more. */
  lemma {:induction false} GivenUpForGood(s: State, acts: seq<Action>)
    requires s.main.Counting?
    ensures var t := Exec(Apply(s, GiveUp), acts);
      t.main.GaveUp? && t.received == s.received && t.hostsDoingWork <= s.hostsDoingWork
  {
    if acts != [] {
      GivenUpForGood(s, acts[..|acts| - 1]);
    }
  }

  /** How far a cancelled client is from all handlers' exits. */
  function StepsLeft(h: Host): nat {
    match h
    case Sleeping => 2
    case Dialing => 1
    case Serving => 1
    case Announcing => 2
    case Exited => 0
  }

  /** After a cancel, every handler that is not stuck at a full channel can exit:
      a run of at most two steps of its own brings it to its end. */
  lemma CancelledHostExits(s: State, i: nat) returns (acts: seq<Action>)
    requires s.cancelled && i < |s.hosts| == |s.announced| && (s.hosts[i].Announcing? ==> s.buffered < |s.hosts|)
    ensures var t := Exec(s, acts);
      && At(t, i, Exited) && |acts| <= StepsLeft(s.hosts[i])
      && forall j :: 0 <= j < |s.hosts| && j != i ==> At(t, j, s.hosts[j])
  {
    match s.hosts[i]
    case Exited => acts := [];
    case Dialing =>
      acts := [Return(i, false)];
      ExecOne(s, Return(i, false));
    case Serving =>
      acts := [Return(i, false)];
      ExecOne(s, Return(i, false));
    case Sleeping =>
      acts := [Wake(i), Return(i, false)];
      ExecPair(s, Wake(i), Return(i, false));
    case Announcing =>
      acts := [Announce(i), Return(i, false)];
      ExecPair(s, Announce(i), Return(i, false));
  }

  lemma ExecOne(s: State, a: Action)
    ensures Exec(s, [a]) == Apply(s, a)
  {
    ExecLast(s, [], a);
    assert [] + [a] == [a];
  }

  lemma ExecPair(s: State, a: Action, b: Action)
    ensures Exec(s, [a, b]) == Apply(Apply(s, a), b)
  {
    ExecOne(s, a);
    ExecLast(s, [a], b);
    assert [a] + [b] == [a, b];
  }
}
