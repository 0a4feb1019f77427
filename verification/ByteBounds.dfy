/** In a request test a body puts out at most PayloadSize bytes. So the client's
    TXT is at most PayloadSize times the requests sent, and while no counter can
    have wrapped, the byte accounting is exact. */
module ByteBounds {
  import opened Folds
  import opened Records
  import opened Engine
  import opened Measurement

  /** The bytes that the bodies of all requests to one host have put out. */
  function PutOut(bodies: seq<Body>): int {
    Fold(Add, Column(bodies, (b: Body) => b.pos))
  }

  function AllPutOut(readers: seq<Reader>): int {
    Fold(Add, Column(readers, (r: Reader) => PutOut(r.bodies)))
  }

  /** The requests sent to all hosts. */
  function Requests(readers: seq<Reader>): int {
    Fold(Add, Column(readers, (r: Reader) => r.txCount))
  }

  ghost predicate BodiesOk(r: Reader, limit: Option<nat>) {
    && r.limit == limit && |r.bodies| == r.txCount
    && (limit.Some? ==> forall b :: 0 <= b < |r.bodies| ==> r.bodies[b].pos <= limit.value)
  }

  /** Bytes in points, in the point being made, and in the readers' counters. */
  function Reported(s: State): int {
    Fold(Add, Bytes(s.produced)) + InHarvest(s.harvest) + Fold(Add, Residues(s.readers))
  }

  ghost predicate Bounded(s: State) {
    && (forall i :: 0 <= i < |s.readers| ==> BodiesOk(s.readers[i], Limit(s.config)))
    && s.counted == AllPutOut(s.readers)
    && Reported(s) <= s.counted
  }

  // One reader

  lemma PutOutUpdate(bodies: seq<Body>, b: nat, x: Body)
    requires b < |bodies|
    ensures PutOut(bodies[b := x]) == PutOut(bodies) - bodies[b].pos + x.pos
  {
    var c, d := Column(bodies, (b: Body) => b.pos), Column(bodies[b := x], (b: Body) => b.pos);
    FoldSplit(Add, c, b);
    FoldSplit(Add, d, b);
    assert c[b := 0] == d[b := 0];
  }

  lemma PutOutAppend(bodies: seq<Body>, x: Body)
    ensures PutOut(bodies + [x]) == PutOut(bodies) + x.pos
  {
    var c := Column(bodies, (b: Body) => b.pos);
    assert Column(bodies + [x], (b: Body) => b.pos) == c + [x.pos as int];
    FoldAppend(Add, c, x.pos);
  }

  lemma ReaderPutsOut(r: Reader, cancelled: bool, a: ReaderAction, limit: Option<nat>)
    requires BodiesOk(r, limit)
    ensures var r' := StepReader(r, cancelled, a);
      BodiesOk(r', limit) && PutOut(r'.bodies) == PutOut(r.bodies) + if Counts(r, a) then a.n else 0
  {
    match a
    case Read(b, since) =>
      if b < |r.bodies| {
        PutOutUpdate(r.bodies, b, Body(true, r.bodies[b].pos));
      }
    case Count(b, n) =>
      if Counts(r, a) {
        PutOutUpdate(r.bodies, b, Body(true, r.bodies[b].pos + n));
      }
    case Send(k) => PutOutAppend(r.bodies, Body(false, 0));
    case _ =>
  }

  lemma {:induction false} PutOutIsBounded(bodies: seq<Body>, limit: nat)
    requires forall b :: 0 <= b < |bodies| ==> bodies[b].pos <= limit
    ensures PutOut(bodies) <= limit * |bodies|
  {
    if bodies != [] {
      var c := Column(bodies, (b: Body) => b.pos);
      assert c[1..] == Column(bodies[1..], (b: Body) => b.pos);
      PutOutIsBounded(bodies[1..], limit);
      assert limit * |bodies| == limit + limit * |bodies[1..]|;
    }
  }

  lemma {:induction false} AllPutOutIsBounded(readers: seq<Reader>, limit: nat)
    requires forall i :: 0 <= i < |readers| ==> BodiesOk(readers[i], Some(limit))
    ensures AllPutOut(readers) <= limit * Requests(readers)
  {
    if readers != [] {
      var r := readers[0];
      PutOutIsBounded(r.bodies, limit);
      AllPutOutIsBounded(readers[1..], limit);
      var c, d := Column(readers, (r: Reader) => PutOut(r.bodies)), Column(readers, (r: Reader) => r.txCount);
      assert c[1..] == Column(readers[1..], (r: Reader) => PutOut(r.bodies));
      assert d[1..] == Column(readers[1..], (r: Reader) => r.txCount);
      assert Requests(readers) == r.txCount + Requests(readers[1..]);
      assert limit * Requests(readers) == limit * r.txCount + limit * Requests(readers[1..]);
    }
  }

  // One server

  lemma AllPutOutUpdate(readers: seq<Reader>, i: nat, r: Reader)
    requires i < |readers|
    ensures AllPutOut(readers[i := r]) == AllPutOut(readers) - PutOut(readers[i].bodies) + PutOut(r.bodies)
  {
    var c := Column(readers, (r: Reader) => PutOut(r.bodies));
    var d := Column(readers[i := r], (r: Reader) => PutOut(r.bodies));
    FoldSplit(Add, c, i);
    FoldSplit(Add, d, i);
    assert c[i := 0] == d[i := 0];
  }

  lemma SameBodies(readers: seq<Reader>, readers': seq<Reader>)
    requires |readers'| == |readers| && forall i :: 0 <= i < |readers| ==> readers'[i].bodies == readers[i].bodies
    ensures AllPutOut(readers') == AllPutOut(readers)
  {
    assert Column(readers', (r: Reader) => PutOut(r.bodies)) == Column(readers, (r: Reader) => PutOut(r.bodies));
  }

  lemma ResiduesUpdate(readers: seq<Reader>, i: nat, r: Reader)
    requires i < |readers|
    ensures Fold(Add, Residues(readers[i := r])) == Fold(Add, Residues(readers)) - readers[i].tx + r.tx
  {
    var c, d := Residues(readers), Residues(readers[i := r]);
    FoldSplit(Add, c, i);
    FoldSplit(Add, d, i);
    assert c[i := 0] == d[i := 0];
  }

  lemma TxGrows(r: Reader, cancelled: bool, a: ReaderAction)
    ensures StepReader(r, cancelled, a).tx <= r.tx + if Counts(r, a) then a.n else 0
  {
    if Counts(r, a) {
      WrapIsLess(r.tx + a.n);
    }
  }

  lemma WrapIsLess(x: nat)
    ensures Wrap(x) <= x
  {
  }

  lemma ReaderBounded(s: State, i: nat, ra: ReaderAction)
    requires Bounded(s) && i < |s.readers|
    ensures Bounded(Apply(s, OnReader(i, ra)))
  {
    var r, r' := s.readers[i], StepReader(s.readers[i], s.cancelled, ra);
    ReaderPutsOut(r, s.cancelled, ra, Limit(s.config));
    TxGrows(r, s.cancelled, ra);
    AllPutOutUpdate(s.readers, i, r');
    ResiduesUpdate(s.readers, i, r');
  }

  lemma SwapBounded(s: State)
    requires Bounded(s) && s.harvest.Swapping? && s.harvest.ri < |s.readers|
    ensures Bounded(Apply(s, Swap))
  {
    var i := s.harvest.ri;
    ResiduesUpdate(s.readers, i, s.readers[i].(tx := 0));
    SameBodies(s.readers, Apply(s, Swap).readers);
  }

  lemma ResetBounded(s: State, env: Env)
    requires Bounded(s) && CanReset(s)
    ensures Bounded(Apply(s, Reset(env)))
  {
    var i := s.harvest.ri;
    ResiduesUpdate(s.readers, i, Cleared(s.readers[i]));
    SameBodies(s.readers, Apply(s, Reset(env)).readers);
    assert Bytes(s.produced + [ResetPoint(s, env)]) == Bytes(s.produced) + [s.harvest.swapped as int];
    FoldAppend(Add, Bytes(s.produced), s.harvest.swapped);
  }

  /** Other steps leave bytes, bodies and points as they are. */
  lemma SameBounded(s: State, s': State)
    requires Bounded(s) && |s'.readers| == |s.readers| && s'.produced == s.produced && s'.counted == s.counted
    requires s'.config == s.config && InHarvest(s'.harvest) == InHarvest(s.harvest)
    requires forall i :: 0 <= i < |s.readers| ==>
      && s'.readers[i].bodies == s.readers[i].bodies && s'.readers[i].tx == s.readers[i].tx
      && s'.readers[i].limit == s.readers[i].limit && s'.readers[i].txCount == s.readers[i].txCount
    ensures Bounded(s')
  {
    SameBodies(s.readers, s'.readers);
    assert Residues(s'.readers) == Residues(s.readers);
    forall i | 0 <= i < |s'.readers| ensures BodiesOk(s'.readers[i], Limit(s'.config)) {
      assert BodiesOk(s.readers[i], Limit(s.config));
    }
  }

  lemma ApplyBounded(s: State, a: Action)
    requires Bounded(s)
    ensures Bounded(Apply(s, a))
  {
    if a.OnReader? && a.i < |s.readers| {
      ReaderBounded(s, a.i, a.ra);
    } else if a.Swap? && s.harvest.Swapping? && s.harvest.ri < |s.readers| {
      SwapBounded(s);
    } else if a.Reset? && CanReset(s) {
      ResetBounded(s, a.env);
    } else {
      SameBounded(s, Apply(s, a));
    }
  }

  lemma {:induction false} NoneInAny(s: seq<int>)
    requires forall i :: 0 <= i < |s| ==> s[i] == 0
    ensures Fold(Add, s) == 0
  {
    if s != [] {
      NoneInAny(s[1..]);
    }
  }

  lemma StartBounded(config: Config, addrs: seq<string>, n: nat)
    ensures Bounded(Start(config, addrs, n))
  {
    var s := Start(config, addrs, n);
    NoneInAny(Residues(s.readers));
    NoneInAny(Column(s.readers, (r: Reader) => PutOut(r.bodies)));
    assert Bytes([]) == [];
  }

  lemma {:induction false} RunBounded(s: State, acts: seq<Action>)
    requires Bounded(s)
    ensures Bounded(Exec(s, acts)) && Exec(s, acts).config == s.config
  {
    if acts != [] {
      RunBounded(s, acts[..|acts| - 1]);
      ApplyBounded(Exec(s, acts[..|acts| - 1]), acts[|acts| - 1]);
      ConfigStays(Exec(s, acts[..|acts| - 1]), acts[|acts| - 1]);
    }
  }

  lemma ConfigStays(s: State, a: Action)
    ensures Apply(s, a).config == s.config
  {
  }

  /** In every run of a request test, all body readers of a server together count
      at most PayloadSize bytes per request sent. */
  lemma BytesPerRequest(config: Config, addrs: seq<string>, n: nat, acts: seq<Action>)
    requires !config.testType.StreamTest?
    ensures var s := Exec(Start(config, addrs, n), acts);
      Reported(s) <= s.counted <= config.payload * Requests(s.readers)
  {
    StartBounded(config, addrs, n);
    RunBounded(Start(config, addrs, n), acts);
    AllPutOutIsBounded(Exec(Start(config, addrs, n), acts).readers, config.payload);
  }

  /** In every run, a body that is being read can put out any number of bytes in a
      stream test, and in every other test up to PayloadSize bytes in all. */
  lemma RoomInBody(config: Config, addrs: seq<string>, n: nat, acts: seq<Action>, i: nat, b: nat, m: nat)
    ensures var s := Exec(Start(config, addrs, n), acts);
      i < |s.readers| && b < |s.readers[i].bodies| && s.readers[i].bodies[b].registered ==>
        (Counts(s.readers[i], Count(b, m))
         <==> config.testType == StreamTest || s.readers[i].bodies[b].pos + m <= config.payload)
  {
    StartBounded(config, addrs, n);
    RunBounded(Start(config, addrs, n), acts);
    var s := Exec(Start(config, addrs, n), acts);
    if i < |s.readers| {
      assert BodiesOk(s.readers[i], Limit(s.config));
    }
  }
}
