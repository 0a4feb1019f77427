/** No latency extreme and no byte disappears on the way from a reader to a
    data point, although the harvest is not atomic. */
module Measurement {
  import opened Folds
  import opened Records
  import opened Engine

  function Lives(readers: seq<Reader>, f: Field): seq<int> {
    Column(readers, (r: Reader) => r.cells.At(f).live)
  }

  function Residues(readers: seq<Reader>): seq<int> {
    Column(readers, (r: Reader) => r.tx)
  }

  /** A live extreme is the value the harvester saw joined with what was
      written since; without a snapshot there is nothing written since. */
  ghost predicate CellOk(c: Cell, f: Field) {
    var m := Extreme(f);
    && Op(m, c.live, Id(m)) == c.live
    && (c.seen.None? ==> c.gap == [])
    && (c.seen.Some? ==>
          Op(m, c.seen.value, Id(m)) == c.seen.value && c.live == Op(m, c.seen.value, Fold(m, c.gap)))
  }

  /** A reader without stats whose lock holder has written nothing yet shows
      only the starting values, so skipping it loses no sample. */
  ghost predicate Idle(r: Reader) {
    !r.hasStats && (r.section.Free? || r.section.WriteHigh?) ==>
      forall f: Field :: r.cells.At(f).live == Id(Extreme(f))
  }

  ghost predicate ReaderOk(r: Reader) {
    Idle(r) && forall f: Field :: CellOk(r.cells.At(f), f)
  }

  /** Everything ever written to extreme f is accounted for by the points made
      so far, the live fields, and the samples a reset wiped unseen. */
  ghost predicate Accounted(s: State, f: Field) {
    var m := Extreme(f);
    Fold(m, s.taken.At(f))
      == Op(m, Op(m, Fold(m, Values(s.produced, f)), Fold(m, Lives(s.readers, f))), Fold(m, s.missed.At(f)))
  }

  function InHarvest(h: Harvest): int {
    if h.Reading? then h.swapped else 0
  }

  /** Bytes are counted modulo 2^64, exactly as the atomic counters do. */
  ghost predicate BytesAccounted(s: State) {
    Wrap(s.counted)
      == Wrap(Fold(Add, Bytes(s.produced)) + InHarvest(s.harvest) + Fold(Add, Residues(s.readers)))
  }

  ghost predicate Measured(s: State) {
    && (forall i :: 0 <= i < |s.readers| ==> ReaderOk(s.readers[i]))
    && (forall f: Field :: Accounted(s, f))
    && BytesAccounted(s)
  }

  lemma RecordInOk(c: Cell, f: Field, sample: int)
    requires CellOk(c, f) && 0 <= sample <= MAX_INT64
    ensures CellOk(RecordIn(c, f, sample), f)
  {
    if c.seen.Some? {
      FoldAppend(Extreme(f), c.gap, sample);
      FoldAbsorbsId(Extreme(f), c.gap);
    }
  }

  lemma StepReaderOk(r: Reader, cancelled: bool, a: ReaderAction)
    requires ReaderOk(r)
    ensures ReaderOk(StepReader(r, cancelled, a))
  {
    var r' := StepReader(r, cancelled, a);
    var w := Writes(r, a);
    forall f: Field ensures CellOk(r'.cells.At(f), f) {
      if w.Some? && w.value.0 == f {
        RecordInOk(r.cells.At(f), f, w.value.1);
      } else {
        OtherCellsKept(r, cancelled, a, f);
      }
    }
    if w.None? {
      forall f: Field ensures r'.cells.At(f) == r.cells.At(f) {
        OtherCellsKept(r, cancelled, a, f);
      }
    }
  }

  lemma OtherCellsKept(r: Reader, cancelled: bool, a: ReaderAction, f: Field)
    requires Writes(r, a).None? || Writes(r, a).value.0 != f
    ensures StepReader(r, cancelled, a).cells.At(f) == r.cells.At(f)
  {
  }

  /** A sample joins one live value and the samples taken. */
  lemma WriteBalance(m: Monoid, taken: seq<int>, points: int, lives: seq<int>, lost: int, i: nat, x: int)
    requires i < |lives|
    requires Fold(m, taken) == Op(m, Op(m, points, Fold(m, lives)), lost)
    ensures Fold(m, taken + [x]) == Op(m, Op(m, points, Fold(m, lives[i := Op(m, lives[i], x)])), lost)
  {
    FoldReplace(m, lives, i, x);
    FoldAppend(m, taken, x);
    FoldAbsorbsId(m, taken);
  }

  /** A reset moves what was seen into the points and the gap into the lost samples. */
  lemma ResetBalance(m: Monoid, taken: int, points: seq<int>, lives: seq<int>, lost: seq<int>,
                     i: nat, seen: int, gap: seq<int>)
    requires i < |lives| && lives[i] == Op(m, seen, Fold(m, gap))
    requires taken == Op(m, Op(m, Fold(m, points), Fold(m, lives)), Fold(m, lost))
    ensures taken
         == Op(m, Op(m, Fold(m, points + [seen]), Fold(m, lives[i := Id(m)])), Fold(m, lost + gap))
  {
    FoldSplit(m, lives, i);
    FoldAppend(m, points, seen);
    FoldAbsorbsId(m, points);
    FoldConcat(m, lost, gap);
  }

  lemma LivesUpdate(readers: seq<Reader>, i: nat, r: Reader, f: Field)
    requires i < |readers|
    ensures Lives(readers[i := r], f) == Lives(readers, f)[i := r.cells.At(f).live]
  {
  }

  lemma WrittenCell(r: Reader, cancelled: bool, a: ReaderAction)
    requires Writes(r, a).Some?
    ensures var (f, x) := Writes(r, a).value;
      StepReader(r, cancelled, a).cells.At(f) == RecordIn(r.cells.At(f), f, x)
  {
  }

  lemma ReaderStepAccounts(s: State, i: nat, ra: ReaderAction, f: Field)
    requires i < |s.readers| && Accounted(s, f)
    ensures Accounted(Apply(s, OnReader(i, ra)), f)
  {
    var r, m := s.readers[i], Extreme(f);
    var w := Writes(r, ra);
    var lives := Lives(s.readers, f);
    LivesUpdate(s.readers, i, StepReader(r, s.cancelled, ra), f);
    if w.Some? && w.value.0 == f {
      WrittenCell(r, s.cancelled, ra);
      WriteBalance(m, s.taken.At(f), Fold(m, Values(s.produced, f)), lives, Fold(m, s.missed.At(f)), i, w.value.1);
    } else {
      OtherCellsKept(r, s.cancelled, ra, f);
      assert lives[i := lives[i]] == lives;
    }
  }

  lemma PointShowsSeen(s: State, env: Env, f: Field)
    requires CanReset(s)
    ensures s.readers[s.harvest.ri].cells.At(f).seen.Some?
    ensures Get(ResetPoint(s, env), f) == s.readers[s.harvest.ri].cells.At(f).seen.value
    ensures AddGaps(s.missed, s.readers[s.harvest.ri]).At(f)
         == s.missed.At(f) + s.readers[s.harvest.ri].cells.At(f).gap
    ensures Cleared(s.readers[s.harvest.ri]).cells.At(f) == FreshCell(f)
  {
  }

  lemma ResetAccounts(s: State, env: Env, f: Field)
    requires CanReset(s) && Accounted(s, f) && CellOk(s.readers[s.harvest.ri].cells.At(f), f)
    ensures Accounted(Apply(s, Reset(env)), f)
  {
    var i, m := s.harvest.ri, Extreme(f);
    var r := s.readers[i];
    PointShowsSeen(s, env, f);
    LivesUpdate(s.readers, i, Cleared(r), f);
    ColumnConcat(s.produced, [ResetPoint(s, env)], (d: DP) => Get(d, f));
    var seen := r.cells.At(f).seen.value;
    assert Values([ResetPoint(s, env)], f) == [seen];
    ResetBalance(m, Fold(m, s.taken.At(f)), Values(s.produced, f), Lives(s.readers, f), s.missed.At(f), i,
                 seen, r.cells.At(f).gap);
  }

  lemma CountBytes(s: State, i: nat, b: nat, n: nat)
    requires i < |s.readers| && BytesAccounted(s) && Counts(s.readers[i], Count(b, n))
    ensures BytesAccounted(Apply(s, OnReader(i, Count(b, n))))
  {
    var s' := Apply(s, OnReader(i, Count(b, n)));
    var old', new' := Residues(s.readers), Residues(s'.readers);
    var tx := s.readers[i].tx;
    FoldSplit(Add, old', i);
    FoldSplit(Add, new', i);
    assert old'[i := 0] == new'[i := 0];
    var made := Fold(Add, Bytes(s.produced)) + InHarvest(s.harvest);
    CountBalance(s.counted, made + Fold(Add, old'[i := 0]), tx, n);
    assert made + Fold(Add, old') == made + Fold(Add, old'[i := 0]) + tx;
    assert made + Fold(Add, new') == made + Fold(Add, old'[i := 0]) + Wrap(tx + n);
  }

  lemma CountBalance(counted: int, rest: int, tx: int, n: int)
    requires Wrap(counted) == Wrap(rest + tx)
    ensures Wrap(counted + n) == Wrap(rest + Wrap(tx + n))
  {
    WrapAdd(tx + n, rest);
    WrapAdd(counted, n);
    WrapAdd(rest + tx, n);
    assert Wrap(Wrap(tx + n) + rest) == Wrap(tx + n + rest);
    assert tx + n + rest == rest + tx + n;
  }

  lemma ReaderStepBytes(s: State, i: nat, ra: ReaderAction)
    requires i < |s.readers| && BytesAccounted(s)
    ensures BytesAccounted(Apply(s, OnReader(i, ra)))
  {
    if Counts(s.readers[i], ra) {
      CountBytes(s, i, ra.b, ra.n);
    } else {
      assert StepReader(s.readers[i], s.cancelled, ra).tx == s.readers[i].tx;
      assert Residues(Apply(s, OnReader(i, ra)).readers) == Residues(s.readers);
    }
  }

  lemma ReaderStepMeasured(s: State, i: nat, ra: ReaderAction)
    requires i < |s.readers| && Measured(s)
    ensures Measured(Apply(s, OnReader(i, ra)))
  {
    StepReaderOk(s.readers[i], s.cancelled, ra);
    ReaderStepBytes(s, i, ra);
    forall f: Field ensures Accounted(Apply(s, OnReader(i, ra)), f) {
      ReaderStepAccounts(s, i, ra, f);
    }
  }

  lemma SwapMeasured(s: State)
    requires Measured(s) && s.harvest.Swapping? && s.harvest.ri < |s.readers|
    ensures Measured(Apply(s, Swap))
  {
    var s', i := Apply(s, Swap), s.harvest.ri;
    assert Residues(s'.readers) == Residues(s.readers)[i := 0];
    FoldSplit(Add, Residues(s.readers), i);
    forall f: Field ensures Accounted(s', f) {
      assert Accounted(s, f);
      assert Lives(s'.readers, f) == Lives(s.readers, f);
    }
    assert ReaderOk(s.readers[i]);
  }

  lemma SnapshotOk(r: Reader, g: Field)
    requires ReaderOk(r)
    ensures ReaderOk(Snapshot(r, g))
    ensures forall f: Field :: Snapshot(r, g).cells.At(f).live == r.cells.At(f).live
  {
    forall f: Field
      ensures CellOk(Snapshot(r, g).cells.At(f), f)
      ensures Snapshot(r, g).cells.At(f).live == r.cells.At(f).live
    {
      assert CellOk(r.cells.At(f), f);
    }
  }

  lemma LoadMeasured(s: State, g: Field)
    requires Measured(s) && CanLoad(s, g)
    ensures Measured(Apply(s, Load(g)))
  {
    var s', i := Apply(s, Load(g)), s.harvest.ri;
    SnapshotOk(s.readers[i], g);
    assert Residues(s'.readers) == Residues(s.readers);
    forall f: Field ensures Accounted(s', f) {
      assert Accounted(s, f);
      LivesUpdate(s.readers, i, Snapshot(s.readers[i], g), f);
      assert Lives(s'.readers, f) == Lives(s.readers, f);
    }
  }

  lemma FreshReaderOk(r: Reader)
    ensures ReaderOk(Cleared(r))
  {
    forall f: Field ensures Cleared(r).cells.At(f) == FreshCell(f) {
    }
  }

  lemma ResetMeasured(s: State, env: Env)
    requires Measured(s) && CanReset(s)
    ensures Measured(Apply(s, Reset(env)))
  {
    var s', i := Apply(s, Reset(env)), s.harvest.ri;
    assert Residues(s'.readers) == Residues(s.readers);
    ColumnConcat(s.produced, [ResetPoint(s, env)], (d: DP) => d.txTotal);
    assert Bytes([ResetPoint(s, env)]) == [s.harvest.swapped];
    FoldAppend(Add, Bytes(s.produced), s.harvest.swapped);
    forall f: Field ensures Accounted(s', f) {
      ResetAccounts(s, env, f);
    }
    FreshReaderOk(s.readers[i]);
  }

  lemma ApplyMeasured(s: State, a: Action)
    requires Measured(s)
    ensures Measured(Apply(s, a))
  {
    match a
    case OnReader(i, ra) =>
      if i < |s.readers| {
        ReaderStepMeasured(s, i, ra);
      }
    case Swap =>
      if s.harvest.Swapping? && s.harvest.ri < |s.readers| {
        SwapMeasured(s);
      }
    case Load(f) =>
      if CanLoad(s, f) {
        LoadMeasured(s, f);
      }
    case Reset(env) =>
      if CanReset(s) {
        ResetMeasured(s, env);
      }
    case _ => SameMeasured(s, Apply(s, a));
  }

  lemma SameMeasured(s: State, s': State)
    requires Measured(s) && s'.readers == s.readers && s'.produced == s.produced && s'.counted == s.counted
    requires s'.taken == s.taken && s'.missed == s.missed && InHarvest(s'.harvest) == InHarvest(s.harvest)
    ensures Measured(s')
  {
    forall f: Field ensures Accounted(s', f) {
      assert Accounted(s, f);
    }
  }
}
