/** The measuring side of a running test: per remote host a reader with its
    token channel, dispatcher and senders, and one harvester that turns the
    readers' counters into data points. Every goroutine is cut into its atomic
    steps; an action that is not enabled leaves the state as it is, so a
    sequence of actions is an arbitrary interleaving. */
module Engine {
  import opened Folds
  import opened Records

  type Micros = x: int | 0 <= x <= MAX_INT64

  /** The two latencies a reader samples: time to first byte, and round trip. */
  datatype Kind = Ttfb | Rms

  function HighOf(k: Kind): Field {
    if k.Ttfb? then TTFBH else RMSH
  }

  function LowOf(k: Kind): Field {
    if k.Ttfb? then TTFBL else RMSL
  }

  /** Who holds the reader's mutex, by the write it does next. The harvester
      reads without the mutex, so it can observe each write on its own. */
  datatype Section =
    | Free
    | WriteHigh(kind: Kind, sample: Micros)
    | WriteLow(kind: Kind, sample: Micros)
    | WriteStats

  /** A sender before its context check, between that check and the TXCount
      increment, waiting for its response, and finishing the response body. */
  datatype Stage = Waiting | Checked | Sent | Draining
  datatype Sender = Sender(cid: int, stage: Stage)

  /** One extreme. While the harvester has read it and not yet reset it, seen
      is the value it read and gap the samples written since (history only). */
  datatype Cell = Cell(live: int, seen: Option<int>, gap: seq<int>)

  /** One value per extreme. */
  datatype Quad<T> = Quad(ttfbH: T, ttfbL: T, rmsH: T, rmsL: T) {
    function At(f: Field): T {
      match f
      case TTFBH => ttfbH
      case TTFBL => ttfbL
      case RMSH => rmsH
      case RMSL => rmsL
    }

    function With(f: Field, x: T): Quad<T> {
      match f
      case TTFBH => this.(ttfbH := x)
      case TTFBL => this.(ttfbL := x)
      case RMSH => this.(rmsH := x)
      case RMSL => this.(rmsL := x)
    }
  }

  type Cells = Quad<Cell>
  type Samples = Quad<seq<int>>

  const NO_SAMPLES: Samples := Quad([], [], [], [])

  /** The body of a request that was sent: whether it has registered its first
      byte, and how many bytes it has put out. */
  datatype Body = Body(registered: bool, pos: nat)

  /** bodies has one entry for each request that was sent, in order. A body may
      still be read after its sender has returned. It puts out at most limit
      bytes, if there is a limit. */
  datatype Reader = Reader(
    addr: string, hasStats: bool, section: Section, cells: Cells, tx: nat, txCount: nat,
    channel: seq<int>, held: Option<int>, dispatching: bool, senders: seq<Sender>,
    bodies: seq<Body>, limit: Option<nat>)

  function FreshCell(f: Field): Cell {
    Cell(Id(Extreme(f)), None, [])
  }

  function FreshCells(): Cells {
    Quad(FreshCell(TTFBH), FreshCell(TTFBL), FreshCell(RMSH), FreshCell(RMSL))
  }

  function NewReader(addr: string, concurrency: nat, limit: Option<nat>): Reader {
    Reader(addr, false, Free, FreshCells(), 0, 0, seq(concurrency, i => i + 1), None, true, [], [], limit)
  }

  function Limit(config: Config): Option<nat> {
    if config.testType.StreamTest? then None else Some(config.payload)
  }

  /** What the goroutines around one reader can do next. */
  datatype ReaderAction =
    | Read(b: nat, since: Micros)   // asyncReader.Read of request b's body takes the lock
    | Advance                       // the lock holder does its next write
    | Count(b: nat, n: nat)         // asyncReader.Read adds n bytes, outside the lock
    | Take                          // the dispatcher receives a token
    | Spawn                         // the dispatcher starts a sender with it
    | StopDispatch                  // the dispatcher sees the cancelled context
    | Check(k: nat)                 // sender k looks at the context
    | Send(k: nat)                  // sender k counts its request and sends it
    | Answer(k: nat, done: Micros)  // sender k got status 200 and takes the lock
    | Leave(k: nat)                 // sender k returns, on any path or by panic: the deferred send

  function RecordIn(c: Cell, f: Field, sample: int): Cell {
    Cell(Op(Extreme(f), c.live, sample), c.seen, if c.seen.Some? then c.gap + [sample] else c.gap)
  }

  function Write(r: Reader, f: Field, sample: int, next: Section): Reader {
    r.(cells := r.cells.With(f, RecordIn(r.cells.At(f), f, sample)), section := next)
  }

  function MoveSender(r: Reader, k: nat, from: Stage, to: Stage): Reader {
    if k < |r.senders| && r.senders[k].stage == from
    then r.(senders := r.senders[k := r.senders[k].(stage := to)])
    else r
  }

  function DropSender(r: Reader, k: nat): Reader {
    if k < |r.senders|
    then r.(senders := r.senders[..k] + r.senders[k + 1..], channel := r.channel + [r.senders[k].cid])
    else r
  }

  /** Bytes are counted only for a body that is being read, within its limit. */
  predicate Counts(r: Reader, a: ReaderAction) {
    && a.Count? && a.b < |r.bodies| && r.bodies[a.b].registered
    && (r.limit.Some? ==> r.bodies[a.b].pos + a.n <= r.limit.value)
  }

  function CountIn(r: Reader, b: nat, n: nat): Reader
    requires b < |r.bodies|
  {
    r.(tx := Wrap(r.tx + n), bodies := r.bodies[b := Body(true, r.bodies[b].pos + n)])
  }

  function StepReader(r: Reader, cancelled: bool, a: ReaderAction): Reader {
    match a
    case Read(b, since) =>
      if b >= |r.bodies| || !r.section.Free? then r
      else if r.bodies[b].registered then r.(section := WriteStats)
      else r.(section := WriteHigh(Ttfb, since), bodies := r.bodies[b := Body(true, r.bodies[b].pos)])
    case Advance =>
      (match r.section
       case Free => r
       case WriteHigh(kind, sample) => Write(r, HighOf(kind), sample, WriteLow(kind, sample))
       case WriteLow(kind, sample) => Write(r, LowOf(kind), sample, WriteStats)
       case WriteStats => r.(hasStats := true, section := Free))
    case Count(b, n) => if Counts(r, a) then CountIn(r, b, n) else r
    case Take =>
      if r.dispatching && r.held.None? && r.channel != []
      then r.(held := Some(r.channel[0]), channel := r.channel[1..])
      else r
    case Spawn =>
      if r.held.Some? then r.(held := None, senders := r.senders + [Sender(r.held.value, Waiting)]) else r
    case StopDispatch => if cancelled && r.held.None? then r.(dispatching := false) else r
    case Check(k) =>
      if k < |r.senders| && r.senders[k].stage == Waiting
      then if cancelled then DropSender(r, k) else MoveSender(r, k, Waiting, Checked)
      else r
    case Send(k) =>
      if k < |r.senders| && r.senders[k].stage == Checked
      then MoveSender(r, k, Checked, Sent).(txCount := r.txCount + 1, bodies := r.bodies + [Body(false, 0)])
      else r
    case Answer(k, done) =>
      if k < |r.senders| && r.senders[k].stage == Sent && r.section.Free?
      then MoveSender(r, k, Sent, Draining).(section := WriteHigh(Rms, done))
      else r
    case Leave(k) => DropSender(r, k)
  }

  function Steps(r: Reader, cancelled: bool, acts: seq<ReaderAction>): Reader {
    if acts == [] then r else StepReader(Steps(r, cancelled, acts[..|acts| - 1]), cancelled, acts[|acts| - 1])
  }

  /** The sample that an action writes into one of the extremes, if it writes one. */
  function Writes(r: Reader, a: ReaderAction): Option<(Field, int)> {
    if !a.Advance? then None
    else if r.section.WriteHigh? then Some((HighOf(r.section.kind), r.section.sample as int))
    else if r.section.WriteLow? then Some((LowOf(r.section.kind), r.section.sample as int))
    else None
  }

  function Note(all: Samples, w: Option<(Field, int)>): Samples {
    if w.Some? then all.With(w.value.0, all.At(w.value.0) + [w.value.1]) else all
  }

  /** The harvester between two harvests, looking at reader ri, about to swap
      its byte counter, and collecting the rest of a data point. */
  datatype Harvest =
    | Rest
    | Visit(ri: nat)
    | Swapping(ri: nat)
    | Reading(ri: nat, swapped: nat, count: Option<nat>, errs: Option<nat>)

  /** What a point takes from outside: clock, rate, host statistics. */
  datatype Env = Env(created: int, local: string, rate: nat, dropped: int, memory: int, cpu: int)

  /** produced, counted, taken and missed are history: every point ever made,
      every byte ever counted, every sample ever written to an extreme, and
      the samples that a reset wiped after the snapshot had been read. */
  datatype State = State(
    config: Config, readers: seq<Reader>, cancelled: bool, harvest: Harvest,
    produced: seq<DP>, counted: nat, taken: Samples, missed: Samples)

  datatype Action =
    | OnReader(i: nat, ra: ReaderAction)
    | Cancel
    | StartHarvest
    | Look
    | Swap
    | LoadCount
    | LoadErrs(n: nat)
    | Load(f: Field)
    | Reset(env: Env)

  function Start(config: Config, addrs: seq<string>, concurrency: nat): State {
    State(config, seq(|addrs|, i requires 0 <= i < |addrs| => NewReader(addrs[i], concurrency, Limit(config))),
          false, Rest, [], 0, NO_SAMPLES, NO_SAMPLES)
  }

  function SeenOf(r: Reader, f: Field): int {
    r.cells.At(f).seen.GetOr(0)
  }

  predicate AllSeen(r: Reader) {
    r.cells.ttfbH.seen.Some? && r.cells.ttfbL.seen.Some? && r.cells.rmsH.seen.Some? && r.cells.rmsL.seen.Some?
  }

  function PointOf(s: State, r: Reader, swapped: nat, count: nat, errs: nat, env: Env): DP {
    DP(s.config.testType, s.config.testId, env.created, env.local, r.addr,
       SeenOf(r, RMSH), SeenOf(r, RMSL), SeenOf(r, TTFBH), SeenOf(r, TTFBL),
       env.rate, swapped, count, errs, env.dropped, env.memory, env.cpu)
  }

  function AddGaps(missed: Samples, r: Reader): Samples {
    Quad(missed.ttfbH + r.cells.ttfbH.gap, missed.ttfbL + r.cells.ttfbL.gap,
         missed.rmsH + r.cells.rmsH.gap, missed.rmsL + r.cells.rmsL.gap)
  }

  function Snapshot(r: Reader, f: Field): Reader {
    r.(cells := r.cells.With(f, Cell(r.cells.At(f).live, Some(r.cells.At(f).live), [])))
  }

  function Cleared(r: Reader): Reader {
    r.(hasStats := false, cells := FreshCells())
  }

  function Apply(s: State, a: Action): State {
    match a
    case OnReader(i, ra) =>
      if i < |s.readers| then
        var r := s.readers[i];
        s.(readers := s.readers[i := StepReader(r, s.cancelled, ra)],
           taken := Note(s.taken, Writes(r, ra)),
           counted := s.counted + if Counts(r, ra) then ra.n else 0)
      else s
    case Cancel => s.(cancelled := true)
    case StartHarvest => if s.harvest.Rest? then s.(harvest := Visit(0)) else s
    case Look =>
      if !s.harvest.Visit? then s
      else if s.harvest.ri >= |s.readers| then s.(harvest := Rest)
      else if s.readers[s.harvest.ri].hasStats then s.(harvest := Swapping(s.harvest.ri))
      else s.(harvest := Visit(s.harvest.ri + 1))
    case Swap =>
      if s.harvest.Swapping? && s.harvest.ri < |s.readers| then
        var r := s.readers[s.harvest.ri];
        s.(readers := s.readers[s.harvest.ri := r.(tx := 0)],
           harvest := Reading(s.harvest.ri, r.tx, None, None))
      else s
    case LoadCount =>
      if s.harvest.Reading? && s.harvest.ri < |s.readers|
      then s.(harvest := s.harvest.(count := Some(s.readers[s.harvest.ri].txCount)))
      else s
    case LoadErrs(n) => if s.harvest.Reading? then s.(harvest := s.harvest.(errs := Some(n))) else s
    case Load(f) =>
      if CanLoad(s, f)
      then s.(readers := s.readers[s.harvest.ri := Snapshot(s.readers[s.harvest.ri], f)])
      else s
    case Reset(env) =>
      if CanReset(s) then
        var r := s.readers[s.harvest.ri];
        s.(readers := s.readers[s.harvest.ri := Cleared(r)],
           harvest := Visit(s.harvest.ri + 1),
           produced := s.produced + [ResetPoint(s, env)],
           missed := AddGaps(s.missed, r))
      else s
  }

  /** Each extreme is loaded once, in any order. */
  predicate CanLoad(s: State, f: Field) {
    s.harvest.Reading? && s.harvest.ri < |s.readers| && s.readers[s.harvest.ri].cells.At(f).seen.None?
  }

  predicate CanReset(s: State) {
    && s.harvest.Reading? && s.harvest.ri < |s.readers| && s.harvest.count.Some? && s.harvest.errs.Some?
    && s.readers[s.harvest.ri].section.Free? && AllSeen(s.readers[s.harvest.ri])
  }

  function ResetPoint(s: State, env: Env): DP
    requires CanReset(s)
  {
    PointOf(s, s.readers[s.harvest.ri], s.harvest.swapped, s.harvest.count.value, s.harvest.errs.value, env)
  }

  function Exec(s: State, acts: seq<Action>): State {
    if acts == [] then s else Apply(Exec(s, acts[..|acts| - 1]), acts[|acts| - 1])
  }
}
