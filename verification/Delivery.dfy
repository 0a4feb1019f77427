/** The delivering side of a running test: errors, flushes, the test file, the
    connections that follow the test, and the client behind the connection
    that started it. Steps of different goroutines interleave freely; an action
    that is not enabled leaves the state as it is. */
module Delivery {
  import opened Records

  /** The ids under which the program reports errors. */
  datatype ErrorId =
    | UnknownSignal
    | NetworkNewRequest
    | NetworkError
    | InvalidStatusCode
    | DataPointMarshaling
    | ErrorMarshaling

  /** Pending errors. ids is history: the id under which each was reported. */
  datatype ErrLog = ErrLog(errors: seq<TError>, ids: seq<ErrorId>, errMap: set<ErrorId>)

  const NO_ERRORS := ErrLog([], [], {})

  function AddError(l: ErrLog, id: ErrorId, e: TError): ErrLog {
    if id in l.errMap then l else ErrLog(l.errors + [e], l.ids + [id], l.errMap + {id})
  }

  datatype Signal = Stats(batch: Batch) | Done

  /** A connection's ordered log. It was registered when batch first was the
      next one, and has been sent the batches up to next. */
  datatype Conn = Conn(open: bool, log: seq<Signal>, first: nat, next: nat)

  const RUNNER: nat := 0

  /** Where createAndRunTest is: at the head of its loop, generating points,
      having copied the points of a flush, fanning a batch out, about to send
      Done, or finished. */
  datatype Phase =
    | Looping
    | Harvesting
    | Building(points: seq<DP>)
    | Sending(todo: set<nat>)
    | Closing
    | Ended(doneSent: bool)

  /** The client's view of the runner connection: how much it has read, the
      batches whose handler goroutine has not run yet, and what it collected. */
  datatype Client = Client(read: nat, handlers: seq<Batch>, points: seq<DP>, errors: seq<TError>, done: bool)

  /** The program ignores failed writes to the test's file. intact says that there
      has been none; file is what the file holds while it is intact. produced,
      accepted and batches are history. */
  datatype State = State(
    save: bool, phase: Phase, cancelled: bool, dps: seq<DP>, errs: ErrLog, file: seq<Record>, intact: bool,
    conns: map<nat, Conn>, client: Client,
    produced: seq<DP>, accepted: seq<TError>, batches: seq<Batch>)

  datatype Action =
    | Report(id: ErrorId, e: TError)
    | Cancel
    | NextRound
    | Produce(d: DP)
    | CopyPoints(saved: bool)   // saved: none of the file writes of this step has failed
    | TakeErrors(saved: bool)
    | SendTo(con: nat, ok: bool)
    | EndFlush
    | Listen(con: nat, seen: bool)
    | Leave
    | SendDone(ok: bool)
    | ClientRead
    | ClientHandle(k: nat)

  function Start(save: bool): State {
    State(save, Looping, false, [], NO_ERRORS, [], true, map[RUNNER := Conn(true, [], 0, 0)],
          Client(0, [], [], [], false), [], [], [])
  }

  function OpenIds(conns: map<nat, Conn>): set<nat> {
    set id | id in conns && conns[id].open
  }

  function Deliver(c: Conn, b: Batch, ok: bool): Conn {
    if ok then c.(log := c.log + [Stats(b)], next := c.next + 1) else c.(open := false)
  }

  function Apply(s: State, a: Action): State {
    match a
    case Report(id, e) =>
      s.(errs := AddError(s.errs, id, e),
         accepted := if id in s.errs.errMap then s.accepted else s.accepted + [e])
    case Cancel => s.(cancelled := true)
    case NextRound => if s.phase.Looping? && !s.cancelled then s.(phase := Harvesting) else s
    case Produce(d) =>
      if s.phase.Harvesting? then s.(dps := s.dps + [d], produced := s.produced + [d]) else s
    case CopyPoints(saved) =>
      if s.phase.Harvesting?
      then s.(phase := Building(s.dps), dps := [], intact := s.intact && (saved || !s.save),
              file := if s.save && saved then s.file + PointRecords(s.dps) else s.file)
      else s
    case TakeErrors(saved) =>
      if s.phase.Building?
      then s.(phase := Sending(OpenIds(s.conns)), errs := NO_ERRORS,
              intact := s.intact && (saved || !s.save),
              file := if s.save && saved then s.file + ErrorRecords(s.errs.errors) else s.file,
              batches := s.batches + [Batch(s.phase.points, s.errs.errors)])
      else s
    case SendTo(id, ok) =>
      if s.phase.Sending? && id in s.phase.todo && id in s.conns && s.batches != []
      then s.(phase := Sending(s.phase.todo - {id}),
              conns := s.conns[id := Deliver(s.conns[id], s.batches[|s.batches| - 1], ok)])
      else s
    case EndFlush => if s.phase == Sending({}) then s.(phase := Looping) else s
    case Listen(id, seen) =>
      if id in s.conns then s
      else if s.phase.Sending? && seen && s.batches != []
      then s.(conns := s.conns[id := Conn(true, [], |s.batches| - 1, |s.batches| - 1)],
              phase := Sending(s.phase.todo + {id}))
      else s.(conns := s.conns[id := Conn(true, [], |s.batches|, |s.batches|)])
    case Leave => if s.phase.Looping? then s.(phase := Closing, cancelled := true) else s
    case SendDone(ok) =>
      if s.phase.Closing? && RUNNER in s.conns then
        var c := s.conns[RUNNER];
        var sent := ok && c.open;
        s.(phase := Ended(sent),
           conns := s.conns[RUNNER := if sent then c.(log := c.log + [Done]) else c.(open := false)])
      else s
    case ClientRead =>
      if RUNNER in s.conns && s.client.read < |s.conns[RUNNER].log| && !s.client.done then
        (match s.conns[RUNNER].log[s.client.read]
         case Stats(b) => s.(client := s.client.(read := s.client.read + 1, handlers := s.client.handlers + [b]))
         case Done => s.(client := s.client.(read := s.client.read + 1, done := true)))
      else s
    case ClientHandle(k) =>
      if k < |s.client.handlers| then
        var b := s.client.handlers[k];
        s.(client := s.client.(handlers := s.client.handlers[..k] + s.client.handlers[k + 1..],
                               points := s.client.points + b.points, errors := s.client.errors + b.errors))
      else s
  }

  function Exec(s: State, acts: seq<Action>): State {
    if acts == [] then s else Apply(Exec(s, acts[..|acts| - 1]), acts[|acts| - 1])
  }
}
