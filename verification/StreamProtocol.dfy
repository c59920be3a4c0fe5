/** One event stream: the handler goroutine, the producer goroutine and what they share, as a
    machine whose steps are labelled. A `select` with several ready cases is several enabled
    steps; timers are steps that are always enabled where they are armed. */
module StreamProtocol {
  import opened Basics
  import opened Frames

  /** What is fixed when the handler starts: Control's log of the operation, the position the
      cursor selects in it, the channel's capacity and the bytes of the frames the handler itself
      writes. The log is every event the operation ever commits; receiving one is a step, so a log
      that grows during the stream is covered. */
  datatype ConfigData = Config(log: seq<Event>, start: nat, buffer: nat, retryMillis: nat, endPayload: Bytes)

  // config.go admits buffers of 1 to 4096 frames only
  type Config = c: ConfigData | c.start <= |c.log| && 1 <= c.buffer
    witness Config([], 0, 1, 3000, [])

  /** What `Control.StreamEvents` returned. */
  datatype Outcome =
    | Clean
    | ResetNeeded(payload: Bytes)
    | SlowConsumer
    | Canceled
    | Failed

  /** Where the producer is in `Client.StreamEvents` and in the `emit` it calls. */
  datatype Producer =
    | Unborn
    | Listing
    | Opening
    | Bare                    // answered without headers: Recv tells the status
    | Receiving
    | Emitting(event: Event)  // in emit's select, holding one encoded frame
    | Returning(outcome: Outcome)
    | Finished(outcome: Outcome)
  {
    predicate Calling() {
      Listing? || Opening? || Bare? || Receiving?
    }
  }

  /** What the handler does after a write that succeeded. */
  datatype Then =
    | AfterRetry(reset: Option<Bytes>)
    | BackToLoop
    | BackToDrain(outcome: Outcome)
    | ThenLeave

  datatype HandlerPc =
    | Fresh             // holds its slot, has not started the producer
    | FirstSelect
    | Writing(chunk: Chunk, next: Then)
    | Looping
    | Draining(outcome: Outcome)
    | Settling(outcome: Outcome)
    | Leaving           // returned from the body; the deferred cancel comes next
    | Joining
    | Releasing
    | Returned
  {
    predicate Left() {
      Leaving? || Joining? || Releasing? || Returned?
    }
  }

  /** The case the first select took. */
  datatype Branch = Undecided | ByAdmission | ByEnd | ByShutdown | ByClient

  datatype Response = Silent | Refused(outcome: Option<Outcome>) | Begun

  datatype State = State(
    handler: HandlerPc,
    producer: Producer,
    frames: seq<Event>,
    done: Option<Outcome>,
    admitted: bool,
    canceled: bool,
    clientGone: bool,
    shuttingDown: bool,
    ended: bool,          // the handler received `done` before it left
    response: Response,
    written: seq<Chunk>,  // whole writes that succeeded
    cut: seq<Chunk>,      // the chunk whose write failed, if one did
    // history
    branch: Branch,
    pulled: nat,          // events received from Control
    dropped: seq<Event>   // the event the producer gave up with, if it did
  ) {
    /** ctx.Done() is ready. */
    predicate ContextDone() {
      canceled || clientGone
    }
  }

  function Init(shuttingDown: bool): State {
    State(Fresh, Unborn, [], None, false, false, false, shuttingDown, false, Silent, [], [],
          Undecided, 0, [])
  }

  /** The steps of `Client.StreamEvents` and `emit`. */
  datatype ProducerStep =
    | CallFails
    | ListReset(payload: Bytes)
    | ListOk
    | OpenBare
    | OpenAdmit
    | BareEnd
    | ReceiveEnd
    | ReceiveEvent
    | ReceiveUnencodable
    | Put
    | PutCanceled
    | PutSlow
    | Report

  /** The steps of the handler: the go statement, the first select, the writes, the main loop, the
      drain and the switch after it, the deferred calls. */
  datatype HandlerStep =
    | Launch
    | SelectAdmitted
    | SelectDone
    | SelectShutdown
    | SelectClientGone
    | WriteOk
    | WriteFails
    | SkipTerminal
    | LoopFrame
    | LoopHeartbeat
    | LoopDone
    | LoopShutdown
    | LoopClientGone
    | DrainFrame
    | DrainEmpty
    | Settle
    | Cancel
    | Join
    | Release

  datatype Step =
    | ByProducer(p: ProducerStep)
    | ByHandler(h: HandlerStep)
    | ClientLeaves
    | ServerStops

  predicate EventLeft(c: Config, s: State) {
    c.start + s.pulled < |c.log|
  }

  predicate ProducerMay(c: Config, s: State, step: ProducerStep) {
    match step
    case CallFails => s.producer.Calling()
    case ListReset(_) => s.producer.Listing?
    case ListOk => s.producer.Listing?
    case OpenBare => s.producer.Opening?
    case OpenAdmit => s.producer.Opening?
    case BareEnd => s.producer.Bare?
    case ReceiveEnd => s.producer.Receiving?
    case ReceiveEvent => s.producer.Receiving? && EventLeft(c, s)
    case ReceiveUnencodable => s.producer.Receiving? && EventLeft(c, s)
    case Put => s.producer.Emitting? && |s.frames| < c.buffer
    case PutCanceled => s.producer.Emitting? && s.ContextDone()
    case PutSlow => s.producer.Emitting?
    case Report => s.producer.Returning? && s.done.None?  // the one-slot channel has room
  }

  predicate HandlerMay(s: State, step: HandlerStep) {
    match step
    case Launch => s.handler.Fresh?
    case SelectAdmitted => s.handler.FirstSelect? && s.admitted
    case SelectDone => s.handler.FirstSelect? && s.done.Some?
    case SelectShutdown => s.handler.FirstSelect? && s.shuttingDown
    case SelectClientGone => s.handler.FirstSelect? && s.ContextDone()
    case WriteOk => s.handler.Writing?
    case WriteFails => s.handler.Writing?
    case SkipTerminal => s.handler.Writing? && s.handler.next.ThenLeave?
    case LoopFrame => s.handler.Looping? && s.frames != []
    case LoopHeartbeat => s.handler.Looping?
    case LoopDone => s.handler.Looping? && s.done.Some?
    case LoopShutdown => s.handler.Looping? && s.shuttingDown
    case LoopClientGone => s.handler.Looping? && s.ContextDone()
    case DrainFrame => s.handler.Draining? && s.frames != []
    case DrainEmpty => s.handler.Draining? && s.frames == []
    case Settle => s.handler.Settling?
    case Cancel => s.handler.Leaving?
    case Join => s.handler.Joining? && s.done.Some?
    case Release => s.handler.Releasing?
  }

  predicate Enabled(c: Config, s: State, step: Step) {
    match step
    case ByProducer(p) => ProducerMay(c, s, p)
    case ByHandler(h) => HandlerMay(s, h)
    case ClientLeaves => !s.clientGone
    case ServerStops => !s.shuttingDown
  }

  function ProducerDoes(c: Config, s: State, step: ProducerStep): State
    requires ProducerMay(c, s, step)
  {
    match step
    case CallFails => s.(producer := Returning(Failed))
    case ListReset(payload) => s.(producer := Returning(ResetNeeded(payload)))
    case ListOk => s.(producer := Opening)
    case OpenBare => s.(producer := Bare)
    case OpenAdmit => s.(producer := Receiving, admitted := true)
    case BareEnd => s.(producer := Returning(Clean))
    case ReceiveEnd => s.(producer := Returning(Clean))
    case ReceiveEvent => s.(producer := Emitting(c.log[c.start + s.pulled]), pulled := s.pulled + 1)
    case ReceiveUnencodable =>
      s.(producer := Returning(Failed), dropped := [c.log[c.start + s.pulled]], pulled := s.pulled + 1)
    case Put => s.(producer := Receiving, frames := s.frames + [s.producer.event])
    case PutCanceled => s.(producer := Returning(Canceled), dropped := [s.producer.event])
    case PutSlow => s.(producer := Returning(SlowConsumer), dropped := [s.producer.event])
    case Report => s.(producer := Finished(s.producer.outcome), done := Some(s.producer.outcome))
  }

  /** Where a handler goes once a chunk is on the wire. */
  function AfterWrite(s: State, next: Then): HandlerPc {
    match next
    case AfterRetry(reset) =>
      if !s.ended then Looping
      else if reset.Some? then Writing(ResetFrame(reset.value), ThenLeave)
      else Leaving
    case BackToLoop => Looping
    case BackToDrain(o) => Draining(o)
    case ThenLeave => Leaving
  }

  /** The answer to a stream that ended before the first select saw its admission. */
  function EarlyEnd(c: Config, s: State, o: Outcome): State {
    if o.Clean? then s.(handler := Writing(Retry(c.retryMillis), AfterRetry(None)), response := Begun)
    else if o.ResetNeeded? then
      s.(handler := Writing(Retry(c.retryMillis), AfterRetry(Some(o.payload))), response := Begun)
    else s.(handler := Leaving, response := Refused(Some(o)))
  }

  /** The switch that follows the drain. */
  function Settled(c: Config, s: State, o: Outcome): HandlerPc {
    if o.ResetNeeded? then Writing(ResetFrame(o.payload), ThenLeave)
    else if !o.Clean? && !o.SlowConsumer? && !s.clientGone then Writing(EndFrame(c.endPayload), ThenLeave)
    else Leaving
  }

  function HandlerDoes(c: Config, s: State, step: HandlerStep): State
    requires HandlerMay(s, step)
  {
    match step
    case Launch => s.(handler := FirstSelect, producer := Listing)
    case SelectAdmitted =>
      s.(handler := Writing(Retry(c.retryMillis), AfterRetry(None)), branch := ByAdmission, response := Begun)
    case SelectDone =>
      EarlyEnd(c, s.(done := None, ended := true, branch := ByEnd), s.done.value)
    case SelectShutdown => s.(handler := Leaving, branch := ByShutdown, response := Refused(None))
    case SelectClientGone => s.(handler := Leaving, branch := ByClient)
    case WriteOk => s.(handler := AfterWrite(s, s.handler.next), written := s.written + [s.handler.chunk])
    case WriteFails => s.(handler := Leaving, cut := [s.handler.chunk])
    case SkipTerminal => s.(handler := Leaving)
    case LoopFrame => s.(handler := Writing(EventFrame(s.frames[0]), BackToLoop), frames := s.frames[1..])
    case LoopHeartbeat => s.(handler := Writing(Heartbeat, BackToLoop))
    case LoopDone => s.(handler := Draining(s.done.value), done := None, ended := true)
    case LoopShutdown => s.(handler := Writing(EndFrame(c.endPayload), ThenLeave))
    case LoopClientGone => s.(handler := Leaving)
    case DrainFrame =>
      s.(handler := Writing(EventFrame(s.frames[0]), BackToDrain(s.handler.outcome)), frames := s.frames[1..])
    case DrainEmpty => s.(handler := Settling(s.handler.outcome))
    case Settle => s.(handler := Settled(c, s, s.handler.outcome))
    case Cancel => s.(handler := if s.ended then Releasing else Joining, canceled := true)
    case Join => s.(handler := Releasing, done := None)
    case Release => s.(handler := Returned)
  }

  function Apply(c: Config, s: State, step: Step): State
    requires Enabled(c, s, step)
  {
    match step
    case ByProducer(p) => ProducerDoes(c, s, p)
    case ByHandler(h) => HandlerDoes(c, s, h)
    case ClientLeaves => s.(clientGone := true)
    case ServerStops => s.(shuttingDown := true)
  }

  /** `steps` lead from `s` to `t`. */
  ghost predicate Run(c: Config, s: State, steps: seq<Step>, t: State)
    decreases |steps|
  {
    if steps == [] then t == s
    else Enabled(c, s, steps[0]) && Run(c, Apply(c, s, steps[0]), steps[1..], t)
  }

  ghost predicate Reachable(c: Config, t: State) {
    exists stopping: bool, steps: seq<Step> :: Run(c, Init(stopping), steps, t)
  }
}
