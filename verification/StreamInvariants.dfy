/** What every step of a stream keeps. */
module StreamInvariants {
  import opened Basics
  import opened Frames
  import opened StreamProtocol

  /** Every chunk whose write was tried, in order. */
  function Wire(s: State): seq<Chunk> {
    s.written + s.cut
  }

  /** What Control has sent on this stream. */
  function Sent(c: Config, s: State): seq<Event>
    requires c.start + s.pulled <= |c.log|
  {
    c.log[c.start..c.start + s.pulled]
  }

  function InHandlersHand(s: State): seq<Event> {
    if s.handler.Writing? && s.handler.chunk.EventFrame? then [s.handler.chunk.event] else []
  }

  function InProducersHand(s: State): seq<Event> {
    if s.producer.Emitting? then [s.producer.event] else []
  }

  /** Where an event that was sent can be, the earliest first. */
  function Places(s: State): seq<Event> {
    Line(EventsOf(Wire(s)), InHandlersHand(s), s.frames, InProducersHand(s), s.dropped)
  }

  function Line(wire: seq<Event>, hand: seq<Event>, frames: seq<Event>, emitting: seq<Event>, dropped: seq<Event>)
    : seq<Event>
  {
    wire + hand + frames + emitting + dropped
  }

  /** Conservation: each event Control sent is in exactly one place, and the places are in order. */
  ghost predicate Conserved(c: Config, s: State) {
    && c.start + s.pulled <= |c.log|
    && Sent(c, s) == Places(s)
  }

  ghost predicate Bounded(c: Config, s: State) {
    && |s.frames| <= c.buffer
    && |s.cut| <= 1
    && (s.cut != [] ==> s.handler.Left())
    && |s.dropped| <= 1
    && (s.dropped != [] ==> s.producer.Returning? || s.producer.Finished?)
  }

  /** The outcome the handler is acting on. */
  function Received(s: State): Option<Outcome> {
    match s.handler
    case Draining(o) => Some(o)
    case Settling(o) => Some(o)
    case Writing(_, BackToDrain(o)) => Some(o)
    case _ => None
  }

  /** The outcome the producer is going to report, or has reported. */
  function Decided(s: State): Option<Outcome> {
    if s.producer.Returning? || s.producer.Finished? then Some(s.producer.outcome) else None
  }

  /** The handler still listens to the stream it admitted. */
  predicate Serving(h: HandlerPc) {
    h.Looping? || (h.Writing? && h.next.BackToLoop?)
  }

  /** The handshake over `done` and the context. */
  ghost predicate Handshake(s: State) {
    && (s.handler.Fresh? <==> s.producer.Unborn?)
    && (s.handler.Fresh? || s.handler.FirstSelect? ==> !s.ended && s.branch.Undecided?)
    && (s.done.Some? ==> s.producer == Finished(s.done.value))
    && (s.ended ==> s.producer.Finished? && s.done.None?)
    && (s.producer.Finished? && s.done.None? ==> s.ended || s.handler.Releasing? || s.handler.Returned?)
    && (Serving(s.handler) ==> !s.ended && s.branch.ByAdmission?)
    && (Received(s).Some? ==> s.ended && s.producer == Finished(Received(s).value) && s.branch.ByAdmission?)
    && (s.handler.Writing? && s.handler.next.AfterRetry? ==>
          if s.branch.ByEnd? then s.ended else !s.ended && s.branch.ByAdmission?)
    && (s.handler.Joining? ==> !s.ended)
    && (s.handler.Releasing? || s.handler.Returned? ==> s.producer.Finished? && s.done.None?)
    && (s.canceled <==> s.handler.Joining? || s.handler.Releasing? || s.handler.Returned?)
    && (s.branch.ByEnd? ==> s.ended)
    && (s.ended ==> s.branch.ByEnd? || s.branch.ByAdmission?)
  }

  /** Control was asked, in order: admission precedes the first event, and a reset excludes it. */
  ghost predicate Admission(s: State) {
    && (s.producer.Receiving? || s.producer.Emitting? ==> s.admitted)
    && (s.producer.Unborn? || s.producer.Listing? || s.producer.Opening? || s.producer.Bare? ==> !s.admitted)
    && (s.branch.ByAdmission? ==> s.admitted)
    && (!s.admitted ==> s.pulled == 0)
    && (Decided(s).Some? && Decided(s).value.ResetNeeded? ==> !s.admitted)
    && (Decided(s).Some? && (Decided(s).value.SlowConsumer? || Decided(s).value.Canceled?) ==> s.admitted)
    && (Decided(s) == Some(Clean) ==> s.dropped == [])
    && (!Decided(s).Some? ==> s.dropped == [])
    && (Decided(s) == Some(SlowConsumer) ==> s.dropped != [])
  }

  /** The answer the client has, by the case the first select took. */
  ghost predicate Answer(s: State) {
    match s.branch
    case Undecided => (s.handler.Fresh? || s.handler.FirstSelect?) && s.response.Silent?
    case ByAdmission => s.response.Begun? && !s.handler.Fresh? && !s.handler.FirstSelect?
    case ByEnd =>
      && s.producer.Finished?
      && s.response == (if s.producer.outcome.Clean? || s.producer.outcome.ResetNeeded? then Begun
                        else Refused(Some(s.producer.outcome)))
      && (s.handler.Left()
          || (s.handler.Writing? && (s.handler.next.AfterRetry? || s.handler.next.ThenLeave?) && s.response.Begun?))
    case ByShutdown => s.handler.Left() && s.response == Refused(None)
    case ByClient => s.handler.Left() && s.response.Silent?
  }

  /** The chunks a running stream may have written: the retry preamble, then events and heartbeats. */
  ghost predicate OpenWire(w: seq<Chunk>) {
    && w != []
    && w[0].Retry?
    && forall i :: 1 <= i < |w| ==> w[i].Heartbeat? || w[i].EventFrame?
  }

  /** The chunks of a stream that is over: the same, and possibly one end or reset frame as the last. */
  ghost predicate ClosedWire(w: seq<Chunk>) {
    && (w != [] ==> w[0].Retry?)
    && (1 < |w| ==> !w[|w| - 1].Retry?)
    && forall i :: 1 <= i < |w| - 1 ==> w[i].Heartbeat? || w[i].EventFrame?
  }

  /** What the next write is, given what is on the wire. */
  ghost predicate NextWrite(c: Config, s: State, chunk: Chunk, next: Then) {
    match next
    case AfterRetry(reset) =>
      && Wire(s) == []
      && chunk == Retry(c.retryMillis)
      && (reset.Some? <==> s.branch.ByEnd? && s.producer.Finished? && s.producer.outcome.ResetNeeded?)
      && (reset.Some? ==> s.producer.outcome.payload == reset.value)
    case BackToLoop => OpenWire(Wire(s)) && (chunk.Heartbeat? || chunk.EventFrame?)
    case BackToDrain(_) => OpenWire(Wire(s)) && chunk.EventFrame?
    case ThenLeave =>
      && OpenWire(Wire(s))
      && (chunk == EndFrame(c.endPayload) || (chunk.ResetFrame? && s.producer == Finished(ResetNeeded(chunk.payload))))
      && (s.branch.ByEnd? ==> chunk.ResetFrame?)
  }

  ghost predicate Written(c: Config, s: State) {
    match s.handler
    case Writing(chunk, next) => NextWrite(c, s, chunk, next)
    case Looping => OpenWire(Wire(s))
    case Draining(_) => OpenWire(Wire(s))
    case Settling(_) => OpenWire(Wire(s))
    case Fresh => Wire(s) == []
    case FirstSelect => Wire(s) == []
    case _ => ClosedWire(Wire(s)) && (!s.response.Begun? ==> Wire(s) == [])
  }

  /** The handler is past its drain. */
  predicate Past(h: HandlerPc) {
    h.Left() || (h.Writing? && h.next.ThenLeave?)
  }

  /** Where the handler stands once the stream ended: nothing is left in the channel when it settles. */
  ghost predicate Drained(s: State) {
    && (s.handler.Settling? ==> s.frames == [])
    && (s.ended && s.branch.ByAdmission? ==> Received(s).Some? || Past(s.handler))
    && (s.ended && s.branch.ByAdmission? && Past(s.handler) && s.cut == [] ==> s.frames == [])
    && (s.branch.ByEnd? ==> EventsOf(Wire(s)) == [] && InHandlersHand(s) == [])
  }

  ghost predicate Inv(c: Config, s: State) {
    Conserved(c, s) && Bounded(c, s) && Handshake(s) && Admission(s) && Answer(s) && Written(c, s) && Drained(s)
  }

  lemma InitInv(c: Config, stopping: bool)
    ensures Inv(c, Init(stopping))
  {
  }

  // ---- kinds of steps ----

  predicate IsWrite(step: HandlerStep) {
    step.WriteOk? || step.WriteFails?
  }

  predicate IsTake(step: HandlerStep) {
    step.LoopFrame? || step.DrainFrame?
  }

  // The handler's steps in four groups: up to the first select, the writes, the main loop's select, and
  // the drain with all that follows it.

  predicate IsOpening(step: HandlerStep) {
    || step.Launch? || step.SelectAdmitted? || step.SelectDone? || step.SelectShutdown?
    || step.SelectClientGone?
  }

  predicate IsWriting(step: HandlerStep) {
    IsWrite(step) || step.SkipTerminal?
  }

  predicate IsLooping(step: HandlerStep) {
    || step.LoopFrame? || step.LoopHeartbeat? || step.LoopDone? || step.LoopShutdown?
    || step.LoopClientGone?
  }

  predicate IsClosing(step: HandlerStep) {
    || step.DrainFrame? || step.DrainEmpty? || step.Settle? || step.Cancel? || step.Join? || step.Release?
  }

  // ---- conservation ----

  /** The write that is tried is appended to the wire, whether or not it succeeds. */
  lemma WireGrows(c: Config, s: State, step: HandlerStep)
    requires HandlerMay(s, step) && IsWrite(step) && s.cut == []
    ensures Wire(HandlerDoes(c, s, step)) == Wire(s) + [s.handler.chunk]
    ensures EventsOf(Wire(HandlerDoes(c, s, step))) == EventsOf(Wire(s)) + InHandlersHand(s)
  {
    EventsOfConcat(Wire(s), [s.handler.chunk]);
    assert EventsOf([s.handler.chunk]) == InHandlersHand(s);
  }

  // An event that moves to the next place stays in line.

  lemma TakenInLine(wire: seq<Event>, frames: seq<Event>, emitting: seq<Event>, dropped: seq<Event>)
    requires frames != []
    ensures Line(wire, [frames[0]], frames[1..], emitting, dropped) == Line(wire, [], frames, emitting, dropped)
  {
    assert [frames[0]] + frames[1..] == frames;
    assert wire + [frames[0]] + frames[1..] == wire + [] + frames;
  }

  lemma PutInLine(wire: seq<Event>, hand: seq<Event>, frames: seq<Event>, emitting: seq<Event>, dropped: seq<Event>)
    ensures Line(wire, hand, frames + emitting, [], dropped) == Line(wire, hand, frames, emitting, dropped)
  {
    assert wire + hand + (frames + emitting) + [] == wire + hand + frames + emitting;
  }

  lemma DroppedInLine(wire: seq<Event>, hand: seq<Event>, frames: seq<Event>, emitting: seq<Event>)
    ensures Line(wire, hand, frames, [], emitting) == Line(wire, hand, frames, emitting, [])
  {
  }

  lemma NewInLine(wire: seq<Event>, hand: seq<Event>, frames: seq<Event>, event: seq<Event>)
    ensures Line(wire, hand, frames, event, []) == Line(wire, hand, frames, [], []) + event
    ensures Line(wire, hand, frames, [], event) == Line(wire, hand, frames, [], []) + event
  {
  }

  lemma ConservedByWrite(c: Config, s: State, step: HandlerStep)
    requires Conserved(c, s) && HandlerMay(s, step) && IsWrite(step) && s.cut == []
    ensures Conserved(c, HandlerDoes(c, s, step))
  {
    var t := HandlerDoes(c, s, step);
    WireGrows(c, s, step);
    assert t.frames == s.frames && t.dropped == s.dropped && t.producer == s.producer && t.pulled == s.pulled;
    assert InHandlersHand(t) == [];
    assert EventsOf(Wire(t)) + [] == EventsOf(Wire(s)) + InHandlersHand(s);
  }

  lemma ConservedByTake(c: Config, s: State, step: HandlerStep)
    requires Conserved(c, s) && HandlerMay(s, step) && IsTake(step)
    ensures Conserved(c, HandlerDoes(c, s, step))
  {
    var t := HandlerDoes(c, s, step);
    assert Wire(t) == Wire(s) && InHandlersHand(t) == [s.frames[0]] && InProducersHand(t) == InProducersHand(s);
    TakenInLine(EventsOf(Wire(s)), s.frames, InProducersHand(s), s.dropped);
  }

  ghost predicate SamePlaces(s: State, t: State) {
    && Wire(t) == Wire(s) && t.frames == s.frames && t.dropped == s.dropped && t.pulled == s.pulled
    && InHandlersHand(t) == InHandlersHand(s) && InProducersHand(t) == InProducersHand(s)
  }

  /** The handler's other steps leave every event where it is. */
  lemma StaysPutOpening(c: Config, s: State, step: HandlerStep)
    requires HandlerMay(s, step) && IsOpening(step)
    requires s.handler.Fresh? ==> s.producer.Unborn?
    ensures SamePlaces(s, HandlerDoes(c, s, step))
  {
  }

  lemma StaysPutLooping(c: Config, s: State, step: HandlerStep)
    requires HandlerMay(s, step) && (IsLooping(step) || step.SkipTerminal?) && !IsTake(step)
    requires s.handler.Writing? && s.handler.next.ThenLeave? ==> !s.handler.chunk.EventFrame?
    ensures SamePlaces(s, HandlerDoes(c, s, step))
  {
  }

  lemma StaysPutClosing(c: Config, s: State, step: HandlerStep)
    requires HandlerMay(s, step) && IsClosing(step) && !IsTake(step)
    ensures SamePlaces(s, HandlerDoes(c, s, step))
  {
  }

  lemma ConservedByHandler(c: Config, s: State, step: HandlerStep)
    requires Conserved(c, s) && Bounded(c, s) && HandlerMay(s, step)
    requires s.handler.Fresh? ==> s.producer.Unborn?
    requires s.handler.Writing? && s.handler.next.ThenLeave? ==> !s.handler.chunk.EventFrame?
    ensures Conserved(c, HandlerDoes(c, s, step))
  {
    if IsWrite(step) {
      ConservedByWrite(c, s, step);
    } else if IsTake(step) {
      ConservedByTake(c, s, step);
    } else if IsOpening(step) {
      StaysPutOpening(c, s, step);
    } else if IsClosing(step) {
      StaysPutClosing(c, s, step);
    } else {
      StaysPutLooping(c, s, step);
    }
  }

  lemma OneMoreSent(c: Config, s: State, t: State)
    requires c.start + s.pulled < |c.log| && t.pulled == s.pulled + 1
    ensures Sent(c, t) == Sent(c, s) + [c.log[c.start + s.pulled]]
  {
  }

  lemma ConservedByReceive(c: Config, s: State, step: ProducerStep)
    requires Conserved(c, s) && Bounded(c, s) && ProducerMay(c, s, step) && Receives(step)
    ensures Conserved(c, ProducerDoes(c, s, step))
  {
    var t, e := ProducerDoes(c, s, step), c.log[c.start + s.pulled];
    OneMoreSent(c, s, t);
    assert Wire(t) == Wire(s) && InHandlersHand(t) == InHandlersHand(s) && t.frames == s.frames;
    NewInLine(EventsOf(Wire(s)), InHandlersHand(s), s.frames, [e]);
  }

  lemma ConservedByPut(c: Config, s: State)
    requires Conserved(c, s) && Bounded(c, s) && ProducerMay(c, s, Put)
    ensures Conserved(c, ProducerDoes(c, s, Put))
  {
    var t := ProducerDoes(c, s, Put);
    assert Wire(t) == Wire(s) && InHandlersHand(t) == InHandlersHand(s) && InProducersHand(t) == [];
    PutInLine(EventsOf(Wire(s)), InHandlersHand(s), s.frames, InProducersHand(s), s.dropped);
  }

  lemma ConservedByGivingUp(c: Config, s: State, step: ProducerStep)
    requires Conserved(c, s) && Bounded(c, s) && ProducerMay(c, s, step)
    requires step.PutCanceled? || step.PutSlow?
    ensures Conserved(c, ProducerDoes(c, s, step))
  {
    var t := ProducerDoes(c, s, step);
    assert Wire(t) == Wire(s) && InHandlersHand(t) == InHandlersHand(s) && InProducersHand(t) == [];
    DroppedInLine(EventsOf(Wire(s)), InHandlersHand(s), s.frames, InProducersHand(s));
  }

  predicate Receives(step: ProducerStep) {
    step.ReceiveEvent? || step.ReceiveUnencodable?
  }

  predicate Emits(step: ProducerStep) {
    step.Put? || step.PutCanceled? || step.PutSlow?
  }

  lemma StaysPutCalling(c: Config, s: State, step: ProducerStep)
    requires ProducerMay(c, s, step) && !Receives(step) && !Emits(step)
    ensures SamePlaces(s, ProducerDoes(c, s, step))
  {
  }

  // ---- the rest, one actor at a time ----

  lemma HandshakeByProducer(c: Config, s: State, step: ProducerStep)
    requires Bounded(c, s) && Handshake(s) && Admission(s) && ProducerMay(c, s, step)
    ensures var t := ProducerDoes(c, s, step); Bounded(c, t) && Handshake(t) && Admission(t)
  {
  }

  lemma AnswerByProducer(c: Config, s: State, step: ProducerStep)
    requires Handshake(s) && Answer(s) && Written(c, s) && ProducerMay(c, s, step)
    ensures var t := ProducerDoes(c, s, step); Answer(t) && Written(c, t)
  {
    assert Wire(ProducerDoes(c, s, step)) == Wire(s);
  }

  lemma DrainedByProducer(c: Config, s: State, step: ProducerStep)
    requires Handshake(s) && Drained(s) && ProducerMay(c, s, step)
    ensures Drained(ProducerDoes(c, s, step))
  {
    assert Wire(ProducerDoes(c, s, step)) == Wire(s);
  }

  lemma HandshakeByOpening(c: Config, s: State, step: HandlerStep)
    requires Handshake(s) && Admission(s) && HandlerMay(s, step) && IsOpening(step)
    ensures Handshake(HandlerDoes(c, s, step)) && Admission(HandlerDoes(c, s, step))
  {
  }

  lemma AnswerByOpening(c: Config, s: State, step: HandlerStep)
    requires Bounded(c, s) && Handshake(s) && Answer(s) && Written(c, s) && HandlerMay(s, step) && IsOpening(step)
    ensures Bounded(c, HandlerDoes(c, s, step)) && Answer(HandlerDoes(c, s, step))
  {
  }

  lemma WrittenByOpening(c: Config, s: State, step: HandlerStep)
    requires Handshake(s) && Answer(s) && Written(c, s) && Drained(s) && HandlerMay(s, step) && IsOpening(step)
    requires s.cut != [] ==> s.handler.Left()
    ensures Written(c, HandlerDoes(c, s, step)) && Drained(HandlerDoes(c, s, step))
  {
    assert Wire(HandlerDoes(c, s, step)) == Wire(s);
  }

  lemma HandshakeByWriting(c: Config, s: State, step: HandlerStep)
    requires Handshake(s) && Admission(s) && HandlerMay(s, step) && IsWriting(step)
    ensures Handshake(HandlerDoes(c, s, step)) && Admission(HandlerDoes(c, s, step))
  {
  }

  lemma AnswerByWriting(c: Config, s: State, step: HandlerStep)
    requires Bounded(c, s) && Handshake(s) && Answer(s) && Written(c, s) && HandlerMay(s, step) && IsWriting(step)
    ensures Bounded(c, HandlerDoes(c, s, step)) && Answer(HandlerDoes(c, s, step))
  {
  }

  lemma WrittenByWriting(c: Config, s: State, step: HandlerStep)
    requires Handshake(s) && Answer(s) && Written(c, s) && HandlerMay(s, step) && IsWriting(step)
    requires s.cut != [] ==> s.handler.Left()
    ensures Written(c, HandlerDoes(c, s, step))
  {
    if IsWrite(step) {
      WireGrows(c, s, step);
    }
  }

  lemma DrainedByWriting(c: Config, s: State, step: HandlerStep)
    requires Handshake(s) && Answer(s) && Drained(s) && HandlerMay(s, step) && IsWriting(step)
    requires s.cut != [] ==> s.handler.Left()
    requires s.handler.FirstSelect? ==> Wire(s) == []
    ensures Drained(HandlerDoes(c, s, step))
  {
    if IsWrite(step) {
      WireGrows(c, s, step);
    }
  }

  lemma HandshakeByLooping(c: Config, s: State, step: HandlerStep)
    requires Handshake(s) && Admission(s) && HandlerMay(s, step) && IsLooping(step)
    ensures Handshake(HandlerDoes(c, s, step)) && Admission(HandlerDoes(c, s, step))
  {
  }

  lemma AnswerByLooping(c: Config, s: State, step: HandlerStep)
    requires Bounded(c, s) && Handshake(s) && Answer(s) && Written(c, s) && HandlerMay(s, step) && IsLooping(step)
    ensures Bounded(c, HandlerDoes(c, s, step)) && Answer(HandlerDoes(c, s, step))
  {
  }

  lemma WrittenByLooping(c: Config, s: State, step: HandlerStep)
    requires Handshake(s) && Answer(s) && Written(c, s) && Drained(s) && HandlerMay(s, step) && IsLooping(step)
    requires s.cut != [] ==> s.handler.Left()
    ensures Written(c, HandlerDoes(c, s, step)) && Drained(HandlerDoes(c, s, step))
  {
    assert Wire(HandlerDoes(c, s, step)) == Wire(s);
  }

  lemma HandshakeByClosing(c: Config, s: State, step: HandlerStep)
    requires Handshake(s) && Admission(s) && HandlerMay(s, step) && IsClosing(step)
    ensures Handshake(HandlerDoes(c, s, step)) && Admission(HandlerDoes(c, s, step))
  {
  }

  lemma AnswerByClosing(c: Config, s: State, step: HandlerStep)
    requires Bounded(c, s) && Handshake(s) && Answer(s) && Written(c, s) && HandlerMay(s, step) && IsClosing(step)
    ensures Bounded(c, HandlerDoes(c, s, step)) && Answer(HandlerDoes(c, s, step))
  {
  }

  lemma WrittenByClosing(c: Config, s: State, step: HandlerStep)
    requires Handshake(s) && Answer(s) && Written(c, s) && HandlerMay(s, step) && IsClosing(step)
    requires s.cut != [] ==> s.handler.Left()
    ensures Written(c, HandlerDoes(c, s, step))
  {
    assert Wire(HandlerDoes(c, s, step)) == Wire(s);
  }

  lemma DrainedByClosing(c: Config, s: State, step: HandlerStep)
    requires Handshake(s) && Answer(s) && Drained(s) && HandlerMay(s, step) && IsClosing(step)
    requires s.cut != [] ==> s.handler.Left()
    requires s.handler.FirstSelect? ==> Wire(s) == []
    ensures Drained(HandlerDoes(c, s, step))
  {
    assert Wire(HandlerDoes(c, s, step)) == Wire(s);
  }

  lemma HandlerStepInv(c: Config, s: State, step: HandlerStep)
    requires Inv(c, s) && HandlerMay(s, step)
    ensures Inv(c, HandlerDoes(c, s, step))
  {
    ConservedByHandler(c, s, step);
    if IsOpening(step) {
      HandshakeByOpening(c, s, step);
      AnswerByOpening(c, s, step);
      WrittenByOpening(c, s, step);
    } else if IsWriting(step) {
      HandshakeByWriting(c, s, step);
      AnswerByWriting(c, s, step);
      WrittenByWriting(c, s, step);
      DrainedByWriting(c, s, step);
    } else if IsLooping(step) {
      HandshakeByLooping(c, s, step);
      AnswerByLooping(c, s, step);
      WrittenByLooping(c, s, step);
    } else {
      HandshakeByClosing(c, s, step);
      AnswerByClosing(c, s, step);
      WrittenByClosing(c, s, step);
      DrainedByClosing(c, s, step);
    }
  }

  lemma EnvironmentPlaces(c: Config, s: State, t: State)
    requires Conserved(c, s) && Bounded(c, s)
    requires t == s.(clientGone := t.clientGone, shuttingDown := t.shuttingDown)
    ensures Conserved(c, t) && Bounded(c, t) && SamePlaces(s, t)
  {
  }

  lemma EnvironmentControl(c: Config, s: State, t: State)
    requires Handshake(s) && Admission(s) && Answer(s)
    requires t == s.(clientGone := t.clientGone, shuttingDown := t.shuttingDown)
    ensures Handshake(t) && Admission(t) && Answer(t)
  {
  }

  lemma EnvironmentWrites(c: Config, s: State, t: State)
    requires Written(c, s) && Drained(s)
    requires t == s.(clientGone := t.clientGone, shuttingDown := t.shuttingDown)
    ensures Written(c, t) && Drained(t)
  {
    assert Wire(t) == Wire(s);
  }

  lemma InvStep(c: Config, s: State, step: Step)
    requires Inv(c, s) && Enabled(c, s, step)
    ensures Inv(c, Apply(c, s, step))
  {
    match step
    case ByProducer(p) =>
      if Receives(p) {
        ConservedByReceive(c, s, p);
      } else if p.Put? {
        ConservedByPut(c, s);
      } else if Emits(p) {
        ConservedByGivingUp(c, s, p);
      } else {
        StaysPutCalling(c, s, p);
      }
      HandshakeByProducer(c, s, p);
      AnswerByProducer(c, s, p);
      DrainedByProducer(c, s, p);
    case ByHandler(h) => HandlerStepInv(c, s, h);
    case ClientLeaves =>
      EnvironmentPlaces(c, s, Apply(c, s, step));
      EnvironmentControl(c, s, Apply(c, s, step));
      EnvironmentWrites(c, s, Apply(c, s, step));
    case ServerStops =>
      EnvironmentPlaces(c, s, Apply(c, s, step));
      EnvironmentControl(c, s, Apply(c, s, step));
      EnvironmentWrites(c, s, Apply(c, s, step));
  }

  lemma {:induction false} InvRun(c: Config, s: State, steps: seq<Step>, t: State)
    requires Inv(c, s) && Run(c, s, steps, t)
    ensures Inv(c, t)
    decreases |steps|
  {
    if steps == [] {
    } else {
      InvStep(c, s, steps[0]);
      InvRun(c, Apply(c, s, steps[0]), steps[1..], t);
    }
  }

  lemma InvReachable(c: Config, t: State)
    requires Reachable(c, t)
    ensures Inv(c, t)
  {
    var stopping, steps :| Run(c, Init(stopping), steps, t);
    InitInv(c, stopping);
    InvRun(c, Init(stopping), steps, t);
  }
}
