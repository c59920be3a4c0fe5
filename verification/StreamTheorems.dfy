/** What holds of every run of one event stream. */
module StreamTheorems {
  import opened Basics
  import opened Frames
  import opened StreamProtocol
  import opened StreamInvariants

  // ---- conservation and delivery ----

  lemma Conservation(c: Config, s: State)
    requires Reachable(c, s)
    ensures c.start + s.pulled <= |c.log|
    ensures Sent(c, s) == EventsOf(Wire(s)) + InHandlersHand(s) + s.frames + InProducersHand(s) + s.dropped
    ensures |s.frames| <= c.buffer && |s.dropped| <= 1
  {
    InvReachable(c, s);
  }

  /** Whatever interleaved with them, the events on the wire are the first ones after the cursor. */
  lemma DeliveryIsAPrefix(c: Config, s: State)
    requires Reachable(c, s)
    ensures EventsOf(s.written) <= EventsOf(Wire(s)) <= c.log[c.start..]
  {
    InvReachable(c, s);
    EventsOfConcat(s.written, s.cut);
    LineStarts(EventsOf(Wire(s)), InHandlersHand(s), s.frames, InProducersHand(s), s.dropped);
    assert Sent(c, s) <= c.log[c.start..];
  }

  lemma LineStarts(wire: seq<Event>, hand: seq<Event>, frames: seq<Event>, emitting: seq<Event>, dropped: seq<Event>)
    ensures wire <= Line(wire, hand, frames, emitting, dropped)
  {
  }

  /** The events the producer put in the channel: all it received but one it gave up with. */
  function PutInChannel(c: Config, s: State): seq<Event>
    requires c.start + s.pulled <= |c.log| && |s.dropped| <= s.pulled
  {
    c.log[c.start..c.start + s.pulled - |s.dropped|]
  }

  lemma LineAtEnd(wire: seq<Event>, frames: seq<Event>, dropped: seq<Event>)
    ensures Line(wire, [], frames, [], dropped) == wire + frames + dropped
  {
    assert wire + [] == wire && wire + frames + [] == wire + frames;
  }

  lemma SliceStart(log: seq<Event>, i: nat, n: nat, put: seq<Event>, dropped: seq<Event>)
    requires i + n <= |log| && log[i..i + n] == put + dropped
    ensures |dropped| <= n && log[i..i + n - |dropped|] == put
  {
    var k := |put|;
    assert |log[i..i + n]| == k + |dropped|;
    forall j | 0 <= j < k
      ensures log[i..i + k][j] == put[j]
    {
      assert log[i..i + n][j] == put[j];
    }
  }

  /** When the handler has returned nothing is in a hand. */
  lemma ReturnedLine(c: Config, s: State)
    requires Inv(c, s) && s.handler.Returned?
    ensures Sent(c, s) == Line(EventsOf(Wire(s)), [], s.frames, [], s.dropped)
  {
  }

  lemma ReturnedPlaces(c: Config, s: State)
    requires Inv(c, s) && s.handler.Returned?
    ensures |s.dropped| <= s.pulled
    ensures PutInChannel(c, s) == EventsOf(Wire(s)) + s.frames
  {
    ReturnedLine(c, s);
    LineAtEnd(EventsOf(Wire(s)), s.frames, s.dropped);
    SliceStart(c.log, c.start, s.pulled, EventsOf(Wire(s)) + s.frames, s.dropped);
  }

  /** A handler that received the stream's end and had no write fail delivered every frame of the
      channel exactly when its first select had taken the admission (or there was no frame). Otherwise
      it delivered none, and what was lost fitted the channel. */
  lemma CompleteDelivery(c: Config, s: State)
    requires Reachable(c, s) && s.handler.Returned? && s.ended && s.cut == []
    ensures c.start + s.pulled <= |c.log| && |s.dropped| <= s.pulled
    ensures EventsOf(s.written) == PutInChannel(c, s) <==> s.branch.ByAdmission? || PutInChannel(c, s) == []
    ensures EventsOf(s.written) != PutInChannel(c, s) ==>
              EventsOf(s.written) == [] && 1 <= |PutInChannel(c, s)| <= c.buffer
    ensures s.producer == Finished(Clean) ==> PutInChannel(c, s) == Sent(c, s)
  {
    InvReachable(c, s);
    ReturnedPlaces(c, s);
    assert Wire(s) == s.written;
  }

  /** The stream is admitted and n events wait in the channel. */
  function Waiting(c: Config, n: nat): State
    requires c.start + n <= |c.log|
  {
    Init(false).(handler := FirstSelect, producer := Receiving, frames := c.log[c.start..c.start + n],
                 admitted := true, pulled := n)
  }

  /** The case CompleteDelivery shuts out, for any number of events the channel can hold: the stream is
      admitted, n events wait in the channel, Control ends it, and a first select that takes `done` answers
      200 with no event at all. */
  lemma AdmittedStreamCanEndWithoutItsEvents(c: Config, n: nat)
    requires n <= c.buffer && c.start + n <= |c.log|
    ensures exists s ::
      && Reachable(c, s) && s.handler.Returned? && s.admitted && s.response.Begun?
      && s.producer == Finished(Clean) && s.pulled == n && s.dropped == []
      && s.written == [Retry(c.retryMillis)] && s.cut == [] && !s.clientGone && !s.shuttingDown
  {
    var steps := LostStart(c, n);
    var rest, t := LostEnd(c, n);
    RunConcat(c, Init(false), steps, Waiting(c, n), rest, t);
    assert Reachable(c, t);
  }

  lemma {:induction false} LostStart(c: Config, n: nat) returns (steps: seq<Step>)
    requires n <= c.buffer && c.start + n <= |c.log|
    ensures Run(c, Init(false), steps, Waiting(c, n))
  {
    if n == 0 {
      var s1 := HandlerDoes(c, Init(false), Launch);
      var s2 := ProducerDoes(c, s1, ListOk);
      assert ProducerDoes(c, s2, OpenAdmit) == Waiting(c, 0);
      steps := RunOf(c, s2, ByProducer(OpenAdmit), [], Waiting(c, 0));
      steps := RunOf(c, s1, ByProducer(ListOk), steps, Waiting(c, 0));
      steps := RunOf(c, Init(false), ByHandler(Launch), steps, Waiting(c, 0));
    } else {
      var before := LostStart(c, n - 1);
      var rest := OneMoreWaits(c, n - 1);
      RunConcat(c, Init(false), before, Waiting(c, n - 1), rest, Waiting(c, n));
      steps := before + rest;
    }
  }

  lemma OneMoreWaits(c: Config, n: nat) returns (steps: seq<Step>)
    requires n < c.buffer && c.start + n < |c.log|
    ensures Run(c, Waiting(c, n), steps, Waiting(c, n + 1))
  {
    var s, t := Waiting(c, n), Waiting(c, n + 1);
    var m := ProducerDoes(c, s, ReceiveEvent);
    assert ProducerDoes(c, m, Put) == t;
    steps := RunOf(c, m, ByProducer(Put), [], t);
    steps := RunOf(c, s, ByProducer(ReceiveEvent), steps, t);
  }

  lemma LostEnd(c: Config, n: nat) returns (steps: seq<Step>, t: State)
    requires c.start + n <= |c.log|
    ensures Run(c, Waiting(c, n), steps, t)
    ensures t.handler.Returned? && t.admitted && t.response.Begun? && t.producer == Finished(Clean) && t.pulled == n
    ensures t.dropped == [] && t.written == [Retry(c.retryMillis)] && t.cut == []
    ensures !t.clientGone && !t.shuttingDown
  {
    var s := Waiting(c, n);
    var s1 := ProducerDoes(c, s, ReceiveEnd);
    var s2 := ProducerDoes(c, s1, Report);
    var rest;
    rest, t := LostByHandler(c, s2);
    steps := RunOf(c, s1, ByProducer(Report), rest, t);
    steps := RunOf(c, s, ByProducer(ReceiveEnd), steps, t);
  }

  lemma LostByHandler(c: Config, s: State) returns (steps: seq<Step>, t: State)
    requires s.handler.FirstSelect? && s.done == Some(Clean) && s.written == []
    ensures Run(c, s, steps, t)
    ensures t.handler.Returned? && t.response.Begun? && t.written == [Retry(c.retryMillis)]
    ensures t.admitted == s.admitted && t.producer == s.producer && t.pulled == s.pulled && t.dropped == s.dropped
    ensures t.cut == s.cut && t.clientGone == s.clientGone && t.shuttingDown == s.shuttingDown
  {
    var s1 := HandlerDoes(c, s, SelectDone);
    var s2 := HandlerDoes(c, s1, WriteOk);
    var s3 := HandlerDoes(c, s2, Cancel);
    t := HandlerDoes(c, s3, Release);
    steps := RunOf(c, s3, ByHandler(Release), [], t);
    steps := RunOf(c, s2, ByHandler(Cancel), steps, t);
    steps := RunOf(c, s1, ByHandler(WriteOk), steps, t);
    steps := RunOf(c, s, ByHandler(SelectDone), steps, t);
  }

  lemma RunOf(c: Config, s: State, step: Step, rest: seq<Step>, t: State) returns (steps: seq<Step>)
    requires Enabled(c, s, step) && Run(c, Apply(c, s, step), rest, t)
    ensures Run(c, s, steps, t)
  {
    steps := [step] + rest;
    assert steps[1..] == rest;
  }

  lemma {:induction false} RunConcat(c: Config, s: State, steps: seq<Step>, m: State, rest: seq<Step>, t: State)
    requires Run(c, s, steps, m) && Run(c, m, rest, t)
    ensures Run(c, s, steps + rest, t)
    decreases |steps|
  {
    if steps == [] {
      assert steps + rest == rest;
    } else {
      RunConcat(c, Apply(c, s, steps[0]), steps[1..], m, rest, t);
      assert (steps + rest)[1..] == steps[1..] + rest;
    }
  }

  // ---- the drain ----

  function One(b: bool): nat {
    if b then 1 else 0
  }

  function WriteTries(steps: seq<Step>): nat {
    if steps == [] then 0
    else (if steps[0].ByHandler? && IsWrite(steps[0].h) then 1 else 0) + WriteTries(steps[1..])
  }

  /** How many writes a handler that received `done` can still try. */
  function WritesLeft(s: State): nat {
    match s.handler
    case Draining(_) => |s.frames| + 1
    case Writing(_, BackToDrain(_)) => |s.frames| + 2
    case Settling(_) => 1
    case Writing(_, ThenLeave) => 1
    case _ => 0
  }

  ghost predicate Ending(s: State) {
    s.producer.Finished? && (Received(s).Some? || Past(s.handler))
  }

  lemma EndingByHandler(c: Config, s: State, h: HandlerStep)
    requires Ending(s) && HandlerMay(s, h)
    ensures Ending(HandlerDoes(c, s, h))
    ensures One(IsWrite(h)) + WritesLeft(HandlerDoes(c, s, h)) <= WritesLeft(s)
  {
  }

  lemma {:induction false} EndingRun(c: Config, s: State, steps: seq<Step>, t: State)
    requires Ending(s) && Run(c, s, steps, t)
    ensures WriteTries(steps) + WritesLeft(t) <= WritesLeft(s)
    decreases |steps|
  {
    if steps == [] {
    } else {
      if steps[0].ByHandler? {
        EndingByHandler(c, s, steps[0].h);
      }
      EndingRun(c, Apply(c, s, steps[0]), steps[1..], t);
    }
  }

  /** After `done` is received at most the buffered frames and one terminal frame are written. */
  lemma DrainIsBounded(c: Config, s: State, steps: seq<Step>, t: State)
    requires Reachable(c, s) && s.handler.Draining? && Run(c, s, steps, t)
    ensures WriteTries(steps) <= |s.frames| + 1 <= c.buffer + 1
  {
    InvReachable(c, s);
    EndingRun(c, s, steps, t);
  }

  // ---- joining ----

  predicate IsReceive(step: HandlerStep) {
    step.SelectDone? || step.LoopDone? || step.Join?
  }

  /** How often `done` is sent, `done` is received and `admitted` is closed along the steps. */
  function Sends(steps: seq<Step>): nat {
    if steps == [] then 0 else (if steps[0] == ByProducer(Report) then 1 else 0) + Sends(steps[1..])
  }

  function Receipts(steps: seq<Step>): nat {
    if steps == [] then 0
    else (if steps[0].ByHandler? && IsReceive(steps[0].h) then 1 else 0) + Receipts(steps[1..])
  }

  function Closings(steps: seq<Step>): nat {
    if steps == [] then 0 else (if steps[0] == ByProducer(OpenAdmit) then 1 else 0) + Closings(steps[1..])
  }

  lemma {:induction false} Counts(c: Config, s: State, steps: seq<Step>, t: State)
    requires Inv(c, s) && Run(c, s, steps, t)
    ensures Sends(steps) + One(s.producer.Finished?) == One(t.producer.Finished?)
    ensures Receipts(steps) + One(s.producer.Finished? && s.done.None?) == One(t.producer.Finished? && t.done.None?)
    ensures Closings(steps) + One(s.admitted) == One(t.admitted)
    decreases |steps|
  {
    if steps == [] {
    } else {
      InvStep(c, s, steps[0]);
      CountsStep(c, s, steps[0]);
      Counts(c, Apply(c, s, steps[0]), steps[1..], t);
    }
  }

  ghost predicate CountsMatch(s: State, t: State, send: bool, receive: bool, close: bool) {
    && One(send) + One(s.producer.Finished?) == One(t.producer.Finished?)
    && One(receive) + One(s.producer.Finished? && s.done.None?) == One(t.producer.Finished? && t.done.None?)
    && One(close) + One(s.admitted) == One(t.admitted)
  }

  lemma CountsByHandler(c: Config, s: State, h: HandlerStep)
    requires Handshake(s) && Admission(s) && HandlerMay(s, h)
    ensures CountsMatch(s, HandlerDoes(c, s, h), false, IsReceive(h), false)
  {
  }

  lemma CountsByProducer(c: Config, s: State, p: ProducerStep)
    requires Handshake(s) && Admission(s) && ProducerMay(c, s, p)
    ensures CountsMatch(s, ProducerDoes(c, s, p), p.Report?, false, p.OpenAdmit?)
  {
  }

  lemma CountsStep(c: Config, s: State, step: Step)
    requires Handshake(s) && Admission(s) && Enabled(c, s, step)
    ensures CountsMatch(s, Apply(c, s, step), step == ByProducer(Report), step.ByHandler? && IsReceive(step.h),
                        step == ByProducer(OpenAdmit))
  {
    match step
    case ByProducer(p) => CountsByProducer(c, s, p);
    case ByHandler(h) => CountsByHandler(c, s, h);
    case ClientLeaves =>
    case ServerStops =>
  }

  /** On every run `admitted` is closed at most once, `done` is sent at most once and never blocks, and
      a handler that has returned has received it exactly once, after the producer ended. */
  lemma JoinedExactlyOnce(c: Config, stopping: bool, steps: seq<Step>, t: State)
    requires Run(c, Init(stopping), steps, t)
    ensures Closings(steps) <= 1 && Receipts(steps) <= Sends(steps) <= 1
    ensures t.producer.Returning? ==> ProducerMay(c, t, Report)
    ensures t.handler.Returned? ==> t.producer.Finished? && Sends(steps) == 1 && Receipts(steps) == 1
  {
    InitInv(c, stopping);
    InvRun(c, Init(stopping), steps, t);
    Counts(c, Init(stopping), steps, t);
  }

  // ---- progress ----

  /** Steps only Control, the client or the operator can make happen. A call fails by itself once the
      context is done; timers fire by themselves. */
  predicate FromOutside(s: State, step: Step) {
    match step
    case ByProducer(p) =>
      if p.CallFails? then !s.ContextDone()
      else s.producer.Calling()
    case ByHandler(_) => false
    case ClientLeaves => true
    case ServerStops => true
  }

  /** The one place a stream can only wait: Control has not answered, and nobody gave up. */
  predicate AwaitsControl(s: State) {
    && s.handler.FirstSelect?
    && (s.producer.Listing? || s.producer.Opening? || s.producer.Bare?)
    && !s.ContextDone()
    && !s.shuttingDown
  }

  /** A step of the stream's own that is enabled. */
  function OwnStep(c: Config, s: State): Step {
    match s.handler
    case Fresh => ByHandler(Launch)
    case FirstSelect =>
      if s.admitted then ByHandler(SelectAdmitted)
      else if s.done.Some? then ByHandler(SelectDone)
      else if s.shuttingDown then ByHandler(SelectShutdown)
      else if s.ContextDone() then ByHandler(SelectClientGone)
      else ByProducer(Report)
    case Writing(_, _) => ByHandler(WriteOk)
    case Looping => ByHandler(LoopHeartbeat)
    case Draining(_) => if s.frames == [] then ByHandler(DrainEmpty) else ByHandler(DrainFrame)
    case Settling(_) => ByHandler(Settle)
    case Leaving => ByHandler(Cancel)
    case Joining =>
      if s.done.Some? then ByHandler(Join)
      else if s.producer.Returning? then ByProducer(Report)
      else if s.producer.Emitting? then ByProducer(PutCanceled)
      else ByProducer(CallFails)
    case Releasing => ByHandler(Release)
    case Returned => ClientLeaves
  }

  /** No deadlock: until the handler has returned, the stream has a step of its own, except exactly
      while it awaits Control's answer; once it has returned the producer has ended. */
  lemma NoDeadlock(c: Config, s: State)
    requires Reachable(c, s)
    ensures s.handler.Returned? ==> s.producer.Finished?
    ensures !s.handler.Returned? ==>
      ((exists step :: Enabled(c, s, step) && !FromOutside(s, step)) <==> !AwaitsControl(s))
  {
    InvReachable(c, s);
    if !s.handler.Returned? && !AwaitsControl(s) {
      OwnStepIsEnabled(c, s);
    }
  }

  lemma OwnStepIsEnabled(c: Config, s: State)
    requires Handshake(s) && Admission(s) && !s.handler.Returned? && !AwaitsControl(s)
    ensures Enabled(c, s, OwnStep(c, s)) && !FromOutside(s, OwnStep(c, s))
  {
  }

  function Heartbeats(steps: seq<Step>): nat {
    if steps == [] then 0 else (if steps[0] == ByHandler(LoopHeartbeat) then 1 else 0) + Heartbeats(steps[1..])
  }

  function ProducerCost(c: Config, s: State): nat {
    var left := if c.start + s.pulled <= |c.log| then |c.log| - c.start - s.pulled else 0;
    match s.producer
    case Unborn => 4 * left + 5
    case Listing => 4 * left + 4
    case Opening => 4 * left + 3
    case Bare => 2
    case Receiving => 4 * left + 2
    case Emitting(_) => 4 * left + 5
    case Returning(_) => 1
    case Finished(_) => 0
  }

  function HandlerCost(s: State): nat {
    match s.handler
    case Fresh => 10
    case FirstSelect => 9
    case Writing(_, AfterRetry(_)) => 8
    case Writing(_, BackToLoop) => 8
    case Writing(_, BackToDrain(_)) => 7
    case Writing(_, ThenLeave) => 4
    case Looping => 7
    case Draining(_) => 6
    case Settling(_) => 5
    case Leaving => 3
    case Joining => 2
    case Releasing => 1
    case Returned => 0
  }

  function Cost(c: Config, s: State): nat {
    ProducerCost(c, s) + HandlerCost(s) + 2 * |s.frames| + One(!s.clientGone) + One(!s.shuttingDown)
  }

  ghost predicate HandlerCostFalls(s: State, t: State, beat: bool) {
    && HandlerCost(t) + 2 * |t.frames| <= HandlerCost(s) + 2 * |s.frames| - 1 + 2 * One(beat)
    && t.pulled == s.pulled && t.clientGone == s.clientGone && t.shuttingDown == s.shuttingDown
    && (t.producer == s.producer || (s.handler.Fresh? && t.producer.Listing?))
  }

  lemma OpeningPays(c: Config, s: State, h: HandlerStep)
    requires HandlerMay(s, h) && IsOpening(h)
    ensures HandlerCostFalls(s, HandlerDoes(c, s, h), h.LoopHeartbeat?)
  {
  }

  lemma WritingPays(c: Config, s: State, h: HandlerStep)
    requires HandlerMay(s, h) && IsWriting(h)
    ensures HandlerCostFalls(s, HandlerDoes(c, s, h), h.LoopHeartbeat?)
  {
  }

  lemma LoopingPays(c: Config, s: State, h: HandlerStep)
    requires HandlerMay(s, h) && IsLooping(h)
    ensures HandlerCostFalls(s, HandlerDoes(c, s, h), h.LoopHeartbeat?)
  {
  }

  lemma ClosingPays(c: Config, s: State, h: HandlerStep)
    requires HandlerMay(s, h) && IsClosing(h)
    ensures HandlerCostFalls(s, HandlerDoes(c, s, h), h.LoopHeartbeat?)
  {
  }

  lemma HandlerPays(c: Config, s: State, h: HandlerStep)
    requires HandlerMay(s, h)
    ensures HandlerCostFalls(s, HandlerDoes(c, s, h), h.LoopHeartbeat?)
  {
    if IsOpening(h) {
      OpeningPays(c, s, h);
    } else if IsWriting(h) {
      WritingPays(c, s, h);
    } else if IsLooping(h) {
      LoopingPays(c, s, h);
    } else {
      ClosingPays(c, s, h);
    }
  }

  lemma CostAdds(c: Config, s: State, t: State, beat: bool)
    requires HandlerCostFalls(s, t, beat)
    requires s.handler.Fresh? ==> s.producer.Unborn?
    ensures Cost(c, t) <= Cost(c, s) - 1 + 2 * One(beat)
  {
  }

  lemma CallingPays(c: Config, s: State, p: ProducerStep)
    requires ProducerMay(c, s, p) && !Receives(p) && !Emits(p)
    ensures Cost(c, ProducerDoes(c, s, p)) <= Cost(c, s) - 1
  {
  }

  lemma ServingPays(c: Config, s: State, p: ProducerStep)
    requires ProducerMay(c, s, p) && (Receives(p) || Emits(p))
    ensures Cost(c, ProducerDoes(c, s, p)) <= Cost(c, s) - 1
  {
  }

  lemma CostByProducer(c: Config, s: State, p: ProducerStep)
    requires ProducerMay(c, s, p)
    ensures Cost(c, ProducerDoes(c, s, p)) <= Cost(c, s) - 1
  {
    if Receives(p) || Emits(p) {
      ServingPays(c, s, p);
    } else {
      CallingPays(c, s, p);
    }
  }

  lemma CostOutside(c: Config, s: State, t: State)
    requires t == s.(clientGone := t.clientGone, shuttingDown := t.shuttingDown)
    requires One(!t.clientGone) + One(!t.shuttingDown) < One(!s.clientGone) + One(!s.shuttingDown)
    ensures Cost(c, t) <= Cost(c, s) - 1
  {
  }

  lemma CostStep(c: Config, s: State, step: Step)
    requires Enabled(c, s, step)
    requires s.handler.Fresh? ==> s.producer.Unborn?
    ensures Cost(c, Apply(c, s, step)) <= Cost(c, s) - 1 + 2 * One(step == ByHandler(LoopHeartbeat))
  {
    match step
    case ByProducer(p) => CostByProducer(c, s, p);
    case ByHandler(h) =>
      HandlerPays(c, s, h);
      CostAdds(c, s, HandlerDoes(c, s, h), h.LoopHeartbeat?);
    case ClientLeaves => CostOutside(c, s, Apply(c, s, step));
    case ServerStops => CostOutside(c, s, Apply(c, s, step));
  }

  lemma {:induction false} CostRun(c: Config, s: State, steps: seq<Step>, t: State)
    requires Inv(c, s) && Run(c, s, steps, t)
    ensures |steps| + Cost(c, t) <= Cost(c, s) + 2 * Heartbeats(steps)
    decreases |steps|
  {
    if steps == [] {
    } else {
      InvStep(c, s, steps[0]);
      CostStep(c, s, steps[0]);
      CostRun(c, Apply(c, s, steps[0]), steps[1..], t);
    }
  }

  /** Every run is finite but for its heartbeats: four steps an event after the cursor and 17 more. */
  lemma RunsAreBounded(c: Config, stopping: bool, steps: seq<Step>, t: State)
    requires Run(c, Init(stopping), steps, t)
    ensures |steps| <= 4 * (|c.log| - c.start) + 17 + 2 * Heartbeats(steps)
  {
    InitInv(c, stopping);
    CostRun(c, Init(stopping), steps, t);
  }

  lemma LeftByHandler(c: Config, s: State, h: HandlerStep)
    requires s.handler.Left() && HandlerMay(s, h)
    ensures HandlerDoes(c, s, h).handler.Left() && !h.LoopHeartbeat?
  {
  }

  lemma LeftByProducer(c: Config, s: State, p: ProducerStep)
    requires ProducerMay(c, s, p)
    ensures ProducerDoes(c, s, p).handler == s.handler
  {
  }

  /** Once the handler is on its way out the stream stops by itself: no heartbeat can delay it. */
  lemma {:induction false} LeavingIsFinite(c: Config, s: State, steps: seq<Step>, t: State)
    requires Inv(c, s) && s.handler.Left() && Run(c, s, steps, t)
    ensures t.handler.Left() && |steps| + Cost(c, t) <= Cost(c, s)
    decreases |steps|
  {
    if steps == [] {
    } else {
      InvStep(c, s, steps[0]);
      CostStep(c, s, steps[0]);
      match steps[0] {
        case ByProducer(p) => LeftByProducer(c, s, p);
        case ByHandler(h) => LeftByHandler(c, s, h);
        case ClientLeaves =>
        case ServerStops =>
      }
      LeavingIsFinite(c, Apply(c, s, steps[0]), steps[1..], t);
    }
  }

  /** `steps` lead from `s` to `t`, and nobody outside has to act for them. */
  ghost predicate OwnRun(c: Config, s: State, steps: seq<Step>, t: State)
    decreases |steps|
  {
    if steps == [] then t == s
    else
      && Enabled(c, s, steps[0]) && !FromOutside(s, steps[0])
      && OwnRun(c, Apply(c, s, steps[0]), steps[1..], t)
  }

  predicate AskedToEnd(s: State) {
    s.ContextDone() || s.shuttingDown
  }

  /** The next step on a shortest way out. */
  function WayOut(c: Config, s: State): Step {
    if !s.handler.Looping? then OwnStep(c, s)
    else ByHandler(if s.shuttingDown then LoopShutdown else LoopClientGone)
  }

  lemma WayOutIsOpen(c: Config, s: State)
    requires Inv(c, s) && AskedToEnd(s) && !s.handler.Returned?
    ensures Enabled(c, s, WayOut(c, s)) && !FromOutside(s, WayOut(c, s))
    ensures AskedToEnd(Apply(c, s, WayOut(c, s))) && Cost(c, Apply(c, s, WayOut(c, s))) < Cost(c, s)
  {
    OwnStepIsEnabled(c, s);
    CostStep(c, s, WayOut(c, s));
    AskedStays(c, s, WayOut(c, s));
  }

  lemma AskedStays(c: Config, s: State, step: Step)
    requires AskedToEnd(s) && Enabled(c, s, step)
    ensures AskedToEnd(Apply(c, s, step))
  {
    match step
    case ByHandler(h) => HandlerPays(c, s, h);
    case _ =>
  }

  /** Wherever a stream is when the client leaves or the server stops, it can end by itself: within its
      cost in steps, with the producer joined, whatever Control does. */
  lemma {:induction false} EndsByItself(c: Config, s: State) returns (steps: seq<Step>, t: State)
    requires Inv(c, s) && AskedToEnd(s)
    ensures OwnRun(c, s, steps, t) && t.handler.Returned? && t.producer.Finished?
    ensures |steps| <= Cost(c, s)
    decreases Cost(c, s)
  {
    if s.handler.Returned? {
      steps, t := [], s;
    } else {
      var step := WayOut(c, s);
      WayOutIsOpen(c, s);
      InvStep(c, s, step);
      var rest;
      rest, t := EndsByItself(c, Apply(c, s, step));
      steps := [step] + rest;
      assert steps[1..] == rest;
    }
  }

  // ---- admission and the terminal frame ----

  /** A 200 begins only on an admission, a required reset or a clean end; without it no byte of the
      stream is written. A refusal before admission is never a 200. */
  lemma BeginsOnlyWhenAccepted(c: Config, s: State)
    requires Reachable(c, s)
    ensures s.response.Begun? ==>
              s.admitted || Decided(s) == Some(Clean) || (Decided(s).Some? && Decided(s).value.ResetNeeded?)
    ensures !s.response.Begun? ==> s.written == [] && s.cut == []
    ensures !s.admitted && Decided(s) == Some(Failed) ==> !s.response.Begun?
    ensures s.response.Refused? && s.response.outcome.Some? ==> Decided(s) == s.response.outcome
  {
    InvReachable(c, s);
  }

  predicate Terminal(ch: Chunk) {
    ch.EndFrame? || ch.ResetFrame?
  }

  /** The stream opens with the retry preamble and never repeats it; an end or reset frame is the last
      thing written; a reset frame follows no event, and no event precedes admission. */
  lemma TerminalFrameIsLast(c: Config, s: State)
    requires Reachable(c, s)
    ensures Wire(s) != [] ==> Wire(s)[0].Retry?
    ensures forall i :: 0 < i < |Wire(s)| ==> !Wire(s)[i].Retry?
    ensures forall i :: 0 <= i < |Wire(s)| && Terminal(Wire(s)[i]) ==> i == |Wire(s)| - 1 && s.handler.Left()
    ensures EventsOf(Wire(s)) != [] ==> s.admitted
    ensures Decided(s).Some? && Decided(s).value.ResetNeeded? ==> EventsOf(Wire(s)) == []
  {
    InvReachable(c, s);
  }
}
