/** What a 200 that ends without an event tells the client. */
module StreamEndings {
  import opened Basics
  import opened Frames
  import opened StreamProtocol
  import opened StreamInvariants
  import opened StreamTheorems

  predicate IsQuiet(ch: Chunk) {
    ch.Retry? || ch.Heartbeat?
  }

  /** A 200 whose bytes all arrived at a client that stayed, and in which there is no event, no end and no
      reset. */
  ghost predicate EndedWithoutAnEvent(s: State) {
    && s.handler.Returned? && s.response.Begun? && s.cut == [] && !s.clientGone
    && forall i | 0 <= i < |s.written| :: IsQuiet(s.written[i])
  }

  // ---- terminal frames ----

  /** A frame that closes a stream has its reason: an end frame Control's failure or the shutdown, a reset
      frame the reset Control asked for. */
  predicate Earns(c: Config, s: State, ch: Chunk) {
    match ch
    case EndFrame(p) => p == c.endPayload && if s.ended then s.producer == Finished(Failed) else s.shuttingDown
    case ResetFrame(p) => s.ended && s.producer == Finished(ResetNeeded(p))
    case _ => true
  }

  ghost predicate Earned(c: Config, s: State) {
    && (forall i | 0 <= i < |Wire(s)| :: Earns(c, s, Wire(s)[i]))
    && (s.handler.Writing? ==> Earns(c, s, s.handler.chunk))
  }

  /** Who is to blame for a stream that went no further. */
  ghost predicate Blamed(s: State) {
    && (Decided(s) == Some(Canceled) ==> s.clientGone || s.canceled)
    && (s.response == Refused(None) ==> s.shuttingDown)
    && (s.handler.Left() && s.response.Silent? ==> s.clientGone)
  }

  predicate EndsWith(s: State, ch: Chunk) {
    s.written != [] && s.written[|s.written| - 1] == ch
  }

  /** How a 200 that reached its client was closed. */
  ghost predicate Parted(c: Config, s: State) {
    s.handler.Left() && s.response.Begun? && s.cut == [] && !s.clientGone ==>
      if !s.ended || s.producer == Finished(Failed) then EndsWith(s, EndFrame(c.endPayload))
      else if s.producer.Finished? && s.producer.outcome.ResetNeeded?
      then EndsWith(s, ResetFrame(s.producer.outcome.payload))
      else s.producer == Finished(Clean) || s.producer == Finished(SlowConsumer)
  }

  const SKIP := ByHandler(SkipTerminal)

  lemma EarnedByOpening(c: Config, s: State, h: HandlerStep)
    requires Handshake(s) && Written(c, s) && HandlerMay(s, h) && IsOpening(h)
    ensures Earned(c, HandlerDoes(c, s, h))
  {
    assert Wire(HandlerDoes(c, s, h)) == Wire(s);
  }

  lemma EarnedByWriting(c: Config, s: State, h: HandlerStep)
    requires Handshake(s) && Written(c, s) && Bounded(c, s) && Earned(c, s) && HandlerMay(s, h) && IsWriting(h)
    ensures Earned(c, HandlerDoes(c, s, h))
  {
    WrittenEarns(c, s, h);
    if IsWrite(h) {
      WireGrows(c, s, h);
    }
  }

  lemma WrittenEarns(c: Config, s: State, h: HandlerStep)
    requires Handshake(s) && Written(c, s) && Earned(c, s) && HandlerMay(s, h) && IsWriting(h)
    ensures var t := HandlerDoes(c, s, h);
            && (t.handler.Writing? ==> Earns(c, t, t.handler.chunk))
            && t.ended == s.ended && t.shuttingDown == s.shuttingDown && t.producer == s.producer
  {
  }

  lemma EarnedByLater(c: Config, s: State, h: HandlerStep)
    requires Handshake(s) && Written(c, s) && Earned(c, s) && Blamed(s)
    requires HandlerMay(s, h) && (IsLooping(h) || IsClosing(h))
    ensures Earned(c, HandlerDoes(c, s, h))
  {
    assert Wire(HandlerDoes(c, s, h)) == Wire(s);
  }

  lemma EarnedByProducer(c: Config, s: State, p: ProducerStep)
    requires Handshake(s) && Earned(c, s) && ProducerMay(c, s, p)
    ensures Earned(c, ProducerDoes(c, s, p))
  {
    assert Wire(ProducerDoes(c, s, p)) == Wire(s);
  }

  lemma BlamedByHandler(c: Config, s: State, h: HandlerStep)
    requires Handshake(s) && Answer(s) && Blamed(s) && HandlerMay(s, h)
    ensures Blamed(HandlerDoes(c, s, h))
  {
  }

  lemma BlamedByProducer(c: Config, s: State, p: ProducerStep)
    requires Blamed(s) && ProducerMay(c, s, p)
    ensures Blamed(ProducerDoes(c, s, p))
  {
  }

  lemma PartedByOpening(c: Config, s: State, h: HandlerStep)
    requires HandlerMay(s, h) && IsOpening(h) && s.response.Silent?
    ensures Parted(c, HandlerDoes(c, s, h))
  {
  }

  lemma PartedByWriting(c: Config, s: State, h: HandlerStep)
    requires Handshake(s) && Answer(s) && Written(c, s) && Earned(c, s) && HandlerMay(s, h) && IsWrite(h)
    ensures Parted(c, HandlerDoes(c, s, h))
  {
  }

  lemma PartedByLater(c: Config, s: State, h: HandlerStep)
    requires Handshake(s) && Blamed(s) && HandlerMay(s, h) && (IsLooping(h) || IsClosing(h)) && !s.handler.Left()
    ensures Parted(c, HandlerDoes(c, s, h))
  {
  }

  lemma PartedOnTheWayOut(c: Config, s: State, h: HandlerStep)
    requires Parted(c, s) && HandlerMay(s, h) && s.handler.Left()
    ensures Parted(c, HandlerDoes(c, s, h))
  {
  }

  lemma PartedByProducer(c: Config, s: State, p: ProducerStep)
    requires Handshake(s) && Parted(c, s) && ProducerMay(c, s, p)
    ensures Parted(c, ProducerDoes(c, s, p))
  {
  }

  lemma EarnedOutside(c: Config, s: State, t: State)
    requires Earned(c, s) && Blamed(s)
    requires t == s.(clientGone := t.clientGone, shuttingDown := t.shuttingDown)
    requires (s.clientGone ==> t.clientGone) && (s.shuttingDown ==> t.shuttingDown)
    ensures Earned(c, t) && Blamed(t)
  {
    assert Wire(t) == Wire(s);
  }

  lemma HandlerEndingKeeps(c: Config, s: State, h: HandlerStep)
    requires Inv(c, s) && Earned(c, s) && Blamed(s) && HandlerMay(s, h)
    ensures var t := HandlerDoes(c, s, h);
            Earned(c, t) && Blamed(t) && (Parted(c, s) && !h.SkipTerminal? ==> Parted(c, t))
  {
    BlamedByHandler(c, s, h);
    if IsOpening(h) {
      EarnedByOpening(c, s, h);
      PartedByOpening(c, s, h);
    } else if IsWriting(h) {
      EarnedByWriting(c, s, h);
      if IsWrite(h) {
        PartedByWriting(c, s, h);
      }
    } else {
      EarnedByLater(c, s, h);
      if !s.handler.Left() {
        PartedByLater(c, s, h);
      } else if Parted(c, s) {
        PartedOnTheWayOut(c, s, h);
      }
    }
  }

  lemma EndingStep(c: Config, s: State, step: Step)
    requires Inv(c, s) && Earned(c, s) && Blamed(s) && Enabled(c, s, step)
    ensures var t := Apply(c, s, step);
            Earned(c, t) && Blamed(t) && (Parted(c, s) && step != SKIP ==> Parted(c, t))
  {
    match step
    case ByProducer(p) =>
      EarnedByProducer(c, s, p);
      BlamedByProducer(c, s, p);
      if Parted(c, s) {
        PartedByProducer(c, s, p);
      }
    case ByHandler(h) => HandlerEndingKeeps(c, s, h);
    case ClientLeaves => EarnedOutside(c, s, Apply(c, s, step));
    case ServerStops => EarnedOutside(c, s, Apply(c, s, step));
  }

  lemma {:induction false} EndingRunKeeps(c: Config, s: State, steps: seq<Step>, t: State)
    requires Inv(c, s) && Earned(c, s) && Blamed(s) && Run(c, s, steps, t)
    ensures Earned(c, t) && Blamed(t)
    ensures Parted(c, s) && SKIP !in steps ==> Parted(c, t)
    decreases |steps|
  {
    if steps == [] {
    } else {
      InvStep(c, s, steps[0]);
      EndingStep(c, s, steps[0]);
      EndingRunKeeps(c, Apply(c, s, steps[0]), steps[1..], t);
    }
  }

  /** On every run an end frame means that Control failed or the server stops, and a reset frame that Control
      asked for that reset; a stream that Control ended, or that ended for a slow consumer, has neither. A
      stream refused for no outcome was refused by the shutdown, and only a client that left has no answer. */
  lemma TerminalFramesAreEarned(c: Config, s: State)
    requires Reachable(c, s)
    ensures forall i | 0 <= i < |Wire(s)| && Wire(s)[i].EndFrame? ::
              if s.ended then s.producer == Finished(Failed) else s.shuttingDown
    ensures forall i | 0 <= i < |Wire(s)| && Wire(s)[i].ResetFrame? ::
              s.ended && s.producer == Finished(ResetNeeded(Wire(s)[i].payload))
    ensures s.ended && (s.producer == Finished(Clean) || s.producer == Finished(SlowConsumer)) ==>
              forall i | 0 <= i < |Wire(s)| :: !Terminal(Wire(s)[i])
    ensures s.response == Refused(None) ==> s.shuttingDown
    ensures s.handler.Left() && s.response.Silent? ==> s.clientGone
  {
    var stopping, steps :| Run(c, Init(stopping), steps, s);
    InitInv(c, stopping);
    EndingRunKeeps(c, Init(stopping), steps, s);
    forall i | 0 <= i < |Wire(s)|
      ensures Earns(c, s, Wire(s)[i])
    {
    }
  }

  /** Conversely a client that stayed and got everything is told: its last frame is the end frame exactly when
      the handler left before the stream ended or Control failed, and the reset frame exactly when Control
      asked for that reset. The handler's own frames are taken to have an encoding. */
  lemma EndingsAreTold(c: Config, stopping: bool, steps: seq<Step>, s: State)
    requires Run(c, Init(stopping), steps, s) && SKIP !in steps
    requires s.handler.Returned? && s.response.Begun? && s.cut == [] && !s.clientGone
    ensures EndsWith(s, EndFrame(c.endPayload)) <==> !s.ended || s.producer == Finished(Failed)
    ensures forall p :: EndsWith(s, ResetFrame(p)) <==> s.ended && s.producer == Finished(ResetNeeded(p))
    ensures !EndsWith(s, EndFrame(c.endPayload)) && (forall p :: !EndsWith(s, ResetFrame(p))) ==>
              s.ended && (s.producer == Finished(Clean) || s.producer == Finished(SlowConsumer))
  {
    SilentRun(c, stopping, steps, s);
    TerminalFramesAreEarned(c, s);
    if s.written != [] {
      assert Wire(s)[|s.written| - 1] == s.written[|s.written| - 1];
    }
  }

  /** A reset is told: a run for every reset Control can ask for. */
  lemma ResetIsTold(c: Config, p: Bytes)
    ensures exists s :: Reachable(c, s) && s.handler.Returned? && s.producer == Finished(ResetNeeded(p))
                        && s.written == [Retry(c.retryMillis), ResetFrame(p)] && s.cut == []
  {
    var s1 := HandlerDoes(c, Init(false), Launch);
    var s2 := ProducerDoes(c, s1, ListReset(p));
    var s3 := ProducerDoes(c, s2, Report);
    var s4 := HandlerDoes(c, s3, SelectDone);
    var steps, t := ResetEnd(c, s4, p);
    steps := RunOf(c, s3, ByHandler(SelectDone), steps, t);
    steps := RunOf(c, s2, ByProducer(Report), steps, t);
    steps := RunOf(c, s1, ByProducer(ListReset(p)), steps, t);
    steps := RunOf(c, Init(false), ByHandler(Launch), steps, t);
    assert Reachable(c, t);
  }

  lemma ResetEnd(c: Config, s: State, p: Bytes) returns (steps: seq<Step>, t: State)
    requires s.handler == Writing(Retry(c.retryMillis), AfterRetry(Some(p))) && s.ended && s.written == []
    ensures Run(c, s, steps, t)
    ensures t == s.(handler := Returned, written := [Retry(c.retryMillis), ResetFrame(p)], canceled := true)
  {
    var s1 := HandlerDoes(c, s, WriteOk);
    var s2 := HandlerDoes(c, s1, WriteOk);
    var s3 := HandlerDoes(c, s2, Cancel);
    t := HandlerDoes(c, s3, Release);
    steps := RunOf(c, s3, ByHandler(Release), [], t);
    steps := RunOf(c, s2, ByHandler(Cancel), steps, t);
    steps := RunOf(c, s1, ByHandler(WriteOk), steps, t);
    steps := RunOf(c, s, ByHandler(WriteOk), steps, t);
  }

  // ---- which of Control's answers decides ----

  /** The steps of a run that decide its outcome. */
  lemma DecidedByStep(c: Config, s: State, p: ProducerStep)
    requires ProducerMay(c, s, p)
    ensures Decided(ProducerDoes(c, s, p)) == if Decided(s).Some? then Decided(s) else Verdict(p)
    ensures Decided(s).Some? ==> Verdict(p).None?
  {
  }

  function Verdict(p: ProducerStep): Option<Outcome> {
    match p
    case CallFails => Some(Failed)
    case ListReset(payload) => Some(ResetNeeded(payload))
    case BareEnd => Some(Clean)
    case ReceiveEnd => Some(Clean)
    case ReceiveUnencodable => Some(Failed)
    case PutCanceled => Some(Canceled)
    case PutSlow => Some(SlowConsumer)
    case _ => None
  }

  lemma DecidedByHandler(c: Config, s: State, h: HandlerStep)
    requires HandlerMay(s, h) && (s.handler.Fresh? ==> s.producer.Unborn?)
    ensures Decided(HandlerDoes(c, s, h)) == Decided(s)
  {
    HandlerPays(c, s, h);
  }

  /** The one step of a run that has a verdict gives the outcome. */
  ghost predicate Decides(steps: seq<Step>, o: Outcome) {
    exists p :: ByProducer(p) in steps && Verdict(p) == Some(o)
  }

  lemma {:induction false} DecidedByRun(c: Config, s: State, steps: seq<Step>, t: State, o: Outcome)
    requires Inv(c, s) && Run(c, s, steps, t)
    ensures Decided(s).Some? ==> Decided(t) == Decided(s) && !Decides(steps, o)
    ensures Decided(s).None? ==> (Decided(t) == Some(o) <==> Decides(steps, o))
    decreases |steps|
  {
    if steps == [] {
    } else {
      var m := Apply(c, s, steps[0]);
      InvStep(c, s, steps[0]);
      DecidedByRun(c, m, steps[1..], t, o);
      FirstDecides(steps, o);
      match steps[0] {
        case ByProducer(p) => DecidedByStep(c, s, p);
        case ByHandler(h) => DecidedByHandler(c, s, h);
        case ClientLeaves =>
        case ServerStops =>
      }
    }
  }

  lemma FirstDecides(steps: seq<Step>, o: Outcome)
    requires steps != []
    ensures Decides(steps, o) <==>
            (steps[0].ByProducer? && Verdict(steps[0].p) == Some(o)) || Decides(steps[1..], o)
  {
    assert steps == [steps[0]] + steps[1..];
  }

  /** The answer of Control, or of emit, behind an outcome: a failed call or an event without an encoding, a
      listed reset, the end of the stream, the grace timer, a lost context. */
  predicate Caused(steps: seq<Step>, o: Outcome) {
    match o
    case Failed => ByProducer(CallFails) in steps || ByProducer(ReceiveUnencodable) in steps
    case Clean => ByProducer(BareEnd) in steps || ByProducer(ReceiveEnd) in steps
    case ResetNeeded(payload) => ByProducer(ListReset(payload)) in steps
    case SlowConsumer => ByProducer(PutSlow) in steps
    case Canceled => ByProducer(PutCanceled) in steps
  }

  lemma CauseIsAVerdict(steps: seq<Step>, o: Outcome)
    ensures Caused(steps, o) <==> Decides(steps, o)
  {
    if Caused(steps, o) {
      match o
      case Failed => assert Verdict(CallFails) == Some(o) && Verdict(ReceiveUnencodable) == Some(o);
      case Clean => assert Verdict(BareEnd) == Some(o) && Verdict(ReceiveEnd) == Some(o);
      case ResetNeeded(payload) => assert Verdict(ListReset(payload)) == Some(o);
      case SlowConsumer => assert Verdict(PutSlow) == Some(o);
      case Canceled => assert Verdict(PutCanceled) == Some(o);
    }
  }

  /** Over any run from the start the outcome has its cause among the steps, and no cause has another
      outcome. */
  lemma OutcomesHaveTheirCause(c: Config, stopping: bool, steps: seq<Step>, t: State, o: Outcome)
    requires Run(c, Init(stopping), steps, t)
    ensures Decided(t) == Some(o) <==> Caused(steps, o)
  {
    InitInv(c, stopping);
    DecidedByRun(c, Init(stopping), steps, t, o);
    CauseIsAVerdict(steps, o);
  }

  /** A failed call before the admission is answered with that failure and never begins a 200. */
  lemma RefusedCallIsAnError(c: Config, stopping: bool, steps: seq<Step>, t: State)
    requires Run(c, Init(stopping), steps, t)
    requires ByProducer(CallFails) in steps && ByProducer(OpenAdmit) !in steps
    ensures !t.response.Begun? && t.written == [] && t.cut == [] && !t.admitted
    ensures t.branch.ByEnd? ==> t.response == Refused(Some(Failed))
  {
    InitInv(c, stopping);
    InvRun(c, Init(stopping), steps, t);
    Counts(c, Init(stopping), steps, t);
    NoClosing(steps);
    OutcomesHaveTheirCause(c, stopping, steps, t, Failed);
    BeginsOnlyWhenAccepted(c, t);
  }

  lemma {:induction false} NoClosing(steps: seq<Step>)
    requires ByProducer(OpenAdmit) !in steps
    ensures Closings(steps) == 0
  {
    if steps == [] {
    } else {
      NoClosing(steps[1..]);
    }
  }

  // ---- silence ----

  lemma {:induction false} QuietChunks(cs: seq<Chunk>)
    requires forall i | 0 <= i < |cs| :: IsQuiet(cs[i])
    ensures EventsOf(cs) == []
  {
    if cs == [] {
    } else {
      QuietChunks(cs[1..]);
    }
  }

  lemma SilenceIsTheEnd(c: Config, s: State)
    requires Parted(c, s) && EndedWithoutAnEvent(s)
    ensures s.ended && (s.producer == Finished(Clean) || s.producer == Finished(SlowConsumer))
  {
    if s.written != [] {
      assert IsQuiet(s.written[|s.written| - 1]);
    }
  }

  /** Nothing of what was put in the channel is on the wire. */
  lemma NothingDelivered(c: Config, s: State)
    requires Reachable(c, s) && Parted(c, s) && EndedWithoutAnEvent(s)
    ensures c.start + s.pulled <= |c.log| && |s.dropped| <= s.pulled && |s.dropped| <= 1
    ensures s.branch.ByAdmission? || PutInChannel(c, s) == [] <==> s.pulled == |s.dropped|
    ensures s.pulled - |s.dropped| <= c.buffer
    ensures s.branch.ByAdmission? || (s.branch.ByEnd? && s.producer == Finished(Clean))
    ensures s.producer == Finished(Clean) ==> s.dropped == []
    ensures s.producer == Finished(SlowConsumer) ==> s.dropped != []
  {
    SilenceIsTheEnd(c, s);
    CompleteDelivery(c, s);
    QuietChunks(s.written);
    InvReachable(c, s);
  }

  /** A 200 that ends without an event comes about in exactly three ways: Control ended the stream and had
      sent nothing, so the operation is terminal; the first select took the end of an admitted stream and
      lost what was in the channel; or the first event found a slow consumer. The handler's own frames are
      taken to have an encoding. */
  lemma ThreeSilences(c: Config, stopping: bool, steps: seq<Step>, s: State)
    requires Run(c, Init(stopping), steps, s) && SKIP !in steps && EndedWithoutAnEvent(s)
    ensures
      || (s.producer == Finished(Clean) && s.pulled == 0)
      || (s.producer == Finished(Clean) && s.branch.ByEnd? && 1 <= s.pulled <= c.buffer)
      || (s.producer == Finished(SlowConsumer) && s.branch.ByAdmission? && s.pulled == 1)
  {
    SilentRun(c, stopping, steps, s);
    SilenceIsTheEnd(c, s);
    NothingDelivered(c, s);
  }

  lemma SilentRun(c: Config, stopping: bool, steps: seq<Step>, s: State)
    requires Run(c, Init(stopping), steps, s) && SKIP !in steps
    ensures Reachable(c, s) && Parted(c, s)
  {
    InitInv(c, stopping);
    EndingRunKeeps(c, Init(stopping), steps, s);
  }

  /** So the silence means a terminal operation exactly when no consumer was slow and the first select took
      the admission, or nothing had been put in the channel. */
  lemma SilenceMeansTerminal(c: Config, stopping: bool, steps: seq<Step>, s: State)
    requires Run(c, Init(stopping), steps, s) && SKIP !in steps && EndedWithoutAnEvent(s)
    ensures c.start + s.pulled <= |c.log| && |s.dropped| <= s.pulled
    ensures s.producer == Finished(Clean) && Sent(c, s) == [] <==>
            s.producer != Finished(SlowConsumer) && (s.branch.ByAdmission? || PutInChannel(c, s) == [])
  {
    SilentRun(c, stopping, steps, s);
    SilenceIsTheEnd(c, s);
    NothingDelivered(c, s);
    assert Sent(c, s) == [] <==> s.pulled == 0;
  }

  // ---- both other ways happen ----

  lemma LostEventsAreSilent(c: Config, n: nat)
    requires 1 <= n <= c.buffer && c.start + n <= |c.log|
    ensures exists s :: Reachable(c, s) && EndedWithoutAnEvent(s) && s.producer == Finished(Clean) && s.pulled == n
  {
    AdmittedStreamCanEndWithoutItsEvents(c, n);
    var s :| && Reachable(c, s) && s.handler.Returned? && s.admitted && s.response.Begun?
             && s.producer == Finished(Clean) && s.pulled == n && s.dropped == []
             && s.written == [Retry(c.retryMillis)] && s.cut == [] && !s.clientGone && !s.shuttingDown;
    assert EndedWithoutAnEvent(s);
  }

  /** The channel is empty and ready, and the grace timer fires first all the same. */
  lemma SlowConsumerIsSilent(c: Config)
    requires c.start < |c.log|
    ensures exists s :: Reachable(c, s) && EndedWithoutAnEvent(s) && s.branch.ByAdmission?
                        && s.producer == Finished(SlowConsumer) && s.pulled == 1
  {
    var steps := LostStart(c, 0);
    var first := SlowStart(c);
    var m := SlowMiddle(c);
    var rest, t := SlowEnd(c, m);
    RunConcat(c, Waiting(c, 0), first, m, rest, t);
    RunConcat(c, Init(false), steps, Waiting(c, 0), first + rest, t);
    assert Reachable(c, t) && EndedWithoutAnEvent(t);
  }

  function SlowMiddle(c: Config): State
    requires c.start < |c.log|
  {
    Waiting(c, 0).(producer := Finished(SlowConsumer), done := Some(SlowConsumer), pulled := 1,
                   dropped := [c.log[c.start]])
  }

  lemma SlowStart(c: Config) returns (steps: seq<Step>)
    requires c.start < |c.log|
    ensures Run(c, Waiting(c, 0), steps, SlowMiddle(c))
  {
    var s, t := Waiting(c, 0), SlowMiddle(c);
    var s1 := ProducerDoes(c, s, ReceiveEvent);
    var s2 := ProducerDoes(c, s1, PutSlow);
    assert ProducerDoes(c, s2, Report) == t;
    steps := RunOf(c, s2, ByProducer(Report), [], t);
    steps := RunOf(c, s1, ByProducer(PutSlow), steps, t);
    steps := RunOf(c, s, ByProducer(ReceiveEvent), steps, t);
  }

  lemma SlowEnd(c: Config, s: State) returns (steps: seq<Step>, t: State)
    requires s.handler.FirstSelect? && s.admitted && s.done == Some(SlowConsumer) && s.frames == [] && !s.ended
    ensures Run(c, s, steps, t)
    ensures t.handler.Returned? && t.response.Begun? && t.branch.ByAdmission?
    ensures t.written == s.written + [Retry(c.retryMillis)] && t.cut == s.cut
    ensures t.clientGone == s.clientGone && t.producer == s.producer && t.pulled == s.pulled
  {
    var s1 := HandlerDoes(c, s, SelectAdmitted);
    var s2 := HandlerDoes(c, s1, WriteOk);
    var s3 := HandlerDoes(c, s2, LoopDone);
    var rest;
    rest, t := SlowDrain(c, s3);
    steps := RunOf(c, s2, ByHandler(LoopDone), rest, t);
    steps := RunOf(c, s1, ByHandler(WriteOk), steps, t);
    steps := RunOf(c, s, ByHandler(SelectAdmitted), steps, t);
  }

  lemma SlowDrain(c: Config, s: State) returns (steps: seq<Step>, t: State)
    requires s.handler == Draining(SlowConsumer) && s.frames == [] && s.ended
    ensures Run(c, s, steps, t)
    ensures t == s.(handler := Returned, canceled := true)
  {
    var s1 := HandlerDoes(c, s, DrainEmpty);
    var s2 := HandlerDoes(c, s1, Settle);
    var s3 := HandlerDoes(c, s2, Cancel);
    t := HandlerDoes(c, s3, Release);
    steps := RunOf(c, s3, ByHandler(Release), [], t);
    steps := RunOf(c, s2, ByHandler(Cancel), steps, t);
    steps := RunOf(c, s1, ByHandler(Settle), steps, t);
    steps := RunOf(c, s, ByHandler(DrainEmpty), steps, t);
  }
}
