/** Any number of concurrent event streams over one limiter and one draining signal. */
module StreamSystem {
  import opened StreamLimiter
  import opened StreamProtocol
  import StreamInvariants
  import StreamTheorems

  datatype Stream = Stream(subject: Subject, config: Config, state: State)

  datatype System = System(slots: Slots, streams: map<nat, Stream>, stopping: bool)

  datatype SystemStep =
    | Arrive(id: nat, subject: Subject, config: Config)
    | Move(id: nat, step: Step)
    | Stop

  const START := System(EMPTY, map[], false)

  predicate May(y: System, step: SystemStep) {
    match step
    case Arrive(id, _, _) => id !in y.streams
    case Move(id, s) =>
      id in y.streams && !s.ServerStops? && Enabled(y.streams[id].config, y.streams[id].state, s)
    case Stop => true
  }

  function Told(stream: Stream): Stream {
    stream.(state := stream.state.(shuttingDown := true))
  }

  function Do(caps: Caps, y: System, step: SystemStep): System
    requires May(y, step)
  {
    match step
    case Arrive(id, subject, config) =>
      if HasRoom(caps, y.slots, subject) then
        y.(slots := Acquired(y.slots, subject), streams := y.streams[id := Stream(subject, config, Init(y.stopping))])
      else y  // answered 429
    case Move(id, s) =>
      var stream := y.streams[id];
      y.(slots := if s == ByHandler(Release) then Released(y.slots, stream.subject) else y.slots,
         streams := y.streams[id := stream.(state := Apply(stream.config, stream.state, s))])
    case Stop =>
      // closing happens once; a second Stop finds the signal closed
      if y.stopping then y
      else y.(streams := map id <- y.streams :: Told(y.streams[id]), stopping := true)
  }

  ghost predicate SystemRun(caps: Caps, y: System, steps: seq<SystemStep>, z: System)
    decreases |steps|
  {
    if steps == [] then z == y
    else May(y, steps[0]) && SystemRun(caps, Do(caps, y, steps[0]), steps[1..], z)
  }

  /** The streams that hold a slot, and those whose producer is running. */
  function Holders(streams: map<nat, Stream>): set<nat> {
    set id <- streams | !streams[id].state.handler.Returned?
  }

  function HoldersOf(streams: map<nat, Stream>, subject: Subject): set<nat> {
    set id <- streams | !streams[id].state.handler.Returned? && streams[id].subject == subject
  }

  function LiveProducers(streams: map<nat, Stream>): set<nat> {
    set id <- streams | !streams[id].state.producer.Unborn? && !streams[id].state.producer.Finished?
  }

  /** The limiter counts exactly the holders. */
  ghost predicate Counted(slots: Slots, streams: map<nat, Stream>) {
    && slots.total == |Holders(streams)|
    && Tidy(slots)
    && forall s: Subject :: Held(slots, s) == |HoldersOf(streams, s)|
  }

  ghost predicate Capped(caps: Caps, slots: Slots) {
    && (caps.max > 0 ==> slots.total <= caps.max)
    && (caps.perSubject > 0 ==> forall s: Subject :: Held(slots, s) <= caps.perSubject)
  }

  ghost predicate SoundStream(stream: Stream) {
    StreamInvariants.Inv(stream.config, stream.state)
  }

  ghost predicate Sound(streams: map<nat, Stream>) {
    forall id <- streams :: SoundStream(streams[id])
  }

  ghost predicate Invariant(caps: Caps, y: System) {
    Counted(y.slots, y.streams) && Capped(caps, y.slots) && Sound(y.streams)
  }

  /** Changing one stream changes the holders by that stream only. */
  lemma HoldersChange(streams: map<nat, Stream>, id: nat, after: Stream)
    ensures var t := streams[id := after];
            Holders(t) == if after.state.handler.Returned? then Holders(streams) - {id} else Holders(streams) + {id}
    ensures forall s :: HoldersOf(streams[id := after], s) ==
                        if after.state.handler.Returned? || after.subject != s then HoldersOf(streams, s) - {id}
                        else HoldersOf(streams, s) + {id}
  {
  }

  predicate Holding(stream: Stream) {
    !stream.state.handler.Returned?
  }

  lemma CountedAcquire(slots: Slots, streams: map<nat, Stream>, id: nat, after: Stream)
    requires Counted(slots, streams) && id !in streams && Holding(after)
    ensures Counted(Acquired(slots, after.subject), streams[id := after])
  {
    HoldersChange(streams, id, after);
    assert id !in Holders(streams);
    HeldAfter(slots, after.subject, after.subject);
    forall s: Subject
      ensures Held(Acquired(slots, after.subject), s) == |HoldersOf(streams[id := after], s)|
    {
      HeldAfter(slots, after.subject, s);
      assert id !in HoldersOf(streams, s);
    }
  }

  lemma CountedRelease(slots: Slots, streams: map<nat, Stream>, id: nat, after: Stream)
    requires Counted(slots, streams) && id in streams && Holding(streams[id]) && !Holding(after)
    requires after.subject == streams[id].subject
    ensures Counted(Released(slots, after.subject), streams[id := after])
  {
    HoldersChange(streams, id, after);
    assert id in Holders(streams);
    HeldAfter(slots, after.subject, after.subject);
    assert id in HoldersOf(streams, after.subject);
    forall s: Subject
      ensures Held(Released(slots, after.subject), s) == |HoldersOf(streams[id := after], s)|
    {
      HeldAfter(slots, after.subject, s);
      assert id in HoldersOf(streams, s) <==> after.subject == s;
    }
  }

  lemma CountedSame(slots: Slots, streams: map<nat, Stream>, id: nat, after: Stream)
    requires Counted(slots, streams) && id in streams && Holding(streams[id]) == Holding(after)
    requires after.subject == streams[id].subject
    ensures Counted(slots, streams[id := after])
  {
    assert Holders(streams[id := after]) == Holders(streams);
    forall s: Subject
      ensures HoldersOf(streams[id := after], s) == HoldersOf(streams, s)
    {
    }
  }

  lemma ReleasedByReturn(c: Config, s: State, step: HandlerStep)
    requires HandlerMay(s, step)
    ensures !s.handler.Returned?
    ensures step.Release? <==> HandlerDoes(c, s, step).handler.Returned?
  {
  }

  lemma MoveCounted(y: System, id: nat, step: Step)
    requires Counted(y.slots, y.streams) && May(y, Move(id, step))
    ensures var b := y.streams[id];
            Counted(if step == ByHandler(Release) then Released(y.slots, b.subject) else y.slots,
                    y.streams[id := b.(state := Apply(b.config, b.state, step))])
  {
    var b := y.streams[id];
    var a := b.(state := Apply(b.config, b.state, step));
    match step {
      case ByHandler(h) => ReleasedByReturn(b.config, b.state, h);
      case ByProducer(p) => StreamTheorems.LeftByProducer(b.config, b.state, p);
      case ClientLeaves =>
      case ServerStops =>
    }
    if step == ByHandler(Release) {
      CountedRelease(y.slots, y.streams, id, a);
    } else {
      CountedSame(y.slots, y.streams, id, a);
    }
  }

  lemma MoveSound(y: System, id: nat, step: Step)
    requires Sound(y.streams) && May(y, Move(id, step))
    ensures var b := y.streams[id]; Sound(y.streams[id := b.(state := Apply(b.config, b.state, step))])
  {
    var b := y.streams[id];
    assert SoundStream(b);
    StreamInvariants.InvStep(b.config, b.state, step);
  }

  lemma CapsKept(caps: Caps, slots: Slots, subject: Subject)
    requires Tidy(slots) && Capped(caps, slots)
    ensures HasRoom(caps, slots, subject) ==> Capped(caps, Acquired(slots, subject))
    ensures Capped(caps, Released(slots, subject))
  {
    forall s: Subject
      ensures Held(Released(slots, subject), s) <= Held(slots, s)
      ensures Held(Acquired(slots, subject), s) == Held(slots, s) + (if s == subject then 1 else 0)
    {
      HeldAfter(slots, subject, s);
    }
  }

  lemma NewIsSound(stream: Stream, stopping: bool)
    requires stream.state == Init(stopping)
    ensures SoundStream(stream)
  {
    StreamInvariants.InitInv(stream.config, stopping);
  }

  lemma StopKeeps(caps: Caps, y: System)
    requires Invariant(caps, y)
    ensures Invariant(caps, Do(caps, y, Stop))
  {
    var z := Do(caps, y, Stop);
    assert Holders(z.streams) == Holders(y.streams);
    forall s: Subject
      ensures HoldersOf(z.streams, s) == HoldersOf(y.streams, s)
    {
    }
    forall id <- z.streams
      ensures SoundStream(z.streams[id])
    {
      ToldIsSound(y.streams[id]);
    }
  }

  lemma ToldIsSound(stream: Stream)
    requires SoundStream(stream)
    ensures SoundStream(Told(stream))
  {
    if !stream.state.shuttingDown {
      StreamInvariants.InvStep(stream.config, stream.state, ServerStops);
    }
  }

  lemma {:induction false} RunKeeps(caps: Caps, y: System, steps: seq<SystemStep>, z: System)
    requires Invariant(caps, y) && SystemRun(caps, y, steps, z)
    ensures Invariant(caps, z)
    decreases |steps|
  {
    if steps == [] {
    } else {
      match steps[0] {
        case Arrive(id, subject, config) =>
          if HasRoom(caps, y.slots, subject) {
            var after := Stream(subject, config, Init(y.stopping));
            CountedAcquire(y.slots, y.streams, id, after);
            CapsKept(caps, y.slots, subject);
            NewIsSound(after, y.stopping);
          }
        case Move(id, step) =>
          MoveCounted(y, id, step);
          MoveSound(y, id, step);
          CapsKept(caps, y.slots, y.streams[id].subject);
        case Stop => StopKeeps(caps, y);
      }
      RunKeeps(caps, Do(caps, y, steps[0]), steps[1..], z);
    }
  }

  lemma StartInvariant(caps: Caps)
    ensures Invariant(caps, START)
  {
    assert Holders(START.streams) == {};
    forall s: Subject
      ensures HoldersOf(START.streams, s) == {}
    {
    }
  }

  /** In every reachable state the running producers are among the held slots, which the limiter counts
      and caps, for the process and for each subject. */
  lemma CapsHold(caps: Caps, steps: seq<SystemStep>, z: System)
    requires SystemRun(caps, START, steps, z)
    ensures LiveProducers(z.streams) <= Holders(z.streams) && |Holders(z.streams)| == z.slots.total
    ensures |LiveProducers(z.streams)| <= z.slots.total
    ensures caps.max > 0 ==> z.slots.total <= caps.max
    ensures forall s: Subject :: |HoldersOf(z.streams, s)| == Held(z.slots, s)
    ensures forall s: Subject :: caps.perSubject > 0 ==>
              |LiveProducers(z.streams) * HoldersOf(z.streams, s)| <= Held(z.slots, s) <= caps.perSubject
  {
    StartInvariant(caps);
    RunKeeps(caps, START, steps, z);
    SubsetSize(LiveProducers(z.streams), Holders(z.streams));
    forall s: Subject
      ensures |LiveProducers(z.streams) * HoldersOf(z.streams, s)| <= |HoldersOf(z.streams, s)|
    {
      SubsetSize(LiveProducers(z.streams) * HoldersOf(z.streams, s), HoldersOf(z.streams, s));
    }
  }

  /** When every handler has returned no producer runs and the limiter is as it was at the start. */
  lemma SlotsComeBack(caps: Caps, steps: seq<SystemStep>, z: System)
    requires SystemRun(caps, START, steps, z)
    requires forall id <- z.streams :: z.streams[id].state.handler.Returned?
    ensures z.slots == EMPTY && LiveProducers(z.streams) == {}
  {
    CapsHold(caps, steps, z);
    StartInvariant(caps);
    RunKeeps(caps, START, steps, z);
    assert Holders(z.streams) == {};
    forall s: Subject
      ensures s !in z.slots.bySubject
    {
      assert HoldersOf(z.streams, s) == {};
      assert Held(z.slots, s) == 0;
    }
  }

  /** After Stop every stream, open or yet to come, sees the signal. */
  lemma {:induction false} StopReachesEveryStream(caps: Caps, y: System, steps: seq<SystemStep>, z: System)
    requires SystemRun(caps, y, steps, z)
    requires forall id <- y.streams :: y.streams[id].state.shuttingDown == y.stopping
    ensures forall id <- z.streams :: z.streams[id].state.shuttingDown == z.stopping
    ensures Stop in steps || y.stopping ==> z.stopping
    decreases |steps|
  {
    if steps == [] {
    } else {
      var m := Do(caps, y, steps[0]);
      if steps[0].Move? {
        var b := y.streams[steps[0].id];
        SignalKept(b.config, b.state, steps[0].step);
      }
      StopReachesEveryStream(caps, m, steps[1..], z);
    }
  }

  lemma SignalKept(c: Config, s: State, step: Step)
    requires Enabled(c, s, step) && !step.ServerStops?
    ensures Apply(c, s, step).shuttingDown == s.shuttingDown
  {
    match step
    case ByHandler(h) => StreamTheorems.HandlerPays(c, s, h);
    case _ =>
  }

  lemma {:induction false} SubsetSize(a: set<nat>, b: set<nat>)
    requires a <= b
    ensures |a| <= |b|
  {
    if a == {} {
    } else {
      var x :| x in a;
      SubsetSize(a - {x}, b - {x});
    }
  }

  /** A stream that arrives gets a slot exactly while the held slots are below each cap; a cap of zero or
      less is none. */
  lemma AdmitsBelowTheCaps(caps: Caps, steps: seq<SystemStep>, z: System, id: nat, subject: Subject, config: Config)
    requires SystemRun(caps, START, steps, z) && id !in z.streams
    ensures id in Do(caps, z, Arrive(id, subject, config)).streams <==>
            && (caps.max <= 0 || |Holders(z.streams)| < caps.max)
            && (caps.perSubject <= 0 || |HoldersOf(z.streams, subject)| < caps.perSubject)
  {
    CapsHold(caps, steps, z);
  }
}
