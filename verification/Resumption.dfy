/** One client over any number of connections, each opened with the cursor the last one left. */
module Resumption {
  import opened Basics
  import opened Sequences
  import opened Frames
  import opened EventSource
  import opened StreamProtocol
  import opened StreamInvariants
  import StreamTheorems

  ghost predicate Increasing(log: seq<Event>) {
    forall i, j :: 0 <= i < j < |log| ==> log[i].seqNo < log[j].seqNo
  }

  /** Control's log: sequences increase, are canonical, and every event's fields come back as written. */
  ghost predicate IsLog(log: seq<Event>) {
    && Increasing(log)
    && forall i :: 0 <= i < |log| ==> log[i].seqNo < Pow10(20) && Sendable(EventFrame(log[i]))
  }

  predicate IsCursor(cursor: Bytes) {
    cursor == [] || IsSequence(cursor)
  }

  /** How many events a sequence covers. */
  function Covered(log: seq<Event>, n: nat): (k: nat)
    ensures k <= |log|
  {
    if log == [] || log[0].seqNo > n then 0 else 1 + Covered(log[1..], n)
  }

  /** Where Control starts for a cursor: after the last event it covers, or at the first event. */
  function Position(log: seq<Event>, cursor: Bytes): (p: nat)
    requires IsCursor(cursor)
    ensures p <= |log|
  {
    if cursor == [] then 0 else SequenceDigits(cursor); Covered(log, Value(cursor))
  }

  lemma {:induction false} CoveredByEvent(log: seq<Event>, k: nat)
    requires Increasing(log) && k < |log|
    ensures Covered(log, log[k].seqNo) == k + 1
  {
    if k > 0 {
      assert log[1..][k - 1] == log[k];
      CoveredByEvent(log[1..], k - 1);
    } else if |log| > 1 {
      assert log[1..][0].seqNo > log[0].seqNo;
    }
  }

  lemma EventIsItsCursor(log: seq<Event>, i: nat)
    requires IsLog(log) && i < |log|
    ensures IsSequence(Print(log[i].seqNo)) && Position(log, Print(log[i].seqNo)) == i + 1
  {
    SequencesAreNaturals(Print(log[i].seqNo));
    ValueOfPrint(log[i].seqNo);
    CoveredByEvent(log, i);
  }

  lemma CursorNamesEvent(log: seq<Event>, cursor: Bytes, k: nat)
    requires IsLog(log) && IsCursor(cursor) && Position(log, cursor) + k <= |log|
    ensures var p := Position(log, cursor); var next := CursorAfter(cursor, log[p..p + k]);
            IsCursor(next) && Position(log, next) == p + k
  {
    if k > 0 {
      EventIsItsCursor(log, Position(log, cursor) + k - 1);
    }
  }

  /** A connection: the cursor parameters of its request, what became of its stream, what the client's
      last event ID buffer started with, and the bytes that reached it before the connection broke. */
  datatype Connection = Connection(
    after: Bytes, lastEventId: Bytes, config: Config, state: State, seed: Bytes, received: Bytes)

  /** The request named `cursor`; Control served the log from there; the client got some prefix of the
      bytes the handler tried to write. The handler's own frames carry one-line JSON. */
  ghost predicate Happened(log: seq<Event>, cursor: Bytes, k: Connection) {
    && IsCursor(cursor)
    && BindCursor(k.after, k.lastEventId) == Ok(cursor)
    && k.config.log == log
    && k.config.start == Position(log, cursor)
    && Reachable(k.config, k.state)
    && (forall i :: 0 <= i < |Wire(k.state)| && StreamTheorems.Terminal(Wire(k.state)[i]) ==>
          Sendable(Wire(k.state)[i]))
    && k.received <= EncodeAll(Wire(k.state))
  }

  /** The operation events the client dispatched on a connection. */
  function OperationsOf(cursor: Bytes, k: Connection): seq<Message> {
    Operations(ReadAll(Connect(k.seed, cursor), k.received).messages)
  }

  /** The id of the last operation event dispatched, or what the cursor was. */
  function CursorOf(cursor: Bytes, ms: seq<Message>): Bytes {
    if ms == [] then cursor else ms[|ms| - 1].id
  }

  /** The client's cursor after a connection. */
  function Next(cursor: Bytes, k: Connection): Bytes {
    CursorOf(cursor, OperationsOf(cursor, k))
  }

  lemma {:induction false} EventOnWire(cs: seq<Chunk>, i: nat)
    requires i < |cs| && cs[i].EventFrame?
    ensures cs[i].event in EventsOf(cs)
  {
    if i == 0 {
    } else {
      EventOnWire(cs[1..], i - 1);
    }
  }

  lemma WireIsSendable(log: seq<Event>, cursor: Bytes, k: Connection)
    requires IsLog(log) && Happened(log, cursor, k)
    ensures AllSendable(Wire(k.state))
  {
    var w := Wire(k.state);
    StreamTheorems.DeliveryIsAPrefix(k.config, k.state);
    forall i | 0 <= i < |w|
      ensures Sendable(w[i])
    {
      if w[i].EventFrame? {
        EventOnWire(w, i);
        assert w[i].event in log[k.config.start..];
      }
    }
  }

  lemma {:induction false} EventsOfPrefix(cs: seq<Chunk>, j: nat)
    requires j <= |cs|
    ensures EventsOf(cs[..j]) <= EventsOf(cs)
  {
    assert cs == cs[..j] + cs[j..];
    EventsOfConcat(cs[..j], cs[j..]);
  }

  /** Any byte prefix of a wire dispatches the events of its k whole chunks, whatever the last event ID
      buffer started with. */
  lemma WireDelivers(seed: Bytes, cursor: Bytes, w: seq<Chunk>, received: Bytes) returns (k: nat)
    requires AllSendable(w) && received <= EncodeAll(w)
    ensures k <= |w| && EncodeAll(w[..k]) <= received && (k < |w| ==> received < EncodeAll(w[..k + 1]))
    ensures var r := ReadAll(Connect(seed, cursor), received);
            && Operations(r.messages) == MessagesOf(EventsOf(w[..k]))
            && r.lastId == if k == 0 then cursor else CursorAfter(seed, EventsOf(w[..k]))
  {
    var r := Connect(seed, cursor);
    k := ReadPrefix(r, w, received);
    ChunksToldInOrder(r, w[..k]);
    assert k == 0 ==> w[..k] == [] && ToldAll(r, w[..k]) == r;
    assert Operations(r.messages) + MessagesOf(EventsOf(w[..k])) == MessagesOf(EventsOf(w[..k]));
  }

  /** `messages` are the n events of the log from `p` on, and `next` names the last of them. */
  ghost predicate Stretch(log: seq<Event>, p: nat, cursor: Bytes, n: nat, messages: seq<Message>, next: Bytes) {
    && p + n <= |log|
    && messages == MessagesOf(log[p..p + n])
    && next == CursorAfter(cursor, log[p..p + n])
  }

  lemma CursorOfMessages(cursor: Bytes, es: seq<Event>)
    ensures CursorOf(cursor, MessagesOf(es)) == CursorAfter(cursor, es)
  {
  }

  /** What arrived of a connection, whole, are the next events of the log. */
  lemma Arrived(log: seq<Event>, cursor: Bytes, k: Connection) returns (es: seq<Event>)
    requires IsLog(log) && Happened(log, cursor, k)
    ensures OperationsOf(cursor, k) == MessagesOf(es)
    ensures var p := Position(log, cursor); p + |es| <= |log| && log[p..p + |es|] == es
  {
    WireIsSendable(log, cursor, k);
    var j := WireDelivers(k.seed, cursor, Wire(k.state), k.received);
    es := EventsOf(Wire(k.state)[..j]);
    StartOfLog(k.config, k.state, j);
  }

  /** However a connection ended, the client dispatched the next n events of the log and holds the
      cursor of the last of them. */
  lemma OneConnection(log: seq<Event>, cursor: Bytes, k: Connection) returns (n: nat)
    requires IsLog(log) && Happened(log, cursor, k)
    ensures Stretch(log, Position(log, cursor), cursor, n, OperationsOf(cursor, k), Next(cursor, k))
  {
    var es := Arrived(log, cursor, k);
    n := |es|;
    IsStretch(log, Position(log, cursor), cursor, es);
  }

  lemma IsStretch(log: seq<Event>, p: nat, cursor: Bytes, es: seq<Event>)
    requires p + |es| <= |log| && log[p..p + |es|] == es
    ensures Stretch(log, p, cursor, |es|, MessagesOf(es), CursorOf(cursor, MessagesOf(es)))
  {
    CursorOfMessages(cursor, es);
  }

  lemma StartOfLog(c: Config, s: State, j: nat)
    requires Reachable(c, s) && j <= |Wire(s)|
    ensures var es := EventsOf(Wire(s)[..j]);
            c.start + |es| <= |c.log| && c.log[c.start..c.start + |es|] == es
  {
    var es := EventsOf(Wire(s)[..j]);
    StreamTheorems.DeliveryIsAPrefix(c, s);
    EventsOfPrefix(Wire(s), j);
    assert es <= c.log[c.start..];
    assert c.log[c.start..][..|es|] == c.log[c.start..c.start + |es|];
  }

  /** Every operation event the client dispatched over some connections in a row, and the cursor it then
      holds. */
  function Dispatched(cursor: Bytes, ks: seq<Connection>): seq<Message>
    decreases |ks|
  {
    if ks == [] then []
    else Dispatched(cursor, ks[..|ks| - 1]) + OperationsOf(CursorBehind(cursor, ks[..|ks| - 1]), ks[|ks| - 1])
  }

  function CursorBehind(cursor: Bytes, ks: seq<Connection>): Bytes
    decreases |ks|
  {
    if ks == [] then cursor else Next(CursorBehind(cursor, ks[..|ks| - 1]), ks[|ks| - 1])
  }

  /** Connection i was opened with the cursor the connections before it left. */
  ghost predicate OpenedInTurn(log: seq<Event>, cursor: Bytes, ks: seq<Connection>, i: nat)
    requires i < |ks|
  {
    Happened(log, CursorBehind(cursor, ks[..i]), ks[i])
  }

  ghost predicate Session(log: seq<Event>, cursor: Bytes, ks: seq<Connection>) {
    forall i | 0 <= i < |ks| :: OpenedInTurn(log, cursor, ks, i)
  }

  lemma SessionBefore(log: seq<Event>, cursor: Bytes, ks: seq<Connection>, n: nat)
    requires Session(log, cursor, ks) && n <= |ks|
    ensures Session(log, cursor, ks[..n])
  {
    forall i | 0 <= i < n
      ensures OpenedInTurn(log, cursor, ks[..n], i)
    {
      assert OpenedInTurn(log, cursor, ks, i);
      assert ks[..n][..i] == ks[..i];
    }
  }

  lemma Joined(log: seq<Event>, p: nat, cursor: Bytes, a: nat, m1: seq<Message>, mid: Bytes,
               b: nat, m2: seq<Message>, next: Bytes)
    requires Stretch(log, p, cursor, a, m1, mid) && Stretch(log, p + a, mid, b, m2, next)
    ensures Stretch(log, p, cursor, a + b, m1 + m2, next)
  {
    var e1, e2 := log[p..p + a], log[p + a..p + a + b];
    assert log[p..p + a + b] == e1 + e2;
    AppendEvents(cursor, [], e1, e2);
    assert [] + m1 == m1 && [] + MessagesOf(e1 + e2) == MessagesOf(e1 + e2);
  }

  lemma LastConnection(log: seq<Event>, cursor: Bytes, ks: seq<Connection>) returns (n: nat)
    requires IsLog(log) && Session(log, cursor, ks) && ks != []
    ensures var held, k := CursorBehind(cursor, ks[..|ks| - 1]), ks[|ks| - 1];
            && IsCursor(held) && Position(log, held) + n <= |log|
            && IsCursor(Next(held, k)) && Position(log, Next(held, k)) == Position(log, held) + n
            && Stretch(log, Position(log, held), held, n, OperationsOf(held, k), Next(held, k))
  {
    var held, k := CursorBehind(cursor, ks[..|ks| - 1]), ks[|ks| - 1];
    assert OpenedInTurn(log, cursor, ks, |ks| - 1);
    n := OneConnection(log, held, k);
    CursorNamesEvent(log, held, n);
  }

  /** The client's place after some connections: what it dispatched, and where its cursor points. */
  ghost predicate Resumed(log: seq<Event>, cursor: Bytes, ks: seq<Connection>, n: nat)
    requires IsCursor(cursor)
  {
    && Stretch(log, Position(log, cursor), cursor, n, Dispatched(cursor, ks), CursorBehind(cursor, ks))
    && IsCursor(CursorBehind(cursor, ks)) && Position(log, CursorBehind(cursor, ks)) == Position(log, cursor) + n
  }

  lemma OneMoreConnection(log: seq<Event>, cursor: Bytes, ks: seq<Connection>, a: nat) returns (n: nat)
    requires IsLog(log) && IsCursor(cursor) && Session(log, cursor, ks) && ks != []
    requires Resumed(log, cursor, ks[..|ks| - 1], a)
    ensures Resumed(log, cursor, ks, n)
  {
    var init, k := ks[..|ks| - 1], ks[|ks| - 1];
    var held := CursorBehind(cursor, init);
    var b := LastConnection(log, cursor, ks);
    n := a + b;
    Joined(log, Position(log, cursor), cursor, a, Dispatched(cursor, init), held,
           b, OperationsOf(held, k), Next(held, k));
  }

  /** Exactly-once resumption: over any session the operation events dispatched are a gapless,
      duplicate-free stretch of the log that starts after the first cursor, and the cursor names its end. */
  lemma {:induction false} ExactlyOnce(log: seq<Event>, cursor: Bytes, ks: seq<Connection>) returns (n: nat)
    requires IsLog(log) && IsCursor(cursor) && Session(log, cursor, ks)
    ensures Resumed(log, cursor, ks, n)
    decreases |ks|
  {
    if ks == [] {
      n := 0;
      IsStretch(log, Position(log, cursor), cursor, []);
    } else {
      SessionBefore(log, cursor, ks, |ks| - 1);
      var a := ExactlyOnce(log, cursor, ks[..|ks| - 1]);
      n := OneMoreConnection(log, cursor, ks, a);
    }
  }

  // ---- what a client must do for this ----

  /** The standard keeps a last event ID string of its own, and starts a new connection's last event ID
      buffer empty. After any byte prefix the string names the last operation event dispatched exactly
      when no whole chunk arrived, an event did, or the client had seeded the buffer with its cursor. */
  lemma LastIdKeepsThePlace(seed: Bytes, cursor: Bytes, w: seq<Chunk>, received: Bytes) returns (k: nat)
    requires AllSendable(w) && received <= EncodeAll(w)
    ensures k <= |w| && EncodeAll(w[..k]) <= received && (k < |w| ==> received < EncodeAll(w[..k + 1]))
    ensures var r := ReadAll(Connect(seed, cursor), received);
            r.lastId == CursorOf(cursor, Operations(r.messages)) <==> k == 0 || EventsOf(w[..k]) != [] || seed == cursor
  {
    k := WireDelivers(seed, cursor, w, received);
    CursorOfMessages(cursor, EventsOf(w[..k]));
  }

  /** `after` in the URL wins over Last-Event-ID: a client that keeps one URL gets what it already has
      again, exactly when the URL names `after` and the connection delivered something. */
  lemma FixedAfterRepeats(log: seq<Event>, after: Bytes, first: Bytes, k: nat)
    requires IsLog(log) && BindCursor(after, first).Ok? && IsCursor(first)
    requires Position(log, BindCursor(after, first).value) + k <= |log|
    ensures var start := BindCursor(after, first).value; var p := Position(log, start);
            var held := CursorAfter(start, log[p..p + k]);
            && BindCursor(after, held).Ok?
            && (Position(log, BindCursor(after, held).value) == p + k <==> after == [] || k == 0)
  {
    var start := BindCursor(after, first).value;
    CursorNamesEvent(log, start, k);
  }
}
