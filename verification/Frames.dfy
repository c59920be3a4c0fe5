/** What the handler writes to the connection: chunks, and the bytes of a chunk. */
module Frames {
  import opened Basics
  import opened Sequences

  /** One operation event as it goes on the wire: its durable sequence, its type and its JSON payload. */
  datatype Event = Event(seqNo: nat, name: Bytes, data: Bytes)

  datatype Chunk =
    | Retry(millis: nat)
    | Heartbeat
    | EventFrame(event: Event)
    | ResetFrame(payload: Bytes)
    | EndFrame(payload: Bytes)

  function EventsOf(cs: seq<Chunk>): seq<Event> {
    if cs == [] then []
    else (if cs[0].EventFrame? then [cs[0].event] else []) + EventsOf(cs[1..])
  }

  lemma {:induction false} EventsOfConcat(a: seq<Chunk>, b: seq<Chunk>)
    ensures EventsOf(a + b) == EventsOf(a) + EventsOf(b)
  {
    if a == [] {
      assert a + b == b;
    } else {
      assert (a + b)[0] == a[0] && (a + b)[1..] == a[1..] + b;
      EventsOfConcat(a[1..], b);
      var first := if a[0].EventFrame? then [a[0].event] else [];
      assert first + (EventsOf(a[1..]) + EventsOf(b)) == first + EventsOf(a[1..]) + EventsOf(b);
    }
  }

  const LF: byte := 10
  const CR: byte := 13
  const SPACE: byte := 32
  const COLON: byte := 58

  const ID: Bytes := [105, 100]
  const EVENT: Bytes := [101, 118, 101, 110, 116]
  const DATA: Bytes := [100, 97, 116, 97]
  const RETRY: Bytes := [114, 101, 116, 114, 121]
  const MESSAGE: Bytes := [109, 101, 115, 115, 97, 103, 101]
  const END: Bytes := [101, 110, 100]
  const RESET_REQUIRED: Bytes := [114, 101, 115, 101, 116, 95, 114, 101, 113, 117, 105, 114, 101, 100]
  const KEEPALIVE: Bytes := [58, 32, 107, 101, 101, 112, 97, 108, 105, 118, 101]  // ": keepalive"

  predicate OneLine(s: Bytes) {
    forall i | 0 <= i < |s| :: s[i] != LF && s[i] != CR
  }

  /** What a field value must be to come back as it was written: gin-contrib/sse puts no space after
      the colon, and a reader drops one. */
  predicate FieldValue(s: Bytes) {
    s != [] && OneLine(s) && s[0] != SPACE
  }

  predicate Sendable(ch: Chunk) {
    match ch
    case Retry(_) => true
    case Heartbeat => true
    case EventFrame(e) => FieldValue(e.name) && FieldValue(e.data) && e.name != END && e.name != RESET_REQUIRED
    case ResetFrame(p) => FieldValue(p)
    case EndFrame(p) => FieldValue(p)
  }

  predicate AllSendable(cs: seq<Chunk>) {
    forall i | 0 <= i < |cs| :: Sendable(cs[i])
  }

  function Field(name: Bytes, value: Bytes): Bytes {
    name + [COLON] + value
  }

  /** The lines of a chunk before its blank line. */
  function Lines(ch: Chunk): seq<Bytes> {
    match ch
    case Retry(ms) => [Field(RETRY, [SPACE] + Print(ms))]
    case Heartbeat => [KEEPALIVE]
    case EventFrame(e) => [Field(ID, Print(e.seqNo)), Field(EVENT, e.name), Field(DATA, e.data)]
    case ResetFrame(p) => [Field(EVENT, RESET_REQUIRED), Field(DATA, p)]
    case EndFrame(p) => [Field(EVENT, END), Field(DATA, p)]
  }

  predicate ProperLines(lines: seq<Bytes>) {
    forall i | 0 <= i < |lines| :: lines[i] != [] && OneLine(lines[i])
  }

  function Render(lines: seq<Bytes>): Bytes {
    if lines == [] then [LF] else lines[0] + [LF] + Render(lines[1..])
  }

  function Encode(ch: Chunk): Bytes {
    Render(Lines(ch))
  }

  function EncodeAll(cs: seq<Chunk>): Bytes {
    if cs == [] then [] else Encode(cs[0]) + EncodeAll(cs[1..])
  }

  lemma PrintIsFieldValue(n: nat)
    ensures FieldValue(Print(n))
  {
    ValueOfPrint(n);
  }

  lemma FieldIsALine(name: Bytes, value: Bytes)
    requires OneLine(name) && OneLine(value)
    ensures Field(name, value) != [] && OneLine(Field(name, value))
  {
  }

  lemma LinesAreLines(ch: Chunk)
    requires Sendable(ch)
    ensures ProperLines(Lines(ch))
  {
    match ch
    case Retry(ms) =>
      PrintIsFieldValue(ms);
      FieldIsALine(RETRY, [SPACE] + Print(ms));
    case Heartbeat =>
    case EventFrame(e) =>
      PrintIsFieldValue(e.seqNo);
      FieldIsALine(ID, Print(e.seqNo));
      FieldIsALine(EVENT, e.name);
      FieldIsALine(DATA, e.data);
    case ResetFrame(p) =>
      FieldIsALine(EVENT, RESET_REQUIRED);
      FieldIsALine(DATA, p);
    case EndFrame(p) =>
      FieldIsALine(EVENT, END);
      FieldIsALine(DATA, p);
  }

  // ---- the bytes, spelled out ----

  const EVENT_END: Bytes := [101, 118, 101, 110, 116, 58, 101, 110, 100]
  const EVENT_RESET: Bytes :=
    [101, 118, 101, 110, 116, 58] + [114, 101, 115, 101, 116, 95, 114, 101, 113, 117, 105, 114, 101, 100]
  const DATA_COLON: Bytes := [100, 97, 116, 97, 58]

  lemma OneLineFrame(a: Bytes)
    ensures Render([a]) == a + [10] + [10]
  {
    assert Render([]) == [LF];
  }

  lemma TwoLines(a: Bytes, b: Bytes)
    ensures Render([a, b]) == a + [10] + (b + [10] + [10])
  {
    OneLineFrame(b);
    assert [a, b][1..] == [b];
  }

  /** The frames the handler makes itself: `: keepalive`, `retry: ` and the interval, `event:end` or
      `event:reset_required` with `data:`; a blank line ends each. */
  lemma ClosingBytes(ms: nat, p: Bytes)
    ensures Encode(Heartbeat) == [58, 32, 107, 101, 101, 112, 97, 108, 105, 118, 101] + [10] + [10]
    ensures Encode(Retry(ms)) == ([114, 101, 116, 114, 121, 58] + ([32] + Print(ms))) + [10] + [10]
    ensures Encode(EndFrame(p)) == EVENT_END + [10] + ((DATA_COLON + p) + [10] + [10])
    ensures Encode(ResetFrame(p)) == EVENT_RESET + [10] + ((DATA_COLON + p) + [10] + [10])
  {
    OneLineFrame(KEEPALIVE);
    OneLineFrame(Field(RETRY, [SPACE] + Print(ms)));
    TwoLines(Field(EVENT, END), Field(DATA, p));
    TwoLines(Field(EVENT, RESET_REQUIRED), Field(DATA, p));
    assert EVENT + [COLON] + END == EVENT_END;
    assert EVENT + [COLON] + RESET_REQUIRED == EVENT_RESET;
    assert DATA + [COLON] == DATA_COLON;
    assert RETRY + [COLON] == [114, 101, 116, 114, 121, 58];
  }

  /** An operation event is its `id:`, `event:` and `data:` lines and a blank one. */
  lemma EventBytes(e: Event)
    ensures Encode(EventFrame(e)) ==
            ([105, 100, 58] + Print(e.seqNo)) + [10]
            + (([101, 118, 101, 110, 116, 58] + e.name) + [10] + ((DATA_COLON + e.data) + [10] + [10]))
  {
    var lines := Lines(EventFrame(e));
    TwoLines(lines[1], lines[2]);
    assert lines[1..] == [lines[1], lines[2]];
    assert ID + [COLON] == [105, 100, 58];
    assert EVENT + [COLON] == [101, 118, 101, 110, 116, 58];
    assert DATA + [COLON] == DATA_COLON;
  }
}
