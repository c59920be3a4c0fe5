/** The reader's side: parsing and interpreting an event stream as section 9.2.6 of the WHATWG HTML
    standard does, byte by byte, and what it makes of any prefix of what the handler wrote. */
module EventSource {
  import opened Basics
  import opened Sequences
  import opened Frames

  /** A dispatched event: its type, its data and the last event ID it carries. */
  datatype Message = Message(kind: Bytes, data: Bytes, id: Bytes)

  datatype Reader = Reader(
    line: Bytes, afterCR: bool,                       // the line being read
    data: Bytes, kind: Bytes, idBuffer: Bytes,        // the buffers of the interpretation
    retry: Option<Bytes>,                             // the reconnection time last set
    lastId: Bytes, messages: seq<Message>)            // the last event ID string; what was dispatched

  /** A new connection. `lastId` is the source's last event ID string, `seed` what the last event ID
      buffer starts with. */
  function Connect(seed: Bytes, lastId: Bytes): Reader {
    Reader([], false, [], [], seed, None, lastId, [])
  }

  function IndexOf(s: Bytes, b: byte): (k: nat)
    ensures k <= |s|
  {
    if s == [] || s[0] == b then 0 else 1 + IndexOf(s[1..], b)
  }

  function WithoutLeadingSpace(s: Bytes): Bytes {
    if s != [] && s[0] == SPACE then s[1..] else s
  }

  function Process(r: Reader, field: Bytes, value: Bytes): Reader {
    if field == EVENT then r.(kind := value)
    else if field == DATA then r.(data := r.data + value + [LF])
    else if field == ID then if 0 in value then r else r.(idBuffer := value)
    else if field == RETRY then if AllDigits(value) then r.(retry := Some(value)) else r
    else r
  }

  function Interpret(r: Reader, line: Bytes): Reader
    requires line != []
  {
    var colon := IndexOf(line, COLON);
    if colon == 0 then r
    else if colon < |line| then Process(r, line[..colon], WithoutLeadingSpace(line[colon + 1..]))
    else Process(r, line, [])
  }

  function Dispatch(r: Reader): Reader {
    var r := r.(lastId := r.idBuffer);
    if r.data == [] then r.(kind := [])
    else
      var m := Message(if r.kind == [] then MESSAGE else r.kind, r.data[..|r.data| - 1], r.lastId);
      r.(data := [], kind := [], messages := r.messages + [m])
  }

  function EndLine(r: Reader): Reader {
    if r.line == [] then Dispatch(r) else Interpret(r, r.line).(line := [])
  }

  function Read(r: Reader, b: byte): Reader {
    if b == LF then if r.afterCR then r.(afterCR := false) else EndLine(r)
    else if b == CR then EndLine(r).(afterCR := true)
    else r.(line := r.line + [b], afterCR := false)
  }

  function ReadAll(r: Reader, w: Bytes): Reader
    decreases |w|
  {
    if w == [] then r else ReadAll(Read(r, w[0]), w[1..])
  }

  lemma {:induction false} ReadConcat(r: Reader, a: Bytes, b: Bytes)
    ensures ReadAll(r, a + b) == ReadAll(ReadAll(r, a), b)
    decreases |a|
  {
    if a == [] {
      assert a + b == b;
    } else {
      assert (a + b)[1..] == a[1..] + b;
      ReadConcat(Read(r, a[0]), a[1..], b);
    }
  }

  // ---- one chunk ----

  /** The reader stands at the start of a line. */
  predicate AtLine(r: Reader) {
    r.line == [] && !r.afterCR
  }

  /** The reader stands between two events. */
  predicate AtEvent(r: Reader) {
    AtLine(r) && r.data == [] && r.kind == []
  }

  lemma {:induction false} ReadText(r: Reader, s: Bytes)
    requires !r.afterCR && OneLine(s)
    ensures ReadAll(r, s) == r.(line := r.line + s)
    decreases |s|
  {
    if s == [] {
      assert r.line + s == r.line;
    } else {
      ReadText(r.(line := r.line + [s[0]]), s[1..]);
      assert r.line + [s[0]] + s[1..] == r.line + s;
    }
  }

  lemma ProcessFrame(r: Reader, l: Bytes, field: Bytes, value: Bytes)
    ensures Process(r.(line := l), field, value) == Process(r, field, value).(line := l)
    ensures var t := Process(r, field, value);
            t.line == r.line && t.afterCR == r.afterCR && t.messages == r.messages && t.lastId == r.lastId
  {
  }

  /** Interpreting a line depends on no line and moves no cursor. */
  lemma InterpretFrame(r: Reader, l: Bytes)
    requires l != []
    ensures Interpret(r.(line := l), l) == Interpret(r, l).(line := l)
    ensures var t := Interpret(r, l);
            t.line == r.line && t.afterCR == r.afterCR && t.messages == r.messages && t.lastId == r.lastId
  {
    var colon := IndexOf(l, COLON);
    if colon == |l| {
      ProcessFrame(r, l, l, []);
    } else if colon > 0 {
      ProcessFrame(r, l, l[..colon], WithoutLeadingSpace(l[colon + 1..]));
    }
  }

  lemma ReadLine(r: Reader, l: Bytes)
    requires AtLine(r) && l != [] && OneLine(l)
    ensures ReadAll(r, l + [LF]) == Interpret(r, l)
    ensures AtLine(Interpret(r, l))
    ensures Interpret(r, l).messages == r.messages && Interpret(r, l).lastId == r.lastId
  {
    ReadConcat(r, l, [LF]);
    ReadText(r, l);
    assert r.line + l == l;
    var full := r.(line := l);
    assert ReadAll(full, [LF]) == ReadAll(Read(full, LF), []) == Interpret(full, l).(line := []);
    InterpretFrame(r, l);
  }

  lemma {:induction false} IndexInField(name: Bytes, value: Bytes)
    requires COLON !in name
    ensures IndexOf(Field(name, value), COLON) == |name|
  {
    if name == [] {
    } else {
      assert Field(name, value)[1..] == Field(name[1..], value);
      IndexInField(name[1..], value);
    }
  }

  lemma InterpretField(r: Reader, name: Bytes, value: Bytes)
    requires COLON !in name && name != []
    ensures Field(name, value) != []
    ensures Interpret(r, Field(name, value)) == Process(r, name, WithoutLeadingSpace(value))
  {
    IndexInField(name, value);
    assert Field(name, value)[..|name|] == name;
    assert Field(name, value)[|name| + 1..] == value;
  }

  /** What one whole chunk does to a reader that stands between two events. */
  function Told(r: Reader, ch: Chunk): Reader {
    match ch
    case Retry(ms) => r.(retry := Some(Print(ms)), lastId := r.idBuffer)
    case Heartbeat => r.(lastId := r.idBuffer)
    case EventFrame(e) =>
      var id := Print(e.seqNo);
      r.(idBuffer := id, lastId := id, messages := r.messages + [Message(e.name, e.data, id)])
    case ResetFrame(p) =>
      r.(lastId := r.idBuffer, messages := r.messages + [Message(RESET_REQUIRED, p, r.idBuffer)])
    case EndFrame(p) =>
      r.(lastId := r.idBuffer, messages := r.messages + [Message(END, p, r.idBuffer)])
  }

  function InterpretAll(r: Reader, lines: seq<Bytes>): Reader
    requires ProperLines(lines)
    decreases |lines|
  {
    if lines == [] then r else InterpretAll(Interpret(r, lines[0]), lines[1..])
  }

  lemma {:induction false} ReadLines(r: Reader, lines: seq<Bytes>)
    requires AtLine(r)
    requires ProperLines(lines)
    ensures ReadAll(r, Render(lines)) == Dispatch(InterpretAll(r, lines))
    decreases |lines|
  {
    if lines == [] {
      assert ReadAll(r, [LF]) == ReadAll(Read(r, LF), []);
    } else {
      ReadLine(r, lines[0]);
      ReadConcat(r, lines[0] + [LF], Render(lines[1..]));
      ReadLines(Interpret(r, lines[0]), lines[1..]);
    }
  }

  lemma InterpretFirst(r: Reader, lines: seq<Bytes>, name: Bytes, value: Bytes, rest: seq<Bytes>)
    requires ProperLines(lines) && ProperLines(rest) && lines == [Field(name, value)] + rest
    requires COLON !in name && name != []
    ensures InterpretAll(r, lines) == InterpretAll(Process(r, name, WithoutLeadingSpace(value)), rest)
  {
    InterpretField(r, name, value);
    assert lines[1..] == rest;
  }

  lemma DispatchOne(r: Reader, kind: Bytes, data: Bytes)
    requires AtEvent(r) && kind != [] && data != []
    ensures Dispatch(r.(kind := kind, data := data + [LF])) ==
            r.(lastId := r.idBuffer, messages := r.messages + [Message(kind, data, r.idBuffer)])
  {
    assert (data + [LF])[..|data|] == data;
  }

  /** The event and data lines of a chunk, and its blank line. */
  lemma InterpretEvent(r: Reader, kind: Bytes, data: Bytes)
    requires AtEvent(r) && FieldValue(kind) && FieldValue(data)
    requires ProperLines([Field(EVENT, kind), Field(DATA, data)])
    ensures Dispatch(InterpretAll(r, [Field(EVENT, kind), Field(DATA, data)])) ==
            r.(lastId := r.idBuffer, messages := r.messages + [Message(kind, data, r.idBuffer)])
  {
    var last := [Field(DATA, data)];
    assert ProperLines(last) by {
      assert last[0] == [Field(EVENT, kind), Field(DATA, data)][1];
    }
    InterpretFirst(r, [Field(EVENT, kind), Field(DATA, data)], EVENT, kind, last);
    var named := r.(kind := kind);
    assert Process(r, EVENT, kind) == named;
    InterpretFirst(named, last, DATA, data, []);
    assert named.data + data == data;
    DispatchOne(r, kind, data);
  }

  lemma ReadEventFrame(r: Reader, e: Event)
    requires AtEvent(r) && Sendable(EventFrame(e))
    ensures ReadAll(r, Encode(EventFrame(e))) == Told(r, EventFrame(e))
  {
    var id := Print(e.seqNo);
    var lines, rest := Lines(EventFrame(e)), [Field(EVENT, e.name), Field(DATA, e.data)];
    PrintIsFieldValue(e.seqNo);
    ValueOfPrint(e.seqNo);
    LinesAreLines(EventFrame(e));
    assert ProperLines(rest) by {
      assert rest[0] == lines[1] && rest[1] == lines[2];
    }
    ReadLines(r, lines);
    InterpretFirst(r, lines, ID, id, rest);
    assert Process(r, ID, id) == r.(idBuffer := id);
    InterpretEvent(r.(idBuffer := id), e.name, e.data);
  }

  lemma ReadRetry(r: Reader, ms: nat)
    requires AtEvent(r)
    ensures ReadAll(r, Encode(Retry(ms))) == Told(r, Retry(ms))
  {
    var v := [SPACE] + Print(ms);
    LinesAreLines(Retry(ms));
    ReadLines(r, Lines(Retry(ms)));
    InterpretFirst(r, Lines(Retry(ms)), RETRY, v, []);
    assert WithoutLeadingSpace(v) == Print(ms);
    ValueOfPrint(ms);
  }

  lemma ReadNamed(r: Reader, ch: Chunk, kind: Bytes, payload: Bytes)
    requires AtEvent(r) && Sendable(ch) && FieldValue(kind) && FieldValue(payload)
    requires Lines(ch) == [Field(EVENT, kind), Field(DATA, payload)]
    ensures ReadAll(r, Encode(ch)) ==
            r.(lastId := r.idBuffer, messages := r.messages + [Message(kind, payload, r.idBuffer)])
  {
    LinesAreLines(ch);
    ReadLines(r, Lines(ch));
    InterpretEvent(r, kind, payload);
  }

  lemma ReadHeartbeat(r: Reader)
    requires AtEvent(r)
    ensures ReadAll(r, Encode(Heartbeat)) == Told(r, Heartbeat)
  {
    LinesAreLines(Heartbeat);
    ReadLines(r, Lines(Heartbeat));
    assert Lines(Heartbeat)[1..] == [];
  }

  /** A whole chunk dispatches its event, or nothing, and leaves the reader between events. */
  lemma ReadChunk(r: Reader, ch: Chunk)
    requires AtEvent(r) && Sendable(ch)
    ensures ReadAll(r, Encode(ch)) == Told(r, ch)
    ensures AtEvent(Told(r, ch))
  {
    match ch
    case Retry(ms) => ReadRetry(r, ms);
    case Heartbeat => ReadHeartbeat(r);
    case EventFrame(e) => ReadEventFrame(r, e);
    case ResetFrame(p) => ReadNamed(r, ch, RESET_REQUIRED, p);
    case EndFrame(p) => ReadNamed(r, ch, END, p);
  }

  /** A chunk cut anywhere before its last byte dispatches nothing and moves no cursor. */
  lemma {:induction false} CutLines(r: Reader, lines: seq<Bytes>, w: Bytes)
    requires AtLine(r)
    requires ProperLines(lines)
    requires w < Render(lines)
    ensures ReadAll(r, w).messages == r.messages && ReadAll(r, w).lastId == r.lastId
    decreases |lines|
  {
    if lines == [] {
    } else {
      var l := lines[0];
      if |w| <= |l| {
        assert w == l[..|w|];
        ReadText(r, w);
      } else {
        var rest := w[|l| + 1..];
        assert w == l + [LF] + rest;
        assert rest < Render(lines[1..]) by {
          assert Render(lines)[|l| + 1..] == Render(lines[1..]);
        }
        ReadLine(r, l);
        ReadConcat(r, l + [LF], rest);
        CutLines(Interpret(r, l), lines[1..], rest);
      }
    }
  }

  // ---- a stream cut anywhere ----

  function ToldAll(r: Reader, cs: seq<Chunk>): Reader
    decreases |cs|
  {
    if cs == [] then r else ToldAll(Told(r, cs[0]), cs[1..])
  }

  lemma EncodeFirst(cs: seq<Chunk>, k: nat)
    requires 0 < k <= |cs|
    ensures EncodeAll(cs[..k]) == Encode(cs[0]) + EncodeAll(cs[1..][..k - 1])
    ensures forall r :: ToldAll(r, cs[..k]) == ToldAll(Told(r, cs[0]), cs[1..][..k - 1])
  {
    assert cs[..k][1..] == cs[1..][..k - 1];
  }

  lemma CutChunk(r: Reader, ch: Chunk, w: Bytes)
    requires AtEvent(r) && Sendable(ch) && w < Encode(ch)
    ensures ReadAll(r, w).messages == r.messages && ReadAll(r, w).lastId == r.lastId
  {
    LinesAreLines(ch);
    CutLines(r, Lines(ch), w);
  }

  lemma ReadOn(r: Reader, ch: Chunk, rest: Bytes)
    requires AtEvent(r) && Sendable(ch)
    ensures ReadAll(r, Encode(ch) + rest) == ReadAll(Told(r, ch), rest) && AtEvent(Told(r, ch))
  {
    ReadChunk(r, ch);
    ReadConcat(r, Encode(ch), rest);
  }

  lemma RestOf(cs: seq<Chunk>, w: Bytes) returns (rest: Bytes)
    requires cs != [] && w <= EncodeAll(cs) && |Encode(cs[0])| <= |w|
    ensures w == Encode(cs[0]) + rest && rest <= EncodeAll(cs[1..])
  {
    var first := Encode(cs[0]);
    rest := w[|first|..];
    assert EncodeAll(cs)[|first|..] == EncodeAll(cs[1..]);
  }

  /** Any byte prefix of a stream dispatches what its whole chunks say and nothing of the chunk it cuts. */
  lemma {:induction false} ReadPrefix(r: Reader, cs: seq<Chunk>, w: Bytes) returns (k: nat)
    requires AtEvent(r) && AllSendable(cs) && w <= EncodeAll(cs)
    ensures k <= |cs| && EncodeAll(cs[..k]) <= w
    ensures k < |cs| ==> w < EncodeAll(cs[..k + 1])
    ensures ReadAll(r, w).messages == ToldAll(r, cs[..k]).messages
    ensures ReadAll(r, w).lastId == ToldAll(r, cs[..k]).lastId
    decreases |cs|
  {
    k := 0;
    if cs == [] {
    } else {
      var first := Encode(cs[0]);
      EncodeFirst(cs, 1);
      if |w| < |first| {
        assert w == first[..|w|];
        CutChunk(r, cs[0], w);
      } else {
        var rest := RestOf(cs, w);
        ReadOn(r, cs[0], rest);
        var j := ReadPrefix(Told(r, cs[0]), cs[1..], rest);
        k := j + 1;
        EncodeFirst(cs, k);
        if k < |cs| {
          EncodeFirst(cs, k + 1);
        }
      }
    }
  }

  // ---- what the application sees ----

  predicate IsOperation(m: Message) {
    m.kind != END && m.kind != RESET_REQUIRED
  }

  function Operations(ms: seq<Message>): seq<Message> {
    if ms == [] then []
    else Operations(ms[..|ms| - 1]) + (if IsOperation(ms[|ms| - 1]) then [ms[|ms| - 1]] else [])
  }

  function MessageOf(e: Event): Message {
    Message(e.name, e.data, Print(e.seqNo))
  }

  function MessagesOf(es: seq<Event>): seq<Message> {
    seq(|es|, i requires 0 <= i < |es| => MessageOf(es[i]))
  }

  /** The cursor after some events: the id of the last, or what it was. */
  function CursorAfter(cursor: Bytes, es: seq<Event>): Bytes {
    if es == [] then cursor else Print(es[|es| - 1].seqNo)
  }

  lemma OperationsAppend(ms: seq<Message>, m: Message)
    ensures Operations(ms + [m]) == Operations(ms) + (if IsOperation(m) then [m] else [])
  {
    assert (ms + [m])[..|ms|] == ms;
  }

  lemma ToldOnce(r: Reader, ch: Chunk)
    requires Sendable(ch)
    ensures Operations(Told(r, ch).messages) == Operations(r.messages) + MessagesOf(EventsOf([ch]))
    ensures Told(r, ch).idBuffer == CursorAfter(r.idBuffer, EventsOf([ch]))
    ensures Told(r, ch).lastId == Told(r, ch).idBuffer
  {
    match ch
    case EventFrame(e) =>
      OperationsAppend(r.messages, MessageOf(e));
      assert MessagesOf([e]) == [MessageOf(e)];
    case ResetFrame(p) => OperationsAppend(r.messages, Message(RESET_REQUIRED, p, r.idBuffer));
    case EndFrame(p) => OperationsAppend(r.messages, Message(END, p, r.idBuffer));
    case _ =>
  }

  lemma AppendEvents(cursor: Bytes, before: seq<Message>, a: seq<Event>, b: seq<Event>)
    ensures before + MessagesOf(a) + MessagesOf(b) == before + MessagesOf(a + b)
    ensures CursorAfter(CursorAfter(cursor, a), b) == CursorAfter(cursor, a + b)
  {
    assert MessagesOf(a + b) == MessagesOf(a) + MessagesOf(b);
  }

  /** Whole chunks give the application exactly the operation events among them, in order; retry,
      heartbeat, reset and end chunks never move the id past the last of those events. */
  lemma {:induction false} ChunksToldInOrder(r: Reader, cs: seq<Chunk>)
    requires AllSendable(cs)
    ensures Operations(ToldAll(r, cs).messages) == Operations(r.messages) + MessagesOf(EventsOf(cs))
    ensures ToldAll(r, cs).idBuffer == CursorAfter(r.idBuffer, EventsOf(cs))
    ensures cs != [] ==> ToldAll(r, cs).lastId == ToldAll(r, cs).idBuffer
    decreases |cs|
  {
    if cs == [] {
      assert ToldAll(r, cs) == r;
    } else {
      var t := Told(r, cs[0]);
      ToldOnce(r, cs[0]);
      ChunksToldInOrder(t, cs[1..]);
      EventsOfConcat([cs[0]], cs[1..]);
      assert cs == [cs[0]] + cs[1..];
      AppendEvents(r.idBuffer, Operations(r.messages), EventsOf([cs[0]]), EventsOf(cs[1..]));
      assert cs[1..] == [] ==> ToldAll(t, cs[1..]) == t;
    }
  }
}
