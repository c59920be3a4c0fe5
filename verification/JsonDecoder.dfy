/** The recursive-descent decoder over the mutable token cursor of encoding/json's Decoder. */
module JsonDecoder {
  import opened Basics
  import opened JsonGrammar

  datatype TokenState =
    | TopValue
    | ArrayStart | ArrayValue | ArrayComma
    | ObjectStart | ObjectKey | ObjectColon | ObjectValue | ObjectComma

  datatype TokenError = EndOfInput | SyntaxError

  predicate ValueAllowed(s: TokenState) {
    s.TopValue? || s.ArrayStart? || s.ArrayValue? || s.ObjectValue?
  }

  /** The state once a value ended. */
  function ValueEnd(s: TokenState): TokenState {
    if s.ArrayStart? || s.ArrayValue? then ArrayComma
    else if s.ObjectValue? then ObjectComma
    else s
  }

  /** The states on the stack enclose each other: only the outermost is the top. */
  ghost predicate Nested(state: TokenState, stack: seq<TokenState>) {
    && (state.TopValue? <==> stack == [])
    && forall i | 0 <= i < |stack| :: stack[i].TopValue? <==> i == 0
  }

  /** The separator a token may be preceded by, and the state behind it. */
  function Leads(state: TokenState): seq<Token> {
    if state.ArrayComma? || state.ObjectComma? then [Comma] else if state.ObjectColon? then [Colon] else []
  }

  function Past(state: TokenState): TokenState {
    match state
    case ArrayComma => ArrayValue
    case ObjectComma => ObjectKey
    case ObjectColon => ObjectValue
    case _ => state
  }

  datatype Scan = NoToken | Scan(token: Token, state: TokenState, stack: seq<TokenState>, rest: seq<Token>)

  /** The token at the front of `ts`, if it may stand in this state. */
  function ScanHere(state: TokenState, stack: seq<TokenState>, ts: seq<Token>): Scan {
    if ts == [] then NoToken
    else
      match ts[0]
      case LBracket => if ValueAllowed(state) then Scan(LBracket, ArrayStart, stack + [state], ts[1..]) else NoToken
      case LBrace => if ValueAllowed(state) then Scan(LBrace, ObjectStart, stack + [state], ts[1..]) else NoToken
      case RBracket =>
        if (state.ArrayStart? || state.ArrayComma?) && stack != [] then
          Scan(RBracket, ValueEnd(stack[|stack| - 1]), stack[..|stack| - 1], ts[1..])
        else NoToken
      case RBrace =>
        if (state.ObjectStart? || state.ObjectComma?) && stack != [] then
          Scan(RBrace, ValueEnd(stack[|stack| - 1]), stack[..|stack| - 1], ts[1..])
        else NoToken
      case Lit(a) =>
        if a.Text? && (state.ObjectStart? || state.ObjectKey?) then Scan(Lit(a), ObjectColon, stack, ts[1..])
        else if ValueAllowed(state) then Scan(Lit(a), ValueEnd(state), stack, ts[1..])
        else NoToken
      case _ => NoToken
  }

  /** The next token that is no separator, behind the separator the state expects. */
  function ScanNext(state: TokenState, stack: seq<TokenState>, ts: seq<Token>): Scan {
    if Leads(state) != [] && Leads(state) <= ts then ScanHere(Past(state), stack, ts[1..])
    else ScanHere(state, stack, ts)
  }

  /** Where decodeValue may be called: at the top, after a key, or in an array that has more. */
  predicate ExpectsValue(state: TokenState, rest: seq<Token>) {
    || state.TopValue?
    || state.ObjectColon?
    || ((state.ArrayStart? || state.ArrayComma?) && rest != [] && rest[0] != RBracket && rest[0] != RBrace)
  }

  /** The value expected in a state, separator included. */
  function Expected(state: TokenState, rest: seq<Token>): Parse<Json> {
    if Leads(state) <= rest then ParseValue(rest[|Leads(state)|..]) else Refused(Malformed)
  }

  function StateAfter(state: TokenState): TokenState {
    if state.TopValue? then TopValue else if state.ObjectColon? then ObjectComma else ArrayComma
  }

  function Prepended(items: seq<Json>, p: Parse<seq<Json>>): Parse<seq<Json>> {
    if p.Got? then Got(items + p.value, p.rest) else p
  }

  /** Where a value is expected, its first token is scanned behind the separator, or none is. */
  lemma ScanValue(state: TokenState, stack: seq<TokenState>, rest: seq<Token>)
    requires ExpectsValue(state, rest)
    ensures var inner := Past(state); var scan := ScanNext(state, stack, rest);
            if !(Leads(state) <= rest) then scan.NoToken?
            else
              var body := rest[|Leads(state)|..];
              && ValueAllowed(inner) && ValueEnd(inner) == StateAfter(state)
              && if body == [] then scan.NoToken?
                 else if body[0].Lit? then scan == Scan(body[0], StateAfter(state), stack, body[1..])
                 else if body[0] == LBracket then scan == Scan(LBracket, ArrayStart, stack + [inner], body[1..])
                 else if body[0] == LBrace then scan == Scan(LBrace, ObjectStart, stack + [inner], body[1..])
                 else scan.NoToken?
  {
    if !state.ArrayComma? && !state.ObjectColon? {
      assert rest[|Leads(state)|..] == rest;
    }
  }

  predicate HasMore(rest: seq<Token>) {
    rest != [] && rest[0] != RBracket && rest[0] != RBrace
  }

  lemma PrependNothing(p: Parse<seq<Json>>)
    ensures Prepended([], p) == p
  {
    if p.Got? {
      assert [] + p.value == p.value;
    }
  }

  /** One item read in the loop is one item of the specification. */
  lemma ItemStep(items: seq<Json>, rest: seq<Token>, first: bool)
    requires HasMore(rest)
    ensures var e := Expected(if first then ArrayStart else ArrayComma, rest);
            if e.Refused? then ParseElems(rest, first) == Refused(e.why)
            else Prepended(items, ParseElems(rest, first)) == Prepended(items + [e.value], ParseElems(e.rest, false))
  {
    var e := Expected(if first then ArrayStart else ArrayComma, rest);
    if first {
      assert rest[0..] == rest;
    } else if rest[0] != Comma {
      assert !([Comma] <= rest);
    }
    if e.Got? {
      var p := ParseElems(e.rest, false);
      if p.Got? {
        assert items + ([e.value] + p.value) == items + [e.value] + p.value;
      }
    }
  }

  /** One member read in the loop is one member of the specification. */
  lemma MemberStep(rest: seq<Token>, stack: seq<TokenState>, seen: map<string, Json>)
    requires HasMore(rest)
    ensures var first := seen == map[];
            var scan := ScanNext(if first then ObjectStart else ObjectComma, stack, rest);
            if scan.NoToken? then ParseMembers(rest, first, seen) == Refused(Malformed)
            else
              && scan.token.Lit? && scan.token.scalar.Text? && scan.state == ObjectColon && scan.stack == stack
              && |scan.rest| < |rest|
              && var name := scan.token.scalar.text;
                 if name in seen then ParseMembers(rest, first, seen) == Refused(DuplicateMember)
                 else
                   var e := Expected(ObjectColon, scan.rest);
                   if e.Refused? then ParseMembers(rest, first, seen) == Refused(e.why)
                   else ParseMembers(rest, first, seen) == ParseMembers(e.rest, false, seen[name := e.value])
  {
    var body := if seen == map[] then rest else rest[1..];
    if body != [] && |body| > 1 {
      assert body[1..][1..] == body[2..];
    }
    if body != [] {
      assert [Colon] <= body[1..] <==> |body| > 1 && body[1] == Colon;
    }
  }

  class Decoder {
    const tokens: seq<Token>
    var pos: nat
    var state: TokenState
    var stack: seq<TokenState>

    ghost predicate Valid()
      reads this
    {
      pos <= |tokens| && Nested(state, stack)
    }

    function Rest(): seq<Token>
      requires pos <= |tokens|
      reads this
    {
      tokens[pos..]
    }

    constructor (tokens: seq<Token>)
      ensures Valid() && Rest() == tokens && state == TopValue && stack == [] && this.tokens == tokens
    {
      this.tokens := tokens;
      pos, state, stack := 0, TopValue, [];
    }

    /** Whether the array or object being read has more: its next token closes nothing. */
    method More() returns (more: bool)
      requires Valid()
      ensures more <==> HasMore(Rest())
    {
      more := pos < |tokens| && tokens[pos] != RBracket && tokens[pos] != RBrace;
    }

    /** One pass of Token's loop: a token, an error, or nothing when it reads over a separator. */
    method Pass() returns (t: Option<Result<Token, TokenError>>)
      requires Valid() && pos < |tokens|
      modifies this
      ensures Valid() && old(pos) <= pos
      ensures t.None? ==>
                && Leads(old(state)) == [tokens[old(pos)]] && pos == old(pos) + 1
                && state == Past(old(state)) && stack == old(stack)
      ensures t.Some? ==>
                var scan := ScanHere(old(state), old(stack), old(Rest()));
                && Leads(old(state)) != [tokens[old(pos)]]
                && if t.value.Ok? then scan == Scan(t.value.value, state, stack, Rest())
                   else scan.NoToken? && t.value.error == SyntaxError
    {
      var c := tokens[pos];
      assert Rest()[0] == c && Rest()[1..] == tokens[pos + 1..];
      match c
      case LBracket =>
        if !ValueAllowed(state) {
          return Some(Err(SyntaxError));
        }
        pos, stack, state := pos + 1, stack + [state], ArrayStart;
        return Some(Ok(c));
      case LBrace =>
        if !ValueAllowed(state) {
          return Some(Err(SyntaxError));
        }
        pos, stack, state := pos + 1, stack + [state], ObjectStart;
        return Some(Ok(c));
      case RBracket =>
        if !state.ArrayStart? && !state.ArrayComma? {
          return Some(Err(SyntaxError));
        }
        pos, state, stack := pos + 1, ValueEnd(stack[|stack| - 1]), stack[..|stack| - 1];
        return Some(Ok(c));
      case RBrace =>
        if !state.ObjectStart? && !state.ObjectComma? {
          return Some(Err(SyntaxError));
        }
        pos, state, stack := pos + 1, ValueEnd(stack[|stack| - 1]), stack[..|stack| - 1];
        return Some(Ok(c));
      case Colon =>
        if !state.ObjectColon? {
          return Some(Err(SyntaxError));
        }
        pos, state := pos + 1, ObjectValue;
        return None;
      case Comma =>
        if state.ArrayComma? {
          pos, state := pos + 1, ArrayValue;
          return None;
        } else if state.ObjectComma? {
          pos, state := pos + 1, ObjectKey;
          return None;
        }
        return Some(Err(SyntaxError));
      case Lit(a) =>
        if a.Text? && (state.ObjectStart? || state.ObjectKey?) {
          pos, state := pos + 1, ObjectColon;
          return Some(Ok(c));
        }
        if !ValueAllowed(state) {
          return Some(Err(SyntaxError));
        }
        pos, state := pos + 1, ValueEnd(state);
        return Some(Ok(c));
      case Bad =>
        return Some(Err(SyntaxError));
    }

    /** Token: reads over separators until a token, the end of the input or an error. */
    method NextToken() returns (t: Result<Token, TokenError>)
      requires Valid()
      modifies this
      ensures Valid() && old(pos) <= pos
      ensures t == Err(EndOfInput) <==> old(Rest()) == [] || old(Rest()) == Leads(old(state))
      ensures var scan := ScanNext(old(state), old(stack), old(Rest()));
              && (t.Ok? <==> scan.Scan?)
              && (t.Ok? ==> scan == Scan(t.value, state, stack, Rest()))
    {
      while true
        invariant Valid() && stack == old(stack)
        invariant
          var rest := old(Rest());
          var lead := Leads(old(state));
          || (pos == old(pos) && state == old(state))
          || (pos == old(pos) + 1 && lead != [] && lead <= rest && state == Past(old(state)) && Rest() == rest[1..])
        decreases |tokens| - pos
      {
        if pos == |tokens| {
          return Err(EndOfInput);
        }
        var pass := Pass();
        if pass.Some? {
          return pass.value;
        }
      }
      assert false;
    }

    /** The check behind the document: the next token is the end of the input. */
    method AtEnd() returns (ended: bool)
      requires Valid() && state == TopValue
      modifies this
      ensures ended <==> old(Rest()) == []
    {
      var next := NextToken();
      ended := next == Err(EndOfInput);
    }

    /** decodeValue: one value, with every object's names checked as they are read. */
    method DecodeValue() returns (r: Result<Json, Refusal>)
      requires Valid() && ExpectsValue(state, Rest())
      modifies this
      ensures Valid()
      ensures var p := Expected(old(state), old(Rest()));
              && (r.Ok? ==> p == Got(r.value, Rest()) && state == StateAfter(old(state)) && stack == old(stack))
              && (r.Err? ==> p == Refused(r.error))
      ensures old(pos) <= pos && (r.Ok? ==> old(pos) < pos)
      decreases |tokens| - pos, 0
    {
      ScanValue(state, stack, Rest());
      var tok := NextToken();
      if tok.Err? {
        return Err(Malformed);
      }
      match tok.value
      case LBrace =>
        r := DecodeMembers();
      case LBracket =>
        r := DecodeItems();
      case Lit(a) =>
        r := Ok(Plain(a));
      case _ =>
        r := Err(Malformed);
    }

    /** The members of an object, after its opening brace. */
    method DecodeMembers() returns (r: Result<Json, Refusal>)
      requires Valid() && state == ObjectStart && stack != [] && ValueAllowed(stack[|stack| - 1])
      modifies this
      ensures Valid()
      ensures var p := ParseMembers(old(Rest()), true, map[]);
              && (r.Ok? ==> p.Got? && r.value == Obj(p.value) && Rest() == p.rest
                            && state == ValueEnd(old(stack)[|old(stack)| - 1])
                            && stack == old(stack)[..|old(stack)| - 1])
              && (r.Err? ==> p == Refused(r.error))
      ensures old(pos) <= pos
      decreases |tokens| - pos, 1
    {
      var obj: map<string, Json> := map[];
      ghost var start := Rest();
      var more := More();
      while more
        invariant Valid() && stack == old(stack) && old(pos) <= pos
        invariant state == if obj == map[] then ObjectStart else ObjectComma
        invariant ParseMembers(start, true, map[]) == ParseMembers(Rest(), obj == map[], obj)
        invariant more <==> HasMore(Rest())
        decreases |tokens| - pos
      {
        MemberStep(Rest(), stack, obj);
        var keyTok := NextToken();
        if keyTok.Err? {
          return Err(Malformed);
        }
        var key := keyTok.value.scalar.text;
        if key in obj {
          return Err(DuplicateMember);
        }
        var val := DecodeValue();
        if val.Err? {
          return Err(val.error);
        }
        obj := obj[key := val.value];
        more := More();
      }
      var end := NextToken();
      if end.Err? {
        return Err(Malformed);
      }
      r := Ok(Obj(obj));
    }

    /** The items of an array, after its opening bracket. */
    method DecodeItems() returns (r: Result<Json, Refusal>)
      requires Valid() && state == ArrayStart && stack != [] && ValueAllowed(stack[|stack| - 1])
      modifies this
      ensures Valid()
      ensures var p := ParseElems(old(Rest()), true);
              && (r.Ok? ==> p.Got? && r.value == Arr(p.value) && Rest() == p.rest
                            && state == ValueEnd(old(stack)[|old(stack)| - 1])
                            && stack == old(stack)[..|old(stack)| - 1])
              && (r.Err? ==> p == Refused(r.error))
      ensures old(pos) <= pos
      decreases |tokens| - pos, 1
    {
      var arr: seq<Json> := [];
      ghost var start := Rest();
      PrependNothing(ParseElems(start, true));
      var more := More();
      while more
        invariant Valid() && stack == old(stack) && old(pos) <= pos
        invariant state == if arr == [] then ArrayStart else ArrayComma
        invariant ParseElems(start, true) == Prepended(arr, ParseElems(Rest(), arr == []))
        invariant more <==> HasMore(Rest())
        decreases |tokens| - pos
      {
        ItemStep(arr, Rest(), arr == []);
        var val := DecodeValue();
        if val.Err? {
          return Err(val.error);
        }
        arr := arr + [val.value];
        more := More();
      }
      var end := NextToken();
      if end.Err? {
        return Err(Malformed);
      }
      r := Ok(Arr(arr));
    }
  }

  lemma ExpectedAtTop(tokens: seq<Token>)
    ensures Expected(TopValue, tokens) == ParseValue(tokens)
  {
    assert tokens[0..] == tokens;
  }

  /** strictDecode: one value, and then the end of the input. */
  method StrictDecode(tokens: seq<Token>) returns (r: Result<Json, Refusal>)
    ensures r == Decode(tokens)
  {
    var dec := new Decoder(tokens);
    ExpectedAtTop(tokens);
    r := dec.DecodeValue();
    if r.Ok? {
      ghost var rest := dec.Rest();
      assert ParseValue(tokens) == Got(r.value, rest) && dec.state == TopValue;
      var ended := dec.AtEnd();
      assert ended <==> rest == [];
      if !ended {
        r := Err(TrailingData);
      }
    }
  }
}
