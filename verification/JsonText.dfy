/** JSON as text: the tokens of RFC 8259, section 2, as encoding/json reads them, and every way to spell
    them. */
module JsonText {
  import opened Basics
  import opened JsonGrammar
  import opened JsonNumbers
  import opened JsonStrings

  predicate IsSpace(c: char) {
    c == ' ' || c == '\t' || c == '\r' || c == '\n'
  }

  // ---- tokens ----

  /** Reads tokens until the input ends or is no token. */
  function Lex(s: string): seq<Token>
    decreases |s|
  {
    if s == [] then []
    else if IsSpace(s[0]) then Lex(s[1..])
    else
      match s[0]
      case '{' => [LBrace] + Lex(s[1..])
      case '}' => [RBrace] + Lex(s[1..])
      case '[' => [LBracket] + Lex(s[1..])
      case ']' => [RBracket] + Lex(s[1..])
      case ',' => [Comma] + Lex(s[1..])
      case ':' => [Colon] + Lex(s[1..])
      case '"' =>
        var q := Unquoted(s[1..]);
        if q.None? then [Bad] else [Lit(Text(q.value.0))] + Lex(q.value.1)
      case _ =>
        if "null" <= s then [Lit(Null)] + Lex(s[4..])
        else if "true" <= s then [Lit(True)] + Lex(s[4..])
        else if "false" <= s then [Lit(False)] + Lex(s[5..])
        else
          var n := NumberLength(s);
          if n.None? then [Bad] else [Lit(Number(s[..n.value]))] + Lex(s[n.value..])
  }

  // ---- spelling ----

  /** What json.Marshal writes for a token. */
  function Spelled(t: Token): string {
    match t
    case LBrace => "{"
    case RBrace => "}"
    case LBracket => "["
    case RBracket => "]"
    case Comma => ","
    case Colon => ":"
    case Lit(Null) => "null"
    case Lit(True) => "true"
    case Lit(False) => "false"
    case Lit(Number(n)) => n
    case Lit(Text(s)) => ['"'] + Quoted(s)
    case Bad => []
  }

  /** `u` is a text of the token: any literal of section 7 for a string, the one text of anything else. */
  ghost predicate Spells(u: string, t: Token) {
    match t
    case Lit(Text(s)) => exists us :: AreUnits(us) && u == ['"'] + Body(us, []) && StringOf(us) == s
    case Lit(Number(n)) => u == n && IsNumber(n)
    case Bad => false
    case _ => u == Spelled(t)
  }

  ghost predicate SpellAll(us: seq<string>, ts: seq<Token>) {
    |us| == |ts| && forall i | 0 <= i < |us| :: Spells(us[i], ts[i])
  }

  /** Texts with whitespace before each of them and behind the last. */
  function Spaced(us: seq<string>, gaps: seq<string>): string
    requires |gaps| == |us| + 1
  {
    if us == [] then gaps[0] else gaps[0] + (us[0] + Spaced(us[1..], gaps[1..]))
  }

  predicate AllSpace(s: string) {
    forall i | 0 <= i < |s| :: IsSpace(s[i])
  }

  predicate AreGaps(gaps: seq<string>) {
    forall i | 0 <= i < |gaps| :: AllSpace(gaps[i])
  }

  /** A token with a spelling. */
  predicate Spellable(t: Token) {
    t != Bad && (t.Lit? && t.scalar.Number? ==> IsNumber(t.scalar.literal))
  }

  predicate AllSpellable(ts: seq<Token>) {
    forall i | 0 <= i < |ts| :: Spellable(ts[i])
  }

  /** Scalars do not touch, as in every document. */
  predicate Apart(ts: seq<Token>) {
    forall i | 1 <= i < |ts| :: !(ts[i - 1].Lit? && ts[i].Lit?)
  }

  lemma SpelledIsASpelling(t: Token)
    requires Spellable(t)
    ensures Spells(Spelled(t), t)
  {
    if t.Lit? && t.scalar.Text? {
      var s := t.scalar.text;
      QuotedBack(s, []);
      assert Quoted(s) + [] == Quoted(s);
      var us := UnquotedWasUnits(Quoted(s));
      UnitsRead(us, []);
    }
  }

  lemma SpellsIsSpellable(u: string, t: Token)
    requires Spells(u, t)
    ensures Spellable(t)
  {
  }

  // ---- reading back what is spelled ----

  lemma {:induction false} LexSpace(gap: string, s: string)
    requires AllSpace(gap)
    ensures Lex(gap + s) == Lex(s)
    decreases |gap|
  {
    if gap == [] {
      assert gap + s == s;
    } else {
      assert (gap + s)[1..] == gap[1..] + s;
      LexSpace(gap[1..], s);
    }
  }

  lemma LexAnyNumber(s: string)
    requires NumberLength(s).Some?
    ensures var n := NumberLength(s).value; Lex(s) == [Lit(Number(s[..n]))] + Lex(s[n..])
  {
    NumberStart(s);
    assert !("null" <= s) && !("true" <= s) && !("false" <= s);
  }

  lemma LexNumber(n: string, rest: string)
    requires IsNumber(n) && EndsNumber(rest)
    ensures Lex(n + rest) == [Lit(Number(n))] + Lex(rest)
  {
    NumberStops(n, rest);
    LexAnyNumber(n + rest);
    assert (n + rest)[..|n|] == n && (n + rest)[|n|..] == rest;
  }

  lemma TextGoesOn(us: seq<Unit>, rest: string)
    ensures ['"'] + Body(us, []) + rest == ['"'] + Body(us, rest)
  {
    BodyGoesOn(us, [], rest);
    assert [] + rest == rest;
    assert ['"'] + Body(us, []) + rest == ['"'] + (Body(us, []) + rest);
  }

  lemma LexText(us: seq<Unit>, rest: string)
    requires AreUnits(us)
    ensures Lex(['"'] + Body(us, rest)) == [Lit(Text(StringOf(us)))] + Lex(rest)
  {
    UnitsRead(us, rest);
    LexAnyText(Body(us, rest));
  }

  lemma LexAnyText(body: string)
    requires Unquoted(body).Some?
    ensures Lex(['"'] + body) == [Lit(Text(Unquoted(body).value.0))] + Lex(Unquoted(body).value.1)
  {
    var s := ['"'] + body;
    assert s[0] == '"' && s[1..] == body;
  }

  lemma LexMark(t: Token, rest: string)
    requires Spellable(t) && !t.Lit?
    ensures Lex(Spelled(t) + rest) == [t] + Lex(rest)
  {
    assert (Spelled(t) + rest)[1..] == rest;
  }

  lemma LexWord(t: Token, rest: string)
    requires t == Lit(Null) || t == Lit(True) || t == Lit(False)
    ensures Lex(Spelled(t) + rest) == [t] + Lex(rest)
  {
    var s := Spelled(t) + rest;
    assert s[|Spelled(t)|..] == rest;
    assert Spelled(t) <= s && s[0] == Spelled(t)[0];
  }

  lemma LexToken(u: string, t: Token, rest: string)
    requires Spells(u, t) && (t.Lit? ==> EndsNumber(rest))
    ensures Lex(u + rest) == [t] + Lex(rest)
  {
    if !t.Lit? {
      LexMark(t, rest);
    } else {
      match t.scalar
      case Number(n) => LexNumber(n, rest);
      case Text(s) =>
        var us :| AreUnits(us) && u == ['"'] + Body(us, []) && StringOf(us) == s;
        TextGoesOn(us, rest);
        LexText(us, rest);
      case _ => LexWord(t, rest);
    }
  }

  lemma SpacedStart(us: seq<string>, ts: seq<Token>, gaps: seq<string>)
    requires SpellAll(us, ts) && |gaps| == |us| + 1 && AreGaps(gaps)
    requires ts != [] ==> !ts[0].Lit?
    ensures EndsNumber(Spaced(us, gaps))
  {
    if gaps[0] != [] {
      assert IsSpace(gaps[0][0]);
    } else if us != [] {
      assert Spells(us[0], ts[0]);
    }
  }

  lemma ApartBehind(ts: seq<Token>)
    requires Apart(ts) && ts != []
    ensures Apart(ts[1..])
  {
    forall i | 1 <= i < |ts[1..]|
      ensures !(ts[1..][i - 1].Lit? && ts[1..][i].Lit?)
    {
      assert !(ts[i].Lit? && ts[i + 1].Lit?);
    }
  }

  /** Tokens are read back from any spelling, whatever whitespace stands between them. */
  lemma {:induction false} LexSpaced(us: seq<string>, ts: seq<Token>, gaps: seq<string>)
    requires SpellAll(us, ts) && Apart(ts) && |gaps| == |us| + 1 && AreGaps(gaps)
    ensures Lex(Spaced(us, gaps)) == ts
    decreases |ts|
  {
    if ts == [] {
      assert gaps[0] + [] == gaps[0];
      LexSpace(gaps[0], []);
    } else {
      var rest := Spaced(us[1..], gaps[1..]);
      LexSpace(gaps[0], us[0] + rest);
      ApartBehind(ts);
      if ts[0].Lit? {
        assert |ts| > 1 ==> !ts[1].Lit?;
        SpacedStart(us[1..], ts[1..], gaps[1..]);
      }
      LexToken(us[0], ts[0], rest);
      LexSpaced(us[1..], ts[1..], gaps[1..]);
      assert ts == [ts[0]] + ts[1..];
    }
  }

  // ---- what is read was spelled ----

  /** `s` starts with a token, and `u` is its text. */
  ghost predicate StartsWith(s: string, u: string, t: Token, rest: string) {
    s == u + rest && u != [] && Spells(u, t) && Lex(s) == [t] + Lex(rest)
  }

  lemma TextRead(s: string) returns (u: string, t: Token, rest: string)
    requires s != [] && s[0] == '"' && Unquoted(s[1..]).Some?
    ensures StartsWith(s, u, t, rest)
  {
    var us := UnquotedWasUnits(s[1..]);
    rest := Unquoted(s[1..]).value.1;
    u, t := ['"'] + Body(us, []), Lit(Text(StringOf(us)));
    TextGoesOn(us, rest);
    assert s == ['"'] + s[1..];
    LexText(us, rest);
  }

  lemma NumberRead(s: string) returns (u: string, t: Token, rest: string)
    requires NumberLength(s).Some?
    ensures StartsWith(s, u, t, rest)
  {
    var n := NumberLength(s).value;
    u, t, rest := s[..n], Lit(Number(s[..n])), s[n..];
    NumberReadIsNumber(s);
    assert Spells(u, t);
    LexAnyNumber(s);
    assert s == u + rest;
  }

  lemma MarkRead(s: string) returns (u: string, t: Token, rest: string)
    requires s != [] && s[0] in "{}[],:"
    ensures StartsWith(s, u, t, rest)
  {
    t := Lex(s)[0];
    u, rest := [s[0]], s[1..];
  }

  lemma WordRead(s: string, t: Token) returns (u: string, rest: string)
    requires t == Lit(Null) || t == Lit(True) || t == Lit(False)
    requires Spelled(t) <= s
    ensures StartsWith(s, u, t, rest)
  {
    u, rest := Spelled(t), s[|Spelled(t)|..];
    assert s == u + rest;
    LexWord(t, rest);
  }

  /** Without a token to start with, a text reads as none. */
  lemma NothingRead(s: string)
    requires s != [] && !IsSpace(s[0]) && s[0] !in "{}[],:"
    requires s[0] == '"' ==> Unquoted(s[1..]).None?
    requires !("null" <= s) && !("true" <= s) && !("false" <= s) && NumberLength(s).None?
    ensures Lex(s) == [Bad]
  {
  }

  /** The first token and its text. */
  lemma TokenRead(s: string) returns (u: string, t: Token, rest: string)
    requires s != [] && !IsSpace(s[0]) && Lex(s) != [Bad]
    ensures StartsWith(s, u, t, rest)
  {
    if s[0] in "{}[],:" {
      u, t, rest := MarkRead(s);
    } else if s[0] == '"' && Unquoted(s[1..]).Some? {
      u, t, rest := TextRead(s);
    } else if NumberLength(s).Some? {
      u, t, rest := NumberRead(s);
    } else if "null" <= s {
      t := Lit(Null);
      u, rest := WordRead(s, t);
    } else if "true" <= s {
      t := Lit(True);
      u, rest := WordRead(s, t);
    } else if "false" <= s {
      t := Lit(False);
      u, rest := WordRead(s, t);
    } else {
      NothingRead(s);
      assert false;
    }
  }

  lemma {:induction false} LexedWasSpaced(s: string) returns (us: seq<string>, gaps: seq<string>)
    requires Bad !in Lex(s)
    ensures SpellAll(us, Lex(s)) && |gaps| == |us| + 1 && AreGaps(gaps) && s == Spaced(us, gaps)
    decreases |s|
  {
    if s == [] {
      us, gaps := [], [[]];
    } else if IsSpace(s[0]) {
      us, gaps := LexedWasSpaced(s[1..]);
      WiderGap(s[0], us, gaps);
      gaps := [[s[0]] + gaps[0]] + gaps[1..];
      assert s == [s[0]] + s[1..];
    } else {
      assert Lex(s) == [Bad] ==> Bad in Lex(s);
      var u, t, rest := TokenRead(s);
      assert forall x <- Lex(rest) :: x in Lex(s);
      us, gaps := LexedWasSpaced(rest);
      OneMoreText(u, us, gaps);
      us, gaps := [u] + us, [[]] + gaps;
    }
  }

  lemma WiderGap(c: char, us: seq<string>, gaps: seq<string>)
    requires |gaps| == |us| + 1
    ensures Spaced(us, [[c] + gaps[0]] + gaps[1..]) == [c] + Spaced(us, gaps)
  {
    var wider := [[c] + gaps[0]] + gaps[1..];
    assert wider[1..] == gaps[1..];
    if us != [] {
      var rest := us[0] + Spaced(us[1..], gaps[1..]);
      assert [c] + gaps[0] + rest == [c] + (gaps[0] + rest);
    }
  }

  lemma OneMoreText(u: string, us: seq<string>, gaps: seq<string>)
    requires |gaps| == |us| + 1
    ensures Spaced([u] + us, [[]] + gaps) == u + Spaced(us, gaps)
  {
    assert ([u] + us)[1..] == us && ([[]] + gaps)[1..] == gaps;
    assert [] + (u + Spaced(us, gaps)) == u + Spaced(us, gaps);
  }

  // ---- the tables, in code points ----

  /** The four whitespace characters of section 2 are read over; any other character that can start no token
      ends the reading. */
  lemma SpacesAreFour(c: char, s: string)
    ensures c as int == 0x20 || c as int == 0x09 || c as int == 0x0A || c as int == 0x0D ==> Lex([c] + s) == Lex(s)
    ensures c !in "{}[],:\"-0123456789ntf"
            && c as int != 0x20 && c as int != 0x09 && c as int != 0x0A && c as int != 0x0D ==>
              Lex([c] + s) == [Bad]
  {
    assert ([c] + s)[0] == c && ([c] + s)[1..] == s;
  }
}
