/** JSON at the level of tokens: the grammar of RFC 8259, what a document means, and a strict parser. */
module JsonGrammar {
  import opened Basics

  /** Numbers keep their source literal (`UseNumber`); strings are decoded. */
  datatype Scalar = Null | True | False | Number(literal: string) | Text(text: string)

  /** Bad stands for input that is no token. */
  datatype Token = LBrace | RBrace | LBracket | RBracket | Comma | Colon | Lit(scalar: Scalar) | Bad

  /** A document as written: members in order, names possibly repeated. */
  datatype Doc = Atom(scalar: Scalar) | Array(elems: Elems) | Object(members: Members)
  datatype Elems = NoElems | Elem(head: Doc, tail: Elems)
  datatype Members = NoMembers | Member(name: string, value: Doc, rest: Members)

  /** A decoded value; an object is a map, so it has no member order. */
  datatype Json = Plain(scalar: Scalar) | Arr(items: seq<Json>) | Obj(members: map<string, Json>)

  // ---- the grammar ----

  /** The tokens of a document: section 2's value, section 4's object, section 5's array. */
  function Write(d: Doc): (ts: seq<Token>)
    ensures ts != []
  {
    match d
    case Atom(a) => [Lit(a)]
    case Array(es) => [LBracket] + WriteElems(es, true) + [RBracket]
    case Object(ms) => [LBrace] + WriteMembers(ms, true) + [RBrace]
  }

  function Separator(first: bool): seq<Token> {
    if first then [] else [Comma]
  }

  function WriteElems(es: Elems, first: bool): seq<Token> {
    match es
    case NoElems => []
    case Elem(d, rest) => Separator(first) + Write(d) + WriteElems(rest, false)
  }

  function WriteMembers(ms: Members, first: bool): seq<Token> {
    match ms
    case NoMembers => []
    case Member(name, d, rest) => Separator(first) + [Lit(Text(name)), Colon] + Write(d) + WriteMembers(rest, false)
  }

  /** No object, at any depth, repeats a decoded name. */
  predicate Unique(d: Doc) {
    match d
    case Atom(_) => true
    case Array(es) => UniqueElems(es)
    case Object(ms) => UniqueMembers(ms, {})
  }

  predicate UniqueElems(es: Elems) {
    es.Elem? ==> Unique(es.head) && UniqueElems(es.tail)
  }

  predicate UniqueMembers(ms: Members, seen: set<string>) {
    ms.Member? ==> ms.name !in seen && Unique(ms.value) && UniqueMembers(ms.rest, seen + {ms.name})
  }

  function Meaning(d: Doc): Json {
    match d
    case Atom(a) => Plain(a)
    case Array(es) => Arr(MeaningElems(es))
    case Object(ms) => Obj(MeaningMembers(ms, map[]))
  }

  function MeaningElems(es: Elems): seq<Json> {
    if es.NoElems? then [] else [Meaning(es.head)] + MeaningElems(es.tail)
  }

  function MeaningMembers(ms: Members, into: map<string, Json>): map<string, Json> {
    if ms.NoMembers? then into else MeaningMembers(ms.rest, into[ms.name := Meaning(ms.value)])
  }

  // ---- the parser ----

  datatype Refusal = Malformed | DuplicateMember | TrailingData

  datatype Parse<+T> = Got(value: T, rest: seq<Token>) | Refused(why: Refusal)

  function ParseValue(ts: seq<Token>): (p: Parse<Json>)
    ensures p.Got? ==> |p.rest| < |ts|
    decreases |ts|, 0
  {
    if ts == [] then Refused(Malformed)
    else
      match ts[0]
      case Lit(a) => Got(Plain(a), ts[1..])
      case LBracket => OnValue(ParseElems(ts[1..], true), items => Arr(items))
      case LBrace => OnValue(ParseMembers(ts[1..], true, map[]), members => Obj(members))
      case _ => Refused(Malformed)
  }

  function OnValue<S, T>(p: Parse<S>, f: S -> T): Parse<T> {
    if p.Got? then Got(f(p.value), p.rest) else Refused(p.why)
  }

  /** The rest of an array, up to its bracket. */
  function ParseElems(ts: seq<Token>, first: bool): (p: Parse<seq<Json>>)
    ensures p.Got? ==> |p.rest| < |ts|
    decreases |ts|, 1
  {
    if ts == [] || ts[0] == RBrace then Refused(Malformed)
    else if ts[0] == RBracket then Got([], ts[1..])
    else if !first && ts[0] != Comma then Refused(Malformed)
    else
      var v := ParseValue(if first then ts else ts[1..]);
      if v.Refused? then Refused(v.why)
      else OnValue(ParseElems(v.rest, false), items => [v.value] + items)
  }

  /** The rest of an object, up to its brace, after the members in `seen`. */
  function ParseMembers(ts: seq<Token>, first: bool, seen: map<string, Json>): (p: Parse<map<string, Json>>)
    ensures p.Got? ==> |p.rest| < |ts|
    decreases |ts|, 1
  {
    if ts == [] || ts[0] == RBracket then Refused(Malformed)
    else if ts[0] == RBrace then Got(seen, ts[1..])
    else if !first && ts[0] != Comma then Refused(Malformed)
    else
      var ts := if first then ts else ts[1..];
      if ts == [] || !ts[0].Lit? || !ts[0].scalar.Text? then Refused(Malformed)
      else
        var name := ts[0].scalar.text;
        if name in seen then Refused(DuplicateMember)
        else if |ts| == 1 || ts[1] != Colon then Refused(Malformed)
        else
          var v := ParseValue(ts[2..]);
          if v.Refused? then Refused(v.why)
          else ParseMembers(v.rest, false, seen[name := v.value])
  }

  /** One value and nothing after it. */
  function Decode(ts: seq<Token>): Result<Json, Refusal> {
    var p := ParseValue(ts);
    if p.Refused? then Err(p.why)
    else if p.rest != [] then Err(TrailingData)
    else Ok(p.value)
  }

  lemma Assoc(a: seq<Token>, b: seq<Token>, c: seq<Token>)
    ensures a + b + c == a + (b + c)
  {
  }

  lemma Inside(open: seq<Token>, body: seq<Token>, close: seq<Token>, rest: seq<Token>)
    ensures (open + body + close + rest)[|open|..] == body + close + rest
  {
    Assoc(open + body, close, rest);
    Assoc(open, body, close + rest);
    Assoc(body, close, rest);
  }

  /** What leads to a value, the value, and the items after it with what closes them. */
  lemma Regrouped(a: seq<Token>, b: seq<Token>, c: seq<Token>, close: seq<Token>, rest: seq<Token>)
    ensures a + b + c + close + rest == a + (b + (c + close + rest))
  {
    Assoc(a + b + c, close, rest);
    Assoc(c, close, rest);
    Assoc(a + b, c, close + rest);
    Assoc(a, b, c + (close + rest));
  }

  lemma WrittenElem(d: Doc, tail: Elems, first: bool, rest: seq<Token>)
    ensures WriteElems(Elem(d, tail), first) + [RBracket] + rest ==
            Separator(first) + (Write(d) + (WriteElems(tail, false) + [RBracket] + rest))
  {
    Regrouped(Separator(first), Write(d), WriteElems(tail, false), [RBracket], rest);
  }

  lemma WrittenMember(name: string, d: Doc, tail: Members, first: bool, rest: seq<Token>)
    ensures WriteMembers(Member(name, d, tail), first) + [RBrace] + rest ==
            Separator(first) + ([Lit(Text(name)), Colon] + (Write(d) + (WriteMembers(tail, false) + [RBrace] + rest)))
  {
    var head := [Lit(Text(name)), Colon];
    Regrouped(Separator(first) + head, Write(d), WriteMembers(tail, false), [RBrace], rest);
    Assoc(Separator(first), head, Write(d) + (WriteMembers(tail, false) + [RBrace] + rest));
  }

  // ---- every document is parsed to what it means ----

  function Verdict<T>(unique: bool, value: T, rest: seq<Token>): Parse<T> {
    if unique then Got(value, rest) else Refused(DuplicateMember)
  }

  lemma {:induction false} ParseWritten(d: Doc, rest: seq<Token>)
    ensures ParseValue(Write(d) + rest) == Verdict(Unique(d), Meaning(d), rest)
    decreases d
  {
    var ts := Write(d) + rest;
    match d
    case Atom(a) =>
      assert ts[1..] == rest;
    case Array(es) =>
      ParseWrittenElems(es, true, rest);
      Inside([LBracket], WriteElems(es, true), [RBracket], rest);
    case Object(ms) =>
      var none: map<string, Json> := map[];
      assert none.Keys == {};
      ParseWrittenMembers(ms, true, none, rest);
      Inside([LBrace], WriteMembers(ms, true), [RBrace], rest);
  }

  lemma {:induction false} ParseWrittenElems(es: Elems, first: bool, rest: seq<Token>)
    ensures ParseElems(WriteElems(es, first) + [RBracket] + rest, first) ==
            Verdict(UniqueElems(es), MeaningElems(es), rest)
    decreases es
  {
    var ts := WriteElems(es, first) + [RBracket] + rest;
    match es
    case NoElems =>
      assert ts[1..] == rest;
    case Elem(d, tail) =>
      var after := WriteElems(tail, false) + [RBracket] + rest;
      WrittenElem(d, tail, first, rest);
      ValueStart(d);
      assert (if first then ts else ts[1..]) == Write(d) + after;
      assert first ==> ts[0] == Write(d)[0];
      ParseWritten(d, after);
      ParseWrittenElems(tail, false, rest);
  }

  /** One member and its separator. */
  lemma MemberFirst(ts: seq<Token>, first: bool, seen: map<string, Json>, name: string, after: seq<Token>)
    requires ts == Separator(first) + ([Lit(Text(name)), Colon] + after)
    ensures ParseMembers(ts, first, seen) ==
            if name in seen then Refused(DuplicateMember)
            else if ParseValue(after).Refused? then Refused(ParseValue(after).why)
            else ParseMembers(ParseValue(after).rest, false, seen[name := ParseValue(after).value])
  {
    var body := [Lit(Text(name)), Colon] + after;
    assert (if first then ts else ts[1..]) == body;
    assert body[2..] == after;
  }

  lemma {:induction false} ParseWrittenMembers(ms: Members, first: bool, seen: map<string, Json>, rest: seq<Token>)
    ensures ParseMembers(WriteMembers(ms, first) + [RBrace] + rest, first, seen) ==
            Verdict(UniqueMembers(ms, seen.Keys), MeaningMembers(ms, seen), rest)
    decreases ms
  {
    var ts := WriteMembers(ms, first) + [RBrace] + rest;
    match ms
    case NoMembers =>
      assert ts[1..] == rest;
    case Member(name, d, tail) =>
      var after := WriteMembers(tail, false) + [RBrace] + rest;
      WrittenMember(name, d, tail, first, rest);
      MemberFirst(ts, first, seen, name, Write(d) + after);
      ParseWritten(d, after);
      var seen' := seen[name := Meaning(d)];
      assert seen'.Keys == seen.Keys + {name};
      ParseWrittenMembers(tail, false, seen', rest);
  }

  /** A value starts with a bracket, a brace or a scalar. */
  lemma ValueStart(d: Doc)
    ensures Write(d)[0] != RBracket && Write(d)[0] != RBrace && Write(d)[0] != Comma
  {
  }

  // ---- whatever is parsed was such a document ----

  lemma {:induction false} ParsedWasWritten(ts: seq<Token>) returns (d: Doc)
    requires ParseValue(ts).Got?
    ensures ts == Write(d) + ParseValue(ts).rest && Unique(d) && Meaning(d) == ParseValue(ts).value
    decreases |ts|, 0
  {
    var rest := ParseValue(ts).rest;
    match ts[0]
    case Lit(a) =>
      d := Atom(a);
    case LBracket =>
      var es := ParsedElems(ts[1..], true);
      d := Array(es);
      Enclosed(ts, LBracket, WriteElems(es, true), RBracket, rest);
    case LBrace =>
      var ms := ParsedMembers(ts[1..], true, map[]);
      d := Object(ms);
      var none: map<string, Json> := map[];
      assert none.Keys == {};
      Enclosed(ts, LBrace, WriteMembers(ms, true), RBrace, rest);
  }

  lemma Enclosed(ts: seq<Token>, open: Token, body: seq<Token>, close: Token, rest: seq<Token>)
    requires ts != [] && ts[0] == open && ts[1..] == body + [close] + rest
    ensures ts == [open] + body + [close] + rest
  {
    assert ts == [open] + ts[1..];
  }

  lemma ElemRead(ts: seq<Token>, first: bool) returns (body: seq<Token>)
    requires ParseElems(ts, first).Got? && ts[0] != RBracket
    ensures ts == Separator(first) + body && |body| <= |ts| && ParseValue(body).Got?
    ensures var v := ParseValue(body); var tail := ParseElems(v.rest, false);
            tail.Got? && ParseElems(ts, first) == Got([v.value] + tail.value, tail.rest)
  {
    body := if first then ts else ts[1..];
  }

  lemma {:induction false} ParsedElems(ts: seq<Token>, first: bool) returns (es: Elems)
    requires ParseElems(ts, first).Got?
    ensures ts == WriteElems(es, first) + [RBracket] + ParseElems(ts, first).rest
    ensures UniqueElems(es) && MeaningElems(es) == ParseElems(ts, first).value
    decreases |ts|, 1
  {
    if ts[0] == RBracket {
      es := NoElems;
      assert ts == [ts[0]] + ts[1..];
    } else {
      var body := ElemRead(ts, first);
      var v := ParseValue(body);
      var d := ParsedWasWritten(body);
      var tail := ParsedElems(v.rest, false);
      es := Elem(d, tail);
      WrittenElem(d, tail, first, ParseElems(v.rest, false).rest);
    }
  }

  lemma MemberRead(ts: seq<Token>, first: bool, seen: map<string, Json>) returns (name: string, after: seq<Token>)
    requires ParseMembers(ts, first, seen).Got? && ts[0] != RBrace
    ensures ts == Separator(first) + ([Lit(Text(name)), Colon] + after) && |after| < |ts|
    ensures name !in seen && ParseValue(after).Got?
    ensures var v := ParseValue(after);
            ParseMembers(ts, first, seen) == ParseMembers(v.rest, false, seen[name := v.value])
  {
    var body := if first then ts else ts[1..];
    name, after := body[0].scalar.text, body[2..];
    assert body == [Lit(Text(name)), Colon] + after && ts == Separator(first) + body;
    MemberFirst(ts, first, seen, name, after);
  }

  lemma {:induction false} ParsedMembers(ts: seq<Token>, first: bool, seen: map<string, Json>) returns (ms: Members)
    requires ParseMembers(ts, first, seen).Got?
    ensures ts == WriteMembers(ms, first) + [RBrace] + ParseMembers(ts, first, seen).rest
    ensures UniqueMembers(ms, seen.Keys) && MeaningMembers(ms, seen) == ParseMembers(ts, first, seen).value
    decreases |ts|, 1
  {
    if ts[0] == RBrace {
      ms := NoMembers;
      assert ts == [ts[0]] + ts[1..];
    } else {
      var name, after := MemberRead(ts, first, seen);
      var v := ParseValue(after);
      var d := ParsedWasWritten(after);
      var seen' := seen[name := v.value];
      assert seen'.Keys == seen.Keys + {name};
      var tail := ParsedMembers(v.rest, false, seen');
      ms := Member(name, d, tail);
      WrittenMember(name, d, tail, first, ParseMembers(v.rest, false, seen').rest);
    }
  }

  // ---- the results ----

  /** `ts` are the tokens of the document `d`, which means `v` and repeats no name. */
  predicate Denotes(ts: seq<Token>, d: Doc, v: Json) {
    ts == Write(d) && Unique(d) && Meaning(d) == v
  }

  /** Decoding accepts exactly the well-formed documents that repeat no name, and gives the one value
      they mean. */
  lemma DecodesTheGrammar(ts: seq<Token>, v: Json)
    ensures Decode(ts) == Ok(v) <==> exists d :: Denotes(ts, d, v)
  {
    if Decode(ts) == Ok(v) {
      var d := ParsedWasWritten(ts);
      assert Denotes(ts, d, v);
    }
    forall d | Denotes(ts, d, v)
      ensures Decode(ts) == Ok(v)
    {
      ParseWritten(d, []);
      assert Write(d) + [] == ts;
    }
  }

  /** A document with more input behind it is refused as such, and only that is. */
  lemma TrailingDataIsADocumentAndMore(ts: seq<Token>)
    ensures Decode(ts) == Err(TrailingData) <==> exists d, rest :: Unique(d) && rest != [] && ts == Write(d) + rest
  {
    if Decode(ts) == Err(TrailingData) {
      NeverTrailing(ts);
      var d := ParsedWasWritten(ts);
      assert Unique(d) && ParseValue(ts).rest != [] && ts == Write(d) + ParseValue(ts).rest;
    }
    forall d, rest | Unique(d) && rest != [] && ts == Write(d) + rest
      ensures Decode(ts) == Err(TrailingData)
    {
      ParseWritten(d, rest);
    }
  }

  /** A well-formed document that repeats a name anywhere is refused for that, whatever follows it. */
  lemma RepeatedNameIsRefused(d: Doc, rest: seq<Token>)
    requires !Unique(d)
    ensures Decode(Write(d) + rest) == Err(DuplicateMember)
  {
    ParseWritten(d, rest);
  }

  lemma {:induction false} NeverTrailing(ts: seq<Token>)
    ensures ParseValue(ts) != Refused(TrailingData)
    decreases |ts|, 0
  {
    if ts != [] && ts[0] == LBracket {
      NeverTrailingElems(ts[1..], true);
    } else if ts != [] && ts[0] == LBrace {
      NeverTrailingMembers(ts[1..], true, map[]);
    }
  }

  lemma {:induction false} NeverTrailingElems(ts: seq<Token>, first: bool)
    ensures ParseElems(ts, first) != Refused(TrailingData)
    decreases |ts|, 1
  {
    if ts == [] || !(first || ts[0] == Comma) {
    } else {
      var body := if first then ts else ts[1..];
      NeverTrailing(body);
      if ParseValue(body).Got? {
        NeverTrailingElems(ParseValue(body).rest, false);
      }
    }
  }

  lemma {:induction false} NeverTrailingMembers(ts: seq<Token>, first: bool, seen: map<string, Json>)
    ensures ParseMembers(ts, first, seen) != Refused(TrailingData)
    decreases |ts|, 1
  {
    if ts == [] || !(first || ts[0] == Comma) {
    } else {
      var body := if first then ts else ts[1..];
      if |body| > 1 && body[0].Lit? && body[0].scalar.Text? {
        NeverTrailing(body[2..]);
        var v := ParseValue(body[2..]);
        if v.Got? {
          NeverTrailingMembers(v.rest, false, seen[body[0].scalar.text := v.value]);
        }
      }
    }
  }

  function Names(ms: Members): seq<string> {
    if ms.NoMembers? then [] else [ms.name] + Names(ms.rest)
  }

  predicate ValuesUnique(ms: Members) {
    ms.Member? ==> Unique(ms.value) && ValuesUnique(ms.rest)
  }

  predicate Distinct(names: seq<string>, seen: set<string>) {
    && (forall i | 0 <= i < |names| :: names[i] !in seen)
    && (forall i, j | 0 <= i < j < |names| :: names[i] != names[j])
  }

  lemma DistinctFirst(name: string, names: seq<string>, seen: set<string>)
    ensures Distinct([name] + names, seen) <==> name !in seen && Distinct(names, seen + {name})
  {
    var all := [name] + names;
    assert forall i | 0 <= i < |names| :: all[i + 1] == names[i];
    if Distinct(all, seen) {
      assert all[0] == name;
    }
  }

  /** An object repeats no name exactly when no two of its members carry one. */
  lemma {:induction false} UniqueNames(ms: Members, seen: set<string>)
    ensures UniqueMembers(ms, seen) <==> ValuesUnique(ms) && Distinct(Names(ms), seen)
    decreases ms
  {
    if ms.NoMembers? {
    } else {
      UniqueNames(ms.rest, seen + {ms.name});
      DistinctFirst(ms.name, Names(ms.rest), seen);
    }
  }
}
