/** The identity of a command: the digest of the canonical text of its decoded body. */
module CommandDigest {
  import opened Basics
  import opened JsonGrammar
  import opened CanonicalJson
  import opened JsonNumbers
  import opened JsonStrings
  import opened JsonText

  /** strictBody's decoding: the value a body stands for. */
  function Accepted(body: string): Result<Json, Refusal> {
    Decode(Lex(body))
  }

  function NoGaps(n: nat): seq<string> {
    seq(n + 1, _ => [])
  }

  function SpelledAll(ts: seq<Token>): seq<string> {
    seq(|ts|, i requires 0 <= i < |ts| => Spelled(ts[i]))
  }

  /** json.Marshal: sorted members, no whitespace. */
  ghost function Marshal(v: Json): string {
    var ts := Write(Canonical(v));
    Spaced(SpelledAll(ts), NoGaps(|ts|))
  }

  /** The text is some spelling of the tokens with whitespace around them. */
  ghost predicate LaidOut(body: string, ts: seq<Token>, us: seq<string>, gaps: seq<string>) {
    SpellAll(us, ts) && |gaps| == |us| + 1 && AreGaps(gaps) && body == Spaced(us, gaps)
  }

  /** The text is a document of RFC 8259: its tokens spelled in any way, with any whitespace around them. */
  ghost predicate IsTextOf(body: string, d: Doc) {
    exists us, gaps :: LaidOut(body, Write(d), us, gaps)
  }

  // ---- documents have a spelling ----

  predicate NumbersIn(v: Json)
    decreases v
  {
    match v
    case Plain(a) => a.Number? ==> IsNumber(a.literal)
    case Arr(items) => forall i | 0 <= i < |items| :: NumbersIn(items[i])
    case Obj(m) => forall n <- m :: NumbersIn(m[n])
  }

  lemma ApartConcat(a: seq<Token>, b: seq<Token>)
    requires Apart(a) && Apart(b) && (a != [] && b != [] ==> !a[|a| - 1].Lit? || !b[0].Lit?)
    ensures Apart(a + b)
  {
  }

  lemma {:induction false} DocumentsAreApart(d: Doc)
    ensures Apart(Write(d)) && Bad !in Write(d)
    decreases d
  {
    match d
    case Atom(_) =>
    case Array(es) =>
      ElemsAreApart(es, true);
      ApartConcat([LBracket], WriteElems(es, true));
      ApartConcat([LBracket] + WriteElems(es, true), [RBracket]);
    case Object(ms) =>
      MembersAreApart(ms, true);
      ApartConcat([LBrace], WriteMembers(ms, true));
      ApartConcat([LBrace] + WriteMembers(ms, true), [RBrace]);
  }

  lemma {:induction false} ElemsAreApart(es: Elems, first: bool)
    ensures Apart(WriteElems(es, first)) && Bad !in WriteElems(es, first)
    ensures !first && WriteElems(es, first) != [] ==> WriteElems(es, first)[0] == Comma
    decreases es
  {
    if es.NoElems? {
    } else {
      DocumentsAreApart(es.head);
      ElemsAreApart(es.tail, false);
      ApartConcat(Separator(first), Write(es.head));
      ApartConcat(Separator(first) + Write(es.head), WriteElems(es.tail, false));
    }
  }

  lemma {:induction false} MembersAreApart(ms: Members, first: bool)
    ensures Apart(WriteMembers(ms, first)) && Bad !in WriteMembers(ms, first)
    ensures !first && WriteMembers(ms, first) != [] ==> WriteMembers(ms, first)[0] == Comma
    decreases ms
  {
    if ms.NoMembers? {
    } else {
      var head := Separator(first) + [Lit(Text(ms.name)), Colon];
      DocumentsAreApart(ms.value);
      MembersAreApart(ms.rest, false);
      ApartConcat(head, Write(ms.value));
      ApartConcat(head + Write(ms.value), WriteMembers(ms.rest, false));
    }
  }

  lemma SpellableConcat(a: seq<Token>, b: seq<Token>)
    ensures AllSpellable(a + b) <==> AllSpellable(a) && AllSpellable(b)
  {
    if AllSpellable(a + b) {
      assert forall i | 0 <= i < |a| :: (a + b)[i] == a[i];
      assert forall i | 0 <= i < |b| :: (a + b)[|a| + i] == b[i];
    }
  }

  /** The canonical tokens of a value whose numbers are numbers can be spelled. */
  lemma {:induction false} CanonicalIsSpellable(v: Json)
    requires NumbersIn(v)
    ensures AllSpellable(Write(Canonical(v)))
    decreases v, 1
  {
    match v
    case Plain(_) =>
    case Arr(items) =>
      CanonicalElemsSpellable(items, true);
    case Obj(m) =>
      CanonicalMembersSpellable(v, SortedNames(m.Keys), true);
  }

  lemma {:induction false} CanonicalElemsSpellable(items: seq<Json>, first: bool)
    requires forall i | 0 <= i < |items| :: NumbersIn(items[i])
    ensures AllSpellable(WriteElems(CanonicalElems(items), first))
    decreases items, 0
  {
    if items == [] {
    } else {
      CanonicalIsSpellable(items[0]);
      CanonicalElemsSpellable(items[1..], false);
    }
  }

  lemma {:induction false} CanonicalMembersSpellable(v: Json, names: seq<string>, first: bool)
    requires NumbersIn(v) && v.Obj? && forall n <- names :: n in v.members
    ensures AllSpellable(WriteMembers(CanonicalMembers(v, names), first))
    decreases v, 0, |names|
  {
    if names == [] {
    } else {
      CanonicalIsSpellable(v.members[names[0]]);
      CanonicalMembersSpellable(v, names[1..], false);
    }
  }

  /** The numbers of a value are those of its document. */
  lemma {:induction false} NumbersOfDocument(d: Doc)
    requires AllSpellable(Write(d)) && Unique(d)
    ensures NumbersIn(Meaning(d))
    decreases d
  {
    match d
    case Atom(a) =>
      assert Spellable(Write(d)[0]);
    case Array(es) =>
      SpellableConcat([LBracket] + WriteElems(es, true), [RBracket]);
      SpellableConcat([LBracket], WriteElems(es, true));
      NumbersOfElems(es, true);
    case Object(ms) =>
      SpellableConcat([LBrace] + WriteMembers(ms, true), [RBrace]);
      SpellableConcat([LBrace], WriteMembers(ms, true));
      NumbersOfMembers(ms, true, {});
      var m := MeansItsPairs(ms);
  }

  lemma {:induction false} NumbersOfElems(es: Elems, first: bool)
    requires AllSpellable(WriteElems(es, first)) && UniqueElems(es)
    ensures forall i | 0 <= i < |MeaningElems(es)| :: NumbersIn(MeaningElems(es)[i])
    decreases es
  {
    if es.NoElems? {
    } else {
      SpellableConcat(Separator(first) + Write(es.head), WriteElems(es.tail, false));
      SpellableConcat(Separator(first), Write(es.head));
      NumbersOfDocument(es.head);
      NumbersOfElems(es.tail, false);
    }
  }

  lemma {:induction false} NumbersOfMembers(ms: Members, first: bool, seen: set<string>)
    requires AllSpellable(WriteMembers(ms, first)) && UniqueMembers(ms, seen)
    ensures forall p <- Pairs(ms) :: NumbersIn(p.1)
    decreases ms
  {
    if ms.NoMembers? {
    } else {
      var head := Separator(first) + [Lit(Text(ms.name)), Colon];
      SpellableConcat(head + Write(ms.value), WriteMembers(ms.rest, false));
      SpellableConcat(head, Write(ms.value));
      NumbersOfDocument(ms.value);
      NumbersOfMembers(ms.rest, false, seen + {ms.name});
    }
  }

  // ---- the results ----

  /** The texts of a document are exactly those read as its tokens. */
  lemma TextsOfADocument(body: string, d: Doc)
    ensures IsTextOf(body, d) <==> Lex(body) == Write(d)
  {
    DocumentsAreApart(d);
    forall us, gaps | LaidOut(body, Write(d), us, gaps)
      ensures Lex(body) == Write(d)
    {
      LexSpaced(us, Write(d), gaps);
    }
    if Lex(body) == Write(d) {
      var us, gaps := LexedWasSpaced(body);
      assert LaidOut(body, Write(d), us, gaps);
    }
  }

  /** A text of a document is accepted as what it means, or refused if an object repeats a name. */
  lemma SpelledDocumentIsAccepted(body: string, d: Doc)
    requires IsTextOf(body, d)
    ensures Accepted(body) == if Unique(d) then Ok(Meaning(d)) else Err(DuplicateMember)
  {
    TextsOfADocument(body, d);
    ParseWritten(d, []);
    assert Write(d) + [] == Write(d);
  }

  /** Bodies are accepted exactly when they are texts of a document that repeats no name, as what it means. */
  lemma AcceptedBodies(body: string, v: Json)
    ensures Accepted(body) == Ok(v) <==> exists d :: IsTextOf(body, d) && Unique(d) && Meaning(d) == v
  {
    DecodesTheGrammar(Lex(body), v);
    if Accepted(body) == Ok(v) {
      var d :| Denotes(Lex(body), d, v);
      TextsOfADocument(body, d);
    }
    forall d | IsTextOf(body, d) && Unique(d) && Meaning(d) == v
      ensures Accepted(body) == Ok(v)
    {
      SpelledDocumentIsAccepted(body, d);
    }
  }

  /** An accepted value has only numbers of the grammar. */
  lemma AcceptedNumbers(body: string)
    requires Accepted(body).Ok?
    ensures NumbersIn(Accepted(body).value)
  {
    AcceptedBodies(body, Accepted(body).value);
    var d :| IsTextOf(body, d) && Unique(d) && Meaning(d) == Accepted(body).value;
    var us, gaps :| LaidOut(body, Write(d), us, gaps);
    forall i | 0 <= i < |us|
      ensures Spellable(Write(d)[i])
    {
      SpellsIsSpellable(us[i], Write(d)[i]);
    }
    NumbersOfDocument(d);
  }

  lemma MarshalIsTextOf(v: Json)
    requires NumbersIn(v)
    ensures IsTextOf(Marshal(v), Canonical(v))
  {
    var ts := Write(Canonical(v));
    CanonicalIsSpellable(v);
    forall i | 0 <= i < |ts|
      ensures Spells(SpelledAll(ts)[i], ts[i])
    {
      SpelledIsASpelling(ts[i]);
    }
    assert LaidOut(Marshal(v), ts, SpelledAll(ts), NoGaps(|ts|));
  }

  function Concatenated(us: seq<string>): string {
    if us == [] then [] else us[0] + Concatenated(us[1..])
  }

  lemma {:induction false} SpacedWithoutGaps(us: seq<string>)
    ensures Spaced(us, NoGaps(|us|)) == Concatenated(us)
    decreases |us|
  {
    if us == [] {
    } else {
      SpacedWithoutGaps(us[1..]);
      assert NoGaps(|us|)[1..] == NoGaps(|us[1..]|);
      assert [] + (us[0] + Concatenated(us[1..])) == us[0] + Concatenated(us[1..]);
    }
  }

  /** A token's text is plain, and holds a space only inside a string. */
  lemma SpelledIsPlain(t: Token)
    requires Spellable(t)
    ensures ArePlain(Spelled(t))
    ensures !(t.Lit? && t.scalar.Text?) ==> ' ' !in Spelled(t)
  {
    if t.Lit? && t.scalar.Text? {
      QuotedIsPlain(t.scalar.text);
    } else if t.Lit? && t.scalar.Number? {
      NumberCharacters(t.scalar.literal);
    }
  }

  lemma {:induction false} PlainPieces(us: seq<string>)
    requires forall i | 0 <= i < |us| :: ArePlain(us[i])
    ensures ArePlain(Concatenated(us))
  {
    if us == [] {
    } else {
      PlainPieces(us[1..]);
    }
  }

  /** The canonical text of an accepted value is the texts of its tokens one after the other: there is no
      whitespace but inside strings, and nowhere a control character or a raw `<`, `>`, `&`, U+2028 or
      U+2029. */
  lemma MarshalIsCompact(v: Json)
    requires NumbersIn(v)
    ensures ArePlain(Marshal(v))
    ensures exists us :: SpellAll(us, Write(Canonical(v))) && Marshal(v) == Concatenated(us)
                         && forall i | 0 <= i < |us| :: us[i][0] != '"' ==> ' ' !in us[i]
  {
    var ts := Write(Canonical(v));
    var us := SpelledAll(ts);
    CanonicalIsSpellable(v);
    forall i | 0 <= i < |ts|
      ensures Spells(us[i], ts[i]) && ArePlain(us[i]) && us[i] != [] && (us[i][0] != '"' ==> ' ' !in us[i])
    {
      SpelledIsASpelling(ts[i]);
      SpelledIsPlain(ts[i]);
    }
    SpacedWithoutGaps(us);
    PlainPieces(us);
    assert SpellAll(us, ts);
  }

  /** Decoding the canonical text of a decoded value gives that value. */
  lemma MarshalRoundTrip(body: string)
    requires Accepted(body).Ok?
    ensures Accepted(Marshal(Accepted(body).value)) == Accepted(body)
  {
    var v := Accepted(body).value;
    AcceptedNumbers(body);
    CanonicalMeans(v);
    MarshalIsTextOf(v);
    SpelledDocumentIsAccepted(Marshal(v), Canonical(v));
  }

  /** With a hash that does not collide, two accepted bodies have one digest exactly when they decode to
      one value, numbers compared as they are written. */
  lemma DigestIdentifiesTheCommand<H>(hash: string -> H, a: string, b: string)
    requires forall s, t :: hash(s) == hash(t) ==> s == t
    requires Accepted(a).Ok? && Accepted(b).Ok?
    ensures hash(Marshal(Accepted(a).value)) == hash(Marshal(Accepted(b).value)) <==> Accepted(a) == Accepted(b)
  {
    MarshalRoundTrip(a);
    MarshalRoundTrip(b);
  }

  /** Any two texts of documents without repeated names, however their strings are escaped and whatever
      whitespace they hold, have one canonical text exactly when the documents differ only in the order of
      members, in whatever object. */
  lemma FormattingIsNothing(a: string, b: string, d: Doc, e: Doc)
    requires IsTextOf(a, d) && Unique(d) && IsTextOf(b, e) && Unique(e)
    ensures Accepted(a).Ok? && Accepted(b).Ok?
    ensures Marshal(Accepted(a).value) == Marshal(Accepted(b).value) <==> Reordered(d, e)
  {
    SpelledDocumentIsAccepted(a, d);
    SpelledDocumentIsAccepted(b, e);
    OrderIsNothing(d, e);
    MarshalRoundTrip(a);
    MarshalRoundTrip(b);
  }

  /** Numbers are kept as written, so one too large for any float is no reason to refuse. */
  lemma HugeNumberIsAccepted()
    ensures Accepted("1e999") == Ok(Plain(Number("1e999")))
  {
    var n := "1e999";
    assert n[2..] == "999";
    ThreeDigits(n[2..]);
    assert Digits(n[1..]) == 0;
    assert IntegerEnd(n) == Some(1) && FractionEnd(n, 1) == Some(1) && ExponentEnd(n, 1) == Some(5);
    NumberIsAccepted(n);
  }

  lemma ThreeDigits(s: string)
    requires |s| == 3 && forall i | 0 <= i < 3 :: IsNumeral(s[i])
    ensures Digits(s) == 3
  {
    assert Digits(s[1..][1..][1..]) == 0;
    assert Digits(s[1..][1..]) == 1;
  }

  /** A body is accepted as the number it spells exactly when it is one of the grammar, whatever its size. */
  lemma NumberIsAccepted(s: string)
    ensures Accepted(s) == Ok(Plain(Number(s))) <==> IsNumber(s)
  {
    if IsNumber(s) {
      assert s + [] == s;
      LexNumber(s, []);
      assert Lex([]) == [];
    } else if Accepted(s).Ok? {
      AcceptedNumbers(s);
    }
  }

  /** What other formats write for no number or an infinite one is refused, whatever follows it; inside a
      document AcceptedNumbers says so of every number. */
  lemma NonFiniteIsRefused(rest: string)
    ensures Accepted("NaN" + rest) == Err(Malformed)
    ensures Accepted("Infinity" + rest) == Err(Malformed)
    ensures Accepted("-Infinity" + rest) == Err(Malformed)
  {
    StartIsRefused("NaN" + rest);
    StartIsRefused("Infinity" + rest);
    StartIsRefused("-Infinity" + rest);
  }

  /** No token starts with a capital letter, and no number with a sign and one. */
  lemma StartIsRefused(s: string)
    requires s != [] && ('A' <= s[0] <= 'Z' || (s[0] == '-' && |s| > 1 && 'A' <= s[1] <= 'Z'))
    ensures Accepted(s) == Err(Malformed)
  {
    assert NumberLength(s).None?;
    assert Lex(s) == [Bad];
  }
}
