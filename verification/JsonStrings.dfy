/** Strings as text: section 7 of RFC 8259 as encoding/json reads it, and the text json.Marshal writes.
    Characters are Unicode scalar values. */
module JsonStrings {
  import opened Basics

  function HexValue(c: char): Option<nat> {
    if '0' <= c <= '9' then Some(c as int - '0' as int)
    else if 'a' <= c <= 'f' then Some(10 + (c as int - 'a' as int))
    else if 'A' <= c <= 'F' then Some(10 + (c as int - 'A' as int))
    else None
  }

  /** The code unit of a `\uXXXX` escape at the front of `s`. */
  function CodeUnit(s: string): (u: Option<nat>)
    ensures u.Some? ==> u.value < 0x10000 && |s| >= 6
  {
    if |s| < 6 || s[0] != '\\' || s[1] != 'u' then None
    else
      var a, b, c, d := HexValue(s[2]), HexValue(s[3]), HexValue(s[4]), HexValue(s[5]);
      if a.Some? && b.Some? && c.Some? && d.Some? then
        Some(((a.value * 16 + b.value) * 16 + c.value) * 16 + d.value)
      else None
  }

  predicate IsSurrogate(u: nat) {
    0xD800 <= u < 0xE000
  }

  const REPLACEMENT: char := '\U{FFFD}'

  /** What the letter of a short escape stands for. */
  function ShortFor(letter: char): Option<char> {
    match letter
    case '"' => Some('"')
    case '\\' => Some('\\')
    case '/' => Some('/')
    case 'b' => Some(8 as char)
    case 'f' => Some(12 as char)
    case 'n' => Some('\n')
    case 'r' => Some('\r')
    case 't' => Some('\t')
    case _ => None
  }

  function Paired(high: nat, low: nat): char
    requires 0xD800 <= high < 0xDC00 <= low < 0xE000
  {
    (0x10000 + (high - 0xD800) * 0x400 + (low - 0xDC00)) as char
  }

  /** One decoded character at the front of a string body, and how much text it took. */
  function Unescaped(s: string): (r: Option<(char, nat)>)
    requires s != []
    ensures r.Some? ==> 0 < r.value.1 <= |s|
  {
    if s[0] != '\\' then
      if s[0] < ' ' || s[0] == '"' then None else Some((s[0], 1))
    else if |s| == 1 then None
    else if s[1] == 'u' then
      var u := CodeUnit(s);
      if u.None? then None
      else if !IsSurrogate(u.value) then Some((u.value as char, 6))
      else
        // a high surrogate takes the low one behind it; a lone surrogate is replaced
        var v := CodeUnit(s[6..]);
        if u.value < 0xDC00 && v.Some? && 0xDC00 <= v.value < 0xE000 then Some((Paired(u.value, v.value), 12))
        else Some((REPLACEMENT, 6))
    else
      var c := ShortFor(s[1]);
      if c.None? then None else Some((c.value, 2))
  }

  /** The decoded string and what follows its closing quote; `s` starts behind the opening one. */
  function Unquoted(s: string): (r: Option<(string, string)>)
    ensures r.Some? ==> |r.value.1| < |s|
    decreases |s|
  {
    if s == [] then None
    else if s[0] == '"' then Some(([], s[1..]))
    else
      var c := Unescaped(s);
      if c.None? then None
      else
        var rest := Unquoted(s[c.value.1..]);
        if rest.None? then None else Some(([c.value.0] + rest.value.0, rest.value.1))
  }

  // ---- the grammar of section 7 ----

  /** One piece of a string: a character as it is, a short escape, or four hexadecimal digits. */
  datatype Unit = Raw(c: char) | Short(letter: char) | Hex(digits: string)

  predicate IsUnit(u: Unit) {
    match u
    case Raw(c) => c >= ' ' && c != '"' && c != '\\'
    case Short(letter) => ShortFor(letter).Some?
    case Hex(digits) => IsHex(digits)
  }

  predicate IsHex(digits: string) {
    |digits| == 4 && forall i | 0 <= i < 4 :: HexValue(digits[i]).Some?
  }

  predicate AreUnits(us: seq<Unit>) {
    forall i | 0 <= i < |us| :: IsUnit(us[i])
  }

  function HexNumber(digits: string): (n: nat)
    requires IsHex(digits)
    ensures n < 0x10000
  {
    ((HexValue(digits[0]).value * 16 + HexValue(digits[1]).value) * 16 + HexValue(digits[2]).value) * 16
    + HexValue(digits[3]).value
  }

  function UnitText(u: Unit): string {
    match u
    case Raw(c) => [c]
    case Short(letter) => ['\\', letter]
    case Hex(digits) => ['\\', 'u'] + digits
  }

  /** The pieces, the closing quote and what follows. */
  function Body(us: seq<Unit>, rest: string): string {
    if us == [] then ['"'] + rest else UnitText(us[0]) + Body(us[1..], rest)
  }

  predicate IsHigh(u: Unit) {
    u.Hex? && IsHex(u.digits) && 0xD800 <= HexNumber(u.digits) < 0xDC00
  }

  predicate IsLow(u: Unit) {
    u.Hex? && IsHex(u.digits) && 0xDC00 <= HexNumber(u.digits) < 0xE000
  }

  predicate IsPair(us: seq<Unit>) {
    |us| > 1 && IsHigh(us[0]) && IsLow(us[1])
  }

  /** The string the pieces stand for: a high surrogate and the low one behind it are one character, and
      any other surrogate is replaced. */
  function StringOf(us: seq<Unit>): string
    requires AreUnits(us)
  {
    if us == [] then []
    else if IsPair(us) then
      [Paired(HexNumber(us[0].digits), HexNumber(us[1].digits))] + StringOf(us[2..])
    else [Character(us[0])] + StringOf(us[1..])
  }

  function Character(u: Unit): char
    requires IsUnit(u)
  {
    match u
    case Raw(c) => c
    case Short(letter) => ShortFor(letter).value
    case Hex(digits) => if IsSurrogate(HexNumber(digits)) then REPLACEMENT else HexNumber(digits) as char
  }

  lemma CodeUnitIsHex(digits: string, rest: string)
    requires IsHex(digits)
    ensures CodeUnit(['\\', 'u'] + digits + rest) == Some(HexNumber(digits))
  {
    var s := ['\\', 'u'] + digits + rest;
    assert s[2] == digits[0] && s[3] == digits[1] && s[4] == digits[2] && s[5] == digits[3];
  }

  /** A body starts with a code unit exactly when its first piece is one. */
  lemma CodeUnitOfBody(us: seq<Unit>, rest: string)
    requires AreUnits(us)
    ensures CodeUnit(Body(us, rest)) ==
            if us != [] && us[0].Hex? then Some(HexNumber(us[0].digits)) else None
  {
    if us != [] {
      var s := Body(us, rest);
      match us[0]
      case Raw(c) => assert s[0] == c;
      case Short(letter) => assert s[1] == letter;
      case Hex(digits) => CodeUnitIsHex(digits, Body(us[1..], rest));
    }
  }

  /** The high surrogate at the front of `s` has its low one behind it. */
  predicate PairAhead(s: string)
    requires CodeUnit(s).Some?
  {
    var v := CodeUnit(s[6..]);
    0xD800 <= CodeUnit(s).value < 0xDC00 && v.Some? && 0xDC00 <= v.value < 0xE000
  }

  lemma CodeUnitUnescaped(s: string)
    requires CodeUnit(s).Some?
    ensures s[0] == '\\' && s[1] == 'u'
    ensures var u := CodeUnit(s).value;
            Unescaped(s) == if PairAhead(s) then Some((Paired(u, CodeUnit(s[6..]).value), 12))
                            else Some((if IsSurrogate(u) then REPLACEMENT else u as char, 6))
  {
  }

  lemma FirstHex(us: seq<Unit>, rest: string)
    requires AreUnits(us) && us != [] && us[0].Hex?
    ensures var s := Body(us, rest);
            Unescaped(s) == Some(if IsPair(us) then (Paired(HexNumber(us[0].digits), HexNumber(us[1].digits)), 12)
                                 else (Character(us[0]), 6))
  {
    var s := Body(us, rest);
    CodeUnitOfBody(us, rest);
    CodeUnitOfBody(us[1..], rest);
    assert s[6..] == Body(us[1..], rest);
    CodeUnitUnescaped(s);
  }

  lemma FirstOther(us: seq<Unit>, rest: string)
    requires AreUnits(us) && us != [] && !us[0].Hex?
    ensures Unescaped(Body(us, rest)) == Some((Character(us[0]), |UnitText(us[0])|))
  {
    var s := Body(us, rest);
    assert s[0] == UnitText(us[0])[0];
    if us[0].Short? {
      assert s[1] == us[0].letter;
    }
  }

  lemma BehindFirst(us: seq<Unit>, rest: string)
    requires AreUnits(us) && us != []
    ensures var s := Body(us, rest);
            && s[0] != '"' && s[|UnitText(us[0])|..] == Body(us[1..], rest)
            && (IsPair(us) ==> s[12..] == Body(us[2..], rest))
  {
    var s := Body(us, rest);
    assert s[0] == UnitText(us[0])[0] && s[|UnitText(us[0])|..] == Body(us[1..], rest);
    if IsPair(us) {
      assert us[1..][1..] == us[2..];
      assert Body(us[1..], rest)[6..] == Body(us[2..], rest);
      assert s[12..] == s[6..][6..];
    }
  }

  /** Every string of the grammar is read as what it stands for. */
  lemma {:induction false} UnitsRead(us: seq<Unit>, rest: string)
    requires AreUnits(us)
    ensures Unquoted(Body(us, rest)) == Some((StringOf(us), rest))
    decreases |us|
  {
    if us == [] {
    } else {
      BehindFirst(us, rest);
      if us[0].Hex? {
        FirstHex(us, rest);
      } else {
        FirstOther(us, rest);
      }
      if IsPair(us) {
        UnitsRead(us[2..], rest);
      } else {
        UnitsRead(us[1..], rest);
      }
    }
  }

  /** The piece a body starts with. */
  lemma UnitAt(s: string) returns (u: Unit)
    requires s != [] && s[0] != '"' && Unescaped(s).Some?
    ensures IsUnit(u) && UnitText(u) <= s
  {
    if s[0] != '\\' {
      u := Raw(s[0]);
    } else if s[1] != 'u' {
      u := Short(s[1]);
    } else {
      u := Hex(s[2..6]);
    }
  }

  lemma BehindPair(s: string)
    requires CodeUnit(s).Some? && PairAhead(s)
    ensures Unquoted(s).Some? ==> Unquoted(s[6..]).Some? && Unquoted(s[6..]).value.1 == Unquoted(s).value.1
  {
    CodeUnitUnescaped(s);
    CodeUnitUnescaped(s[6..]);
    assert s[12..] == s[6..][6..];
  }

  lemma BehindHex(digits: string, after: string)
    requires IsHex(digits) && Unquoted(['\\', 'u'] + digits + after).Some?
    ensures Unquoted(after).Some? && Unquoted(after).value.1 == Unquoted(['\\', 'u'] + digits + after).value.1
  {
    var s := ['\\', 'u'] + digits + after;
    CodeUnitIsHex(digits, after);
    CodeUnitUnescaped(s);
    assert s[6..] == after;
    if PairAhead(s) {
      BehindPair(s);
    }
  }

  lemma BehindOther(u: Unit, after: string)
    requires IsUnit(u) && !u.Hex? && Unquoted(UnitText(u) + after).Some?
    ensures Unquoted(after).Some? && Unquoted(after).value.1 == Unquoted(UnitText(u) + after).value.1
  {
    var s := UnitText(u) + after;
    assert s[0] == UnitText(u)[0] && s[|UnitText(u)|..] == after;
    if u.Short? {
      assert s[1] == u.letter;
    }
  }

  /** Behind the first piece, even a high surrogate, the string goes on to the same end. */
  lemma BehindUnit(u: Unit, after: string)
    requires IsUnit(u) && Unquoted(UnitText(u) + after).Some?
    ensures Unquoted(after).Some? && Unquoted(after).value.1 == Unquoted(UnitText(u) + after).value.1
  {
    if u.Hex? {
      BehindHex(u.digits, after);
    } else {
      BehindOther(u, after);
    }
  }

  /** Whatever is read as a string was one of the grammar. */
  lemma {:induction false} UnquotedWasUnits(s: string) returns (us: seq<Unit>)
    requires Unquoted(s).Some?
    ensures AreUnits(us) && s == Body(us, Unquoted(s).value.1)
    decreases |s|
  {
    if s[0] == '"' {
      us := [];
    } else {
      var u := UnitAt(s);
      var after := s[|UnitText(u)|..];
      assert s == UnitText(u) + after;
      BehindUnit(u, after);
      var rest := UnquotedWasUnits(after);
      us := [u] + rest;
    }
  }

  /** The strings of the grammar, and what they stand for, are exactly what is read. */
  lemma StringsOfTheGrammar(s: string, t: string, rest: string)
    ensures Unquoted(s) == Some((t, rest)) <==> exists us :: AreUnits(us) && s == Body(us, rest) && StringOf(us) == t
  {
    if Unquoted(s) == Some((t, rest)) {
      var us := UnquotedWasUnits(s);
      UnitsRead(us, rest);
    }
    forall us | AreUnits(us) && s == Body(us, rest) && StringOf(us) == t
      ensures Unquoted(s) == Some((t, rest))
    {
      UnitsRead(us, rest);
    }
  }

  lemma {:induction false} BodyGoesOn(us: seq<Unit>, rest: string, more: string)
    ensures Body(us, rest) + more == Body(us, rest + more)
  {
    if us == [] {
      assert ['"'] + rest + more == ['"'] + (rest + more);
    } else {
      BodyGoesOn(us[1..], rest, more);
      var u, body := UnitText(us[0]), Body(us[1..], rest);
      assert u + body + more == u + (body + more);
    }
  }

  // ---- what Marshal writes ----

  function HexDigit(d: nat): char
    requires d < 16
  {
    if d < 10 then ('0' as int + d) as char else ('a' as int + d - 10) as char
  }

  function UnicodeEscape(u: nat): string
    requires u < 0x10000
  {
    ['\\', 'u', HexDigit(u / 0x1000), HexDigit(u / 0x100 % 16), HexDigit(u / 16 % 16), HexDigit(u % 16)]
  }

  /** json.Marshal escapes quotes, control characters, HTML's three and the two line separators. */
  function Escaped(c: char): (e: string)
    ensures e != []
  {
    var u := c as int;
    if c == '"' then ['\\', '"']
    else if c == '\\' then ['\\', '\\']
    else if u == 8 then ['\\', 'b']
    else if u == 12 then ['\\', 'f']
    else if c == '\n' then ['\\', 'n']
    else if c == '\r' then ['\\', 'r']
    else if c == '\t' then ['\\', 't']
    else if c < ' ' || c == '<' || c == '>' || c == '&' || u == 0x2028 || u == 0x2029 then UnicodeEscape(u)
    else [c]
  }

  function Quoted(s: string): string {
    if s == [] then ['"'] else Escaped(s[0]) + Quoted(s[1..])
  }

  lemma HexBack(d: nat)
    requires d < 16
    ensures HexValue(HexDigit(d)) == Some(d)
  {
  }

  lemma FourHexBack(s: string, a: nat, b: nat, c: nat, d: nat)
    requires a < 16 && b < 16 && c < 16 && d < 16 && |s| >= 6
    requires s[..6] == ['\\', 'u', HexDigit(a), HexDigit(b), HexDigit(c), HexDigit(d)]
    ensures CodeUnit(s) == Some(((a * 16 + b) * 16 + c) * 16 + d)
  {
    HexBack(a);
    HexBack(b);
    HexBack(c);
    HexBack(d);
    var t := s[..6];
    assert s[0] == t[0] && s[1] == t[1] && s[2] == t[2] && s[3] == t[3] && s[4] == t[4] && s[5] == t[5];
  }

  lemma UnicodeBack(u: nat, rest: string)
    requires u < 0x10000
    ensures CodeUnit(UnicodeEscape(u) + rest) == Some(u)
  {
    var s := UnicodeEscape(u) + rest;
    assert s[..6] == UnicodeEscape(u);
    var a, b := u / 16, u / 0x100;
    assert a == u / 16 && u == a * 16 + u % 16 && a / 16 == b && a == b * 16 + a % 16;
    assert b / 16 == u / 0x1000 && b == u / 0x1000 * 16 + b % 16;
    FourHexBack(s, u / 0x1000, u / 0x100 % 16, u / 16 % 16, u % 16);
  }

  lemma EscapeBack(c: char, rest: string)
    ensures Unescaped(Escaped(c) + rest) == Some((c, |Escaped(c)|))
    ensures (Escaped(c) + rest)[0] != '"'
  {
    var s := Escaped(c) + rest;
    assert s[0] == Escaped(c)[0] && (|Escaped(c)| > 1 ==> s[1] == Escaped(c)[1]);
    if |Escaped(c)| == 6 {
      UnicodeBack(c as int, rest);
    }
  }

  lemma {:induction false} QuotedBack(s: string, rest: string)
    ensures Unquoted(Quoted(s) + rest) == Some((s, rest))
    decreases |s|
  {
    var q := Quoted(s) + rest;
    if s == [] {
      assert q[1..] == rest;
    } else {
      var after := Quoted(s[1..]) + rest;
      assert q == Escaped(s[0]) + after;
      EscapeBack(s[0], after);
      assert q[|Escaped(s[0])|..] == after;
      QuotedBack(s[1..], rest);
      assert s == [s[0]] + s[1..];
    }
  }

  // ---- the tables, in code points ----

  /** The eight short escapes of section 7. */
  lemma ShortEscapes()
    ensures ShortFor('"') == Some(0x22 as char) && ShortFor('\\') == Some(0x5C as char)
    ensures ShortFor('/') == Some(0x2F as char) && ShortFor('b') == Some(0x08 as char)
    ensures ShortFor('f') == Some(0x0C as char) && ShortFor('n') == Some(0x0A as char)
    ensures ShortFor('r') == Some(0x0D as char) && ShortFor('t') == Some(0x09 as char)
    ensures forall c: char | c !in "\"\\/bfnrt" :: ShortFor(c).None?
  {
  }

  lemma HexadecimalDigits()
    ensures HexValue('a') == Some(10) && HexValue('b') == Some(11) && HexValue('c') == Some(12)
    ensures HexValue('d') == Some(13) && HexValue('e') == Some(14) && HexValue('f') == Some(15)
    ensures HexValue('A') == Some(10) && HexValue('B') == Some(11) && HexValue('C') == Some(12)
    ensures HexValue('D') == Some(13) && HexValue('E') == Some(14) && HexValue('F') == Some(15)
    ensures forall c: char | 0x30 <= c as int <= 0x39 :: HexValue(c) == Some(c as int - 0x30)
    ensures forall c: char :: HexValue(c).Some? <==>
              0x30 <= c as int <= 0x39 || 0x41 <= c as int <= 0x46 || 0x61 <= c as int <= 0x66
  {
  }

  /** A surrogate pair stands for the character whose UTF-16 form it is, and a lone surrogate for U+FFFD. */
  lemma PairsAreUtf16(v: nat)
    requires 0x10000 <= v < 0x110000
    ensures REPLACEMENT as int == 0xFFFD
    ensures Paired(0xD800 + (v - 0x10000) / 0x400, 0xDC00 + (v - 0x10000) % 0x400) as int == v
    ensures Paired(0xD83D, 0xDE00) as int == 0x1F600
  {
  }

  /** A character the canonical text may hold: no control character, no space, nothing HTML or a script
      would take for its own. */
  predicate IsPlain(c: char) {
    && c as int >= 0x20
    && c as int != 0x3C && c as int != 0x3E && c as int != 0x26
    && c as int != 0x2028 && c as int != 0x2029
  }

  predicate ArePlain(s: string) {
    forall i | 0 <= i < |s| :: IsPlain(s[i])
  }

  /** What json.Marshal writes for a character. */
  lemma EscapedTexts(c: char)
    ensures Escaped('"') == "\\\"" && Escaped('\\') == "\\\\"
    ensures Escaped(0x08 as char) == "\\b" && Escaped(0x0C as char) == "\\f"
    ensures Escaped(0x0A as char) == "\\n" && Escaped(0x0D as char) == "\\r" && Escaped(0x09 as char) == "\\t"
    ensures Escaped('<') == "\\u003c" && Escaped('>') == "\\u003e" && Escaped('&') == "\\u0026"
    ensures Escaped(0x00 as char) == "\\u0000" && Escaped(0x1F as char) == "\\u001f"
    ensures Escaped(0x2028 as char) == "\\u2028" && Escaped(0x2029 as char) == "\\u2029"
    ensures IsPlain(c) && c != '"' && c != '\\' ==> Escaped(c) == [c]
    ensures ArePlain(Escaped(c))
  {
  }

  lemma {:induction false} QuotedIsPlain(s: string)
    ensures ArePlain(Quoted(s))
  {
    if s == [] {
    } else {
      EscapedTexts(s[0]);
      QuotedIsPlain(s[1..]);
    }
  }
}
