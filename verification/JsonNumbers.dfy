/** Numbers as text: section 6 of RFC 8259 as encoding/json reads it. */
module JsonNumbers {
  import opened Basics

  predicate IsNumeral(c: char) {
    '0' <= c <= '9'
  }

  function Digits(s: string): (n: nat)
    ensures n <= |s|
  {
    if s != [] && IsNumeral(s[0]) then 1 + Digits(s[1..]) else 0
  }

  function At(s: string, i: nat, c: char): bool {
    i < |s| && s[i] == c
  }

  /** The end of the integer part: no leading zero. */
  function IntegerEnd(s: string): Option<nat> {
    var a := if At(s, 0, '-') then 1 else 0;
    if |s| <= a || !IsNumeral(s[a]) then None
    else if s[a] == '0' then Some(a + 1)
    else Some(a + Digits(s[a..]))
  }

  function FractionEnd(s: string, b: nat): Option<nat>
    requires b <= |s|
  {
    if !At(s, b, '.') then Some(b)
    else if Digits(s[b + 1..]) == 0 then None
    else Some(b + 1 + Digits(s[b + 1..]))
  }

  function ExponentEnd(s: string, c: nat): Option<nat>
    requires c <= |s|
  {
    if !At(s, c, 'e') && !At(s, c, 'E') then Some(c)
    else
      var d := if At(s, c + 1, '+') || At(s, c + 1, '-') then c + 2 else c + 1;
      if Digits(s[d..]) == 0 then None else Some(d + Digits(s[d..]))
  }

  /** The length of the number `s` starts with. */
  function NumberLength(s: string): (n: Option<nat>)
    ensures n.Some? ==> 0 < n.value <= |s|
  {
    var b := IntegerEnd(s);
    if b.None? then None
    else
      var c := FractionEnd(s, b.value);
      if c.None? then None else ExponentEnd(s, c.value)
  }

  predicate IsNumber(s: string) {
    NumberLength(s) == Some(|s|)
  }

  // ---- the grammar of section 6 ----

  predicate AreNumerals(s: string) {
    forall i | 0 <= i < |s| :: IsNumeral(s[i])
  }

  predicate IsInteger(s: string) {
    s == "0" || (s != [] && s[0] != '0' && AreNumerals(s))
  }

  predicate IsFraction(s: string) {
    s == [] || (|s| > 1 && s[0] == '.' && AreNumerals(s[1..]))
  }

  predicate IsExponent(s: string) {
    s == [] || (s[0] in "eE" && (var t := Unsigned(s[1..]); t != [] && AreNumerals(t)))
  }

  function Unsigned(s: string): string {
    if s != [] && s[0] in "+-" then s[1..] else s
  }

  /** A sign, an integer part, a fraction and an exponent. */
  predicate IsInParts(s: string, minus: string, integer: string, fraction: string, exponent: string) {
    && (minus == [] || minus == "-") && IsInteger(integer) && IsFraction(fraction) && IsExponent(exponent)
    && s == minus + integer + fraction + exponent
  }

  lemma {:induction false} DigitsAreNumerals(s: string)
    ensures AreNumerals(s[..Digits(s)])
  {
    if s == [] || !IsNumeral(s[0]) {
    } else {
      DigitsAreNumerals(s[1..]);
      assert s[..Digits(s)] == [s[0]] + s[1..][..Digits(s[1..])];
    }
  }

  lemma {:induction false} NumeralsAreDigits(x: string, rest: string)
    requires AreNumerals(x) && (rest == [] || !IsNumeral(rest[0]))
    ensures Digits(x + rest) == |x|
  {
    if x == [] {
      assert x + rest == rest;
    } else {
      assert (x + rest)[1..] == x[1..] + rest;
      NumeralsAreDigits(x[1..], rest);
    }
  }

  lemma AllAreDigits(x: string)
    requires AreNumerals(x)
    ensures Digits(x) == |x|
  {
    NumeralsAreDigits(x, []);
    assert x + [] == x;
  }

  lemma NumeralsFrom(s: string, i: nat, x: string, rest: string)
    requires i <= |s| && s[i..] == x + rest && AreNumerals(x) && (rest == [] || !IsNumeral(rest[0]))
    ensures Digits(s[i..]) == |x|
  {
    NumeralsAreDigits(x, rest);
  }

  lemma Regrouped(a: string, b: string, c: string)
    ensures a + b + c == a + (b + c)
    ensures (a + b + c)[|a|..] == b + c && (a + b + c)[|a + b|..] == c
  {
  }

  lemma Pieces(s: string, a: nat, b: nat, c: nat)
    requires a <= b <= c <= |s|
    ensures s == s[..a] + s[a..b] + s[b..c] + s[c..]
  {
    assert s[..b] == s[..a] + s[a..b];
    assert s[..c] == s[..b] + s[b..c];
  }

  lemma PartsAreRead(s: string, minus: string, integer: string, fraction: string, exponent: string)
    requires IsInParts(s, minus, integer, fraction, exponent)
    ensures IsNumber(s)
  {
    var head := minus + integer;
    TailRead(head, fraction, exponent);
    Regrouped(head, fraction, exponent);
    TailStart(fraction, exponent);
    IntegerRead(s, minus, integer, fraction + exponent);
  }

  lemma TailStart(fraction: string, exponent: string)
    requires IsFraction(fraction) && IsExponent(exponent)
    ensures var rest := fraction + exponent; rest == [] || !IsNumeral(rest[0])
  {
    if fraction == [] {
      assert fraction + exponent == exponent;
    }
  }

  lemma TailRead(head: string, fraction: string, exponent: string)
    requires IsFraction(fraction) && IsExponent(exponent)
    ensures var s := head + fraction + exponent;
            && FractionEnd(s, |head|) == Some(|head + fraction|)
            && ExponentEnd(s, |head + fraction|) == Some(|s|)
  {
    var s := head + fraction + exponent;
    Regrouped(head, fraction, exponent);
    FractionRead(s, |head|, fraction, exponent);
    ExponentRead(s, |head + fraction|, exponent);
  }

  lemma IntegerRead(s: string, minus: string, integer: string, rest: string)
    requires (minus == [] || minus == "-") && IsInteger(integer) && (rest == [] || !IsNumeral(rest[0]))
    requires s == minus + integer + rest
    ensures IntegerEnd(s) == Some(|minus + integer|)
  {
    var a := |minus|;
    assert s[a..] == integer + rest;
    assert s[a] == s[a..][0] == integer[0] && (minus != [] ==> s[0] == minus[0]);
    if integer != "0" {
      NumeralsFrom(s, a, integer, rest);
    }
  }

  lemma FractionRead(s: string, b: nat, fraction: string, rest: string)
    requires b <= |s| && s[b..] == fraction + rest
    requires IsFraction(fraction) && (rest == [] || rest[0] in "eE")
    ensures FractionEnd(s, b) == Some(b + |fraction|)
  {
    if fraction == [] {
      assert s[b..] == rest;
      assert b < |s| ==> s[b] == rest[0];
    } else {
      assert s[b] == s[b..][0] == '.';
      assert s[b + 1..] == fraction[1..] + rest;
      NumeralsFrom(s, b + 1, fraction[1..], rest);
    }
  }

  lemma ExponentRead(s: string, c: nat, exponent: string)
    requires c <= |s| && s[c..] == exponent && IsExponent(exponent)
    ensures ExponentEnd(s, c) == Some(|s|)
  {
    if exponent != [] {
      var t := Unsigned(exponent[1..]);
      AllAreDigits(t);
      assert s[c] == exponent[0] && s[c + 1] == exponent[1];
      if exponent[1] in "+-" {
        assert s[c + 2..] == t;
      } else {
        assert s[c + 1..] == t;
      }
    }
  }

  lemma PartsOf(s: string) returns (minus: string, integer: string, fraction: string, exponent: string)
    requires IsNumber(s)
    ensures IsInParts(s, minus, integer, fraction, exponent)
  {
    var a := if At(s, 0, '-') then 1 else 0;
    var b := IntegerEnd(s).value;
    var c := FractionEnd(s, b).value;
    minus, integer, fraction, exponent := s[..a], s[a..b], s[b..c], s[c..];
    IntegerPart(s);
    FractionPart(s, b);
    ExponentPart(s, c);
    Pieces(s, a, b, c);
  }

  lemma IntegerPart(s: string)
    requires IntegerEnd(s).Some?
    ensures var a := if At(s, 0, '-') then 1 else 0;
            IsInteger(s[a..IntegerEnd(s).value]) && (s[..a] == [] || s[..a] == "-")
  {
    var a := if At(s, 0, '-') then 1 else 0;
    DigitsAreNumerals(s[a..]);
    assert s[a..a + Digits(s[a..])] == s[a..][..Digits(s[a..])];
  }

  lemma FractionPart(s: string, b: nat)
    requires b <= |s| && FractionEnd(s, b).Some?
    ensures IsFraction(s[b..FractionEnd(s, b).value])
  {
    if At(s, b, '.') {
      var n := Digits(s[b + 1..]);
      DigitsAreNumerals(s[b + 1..]);
      assert s[b..b + 1 + n][1..] == s[b + 1..][..n];
    }
  }

  lemma ExponentPart(s: string, c: nat)
    requires c <= |s| && ExponentEnd(s, c) == Some(|s|)
    ensures IsExponent(s[c..])
  {
    if c < |s| {
      var d := if At(s, c + 1, '+') || At(s, c + 1, '-') then c + 2 else c + 1;
      DigitsAreNumerals(s[d..]);
      assert s[c..][0] == s[c] && s[c..][1..] == s[c + 1..];
      assert Unsigned(s[c + 1..]) == s[d..];
      assert s[d..][..Digits(s[d..])] == s[d..];
    }
  }

  /** The texts read as one number are exactly those of the grammar. */
  lemma NumbersOfTheGrammar(s: string)
    ensures IsNumber(s) <==>
            exists minus, integer, fraction, exponent :: IsInParts(s, minus, integer, fraction, exponent)
  {
    if IsNumber(s) {
      var minus, integer, fraction, exponent := PartsOf(s);
    }
    forall minus, integer, fraction, exponent | IsInParts(s, minus, integer, fraction, exponent)
      ensures IsNumber(s)
    {
      PartsAreRead(s, minus, integer, fraction, exponent);
    }
  }

  // ---- a number in a longer text ----

  /** What may follow a number without being read into it. */
  predicate EndsNumber(rest: string) {
    rest == [] || !(IsNumeral(rest[0]) || rest[0] in ".eE+-")
  }

  lemma {:induction false} DigitsStop(s: string, rest: string)
    requires EndsNumber(rest)
    ensures Digits(s + rest) == Digits(s)
    decreases |s|
  {
    if s == [] {
      assert s + rest == rest;
    } else {
      assert (s + rest)[1..] == s[1..] + rest;
      DigitsStop(s[1..], rest);
    }
  }

  lemma DigitsStopFrom(s: string, i: nat, rest: string)
    requires EndsNumber(rest) && i <= |s|
    ensures Digits((s + rest)[i..]) == Digits(s[i..])
  {
    assert (s + rest)[i..] == s[i..] + rest;
    DigitsStop(s[i..], rest);
  }

  lemma IntegerStops(s: string, rest: string)
    requires IntegerEnd(s).Some? && EndsNumber(rest)
    ensures IntegerEnd(s + rest) == IntegerEnd(s)
  {
    var a := if At(s, 0, '-') then 1 else 0;
    DigitsStopFrom(s, a, rest);
    assert (s + rest)[0] == s[0] && (s + rest)[a] == s[a];
  }

  lemma FractionStops(s: string, b: nat, rest: string)
    requires b <= |s| && FractionEnd(s, b).Some? && EndsNumber(rest)
    ensures FractionEnd(s + rest, b) == FractionEnd(s, b)
  {
    if b < |s| {
      assert (s + rest)[b] == s[b];
      DigitsStopFrom(s, b + 1, rest);
    } else {
      assert rest != [] ==> (s + rest)[b] == rest[0];
    }
  }

  lemma ExponentStops(s: string, c: nat, rest: string)
    requires c <= |s| && ExponentEnd(s, c).Some? && EndsNumber(rest)
    ensures ExponentEnd(s + rest, c) == ExponentEnd(s, c)
  {
    if c < |s| {
      assert (s + rest)[c] == s[c];
      if s[c] == 'e' || s[c] == 'E' {
        var d := if At(s, c + 1, '+') || At(s, c + 1, '-') then c + 2 else c + 1;
        assert c + 1 < |s| ==> (s + rest)[c + 1] == s[c + 1];
        DigitsStopFrom(s, d, rest);
      }
    } else {
      assert rest != [] ==> (s + rest)[c] == rest[0];
    }
  }

  lemma NumberStops(s: string, rest: string)
    requires IsNumber(s) && EndsNumber(rest)
    ensures NumberLength(s + rest) == Some(|s|)
  {
    var b := IntegerEnd(s).value;
    IntegerStops(s, rest);
    FractionStops(s, b, rest);
    ExponentStops(s, FractionEnd(s, b).value, rest);
  }

  /** What a number starts with is no other token's start. */
  lemma NumberStart(s: string)
    requires NumberLength(s).Some?
    ensures s != [] && (IsNumeral(s[0]) || s[0] == '-')
  {
  }

  lemma {:induction false} DigitsCut(s: string, n: nat)
    requires Digits(s) <= n <= |s|
    ensures Digits(s[..n]) == Digits(s)
    decreases |s|
  {
    if s == [] || !IsNumeral(s[0]) {
    } else {
      assert s[..n][1..] == s[1..][..n - 1];
      DigitsCut(s[1..], n - 1);
    }
  }

  lemma DigitsCutFrom(s: string, i: nat, n: nat)
    requires i <= n <= |s| && i + Digits(s[i..]) <= n
    ensures Digits(s[..n][i..]) == Digits(s[i..])
  {
    assert s[..n][i..] == s[i..][..n - i];
    DigitsCut(s[i..], n - i);
  }

  lemma NumberReadIsNumber(s: string)
    requires NumberLength(s).Some?
    ensures IsNumber(s[..NumberLength(s).value])
  {
    var n := NumberLength(s).value;
    var t := s[..n];
    var a := if At(s, 0, '-') then 1 else 0;
    var b := IntegerEnd(s).value;
    var c := FractionEnd(s, b).value;
    assert a < b <= c <= n;
    if s[a] != '0' {
      DigitsCutFrom(s, a, n);
    }
    assert IntegerEnd(t) == Some(b);
    FractionCut(s, b, n);
    ExponentCut(s, c, n);
  }

  lemma FractionCut(s: string, b: nat, n: nat)
    requires b <= n <= |s| && FractionEnd(s, b).Some? && FractionEnd(s, b).value <= n
    ensures FractionEnd(s[..n], b) == FractionEnd(s, b)
  {
    if At(s, b, '.') {
      DigitsCutFrom(s, b + 1, n);
    }
  }

  lemma ExponentCut(s: string, c: nat, n: nat)
    requires c <= n <= |s| && ExponentEnd(s, c) == Some(n)
    ensures ExponentEnd(s[..n], c) == Some(n)
  {
    if At(s, c, 'e') || At(s, c, 'E') {
      var d := if At(s, c + 1, '+') || At(s, c + 1, '-') then c + 2 else c + 1;
      DigitsCutFrom(s, d, n);
    }
  }

  // ---- the characters of numbers ----

  predicate AreNumberCharacters(s: string) {
    forall i | 0 <= i < |s| ::
      0x30 <= s[i] as int <= 0x39 || s[i] == '+' || s[i] == '-' || s[i] == '.' || s[i] == 'e' || s[i] == 'E'
  }

  lemma CharactersJoin(a: string, b: string)
    requires AreNumberCharacters(a) && AreNumberCharacters(b)
    ensures AreNumberCharacters(a + b)
  {
  }

  /** A number holds digits, signs, a point and an exponent's letter. */
  lemma NumberCharacters(s: string)
    requires IsNumber(s)
    ensures AreNumberCharacters(s)
  {
    var minus, integer, fraction, exponent := PartsOf(s);
    CharactersJoin(minus, integer);
    FractionCharacters(fraction);
    CharactersJoin(minus + integer, fraction);
    ExponentCharacters(exponent);
    CharactersJoin(minus + integer + fraction, exponent);
  }

  lemma FractionCharacters(s: string)
    requires IsFraction(s)
    ensures AreNumberCharacters(s)
  {
    if s == [] {
    } else {
      assert s == [s[0]] + s[1..];
      CharactersJoin([s[0]], s[1..]);
    }
  }

  lemma ExponentCharacters(s: string)
    requires IsExponent(s)
    ensures AreNumberCharacters(s)
  {
    if s == [] {
    } else {
      var t := Unsigned(s[1..]);
      var head := s[..|s| - |t|];
      assert s == head + t;
      CharactersJoin(head, t);
    }
  }
}
