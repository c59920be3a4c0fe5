/** The canonical-sequence rule of event cursors and the cursor a request names. */
module Sequences {
  import opened Basics

  predicate IsDigit(b: byte) {
    48 <= b <= 57
  }

  /** `^(0|[1-9][0-9]{0,19})$` */
  predicate IsSequence(s: Bytes) {
    || s == [48]
    || (1 <= |s| <= 20 && 49 <= s[0] <= 57 && forall i | 1 <= i < |s| :: IsDigit(s[i]))
  }

  predicate AllDigits(s: Bytes) {
    forall i | 0 <= i < |s| :: IsDigit(s[i])
  }

  function Digit(d: nat): byte
    requires d < 10
  {
    (48 + d) as byte
  }

  function Print(n: nat): Bytes {
    if n < 10 then [Digit(n)] else Print(n / 10) + [Digit(n % 10)]
  }

  function Value(s: Bytes): nat
    requires AllDigits(s)
  {
    if s == [] then 0 else 10 * Value(s[..|s| - 1]) + (s[|s| - 1] as int - 48)
  }

  function Pow10(k: nat): nat {
    if k == 0 then 1 else 10 * Pow10(k - 1)
  }

  lemma SequenceDigits(s: Bytes)
    requires IsSequence(s)
    ensures AllDigits(s) && s != []
  {
  }

  lemma {:induction false} ValueOfPrint(n: nat)
    ensures Print(n) != [] && AllDigits(Print(n)) && Value(Print(n)) == n
    ensures n > 0 ==> Print(n)[0] != 48
  {
    if n < 10 {
    } else {
      ValueOfPrint(n / 10);
      assert Print(n)[..|Print(n)| - 1] == Print(n / 10);
    }
  }

  lemma {:induction false} PrintOfValue(s: Bytes)
    requires AllDigits(s) && s != [] && (|s| == 1 || s[0] != 48)
    ensures Print(Value(s)) == s
    ensures |s| > 1 ==> Value(s) >= 10
  {
    var r := s[..|s| - 1];
    if |s| > 1 {
      PrintOfValue(r);
      assert s == r + [s[|s| - 1]];
      if |r| == 1 {
        assert Value(r) == r[0] as int - 48;
      }
    }
  }

  lemma {:induction false} ValueBounds(s: Bytes)
    requires AllDigits(s)
    ensures Value(s) < Pow10(|s|)
    ensures s != [] && s[0] != 48 ==> Pow10(|s| - 1) <= Value(s)
  {
    if s == [] {
    } else {
      ValueBounds(s[..|s| - 1]);
    }
  }

  lemma {:induction false} Pow10Grows(j: nat, k: nat)
    requires j <= k
    ensures Pow10(j) <= Pow10(k)
    decreases k
  {
    if j == k {
    } else {
      Pow10Grows(j, k - 1);
    }
  }

  lemma {:induction false} PrintLength(n: nat, k: nat)
    requires k >= 1
    ensures |Print(n)| <= k <==> n < Pow10(k)
  {
    ValueOfPrint(n);
    ValueBounds(Print(n));
    if |Print(n)| <= k {
      Pow10Grows(|Print(n)|, k);
    } else if n > 0 {
      Pow10Grows(k, |Print(n)| - 1);
    }
  }

  /** The accepted cursors are exactly the decimal numerals of the numbers below 10^20. */
  lemma SequencesAreNaturals(s: Bytes)
    ensures IsSequence(s) <==> exists n: nat :: n < Pow10(20) && s == Print(n)
    ensures IsSequence(s) ==> AllDigits(s) && Value(s) < Pow10(20) && Print(Value(s)) == s
  {
    if IsSequence(s) {
      ValueBounds(s);
      Pow10Grows(|s|, 20);
      PrintOfValue(s);
    }
    forall n: nat | n < Pow10(20) && s == Print(n)
      ensures IsSequence(s)
    {
      ValueOfPrint(n);
      PrintLength(n, 20);
    }
  }

  predicate ByteLess(x: byte, y: byte) {
    x < y
  }

  /** Shorter first, and by the first differing byte among equals in length. */
  predicate ShortLexLess(a: Bytes, b: Bytes) {
    |a| < |b| || (|a| == |b| && LexLess(ByteLess, a, b))
  }

  lemma {:induction false} LexLast(a: Bytes, b: Bytes)
    requires |a| == |b| && a != []
    ensures var i, j := a[..|a| - 1], b[..|b| - 1];
            LexLess(ByteLess, a, b) <==> LexLess(ByteLess, i, j) || (i == j && a[|a| - 1] < b[|b| - 1])
  {
    if |a| == 1 {
    } else {
      LexLast(a[1..], b[1..]);
      var i, j := a[..|a| - 1], b[..|b| - 1];
      assert i[1..] == a[1..][..|a| - 2] && j[1..] == b[1..][..|b| - 2];
      assert i == [a[0]] + i[1..] && j == [b[0]] + j[1..];
    }
  }

  lemma LastDigitDecides(v: nat, w: nat, d: int, e: int)
    requires 0 <= d < 10 && 0 <= e < 10
    ensures v * 10 + d < w * 10 + e <==> v < w || (v == w && d < e)
    ensures v * 10 + d == w * 10 + e <==> v == w && d == e
  {
  }

  lemma {:induction false} SameLengthOrder(a: Bytes, b: Bytes)
    requires AllDigits(a) && AllDigits(b) && |a| == |b|
    ensures Value(a) < Value(b) <==> LexLess(ByteLess, a, b)
    ensures Value(a) == Value(b) <==> a == b
  {
    if a == [] {
    } else {
      var i, j := a[..|a| - 1], b[..|b| - 1];
      SameLengthOrder(i, j);
      LexLast(a, b);
      LastDigitDecides(Value(i), Value(j), a[|a| - 1] as int - 48, b[|b| - 1] as int - 48);
      assert a == i + [a[|a| - 1]] && b == j + [b[|b| - 1]];
    }
  }

  /** A shorter numeral without a leading zero is smaller. */
  lemma ShorterIsLess(a: Bytes, b: Bytes)
    requires IsSequence(a) && IsSequence(b) && |a| < |b|
    ensures AllDigits(a) && AllDigits(b) && Value(a) < Value(b)
  {
    ValueBounds(a);
    ValueBounds(b);
    Pow10Grows(|a|, |b| - 1);
  }

  /** Numeric order of cursors is length-then-byte order. */
  lemma CursorOrder(a: Bytes, b: Bytes)
    requires IsSequence(a) && IsSequence(b)
    ensures AllDigits(a) && AllDigits(b)
    ensures Value(a) < Value(b) <==> ShortLexLess(a, b)
  {
    SequenceDigits(a);
    SequenceDigits(b);
    if |a| < |b| {
      ShorterIsLess(a, b);
    } else if |b| < |a| {
      ShorterIsLess(b, a);
    } else {
      SameLengthOrder(a, b);
    }
  }

  datatype Parameter = After | LastEventId

  /** The cursor of a request: the query's `after`, or else the Last-Event-ID header. A refusal names
      the parameter. */
  function BindCursor(after: Bytes, lastEventId: Bytes): Result<Bytes, Parameter> {
    if after != [] && !IsSequence(after) then Err(After)
    else if lastEventId != [] && !IsSequence(lastEventId) then Err(LastEventId)
    else if after != [] then Ok(after)
    else Ok(lastEventId)
  }

  predicate SameNumber(a: Bytes, b: Bytes)
    requires IsSequence(a) && IsSequence(b)
  {
    SequenceDigits(a);
    SequenceDigits(b);
    Value(a) == Value(b)
  }

  /** A native EventSource repeats its URL on every reconnect, `after` included. It resumes from the
      last event id it holds exactly when the URL's `after` does not name another place. */
  lemma ReconnectCursor(after: Bytes, lastEventId: Bytes)
    requires IsSequence(lastEventId)
    ensures BindCursor(after, lastEventId) == Ok(lastEventId) <==> after == [] || after == lastEventId
    ensures BindCursor(after, lastEventId).Ok? ==>
              var cursor := BindCursor(after, lastEventId).value;
              IsSequence(cursor) && (SameNumber(cursor, lastEventId) <==> after == [] || after == lastEventId)
    ensures BindCursor(after, lastEventId).Err? <==>
              !(after == [] || exists n: nat :: n < Pow10(20) && after == Print(n))
  {
    SequencesAreNaturals(after);
    SequencesAreNaturals(lastEventId);
  }

  /** A refusal names the query's parameter if that is no numeral below 10^20, and else the header if that is
      none; otherwise the query's cursor is bound, or the header's when there is none. */
  lemma BoundCursor(after: Bytes, lastEventId: Bytes)
    ensures BindCursor(after, lastEventId) == Err(After) <==>
              after != [] && !exists n: nat :: n < Pow10(20) && after == Print(n)
    ensures BindCursor(after, lastEventId) == Err(LastEventId) <==>
              && (after == [] || exists n: nat :: n < Pow10(20) && after == Print(n))
              && lastEventId != [] && !exists n: nat :: n < Pow10(20) && lastEventId == Print(n)
    ensures BindCursor(after, lastEventId).Ok? ==>
              BindCursor(after, lastEventId).value == if |after| > 0 then after else lastEventId
  {
    SequencesAreNaturals(after);
    SequencesAreNaturals(lastEventId);
  }
}
