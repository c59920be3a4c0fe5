/** The pointer of a body location (RFC 6901). */
module JsonPointer {

  /** Section 3: `~` becomes `~0` and `/` becomes `~1`, in one pass. */
  function Escape(s: string): string {
    if s == [] then []
    else (if s[0] == '~' then "~0" else if s[0] == '/' then "~1" else [s[0]]) + Escape(s[1..])
  }

  function Pointer(path: seq<string>): string {
    if path == [] then [] else ['/'] + Escape(path[0]) + Pointer(path[1..])
  }

  /** jsonPointer: a builder written segment by segment. */
  method Build(path: seq<string>) returns (b: string)
    ensures b == Pointer(path)
  {
    b := [];
    for i := 0 to |path|
      invariant b + Pointer(path[i..]) == Pointer(path)
    {
      OneMoreSegment(b, path, i);
      b := b + ['/'];
      b := b + Escape(path[i]);
    }
  }

  lemma OneMoreSegment(b: string, path: seq<string>, i: nat)
    requires i < |path|
    ensures b + Pointer(path[i..]) == b + ['/'] + Escape(path[i]) + Pointer(path[i + 1..])
  {
    assert path[i..][0] == path[i] && path[i..][1..] == path[i + 1..];
    Assoc(b + ['/'], Escape(path[i]), Pointer(path[i + 1..]));
    Assoc(b, ['/'], Escape(path[i]) + Pointer(path[i + 1..]));
    Assoc(['/'], Escape(path[i]), Pointer(path[i + 1..]));
  }

  lemma Assoc(a: string, b: string, c: string)
    ensures a + b + c == a + (b + c)
  {
  }

  // ---- reading a pointer, section 4 ----

  /** Replaces every `~d` by `c`, from the left. */
  function Replace(s: string, d: char, c: char): string
    decreases |s|
  {
    if s == [] then []
    else if |s| >= 2 && s[0] == '~' && s[1] == d then [c] + Replace(s[2..], d, c)
    else [s[0]] + Replace(s[1..], d, c)
  }

  /** First `~1` to `/`, then `~0` to `~`. */
  function Unescape(s: string): string {
    Replace(Replace(s, '1', '/'), '0', '~')
  }

  function Until(s: string): (n: nat)
    ensures n <= |s|
  {
    if s == [] || s[0] == '/' then 0 else 1 + Until(s[1..])
  }

  /** The segments of a pointer, each behind its `/`. */
  function Segments(s: string): seq<string>
    decreases |s|
  {
    if s == [] then []
    else
      var n := Until(s[1..]);
      [Unescape(s[1..][..n])] + Segments(s[1..][n..])
  }

  // ---- round trip ----

  /** Only `/` is left to the first pass. */
  function HalfEscape(s: string): string {
    if s == [] then [] else (if s[0] == '~' then "~0" else [s[0]]) + HalfEscape(s[1..])
  }

  lemma {:induction false} FirstPass(s: string)
    ensures Replace(Escape(s), '1', '/') == HalfEscape(s)
    ensures Escape(s) != [] && Escape(s)[0] == '1' ==> s[0] == '1'
    decreases |s|
  {
    if s == [] {
    } else {
      FirstPass(s[1..]);
      var e := Escape(s);
      if s[0] == '~' {
        assert e[1..] == ['0'] + Escape(s[1..]) && e[1..][1..] == Escape(s[1..]);
      } else if s[0] == '/' {
        assert e[2..] == Escape(s[1..]);
      } else {
        assert e[1..] == Escape(s[1..]);
      }
    }
  }

  lemma {:induction false} SecondPass(s: string)
    ensures Replace(HalfEscape(s), '0', '~') == s
    decreases |s|
  {
    if s == [] {
    } else {
      SecondPass(s[1..]);
      var h := HalfEscape(s);
      if s[0] == '~' {
        assert h[2..] == HalfEscape(s[1..]);
      } else {
        assert h[1..] == HalfEscape(s[1..]);
      }
      assert s == [s[0]] + s[1..];
    }
  }

  lemma {:induction false} UntilSkips(a: string, rest: string)
    requires '/' !in a && (rest == [] || rest[0] == '/')
    ensures Until(a + rest) == |a|
  {
    if a == [] {
      assert a + rest == rest;
    } else {
      assert (a + rest)[1..] == a[1..] + rest;
      UntilSkips(a[1..], rest);
    }
  }

  lemma {:induction false} NoSlash(s: string)
    ensures '/' !in Escape(s)
  {
    if s == [] {
    } else {
      NoSlash(s[1..]);
    }
  }

  /** Splitting and unescaping a pointer gives its path back, whatever its segments hold. */
  lemma {:induction false} PointerRoundTrip(path: seq<string>)
    ensures Segments(Pointer(path)) == path
    decreases |path|
  {
    if path == [] {
    } else {
      var rest := Pointer(path[1..]);
      var s := Pointer(path);
      assert s[1..] == Escape(path[0]) + rest;
      NoSlash(path[0]);
      UntilSkips(Escape(path[0]), rest);
      assert s[1..][..|Escape(path[0])|] == Escape(path[0]) && s[1..][|Escape(path[0])|..] == rest;
      FirstPass(path[0]);
      SecondPass(path[0]);
      PointerRoundTrip(path[1..]);
      assert path == [path[0]] + path[1..];
    }
  }

  lemma PointerIsInjective(p: seq<string>, q: seq<string>)
    ensures Pointer(p) == Pointer(q) <==> p == q
  {
    PointerRoundTrip(p);
    PointerRoundTrip(q);
  }
}
