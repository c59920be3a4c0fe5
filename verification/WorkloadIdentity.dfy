/** The workload identity of a peer: spiffe://<trust-domain>/ns/<namespace>/sa/<service-account>. */
module WorkloadIdentity {
  import opened Basics

  datatype Principal = Principal(trustDomain: string, namespace: string, serviceAccount: string)

  /** The parts of a parsed URL; `path` is percent-decoded, `rawPath` is the encoded hint and
      `forceQuery` a bare trailing `?`. */
  datatype Url = Url(
    scheme: string, user: Option<string>, opaquePart: string, host: string, path: string,
    rawPath: string, rawQuery: string, forceQuery: bool, fragment: string)

  datatype Refusal = NoUri | NotAnIdentity | NoTrustDomain | WrongPath | NoCertificate | NotOneUri(count: nat)

  // ---- shapes ----

  predicate LowerOrDigit(c: char) {
    'a' <= c <= 'z' || '0' <= c <= '9'
  }

  /** A lower-case DNS label. */
  predicate IsLabel(s: string) {
    && 1 <= |s| <= 63
    && LowerOrDigit(s[0]) && LowerOrDigit(s[|s| - 1])
    && forall i :: 0 <= i < |s| ==> LowerOrDigit(s[i]) || s[i] == '-'
  }

  function Split(s: string, sep: char): (parts: seq<string>)
    ensures |parts| >= 1
  {
    if s == [] then [[]]
    else
      var parts := Split(s[1..], sep);
      if s[0] == sep then [[]] + parts else [[s[0]] + parts[0]] + parts[1..]
  }

  function Join(parts: seq<string>, sep: char): string
    requires |parts| >= 1
  {
    if |parts| == 1 then parts[0] else parts[0] + [sep] + Join(parts[1..], sep)
  }

  predicate Labels(parts: seq<string>) {
    |parts| >= 1 && forall i :: 0 <= i < |parts| ==> IsLabel(parts[i])
  }

  predicate ValidTrustDomain(s: string) {
    Labels(Split(s, '.'))
  }

  /** The text behind the last colon when it is digits only; an empty port counts as none. */
  function Port(host: string): string {
    if host == [] || !('0' <= host[|host| - 1] <= '9') then []
    else DigitsBehindColon(host, |host| - 1)
  }

  function DigitsBehindColon(host: string, i: nat): string
    requires i < |host|
  {
    if host[i] == ':' then host[i + 1..]
    else if i > 0 && '0' <= host[i] <= '9' then DigitsBehindColon(host, i - 1)
    else []
  }

  // ---- the parser and the printer ----

  function ParseSPIFFE(uri: Option<Url>): Result<Principal, Refusal> {
    if uri.None? then Err(NoUri)
    else
      var u := uri.value;
      if u.scheme != "spiffe" || u.user.Some? || u.opaquePart != "" || u.rawQuery != "" || u.fragment != ""
         || Port(u.host) != "" then Err(NotAnIdentity)
      else if !ValidTrustDomain(u.host) then Err(NoTrustDomain)
      else
        var parts := Split(u.path, '/');
        if |parts| != 5 || parts[0] != "" || parts[1] != "ns" || parts[3] != "sa"
           || !IsLabel(parts[2]) || !IsLabel(parts[4]) then Err(WrongPath)
        else Ok(Principal(u.host, parts[2], parts[4]))
  }

  /** `uris` are the URI names of the leaf certificate, if there is one. */
  function PeerPrincipal(leaf: Option<seq<Url>>): Result<Principal, Refusal> {
    if leaf.None? then Err(NoCertificate)
    else if |leaf.value| != 1 then Err(NotOneUri(|leaf.value|))
    else ParseSPIFFE(Some(leaf.value[0]))
  }

  function PathOf(p: Principal): string {
    "/ns/" + p.namespace + "/sa/" + p.serviceAccount
  }

  /** Principal.String. */
  function Printed(p: Principal): string {
    "spiffe://" + p.trustDomain + PathOf(p)
  }

  // ---- splitting and joining ----

  predicate Free(s: string, sep: char) {
    forall i :: 0 <= i < |s| ==> s[i] != sep
  }

  lemma {:induction false} SplitOne(s: string, sep: char)
    requires Free(s, sep)
    ensures Split(s, sep) == [s]
  {
    if s == [] {
    } else {
      SplitOne(s[1..], sep);
      assert s == [s[0]] + s[1..];
    }
  }

  lemma {:induction false} SplitFirst(s: string, sep: char, rest: string)
    requires Free(s, sep)
    ensures Split(s + [sep] + rest, sep) == [s] + Split(rest, sep)
  {
    var t := s + [sep] + rest;
    if s == [] {
      assert t[1..] == rest;
    } else {
      assert t[1..] == s[1..] + [sep] + rest;
      SplitFirst(s[1..], sep, rest);
      assert s == [s[0]] + s[1..];
    }
  }

  lemma {:induction false} SplitJoined(parts: seq<string>, sep: char)
    requires |parts| >= 1 && forall i :: 0 <= i < |parts| ==> Free(parts[i], sep)
    ensures Split(Join(parts, sep), sep) == parts
  {
    if |parts| == 1 {
      SplitOne(parts[0], sep);
    } else {
      SplitFirst(parts[0], sep, Join(parts[1..], sep));
      SplitJoined(parts[1..], sep);
    }
  }

  lemma {:induction false} JoinSplit(s: string, sep: char)
    ensures Join(Split(s, sep), sep) == s
    ensures forall i :: 0 <= i < |Split(s, sep)| ==> Free(Split(s, sep)[i], sep)
  {
    if s == [] {
    } else {
      JoinSplit(s[1..], sep);
      var parts := Split(s[1..], sep);
      if s[0] == sep {
        assert ([[]] + parts)[1..] == parts;
      } else if |parts| > 1 {
        assert ([[s[0]] + parts[0]] + parts[1..])[1..] == parts[1..];
      }
    }
  }

  /** The trust domains are the dot-separated sequences of one label or more. */
  lemma TrustDomainsAreLabels(s: string)
    ensures ValidTrustDomain(s) <==> exists labels :: Labels(labels) && s == Join(labels, '.')
  {
    JoinSplit(s, '.');
    forall labels | Labels(labels) && s == Join(labels, '.')
      ensures ValidTrustDomain(s)
    {
      SplitJoined(labels, '.');
    }
  }

  // ---- round trips ----

  predicate Valid(p: Principal) {
    ValidTrustDomain(p.trustDomain) && IsLabel(p.namespace) && IsLabel(p.serviceAccount)
  }

  /** The URL is `p` printed, in every part the parser reads. */
  predicate Shows(u: Url, p: Principal) {
    && u.scheme == "spiffe" && u.user == None && u.opaquePart == "" && u.rawQuery == "" && u.fragment == ""
    && u.host == p.trustDomain && u.path == PathOf(p)
  }

  lemma {:induction false} JoinedFree(parts: seq<string>, sep: char, c: char)
    requires |parts| >= 1 && c != sep && forall i :: 0 <= i < |parts| ==> Free(parts[i], c)
    ensures Free(Join(parts, sep), c)
  {
    if |parts| == 1 {
    } else {
      JoinedFree(parts[1..], sep, c);
    }
  }

  lemma {:induction false} NoColonBehind(host: string, i: nat)
    requires i < |host| && Free(host, ':')
    ensures DigitsBehindColon(host, i) == ""
    decreases i
  {
    if i == 0 {
    } else {
      NoColonBehind(host, i - 1);
    }
  }

  lemma DomainIsPlain(s: string)
    requires ValidTrustDomain(s)
    ensures Free(s, ':') && Free(s, '/') && Port(s) == ""
  {
    JoinSplit(s, '.');
    JoinedFree(Split(s, '.'), '.', ':');
    JoinedFree(Split(s, '.'), '.', '/');
    if s != [] {
      NoColonBehind(s, |s| - 1);
    }
  }

  function PathParts(p: Principal): seq<string> {
    ["", "ns", p.namespace, "sa", p.serviceAccount]
  }

  lemma PathJoins(p: Principal)
    ensures Join(PathParts(p), '/') == PathOf(p)
  {
    var a := PathParts(p);
    assert a[1..] == ["ns", p.namespace, "sa", p.serviceAccount];
    assert a[1..][1..] == [p.namespace, "sa", p.serviceAccount];
    assert a[1..][1..][1..] == ["sa", p.serviceAccount];
    assert a[1..][1..][1..][1..] == [p.serviceAccount];
    assert Join(a[1..][1..][1..], '/') == "sa/" + p.serviceAccount;
    assert Join(a[1..][1..], '/') == p.namespace + "/sa/" + p.serviceAccount;
    assert Join(a[1..], '/') == "ns/" + p.namespace + "/sa/" + p.serviceAccount;
  }

  /** A URL is accepted as `p` exactly when `p` is valid and the URL shows it: every valid principal
      comes back from its printed parts, and nothing else is read as it. A bare `?` and an escaped path
      are not looked at. */
  lemma AcceptedIsPrinted(u: Url, p: Principal)
    ensures ParseSPIFFE(Some(u)) == Ok(p) <==> Valid(p) && Shows(u, p)
  {
    if Valid(p) && Shows(u, p) {
      DomainIsPlain(u.host);
      PathSplits(p);
    }
    if ParseSPIFFE(Some(u)) == Ok(p) {
      AcceptedShows(u, p);
    }
  }

  lemma PathSplits(p: Principal)
    requires Valid(p)
    ensures Split(PathOf(p), '/') == PathParts(p)
  {
    PathJoins(p);
    SplitJoined(PathParts(p), '/');
  }

  lemma AcceptedShows(u: Url, p: Principal)
    requires ParseSPIFFE(Some(u)) == Ok(p)
    ensures Valid(p) && Shows(u, p)
  {
    assert Split(u.path, '/') == PathParts(p);
    JoinSplit(u.path, '/');
    PathJoins(p);
  }

  /** What the parser does not read does not matter: a bare `?`, and how the path was escaped. */
  lemma UnreadPartsAreAccepted(p: Principal, rawPath: string, forceQuery: bool)
    requires Valid(p)
    ensures ParseSPIFFE(Some(Url("spiffe", None, "", p.trustDomain, PathOf(p), rawPath, "", forceQuery, ""))) == Ok(p)
  {
    AcceptedIsPrinted(Url("spiffe", None, "", p.trustDomain, PathOf(p), rawPath, "", forceQuery, ""), p);
  }

  /** The text of a valid principal is nobody else's. */
  lemma PrintedIsInjective(p: Principal, q: Principal)
    requires Valid(p) && Valid(q)
    ensures Printed(p) == Printed(q) <==> p == q
  {
    PrintedSplits(p);
    PrintedSplits(q);
    if Printed(p) == Printed(q) {
      assert Split(Printed(p), '/')[2] == Split(Printed(q), '/')[2];
      assert Split(Printed(p), '/')[4] == Split(Printed(q), '/')[4];
      assert Split(Printed(p), '/')[6] == Split(Printed(q), '/')[6];
    }
  }

  lemma PrintedSplits(p: Principal)
    requires Valid(p)
    ensures Split(Printed(p), '/') == ["spiffe:", "", p.trustDomain] + PathParts(p)[1..]
  {
    DomainIsPlain(p.trustDomain);
    SplitTail(p);
    SplitFirst(p.trustDomain, '/', PathOf(p)[1..]);
    SplitBehindScheme(p.trustDomain + ['/'] + PathOf(p)[1..]);
    PrintedIsScheme(p);
  }

  lemma PrintedIsScheme(p: Principal)
    ensures Printed(p) == "spiffe://" + (p.trustDomain + ['/'] + PathOf(p)[1..])
  {
    assert PathOf(p) == ['/'] + PathOf(p)[1..];
  }

  lemma SplitBehindScheme(rest: string)
    ensures Split("spiffe://" + rest, '/') == ["spiffe:", ""] + Split(rest, '/')
  {
    SplitFirst("", '/', rest);
    SplitFirst("spiffe:", '/', "" + ['/'] + rest);
    assert "spiffe://" + rest == "spiffe:" + ['/'] + ("" + ['/'] + rest);
  }

  lemma SplitTail(p: Principal)
    requires Valid(p)
    ensures Split(PathOf(p)[1..], '/') == PathParts(p)[1..]
  {
    PathSplits(p);
    SplitFirst("", '/', PathOf(p)[1..]);
    assert PathOf(p) == "" + ['/'] + PathOf(p)[1..];
  }

  /** A certificate speaks for `p` exactly when it names one URI and that shows a valid `p`. */
  lemma PeerIsTheOneUri(leaf: Option<seq<Url>>, p: Principal)
    ensures PeerPrincipal(leaf) == Ok(p)
            <==> leaf.Some? && |leaf.value| == 1 && Valid(p) && Shows(leaf.value[0], p)
  {
    if leaf.Some? && |leaf.value| == 1 {
      AcceptedIsPrinted(leaf.value[0], p);
    }
  }

  predicate IsAlphanumeric(c: char) {
    0x61 <= c as int <= 0x7A || 0x30 <= c as int <= 0x39
  }

  /** A label is one lower-case letter or digit, or two of them around up to 61 letters, digits and hyphens. */
  lemma LabelsOfThePattern(s: string)
    ensures IsLabel(s) <==>
            || (|s| == 1 && IsAlphanumeric(s[0]))
            || (2 <= |s| <= 63 && IsAlphanumeric(s[0]) && IsAlphanumeric(s[|s| - 1])
                && forall i | 1 <= i < |s| - 1 :: IsAlphanumeric(s[i]) || s[i] as int == 0x2D)
  {
  }
}
