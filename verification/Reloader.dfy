/** The material in force: polled files are published whole or leave it as it is. */
module Reloader {
  import opened Basics
  import opened Material

  /** One call of a registered callback; callbacks are numbered in the order of their registration. */
  datatype Call = Call(callback: nat, previous: Material, current: Material)

  datatype Keeper = Keeper(current: Material, failures: nat, callbacks: nat, calls: seq<Call>)

  datatype Outcome = Published | Unchanged | Rejected

  function Tell(callbacks: nat, previous: Material, current: Material): seq<Call> {
    seq(callbacks, i requires 0 <= i < callbacks => Call(i, previous, current))
  }

  /** One poll. The digest and the load read the files separately. */
  function Judge(pki: Pki, current: Material, probe: Snapshot, load: Snapshot, now: int): Outcome {
    if Digested(probe).Err? then Rejected
    else if Digested(probe).value == current.digest then Unchanged
    else if Loaded(pki, load, now).Err? then Rejected
    else Published
  }

  function Polled(pki: Pki, k: Keeper, probe: Snapshot, load: Snapshot, now: int): Keeper {
    match Judge(pki, k.current, probe, load, now)
    case Rejected => k.(failures := k.failures + 1)
    case Unchanged => k
    case Published =>
      var m := Loaded(pki, load, now).value;
      k.(current := m, failures := 0, calls := k.calls + Tell(k.callbacks, k.current, m))
  }

  class Reloader {
    const pki: Pki
    var current: Material
    var failures: nat
    var callbacks: nat
    var calls: seq<Call>

    function Value(): Keeper
      reads this
    {
      Keeper(current, failures, callbacks, calls)
    }

    /** New stores the first material; Create decides whether there is one. */
    constructor (pki: Pki, m: Material)
      ensures this.pki == pki && Value() == Keeper(m, 0, 0, [])
    {
      this.pki := pki;
      current, failures, callbacks, calls := m, 0, 0, [];
    }

    method OnChange()
      modifies this
      ensures Value() == old(Value()).(callbacks := old(callbacks) + 1)
    {
      callbacks := callbacks + 1;
    }

    method Reload(probe: Snapshot, load: Snapshot, now: int) returns (published: bool)
      modifies this
      ensures Value() == Polled(pki, old(Value()), probe, load, now)
      ensures published <==>
                Digested(probe).Ok? && Digested(probe).value != old(current).digest && Loaded(pki, load, now).Ok?
    {
      var cur := current;
      var digest := FilesDigest(probe);
      if digest.Err? {
        failures := failures + 1;
        return false;
      }
      if digest.value == cur.digest {
        return false;
      }
      var m := Load(pki, load, now);
      if m.Err? {
        failures := failures + 1;
        return false;
      }
      failures := 0;
      current := m.value;
      for i := 0 to callbacks
        invariant calls == old(calls) + Tell(i, cur, m.value)
        invariant current == m.value && failures == 0 && callbacks == old(callbacks)
      {
        calls := calls + [Call(i, cur, m.value)];
      }
      return true;
    }
  }

  /** New refuses to exist without valid material. */
  method Create(pki: Pki, files: Snapshot, now: int) returns (r: Result<Reloader, Defect>)
    ensures r.Ok? <==> Loaded(pki, files, now).Ok?
    ensures r.Ok? ==> fresh(r.value) && r.value.Value() == Keeper(Loaded(pki, files, now).value, 0, 0, [])
    ensures r.Err? ==> Loaded(pki, files, now) == Err(r.error)
  {
    var m := Load(pki, files, now);
    if m.Err? {
      return Err(m.error);
    }
    var k := new Reloader(pki, m.value);
    return Ok(k);
  }

  // ---- retired roots ----

  function RetiredBy(previous: Material, current: Material): set<Fingerprint> {
    set fp <- previous.roots | fp !in current.roots
  }

  /** `out` lists the certificates of these roots, each once. */
  ghost predicate Lists(roots: map<Fingerprint, Certificate>, fps: set<Fingerprint>, out: seq<Certificate>) {
    && fps <= roots.Keys
    && |out| == |fps|
    && (forall fp <- fps :: roots[fp] in out)
    && (forall c <- out :: exists fp :: fp in fps && roots[fp] == c)
  }

  lemma ListsMore(roots: map<Fingerprint, Certificate>, fps: set<Fingerprint>, out: seq<Certificate>, fp: Fingerprint)
    requires Lists(roots, fps, out) && fp in roots && fp !in fps
    ensures Lists(roots, fps + {fp}, out + [roots[fp]])
  {
    forall c <- out + [roots[fp]]
      ensures exists f :: f in fps + {fp} && roots[f] == c
    {
      if c in out {
        var f :| f in fps && roots[f] == c;
        assert f in fps + {fp};
      } else {
        assert fp in fps + {fp};
      }
    }
  }

  /** RetiredRoots and retired: the roots a reload dropped, each listed once, and their number. */
  method RetiredRoots(previous: Material, current: Material) returns (out: seq<Certificate>, n: nat)
    ensures n == |out| && Lists(previous.roots, RetiredBy(previous, current), out)
  {
    out, n := [], 0;
    var todo := previous.roots.Keys;
    ghost var dropped: set<Fingerprint> := {};
    while todo != {}
      invariant todo <= previous.roots.Keys
      invariant dropped == RetiredBy(previous, current) - todo
      invariant n == |out| && Lists(previous.roots, dropped, out)
      decreases todo
    {
      var fp :| fp in todo;
      if fp !in current.roots {
        ListsMore(previous.roots, dropped, out, fp);
        out, n := out + [previous.roots[fp]], n + 1;
        dropped := dropped + {fp};
      }
      todo := todo - {fp};
    }
  }

  // ---- runs ----

  datatype Event = Poll(probe: Snapshot, load: Snapshot, now: int) | Register

  function Step(pki: Pki, k: Keeper, e: Event): Keeper {
    match e
    case Poll(probe, load, now) => Polled(pki, k, probe, load, now)
    case Register => k.(callbacks := k.callbacks + 1)
  }

  function After(pki: Pki, k: Keeper, es: seq<Event>): Keeper {
    if es == [] then k else Step(pki, After(pki, k, es[..|es| - 1]), es[|es| - 1])
  }

  /** The materials in force along a run, the first one included. */
  function Chain(pki: Pki, k: Keeper, es: seq<Event>): (ms: seq<Material>)
    ensures ms != []
  {
    if es == [] then [k.current]
    else
      var before, e := After(pki, k, es[..|es| - 1]), es[|es| - 1];
      var ms := Chain(pki, k, es[..|es| - 1]);
      if e.Poll? && Judge(pki, before.current, e.probe, e.load, e.now).Published? then
        ms + [Loaded(pki, e.load, e.now).value]
      else ms
  }

  /** Some poll of the run read exactly this material. */
  predicate ReadWhole(pki: Pki, es: seq<Event>, m: Material) {
    exists i :: 0 <= i < |es| && Read(pki, es[i], m)
  }

  predicate Read(pki: Pki, e: Event, m: Material) {
    e.Poll? && Loaded(pki, e.load, e.now) == Ok(m) && Digested(e.load) == Ok(m.digest)
  }

  lemma LoadedCarriesItsDigest(pki: Pki, s: Snapshot, now: int)
    requires Loaded(pki, s, now).Ok?
    ensures Digested(s) == Ok(Loaded(pki, s, now).value.digest)
  {
    AcceptedWhole(pki, s.cert.value, s.key.value, s.ca.value, now);
  }

  ghost predicate AllReadWhole(pki: Pki, es: seq<Event>, ms: seq<Material>) {
    forall i | 0 <= i < |ms| :: ReadWhole(pki, es, ms[i])
  }

  lemma AllReadWholeStill(pki: Pki, es: seq<Event>, e: Event, ms: seq<Material>)
    requires AllReadWhole(pki, es, ms)
    ensures AllReadWhole(pki, es + [e], ms)
  {
    forall i | 0 <= i < |ms|
      ensures ReadWhole(pki, es + [e], ms[i])
    {
      var j :| 0 <= j < |es| && Read(pki, es[j], ms[i]);
      assert (es + [e])[j] == es[j];
    }
  }

  lemma PublishedWasReadWhole(pki: Pki, es: seq<Event>, e: Event)
    requires e.Poll? && Loaded(pki, e.load, e.now).Ok?
    ensures ReadWhole(pki, es + [e], Loaded(pki, e.load, e.now).value)
  {
    LoadedCarriesItsDigest(pki, e.load, e.now);
    assert (es + [e])[|es|] == e;
  }

  lemma {:induction false} ChainEnds(pki: Pki, k: Keeper, es: seq<Event>)
    ensures var ms := Chain(pki, k, es); After(pki, k, es).current == ms[|ms| - 1] && ms[0] == k.current
    decreases |es|
  {
    if es == [] {
    } else {
      ChainEnds(pki, k, es[..|es| - 1]);
    }
  }

  lemma OneMoreReadWhole(pki: Pki, es: seq<Event>, e: Event, ms: seq<Material>)
    requires AllReadWhole(pki, es, ms) && e.Poll? && Loaded(pki, e.load, e.now).Ok?
    ensures AllReadWhole(pki, es + [e], ms + [Loaded(pki, e.load, e.now).value])
  {
    AllReadWholeStill(pki, es, e, ms);
    PublishedWasReadWhole(pki, es, e);
  }

  lemma {:induction false} ChainWasReadWhole(pki: Pki, k: Keeper, es: seq<Event>)
    ensures AllReadWhole(pki, es, Chain(pki, k, es)[1..])
    decreases |es|
  {
    if es == [] {
    } else {
      var init, e := es[..|es| - 1], es[|es| - 1];
      assert es == init + [e];
      ChainWasReadWhole(pki, k, init);
      var was, ms := Chain(pki, k, init), Chain(pki, k, es);
      if ms == was {
        AllReadWholeStill(pki, init, e, was[1..]);
      } else {
        OneMoreReadWhole(pki, init, e, was[1..]);
        assert ms[1..] == was[1..] + [Loaded(pki, e.load, e.now).value];
      }
    }
  }

  /** Along every run the material in force is the last of the chain, and each material after the first
      was accepted whole from bytes one poll read, and carries their digest. */
  lemma {:induction false} InForceWasReadWhole(pki: Pki, k: Keeper, es: seq<Event>)
    ensures var ms := Chain(pki, k, es);
            && After(pki, k, es).current == ms[|ms| - 1] && ms[0] == k.current
            && AllReadWhole(pki, es, ms[1..])
  {
    ChainEnds(pki, k, es);
    ChainWasReadWhole(pki, k, es);
  }

  /** What poll j of a run comes to; a registration comes to nothing. */
  function OutcomeAt(pki: Pki, k: Keeper, es: seq<Event>, j: nat): Option<Outcome>
    requires j < |es|
  {
    match es[j]
    case Register => None
    case Poll(probe, load, now) => Some(Judge(pki, After(pki, k, es[..j]).current, probe, load, now))
  }

  function Outcomes(pki: Pki, k: Keeper, es: seq<Event>): seq<Option<Outcome>> {
    seq(|es|, j requires 0 <= j < |es| => OutcomeAt(pki, k, es, j))
  }

  /** The polls i..n that are rejected. */
  function RejectedIn(os: seq<Option<Outcome>>, i: nat, n: nat): set<nat>
    requires n <= |os|
  {
    set j | i <= j < n && os[j] == Some(Rejected)
  }

  /** Nothing is published from poll i to poll n, and i is where that starts: behind a publication, or with
      the run. */
  ghost predicate QuietSince(os: seq<Option<Outcome>>, i: nat, n: nat) {
    && i <= n <= |os|
    && (i == 0 || os[i - 1] == Some(Published))
    && forall j | i <= j < n :: os[j] != Some(Published)
  }

  lemma OneMoreRejection(os: seq<Option<Outcome>>, i: nat, n: nat)
    requires i <= n < |os|
    ensures |RejectedIn(os, i, n + 1)| == |RejectedIn(os, i, n)| + if os[n] == Some(Rejected) then 1 else 0
  {
    assert RejectedIn(os, i, n + 1) == RejectedIn(os, i, n) + if os[n] == Some(Rejected) then {n} else {};
  }

  function Counted(failures: nat, o: Option<Outcome>): nat {
    if o == Some(Published) then 0 else failures + if o == Some(Rejected) then 1 else 0
  }

  lemma {:induction false} CountUpTo(os: seq<Option<Outcome>>, failures: seq<nat>, n: nat) returns (i: nat)
    requires n <= |os| && |failures| == |os| + 1
    requires forall j | 0 <= j < |os| :: failures[j + 1] == Counted(failures[j], os[j])
    ensures QuietSince(os, i, n) && failures[n] == |RejectedIn(os, i, n)| + if i == 0 then failures[0] else 0
  {
    if n == 0 {
      i := 0;
      assert RejectedIn(os, 0, 0) == {};
    } else {
      i := CountUpTo(os, failures, n - 1);
      OneMoreRejection(os, i, n - 1);
      if os[n - 1] == Some(Published) {
        i := n;
        assert RejectedIn(os, n, n) == {};
      }
    }
  }

  lemma OutcomeCounts(pki: Pki, k: Keeper, es: seq<Event>, n: nat)
    requires n < |es|
    ensures After(pki, k, es[..n + 1]).failures == Counted(After(pki, k, es[..n]).failures, OutcomeAt(pki, k, es, n))
  {
    assert es[..n + 1][..n] == es[..n];
  }

  /** Over any run the failures are the polls rejected since the last publication; before the first one
      they add to what was counted at the start. */
  lemma FailuresCountRejections(pki: Pki, k: Keeper, es: seq<Event>) returns (i: nat)
    ensures QuietSince(Outcomes(pki, k, es), i, |es|)
    ensures After(pki, k, es).failures == |RejectedIn(Outcomes(pki, k, es), i, |es|)| + if i == 0 then k.failures else 0
  {
    var os := Outcomes(pki, k, es);
    var failures := seq(|es| + 1, j requires 0 <= j <= |es| => After(pki, k, es[..j]).failures);
    forall j | 0 <= j < |es|
      ensures failures[j + 1] == Counted(failures[j], os[j])
    {
      OutcomeCounts(pki, k, es, j);
    }
    i := CountUpTo(os, failures, |es|);
    assert es[..|es|] == es && es[..0] == [];
  }

  /** What a callback was called with. */
  function CallsTo(callback: nat, calls: seq<Call>): seq<(Material, Material)> {
    if calls == [] then []
    else CallsTo(callback, calls[..|calls| - 1]) +
         (var c := calls[|calls| - 1]; if c.callback == callback then [(c.previous, c.current)] else [])
  }

  function Links(ms: seq<Material>): seq<(Material, Material)>
    requires ms != []
  {
    seq(|ms| - 1, i requires 0 <= i < |ms| - 1 => (ms[i], ms[i + 1]))
  }

  lemma {:induction false} CallsToConcat(callback: nat, a: seq<Call>, b: seq<Call>)
    ensures CallsTo(callback, a + b) == CallsTo(callback, a) + CallsTo(callback, b)
    decreases |b|
  {
    if b == [] {
      assert a + b == a;
    } else {
      assert (a + b)[..|a + b| - 1] == a + b[..|b| - 1];
      CallsToConcat(callback, a, b[..|b| - 1]);
    }
  }

  lemma {:induction false} ToldOnce(callback: nat, n: nat, previous: Material, current: Material)
    ensures CallsTo(callback, Tell(n, previous, current)) == if callback < n then [(previous, current)] else []
    decreases n
  {
    if n == 0 {
    } else {
      assert Tell(n, previous, current)[..n - 1] == Tell(n - 1, previous, current);
      ToldOnce(callback, n - 1, previous, current);
    }
  }

  lemma {:induction false} CallbacksOnlyGrow(pki: Pki, k: Keeper, es: seq<Event>)
    ensures After(pki, k, es).callbacks >= k.callbacks
    decreases |es|
  {
    if es == [] {
    } else {
      CallbacksOnlyGrow(pki, k, es[..|es| - 1]);
    }
  }

  lemma OneMoreLink(callback: nat, before: Keeper, seen: seq<(Material, Material)>, was: seq<Material>, m: Material)
    requires callback < before.callbacks && was != [] && was[|was| - 1] == before.current
    requires CallsTo(callback, before.calls) == seen + Links(was)
    ensures CallsTo(callback, before.calls + Tell(before.callbacks, before.current, m)) == seen + Links(was + [m])
  {
    CallsToConcat(callback, before.calls, Tell(before.callbacks, before.current, m));
    ToldOnce(callback, before.callbacks, before.current, m);
    LinksGrow(was, m);
    assert seen + Links(was) + [(before.current, m)] == seen + (Links(was) + [(before.current, m)]);
  }

  lemma LinksGrow(was: seq<Material>, m: Material)
    requires was != []
    ensures Links(was + [m]) == Links(was) + [(was[|was| - 1], m)]
  {
  }

  /** A registered callback sees every link of the chain, in order and without a gap. */
  lemma {:induction false} CallbacksSeeTheChain(pki: Pki, k: Keeper, es: seq<Event>, callback: nat)
    requires callback < k.callbacks
    ensures CallsTo(callback, After(pki, k, es).calls) == CallsTo(callback, k.calls) + Links(Chain(pki, k, es))
    decreases |es|
  {
    if es == [] {
      assert Links([k.current]) == [];
    } else {
      var init, e := es[..|es| - 1], es[|es| - 1];
      CallbacksSeeTheChain(pki, k, init, callback);
      CallbacksOnlyGrow(pki, k, init);
      ChainEnds(pki, k, init);
      var before := After(pki, k, init);
      if e.Poll? && Judge(pki, before.current, e.probe, e.load, e.now).Published? {
        var seen, m := CallsTo(callback, k.calls), Loaded(pki, e.load, e.now).value;
        OneMoreLink(callback, before, seen, Chain(pki, k, init), m);
      }
    }
  }

  /** A root of a chain is in its last material or was dropped on the way. */
  lemma {:induction false} RootsAreKeptOrRetired(ms: seq<Material>, i: nat, fp: Fingerprint)
    requires i < |ms| && fp in ms[i].roots
    ensures fp in ms[|ms| - 1].roots || exists p :: p in Links(ms) && fp in RetiredBy(p.0, p.1)
    decreases |ms| - i
  {
    if i == |ms| - 1 {
    } else {
      if fp in ms[i + 1].roots {
        RootsAreKeptOrRetired(ms, i + 1, fp);
      } else {
        assert Links(ms)[i] in Links(ms) && fp in RetiredBy(ms[i], ms[i + 1]);
      }
    }
  }

  /** Every root trusted at any time of a run is still trusted, or each callback was called with a pair of
      materials whose retired roots it is among. */
  lemma CallbacksHearOfEveryRoot(pki: Pki, k: Keeper, es: seq<Event>, callback: nat, i: nat, fp: Fingerprint)
    requires callback < k.callbacks && i < |Chain(pki, k, es)| && fp in Chain(pki, k, es)[i].roots
    ensures fp in After(pki, k, es).current.roots
            || exists p :: p in CallsTo(callback, After(pki, k, es).calls) && fp in RetiredBy(p.0, p.1)
  {
    var ms := Chain(pki, k, es);
    ChainEnds(pki, k, es);
    CallbacksSeeTheChain(pki, k, es, callback);
    RootsAreKeptOrRetired(ms, i, fp);
    if fp !in ms[|ms| - 1].roots {
      var p :| p in Links(ms) && fp in RetiredBy(p.0, p.1);
      assert p in CallsTo(callback, After(pki, k, es).calls);
    }
  }

  // ---- a poll reads the files twice ----

  /** A poll that sees other bytes and then loads the old ones again publishes the material in force once
      more, and tells every callback so. */
  lemma TornReadsRepublish(pki: Pki, k: Keeper, inForce: Snapshot, probe: Snapshot, now: int)
    requires Loaded(pki, inForce, now) == Ok(k.current)
    requires Digested(probe).Ok? && Digested(probe) != Digested(inForce)
    ensures Judge(pki, k.current, probe, inForce, now) == Published
    ensures var t := Polled(pki, k, probe, inForce, now);
            t.current == k.current && t.calls == k.calls + Tell(k.callbacks, k.current, k.current)
  {
    LoadedCarriesItsDigest(pki, inForce, now);
  }

  lemma LoadedAgain(pki: Pki, files: Snapshot, earlier: int, now: int)
    requires Loaded(pki, files, earlier).Ok? && Loaded(pki, files, now).Ok?
    ensures Loaded(pki, files, now) == Loaded(pki, files, earlier)
  {
  }

  lemma SameDigestSameFiles(a: Snapshot, b: Snapshot)
    requires a.Readable() && NulFree(a.cert.value) && NulFree(a.key.value) && NulFree(a.ca.value)
    ensures Digested(b) == Digested(a) <==> b == a
  {
    DigestIsUnique(a.cert.value, a.key.value, a.ca.value);
  }

  /** For files that share their digest with no others (those without NUL bytes), a poll publishes what is
      in force already exactly when its probe reads other files, its load reads the ones in force, and
      these are still acceptable. */
  lemma RepublishesExactly(pki: Pki, k: Keeper, inForce: Snapshot, earlier: int,
                           probe: Snapshot, load: Snapshot, now: int)
    requires Loaded(pki, inForce, earlier) == Ok(k.current)
    requires NulFree(inForce.cert.value) && NulFree(inForce.key.value) && NulFree(inForce.ca.value)
    ensures Judge(pki, k.current, probe, load, now) == Published
            && Polled(pki, k, probe, load, now).current == k.current
            <==> probe.Readable() && probe != inForce && load == inForce && Loaded(pki, inForce, now).Ok?
  {
    LoadedCarriesItsDigest(pki, inForce, earlier);
    SameDigestSameFiles(inForce, probe);
    SameDigestSameFiles(inForce, load);
    if Loaded(pki, load, now).Ok? {
      LoadedCarriesItsDigest(pki, load, now);
    }
    if Loaded(pki, inForce, now).Ok? {
      LoadedAgain(pki, inForce, earlier, now);
    }
  }

  // ---- what a poll does, by what it read ----

  /** A poll publishes what it loaded exactly when the probe saw other bytes than those in force and the load
      is acceptable: then the loaded material is in force, no failure is counted, and every callback was
      called once more, with the pair. It counts one more failure exactly when the probe could not be read,
      or saw other bytes and the load is not acceptable. Otherwise it changes nothing. */
  lemma PollDoes(pki: Pki, k: Keeper, probe: Snapshot, load: Snapshot, now: int)
    ensures var t := Polled(pki, k, probe, load, now);
            var changed := probe.Readable() && Digested(probe) != Ok(k.current.digest);
            && (changed && Loaded(pki, load, now).Ok? ==>
                  && t.current == Loaded(pki, load, now).value && t.failures == 0
                  && forall i: nat | i < k.callbacks ::
                       CallsTo(i, t.calls) == CallsTo(i, k.calls) + [(k.current, t.current)])
            && (t.failures == k.failures + 1 <==> !probe.Readable() || (changed && Loaded(pki, load, now).Err?))
            && (!(changed && Loaded(pki, load, now).Ok?) ==> t.current == k.current && t.calls == k.calls)
            && (probe.Readable() && !changed ==> t == k)
  {
    var t := Polled(pki, k, probe, load, now);
    if t.calls != k.calls {
      forall i: nat | i < k.callbacks
        ensures CallsTo(i, t.calls) == CallsTo(i, k.calls) + [(k.current, t.current)]
      {
        CallsToConcat(i, k.calls, Tell(k.callbacks, k.current, t.current));
        ToldOnce(i, k.callbacks, k.current, t.current);
      }
    }
  }

  predicate NulFreeFiles(s: Snapshot) {
    s.Readable() ==> NulFree(s.cert.value) && NulFree(s.key.value) && NulFree(s.ca.value)
  }

  /** What is in force was loaded from files without NUL bytes. */
  ghost predicate FromPlainFiles(pki: Pki, m: Material) {
    exists s, now :: NulFreeFiles(s) && Loaded(pki, s, now) == Ok(m)
  }

  lemma {:induction false} PlainFilesStay(pki: Pki, k: Keeper, es: seq<Event>)
    requires FromPlainFiles(pki, k.current)
    requires forall i | 0 <= i < |es| && es[i].Poll? :: NulFreeFiles(es[i].load)
    ensures FromPlainFiles(pki, After(pki, k, es).current)
    decreases |es|
  {
    if es == [] {
    } else {
      PlainFilesStay(pki, k, es[..|es| - 1]);
    }
  }

  /** A rotation arrives: over any run of polls that loaded files without NUL bytes, a poll that twice reads
      one acceptable version of such files leaves that version in force. */
  lemma RotationArrives(pki: Pki, k: Keeper, es: seq<Event>, files: Snapshot, now: int)
    requires FromPlainFiles(pki, k.current)
    requires forall i | 0 <= i < |es| && es[i].Poll? :: NulFreeFiles(es[i].load)
    requires NulFreeFiles(files) && Loaded(pki, files, now).Ok?
    ensures Polled(pki, After(pki, k, es), files, files, now).current == Loaded(pki, files, now).value
  {
    PlainFilesStay(pki, k, es);
    var was := After(pki, k, es);
    var s, earlier :| NulFreeFiles(s) && Loaded(pki, s, earlier) == Ok(was.current);
    LoadedCarriesItsDigest(pki, s, earlier);
    SameDigestSameFiles(s, files);
    if files == s {
      LoadedAgain(pki, s, earlier, now);
    }
  }
}
