/** The canonical document of a value: members sorted by name at every depth. */
module CanonicalJson {
  import opened Basics
  import opened JsonGrammar

  // ---- names in order ----

  predicate CharLess(x: char, y: char) {
    x < y
  }

  predicate Before(a: string, b: string) {
    LexLess(CharLess, a, b)
  }

  lemma {:induction false} BeforeIsTotal(a: string, b: string)
    ensures a == b || Before(a, b) || Before(b, a)
    ensures !(Before(a, b) && Before(b, a)) && (a == b ==> !Before(a, b))
    decreases |a|
  {
    if a == [] || b == [] {
    } else {
      BeforeIsTotal(a[1..], b[1..]);
      assert a == [a[0]] + a[1..] && b == [b[0]] + b[1..];
    }
  }

  lemma {:induction false} BeforeIsTransitive(a: string, b: string, c: string)
    requires Before(a, b) && Before(b, c)
    ensures Before(a, c)
    decreases |a|
  {
    if a == [] || a[0] != b[0] || b[0] != c[0] {
    } else {
      BeforeIsTransitive(a[1..], b[1..], c[1..]);
    }
  }

  ghost predicate IsLeast(m: string, names: set<string>) {
    m in names && forall n <- names :: n == m || Before(m, n)
  }

  lemma {:induction false} LeastExists(names: set<string>)
    requires names != {}
    ensures exists m :: IsLeast(m, names)
    decreases |names|
  {
    var x :| x in names;
    if names == {x} {
      assert IsLeast(x, names);
    } else {
      LeastExists(names - {x});
      var y :| IsLeast(y, names - {x});
      BeforeIsTotal(x, y);
      var m := if Before(x, y) then x else y;
      forall n <- names
        ensures n == m || Before(m, n)
      {
        if m == x && n != x && n != y {
          BeforeIsTransitive(x, y, n);
        }
      }
      assert IsLeast(m, names);
    }
  }

  ghost function Least(names: set<string>): (m: string)
    requires names != {}
    ensures IsLeast(m, names)
  {
    LeastExists(names);
    var m :| IsLeast(m, names);
    m
  }

  ghost function SortedNames(names: set<string>): (s: seq<string>)
    ensures forall n :: n in s <==> n in names
    decreases |names|
  {
    if names == {} then []
    else
      var m := Least(names);
      [m] + SortedNames(names - {m})
  }

  predicate Ascending(s: seq<string>) {
    forall i, j | 0 <= i < j < |s| :: Before(s[i], s[j])
  }

  function SetOf(s: seq<string>): set<string> {
    set n <- s
  }

  lemma {:induction false} SortedNamesAscend(names: set<string>)
    ensures Ascending(SortedNames(names))
    decreases |names|
  {
    if names == {} {
    } else {
      var m := Least(names);
      var rest := SortedNames(names - {m});
      SortedNamesAscend(names - {m});
      forall j | 0 <= j < |rest|
        ensures Before(m, rest[j])
      {
        assert rest[j] in rest;
      }
    }
  }

  /** A set of names has one ascending listing. */
  lemma {:induction false} AscendingIsSorted(s: seq<string>)
    requires Ascending(s)
    ensures SortedNames(SetOf(s)) == s
    decreases |s|
  {
    if s != [] {
      var names := SetOf(s);
      assert s[0] in names;
      var m := Least(names);
      BeforeIsTotal(m, s[0]);
      assert m == s[0] by {
        var i :| 0 <= i < |s| && s[i] == m;
        if i > 0 {
          assert Before(s[0], s[i]);
        }
      }
      forall n | n in s[1..]
        ensures n != m
      {
        var i :| 0 <= i < |s[1..]| && s[1..][i] == n;
        assert Before(s[0], s[i + 1]);
        BeforeIsTotal(s[0], s[i + 1]);
      }
      assert names - {m} == SetOf(s[1..]);
      AscendingIsSorted(s[1..]);
      assert s == [m] + s[1..];
    } else {
      assert SetOf(s) == {};
    }
  }

  // ---- the canonical document ----

  ghost function Canonical(v: Json): Doc
    decreases v, 1
  {
    match v
    case Plain(a) => Atom(a)
    case Arr(items) => Array(CanonicalElems(items))
    case Obj(m) => Object(CanonicalMembers(v, SortedNames(m.Keys)))
  }

  ghost function CanonicalElems(items: seq<Json>): Elems
    decreases items, 0
  {
    if items == [] then NoElems else Elem(Canonical(items[0]), CanonicalElems(items[1..]))
  }

  ghost function CanonicalMembers(v: Json, names: seq<string>): Members
    requires v.Obj? && forall n <- names :: n in v.members
    decreases v, 0, |names|
  {
    if names == [] then NoMembers
    else Member(names[0], Canonical(v.members[names[0]]), CanonicalMembers(v, names[1..]))
  }

  /** Members ascend by name in every object. */
  predicate Sorted(d: Doc) {
    match d
    case Atom(_) => true
    case Array(es) => SortedElems(es)
    case Object(ms) => Ascending(Names(ms)) && SortedMembers(ms)
  }

  predicate SortedElems(es: Elems) {
    es.Elem? ==> Sorted(es.head) && SortedElems(es.tail)
  }

  predicate SortedMembers(ms: Members) {
    ms.Member? ==> Sorted(ms.value) && SortedMembers(ms.rest)
  }

  /** The canonical document of a value means that value, repeats no name and is sorted. */
  lemma {:induction false} CanonicalMeans(v: Json)
    ensures Meaning(Canonical(v)) == v && Unique(Canonical(v)) && Sorted(Canonical(v))
    decreases v, 1
  {
    match v
    case Plain(_) =>
    case Arr(items) => CanonicalElemsMean(items);
    case Obj(m) => CanonicalObjectMeans(v);
  }

  lemma {:induction false} CanonicalObjectMeans(v: Json)
    requires v.Obj?
    ensures Meaning(Canonical(v)) == v && Unique(Canonical(v)) && Sorted(Canonical(v))
    decreases v, 0
  {
    var names := SortedNames(v.members.Keys);
    var none: map<string, Json> := map[];
    SortedNamesAscend(v.members.Keys);
    CanonicalMembersMean(v, names, none);
    AscendingIsDistinct(names);
    UniqueNames(CanonicalMembers(v, names), {});
    assert none + Picked(v.members, names) == v.members;
  }

  lemma {:induction false} CanonicalElemsMean(items: seq<Json>)
    ensures MeaningElems(CanonicalElems(items)) == items
    ensures UniqueElems(CanonicalElems(items)) && SortedElems(CanonicalElems(items))
    decreases items, 0
  {
    if items == [] {
    } else {
      CanonicalMeans(items[0]);
      CanonicalElemsMean(items[1..]);
    }
  }

  function Picked(m: map<string, Json>, names: seq<string>): map<string, Json>
    requires forall n <- names :: n in m
  {
    map n | n in names :: m[n]
  }

  lemma PickFirst(m: map<string, Json>, names: seq<string>, into: map<string, Json>)
    requires names != [] && forall n <- names :: n in m
    ensures into[names[0] := m[names[0]]] + Picked(m, names[1..]) == into + Picked(m, names)
  {
    assert names == [names[0]] + names[1..];
  }

  lemma {:induction false} CanonicalMembersMean(v: Json, names: seq<string>, into: map<string, Json>)
    requires v.Obj? && forall n <- names :: n in v.members
    ensures var ms := CanonicalMembers(v, names);
            && MeaningMembers(ms, into) == into + Picked(v.members, names)
            && Names(ms) == names && ValuesUnique(ms) && SortedMembers(ms)
    decreases v, 0, |names|
  {
    if names == [] {
      assert into + Picked(v.members, names) == into;
    } else {
      CanonicalMeans(v.members[names[0]]);
      CanonicalMembersMean(v, names[1..], into[names[0] := v.members[names[0]]]);
      PickFirst(v.members, names, into);
    }
  }

  lemma AscendingIsDistinct(names: seq<string>)
    requires Ascending(names)
    ensures Distinct(names, {})
  {
    forall i, j | 0 <= i < j < |names|
      ensures names[i] != names[j]
    {
      BeforeIsTotal(names[i], names[j]);
    }
  }

  // ---- the order, in characters ----

  /** `a` is a proper prefix of `b`, or has the smaller character where they first differ. */
  predicate Precedes(a: string, b: string) {
    exists k :: 0 <= k <= |a| && k < |b| && a[..k] == b[..k] && (k == |a| || a[k] < b[k])
  }

  lemma {:induction false} BeforeIsPrecedes(a: string, b: string)
    ensures Before(a, b) <==> Precedes(a, b)
    decreases |a|
  {
    if a == [] || b == [] || a[0] != b[0] {
      if Before(a, b) {
        assert a[..0] == b[..0];
      }
    } else {
      BeforeIsPrecedes(a[1..], b[1..]);
      if k :| 0 <= k <= |a[1..]| && k < |b[1..]| && a[1..][..k] == b[1..][..k]
              && (k == |a[1..]| || a[1..][k] < b[1..][k]) {
        assert a[..k + 1] == [a[0]] + a[1..][..k] && b[..k + 1] == [b[0]] + b[1..][..k];
      }
      if k :| 0 <= k <= |a| && k < |b| && a[..k] == b[..k] && (k == |a| || a[k] < b[k]) {
        assert k > 0;
        assert a[1..][..k - 1] == a[..k][1..] && b[1..][..k - 1] == b[..k][1..];
      }
    }
  }

  /** In every object, at any depth, each name precedes the next. */
  predicate Ascends(d: Doc) {
    match d
    case Atom(_) => true
    case Array(es) => ElemsAscend(es)
    case Object(ms) => MembersAscend(ms)
  }

  predicate ElemsAscend(es: Elems) {
    es.Elem? ==> Ascends(es.head) && ElemsAscend(es.tail)
  }

  predicate MembersAscend(ms: Members) {
    ms.Member? ==>
      Ascends(ms.value) && (ms.rest.Member? ==> Precedes(ms.name, ms.rest.name)) && MembersAscend(ms.rest)
  }

  lemma {:induction false} SortedAscends(d: Doc)
    requires Sorted(d)
    ensures Ascends(d)
    decreases d
  {
    match d
    case Atom(_) =>
    case Array(es) => SortedElemsAscend(es);
    case Object(ms) => SortedMembersAscend(ms);
  }

  lemma {:induction false} SortedElemsAscend(es: Elems)
    requires SortedElems(es)
    ensures ElemsAscend(es)
    decreases es
  {
    if es.NoElems? {
    } else {
      SortedAscends(es.head);
      SortedElemsAscend(es.tail);
    }
  }

  lemma {:induction false} SortedMembersAscend(ms: Members)
    requires SortedMembers(ms) && Ascending(Names(ms))
    ensures MembersAscend(ms)
    decreases ms
  {
    if ms.NoMembers? {
    } else {
      var names := Names(ms);
      SortedAscends(ms.value);
      assert names[1..] == Names(ms.rest);
      SortedMembersAscend(ms.rest);
      if ms.rest.Member? {
        assert names[1] == ms.rest.name && Before(names[0], names[1]);
        BeforeIsPrecedes(ms.name, ms.rest.name);
      }
    }
  }

  /** In the canonical document of any value the names of every object ascend, character by character. */
  lemma CanonicalAscends(v: Json)
    ensures Ascends(Canonical(v))
  {
    CanonicalMeans(v);
    SortedAscends(Canonical(v));
  }

  // ---- what an object means ----

  /** The names of an object with what they stand for. */
  function Pairs(ms: Members): set<(string, Json)> {
    if ms.NoMembers? then {} else {(ms.name, Meaning(ms.value))} + Pairs(ms.rest)
  }

  /** An object that repeats no name means exactly its pairs. */
  lemma {:induction false} MembersMean(ms: Members, into: map<string, Json>)
    requires UniqueMembers(ms, into.Keys)
    ensures var m := MeaningMembers(ms, into);
            && m.Keys == into.Keys + SetOf(Names(ms))
            && (forall n <- into :: m[n] == into[n])
            && (forall p <- Pairs(ms) :: p.0 in m && m[p.0] == p.1)
            && (forall n <- m :: n in into || (n, m[n]) in Pairs(ms))
    decreases ms
  {
    if ms.NoMembers? {
    } else {
      var next := into[ms.name := Meaning(ms.value)];
      assert next.Keys == into.Keys + {ms.name};
      MembersMean(ms.rest, next);
      assert Names(ms) == [ms.name] + Names(ms.rest);
    }
  }

  lemma MeansItsPairs(ms: Members) returns (m: map<string, Json>)
    requires UniqueMembers(ms, {})
    ensures Meaning(Object(ms)) == Obj(m) && m.Keys == SetOf(Names(ms))
    ensures forall p <- Pairs(ms) :: p.0 in m && m[p.0] == p.1
    ensures forall n <- m :: (n, m[n]) in Pairs(ms)
  {
    var none: map<string, Json> := map[];
    assert none.Keys == {};
    MembersMean(ms, none);
    m := MeaningMembers(ms, none);
  }

  /** Objects that name the same values, in whatever order, mean the same. */
  lemma MemberOrderIsNothing(a: Members, b: Members)
    requires UniqueMembers(a, {}) && UniqueMembers(b, {}) && Pairs(a) == Pairs(b)
    ensures Meaning(Object(a)) == Meaning(Object(b))
  {
    var x := MeansItsPairs(a);
    var y := MeansItsPairs(b);
    forall n <- x
      ensures n in y && y[n] == x[n]
    {
      assert (n, x[n]) in Pairs(b);
    }
    forall n <- y
      ensures n in x
    {
      assert (n, y[n]) in Pairs(a);
    }
    assert x == y;
  }

  // ---- documents that differ in the order of members ----

  /** The first value a name has among some members. */
  function Find(ms: Members, name: string): Option<Doc> {
    if ms.NoMembers? then None else if ms.name == name then Some(ms.value) else Find(ms.rest, name)
  }

  /** The members without the first one of a name. */
  function Without(ms: Members, name: string): Members {
    if ms.NoMembers? then ms
    else if ms.name == name then ms.rest
    else Member(ms.name, ms.value, Without(ms.rest, name))
  }

  /** One document is the other with members in another order, in any of its objects. */
  predicate Reordered(a: Doc, b: Doc) {
    match a
    case Atom(_) => a == b
    case Array(es) => b.Array? && ReorderedElems(es, b.elems)
    case Object(ms) => b.Object? && ReorderedMembers(ms, b.members)
  }

  predicate ReorderedElems(a: Elems, b: Elems) {
    if a.NoElems? then b.NoElems? else b.Elem? && Reordered(a.head, b.head) && ReorderedElems(a.tail, b.tail)
  }

  predicate ReorderedMembers(a: Members, b: Members) {
    if a.NoMembers? then b.NoMembers?
    else
      var v := Find(b, a.name);
      v.Some? && Reordered(a.value, v.value) && ReorderedMembers(a.rest, Without(b, a.name))
  }

  /** Taking out a member takes out its pair and no other. */
  lemma {:induction false} TakeOut(ms: Members, name: string, seen: set<string>)
    requires UniqueMembers(ms, seen) && Find(ms, name).Some?
    ensures name !in seen && UniqueMembers(Without(ms, name), seen + {name}) && Unique(Find(ms, name).value)
    ensures Pairs(ms) == Pairs(Without(ms, name)) + {(name, Meaning(Find(ms, name).value))}
    decreases ms
  {
    if ms.name == name {
    } else {
      TakeOut(ms.rest, name, seen + {ms.name});
      assert seen + {ms.name} + {name} == seen + {name} + {ms.name};
    }
  }

  lemma {:induction false} FindPair(ms: Members, p: (string, Json))
    requires p in Pairs(ms)
    ensures Find(ms, p.0).Some?
    decreases ms
  {
    if p == (ms.name, Meaning(ms.value)) {
    } else {
      FindPair(ms.rest, p);
    }
  }

  lemma {:induction false} PairsAreNew(ms: Members, seen: set<string>)
    requires UniqueMembers(ms, seen)
    ensures forall p <- Pairs(ms) :: p.0 !in seen
    decreases ms
  {
    if ms.NoMembers? {
    } else {
      PairsAreNew(ms.rest, seen + {ms.name});
    }
  }

  /** Documents that repeat no name mean the same exactly when they differ in the order of members. */
  lemma {:induction false} OrderIsNothing(a: Doc, b: Doc)
    requires Unique(a) && Unique(b)
    ensures Reordered(a, b) <==> Meaning(a) == Meaning(b)
    decreases a
  {
    match a
    case Atom(_) =>
    case Array(es) =>
      if b.Array? {
        ElemOrderIsNothing(es, b.elems);
      }
    case Object(ms) =>
      if b.Object? {
        MembersReordered(ms, b.members, {});
        MeaningIsPairs(ms, b.members);
      }
  }

  lemma {:induction false} ElemOrderIsNothing(a: Elems, b: Elems)
    requires UniqueElems(a) && UniqueElems(b)
    ensures ReorderedElems(a, b) <==> MeaningElems(a) == MeaningElems(b)
    decreases a
  {
    if a.NoElems? {
    } else if b.Elem? {
      OrderIsNothing(a.head, b.head);
      ElemOrderIsNothing(a.tail, b.tail);
      var x, y := MeaningElems(a), MeaningElems(b);
      assert x[0] == Meaning(a.head) && x[1..] == MeaningElems(a.tail);
      assert y[0] == Meaning(b.head) && y[1..] == MeaningElems(b.tail);
    }
  }

  lemma {:induction false} MembersReordered(a: Members, b: Members, seen: set<string>)
    requires UniqueMembers(a, seen) && UniqueMembers(b, seen)
    ensures ReorderedMembers(a, b) <==> Pairs(a) == Pairs(b)
    decreases a
  {
    if a.NoMembers? {
    } else {
      var n, p := a.name, (a.name, Meaning(a.value));
      assert p in Pairs(a);
      if Find(b, n).Some? {
        var w := Find(b, n).value;
        TakeOut(b, n, seen);
        OrderIsNothing(a.value, w);
        MembersReordered(a.rest, Without(b, n), seen + {n});
        PairsAreNew(a.rest, seen + {n});
        PairsAreNew(Without(b, n), seen + {n});
        SetsMinusOne(Pairs(a.rest), Pairs(Without(b, n)), n, Meaning(a.value), Meaning(w));
      } else if p in Pairs(b) {
        FindPair(b, p);
      }
    }
  }

  lemma SetsMinusOne(x: set<(string, Json)>, y: set<(string, Json)>, n: string, v: Json, w: Json)
    requires (forall p <- x :: p.0 != n) && (forall p <- y :: p.0 != n)
    ensures {(n, v)} + x == y + {(n, w)} <==> v == w && x == y
  {
    if {(n, v)} + x == y + {(n, w)} {
      assert (n, v) in y + {(n, w)};
      assert x == ({(n, v)} + x) - {(n, v)};
      assert y == (y + {(n, w)}) - {(n, w)};
    }
  }

  /** Objects mean the same exactly when they have the same pairs. */
  lemma MeaningIsPairs(a: Members, b: Members)
    requires UniqueMembers(a, {}) && UniqueMembers(b, {})
    ensures Meaning(Object(a)) == Meaning(Object(b)) <==> Pairs(a) == Pairs(b)
  {
    if Pairs(a) == Pairs(b) {
      MemberOrderIsNothing(a, b);
    }
    if Meaning(Object(a)) == Meaning(Object(b)) {
      PairsOfMeaning(a);
      PairsOfMeaning(b);
    }
  }

  lemma PairsOfMeaning(ms: Members)
    requires UniqueMembers(ms, {})
    ensures var m := Meaning(Object(ms)).members; Pairs(ms) == set n <- m :: (n, m[n])
  {
    var m := MeansItsPairs(ms);
  }

  // ---- the canonical document is the only sorted one ----

  /** A sorted document is the canonical document of what it means. */
  lemma {:induction false} SortedIsCanonical(d: Doc)
    requires Unique(d) && Sorted(d)
    ensures Canonical(Meaning(d)) == d
    decreases d
  {
    match d
    case Atom(_) =>
    case Array(es) => SortedElemsAreCanonical(es);
    case Object(ms) =>
      var m := MeansItsPairs(ms);
      AscendingIsSorted(Names(ms));
      UniqueNames(ms, {});
      SortedMembersAreCanonical(Obj(m), ms);
  }

  lemma {:induction false} SortedElemsAreCanonical(es: Elems)
    requires UniqueElems(es) && SortedElems(es)
    ensures CanonicalElems(MeaningElems(es)) == es
    decreases es
  {
    if es.NoElems? {
    } else {
      SortedIsCanonical(es.head);
      SortedElemsAreCanonical(es.tail);
    }
  }

  lemma {:induction false} SortedMembersAreCanonical(v: Json, ms: Members)
    requires v.Obj? && ValuesUnique(ms) && SortedMembers(ms)
    requires forall n <- Names(ms) :: n in v.members
    requires forall p <- Pairs(ms) :: p.0 in v.members && v.members[p.0] == p.1
    ensures CanonicalMembers(v, Names(ms)) == ms
    decreases ms
  {
    if ms.NoMembers? {
    } else {
      SortedIsCanonical(ms.value);
      assert (ms.name, Meaning(ms.value)) in Pairs(ms);
      SortedMembersAreCanonical(v, ms.rest);
      assert Names(ms)[1..] == Names(ms.rest);
    }
  }

  /** Decoding the canonical tokens of a value gives the value back, so values with one canonical form
      are one value. */
  lemma CanonicalRoundTrip(v: Json)
    ensures Decode(Write(Canonical(v))) == Ok(v)
  {
    CanonicalMeans(v);
    assert Denotes(Write(Canonical(v)), Canonical(v), v);
    DecodesTheGrammar(Write(Canonical(v)), v);
  }
}
