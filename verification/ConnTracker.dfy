/** The index of open server connections by the root that verified their peer. */
module ConnTracker {
  import opened Material

  type Index<C> = map<Fingerprint, set<C>>

  function Bucket<C>(m: Index<C>, fp: Fingerprint): set<C> {
    if fp in m then m[fp] else {}
  }

  /** The tracked connections, each with its root. */
  function Tracked<C>(m: Index<C>): set<(Fingerprint, C)> {
    set fp <- m, c <- m[fp] :: (fp, c)
  }

  function Added<C>(m: Index<C>, fp: Fingerprint, c: C): Index<C> {
    m[fp := Bucket(m, fp) + {c}]
  }

  function Removed<C>(m: Index<C>, fp: Fingerprint, c: C): Index<C> {
    if fp !in m then m
    else
      var left := m[fp] - {c};
      if left == {} then m - {fp} else m[fp := left]
  }

  function Pruned<C>(m: Index<C>, trusted: set<Fingerprint>): Index<C> {
    map fp <- m | fp in trusted :: m[fp]
  }

  /** The connections under roots that are not trusted. */
  function Retired<C>(m: Index<C>, trusted: set<Fingerprint>): set<C> {
    set fp <- m, c <- m[fp] | fp !in trusted :: c
  }

  /** No bucket is empty, and no connection is in two. */
  ghost predicate Tidy<C>(m: Index<C>) {
    (forall fp <- m :: m[fp] != {}) && Disjoint(m)
  }

  ghost predicate Disjoint<C>(m: Index<C>) {
    forall fp, gp :: fp in m && gp in m && fp != gp ==> m[fp] !! m[gp]
  }

  // ---- what the operations do to the tracked connections ----

  lemma AddTracks<C(!new)>(m: Index<C>, fp: Fingerprint, c: C)
    ensures Tracked(Added(m, fp, c)) == Tracked(m) + {(fp, c)}
  {
    var t := Added(m, fp, c);
    forall p
      ensures p in Tracked(t) <==> p in Tracked(m) || p == (fp, c)
    {
      assert p in Tracked(m) <==> p.0 in m && p.1 in m[p.0];
      assert p in Tracked(t) <==> p.0 in t && p.1 in t[p.0];
    }
  }

  /** Removing a connection removes no other; one that is not tracked leaves the index as it is. */
  lemma RemoveUntracks<C(!new)>(m: Index<C>, fp: Fingerprint, c: C)
    requires forall f <- m :: m[f] != {}
    ensures Tracked(Removed(m, fp, c)) == Tracked(m) - {(fp, c)}
    ensures (fp, c) !in Tracked(m) ==> Removed(m, fp, c) == m
  {
    var t := Removed(m, fp, c);
    forall p
      ensures p in Tracked(t) <==> p in Tracked(m) && p != (fp, c)
    {
      assert p in Tracked(m) <==> p.0 in m && p.1 in m[p.0];
      assert p in Tracked(t) <==> p.0 in t && p.1 in t[p.0];
    }
    if (fp, c) !in Tracked(m) && fp in m {
      assert (fp, c) in Tracked(m) <==> c in m[fp];
      assert m[fp] - {c} == m[fp];
    }
  }

  lemma PruneKeepsTrusted<C(!new)>(m: Index<C>, trusted: set<Fingerprint>)
    ensures Tracked(Pruned(m, trusted)) == set p <- Tracked(m) | p.0 in trusted
    ensures Retired(m, trusted) == set p <- Tracked(m) | p.0 !in trusted :: p.1
  {
    var t := Pruned(m, trusted);
    forall p
      ensures p in Tracked(t) <==> p in Tracked(m) && p.0 in trusted
    {
      assert p in Tracked(m) <==> p.0 in m && p.1 in m[p.0];
      assert p in Tracked(t) <==> p.0 in t && p.1 in t[p.0];
    }
    forall c
      ensures c in Retired(m, trusted) <==> exists p :: p in Tracked(m) && p.0 !in trusted && p.1 == c
    {
      if c in Retired(m, trusted) {
        var fp :| fp in m && c in m[fp] && fp !in trusted;
        assert (fp, c) in Tracked(m);
      }
    }
  }

  lemma TidyKept<C(!new)>(m: Index<C>, fp: Fingerprint, c: C, trusted: set<Fingerprint>)
    requires Tidy(m)
    ensures Tidy(Removed(m, fp, c)) && Tidy(Pruned(m, trusted))
    ensures (forall p <- Tracked(m) :: p.1 != c) ==> Tidy(Added(m, fp, c))
  {
    if forall p <- Tracked(m) :: p.1 != c {
      var t := Added(m, fp, c);
      forall f <- m
        ensures c !in m[f]
      {
        assert (f, c) in Tracked(m) <==> c in m[f];
      }
    }
  }

  // ---- the tracker ----

  class Conn {
    var open: bool

    constructor ()
      ensures open
    {
      open := true;
    }

    method Close()
      modifies this
      ensures !open
    {
      open := false;
    }
  }

  /** The connections of an index. */
  function Conns(m: Index<Conn>): set<Conn> {
    set fp <- m, c <- m[fp] :: c
  }

  class Tracker {
    var conns: Index<Conn>

    constructor ()
      ensures conns == map[]
    {
      conns := map[];
    }

    method Add(root: Certificate, c: Conn)
      modifies this
      ensures conns == Added(old(conns), root.raw, c)
    {
      var fp := root.raw;
      if fp !in conns {
        conns := conns[fp := {}];
      }
      conns := conns[fp := conns[fp] + {c}];
    }

    method Remove(root: Certificate, c: Conn)
      modifies this
      ensures conns == Removed(old(conns), root.raw, c)
    {
      var fp := root.raw;
      if fp in conns {
        conns := conns[fp := conns[fp] - {c}];
        if conns[fp] == {} {
          conns := conns - {fp};
        }
      }
      assert old(conns) - {fp} == old(conns)[fp := {}] - {fp};
    }

    /** Everything under roots that are not `live` is dropped and closed, and `n` counts it. */
    ghost predicate Progress(was: Index<Conn>, live: set<Fingerprint>, atStart: set<Conn>, n: nat)
      reads this, Conns(was)
    {
      && conns == Pruned(was, live)
      && n == |Retired(was, live)|
      && OpenBut(was, atStart, Retired(was, live))
    }

    /** One retired bucket: its connections are closed and counted, and it is dropped. */
    method DropBucket(fp: Fingerprint, n: nat,
                      ghost was: Index<Conn>, ghost live: set<Fingerprint>, ghost atStart: set<Conn>)
      returns (m: nat)
      requires fp in was && fp in live && Disjoint(was) && Progress(was, live, atStart, n)
      modifies this, Conns(was)
      ensures Progress(was, live - {fp}, atStart, m)
    {
      RetireOne(was, live, fp);
      var closed := CloseAll(conns[fp]);
      m := n + closed;
      conns := conns - {fp};
    }

    /** closeRetired: closes the connections whose root the material does not trust, and no other. */
    method CloseRetired(current: Material) returns (n: nat)
      requires Disjoint(conns)
      modifies this, Conns(conns)
      ensures conns == Pruned(old(conns), current.roots.Keys)
      ensures n == |Retired(old(conns), current.roots.Keys)|
      ensures forall c <- old(Conns(conns)) :: c.open == (old(c.open) && c !in Retired(old(conns), current.roots.Keys))
    {
      n := 0;
      ghost var was, trusted := conns, current.roots.Keys;
      ghost var atStart := set c <- Conns(conns) | c.open;
      var todo := conns.Keys;
      NothingToRetire(was, trusted);
      while todo != {}
        invariant todo <= was.Keys
        invariant Progress(was, trusted + todo, atStart, n)
        decreases todo
      {
        var fp :| fp in todo;
        LessToDo(trusted, todo, fp);
        if fp !in current.roots {
          n := DropBucket(fp, n, was, trusted + todo, atStart);
        }
        todo := todo - {fp};
      }
      assert trusted + todo == trusted;
      assert OpenBut(was, atStart, Retired(was, trusted));
    }
  }

  /** Of the index's connections those of `atStart` are open, but none of `closed`. */
  ghost predicate OpenBut(m: Index<Conn>, atStart: set<Conn>, closed: set<Conn>)
    reads Conns(m)
  {
    forall c <- Conns(m) :: c.open <==> c in atStart && c !in closed
  }

  lemma LessToDo(trusted: set<Fingerprint>, todo: set<Fingerprint>, fp: Fingerprint)
    ensures fp in trusted ==> trusted + todo == trusted + (todo - {fp})
    ensures fp !in trusted ==> trusted + todo - {fp} == trusted + (todo - {fp})
  {
  }

  lemma NothingToRetire<C>(m: Index<C>, trusted: set<Fingerprint>)
    ensures Pruned(m, trusted + m.Keys) == m && Retired(m, trusted + m.Keys) == {}
  {
  }

  lemma RetireOne<C>(m: Index<C>, trusted: set<Fingerprint>, fp: Fingerprint)
    requires fp in m && fp in trusted
    requires Disjoint(m)
    ensures Retired(m, trusted - {fp}) == Retired(m, trusted) + m[fp]
    ensures Retired(m, trusted) !! m[fp]
    ensures |Retired(m, trusted - {fp})| == |Retired(m, trusted)| + |m[fp]|
    ensures Pruned(m, trusted) - {fp} == Pruned(m, trusted - {fp}) && Pruned(m, trusted)[fp] == m[fp]
  {
  }

  method CloseAll(cs: set<Conn>) returns (n: nat)
    modifies cs
    ensures n == |cs|
    ensures forall c <- cs :: !c.open
  {
    n := 0;
    var todo := cs;
    while todo != {}
      invariant todo <= cs && n == |cs| - |todo|
      invariant forall c <- cs - todo :: !c.open
      decreases todo
    {
      var c :| c in todo;
      c.Close();
      n := n + 1;
      todo := todo - {c};
    }
  }

  /** trackedConn: untracks itself the first time it is closed. */
  class TrackedConn {
    const conn: Conn
    const root: Certificate
    const tracker: Tracker
    var once: bool

    constructor (conn: Conn, root: Certificate, tracker: Tracker)
      ensures this.conn == conn && this.root == root && this.tracker == tracker && !once
    {
      this.conn, this.root, this.tracker, once := conn, root, tracker, false;
    }

    method Close()
      modifies this, tracker, conn
      ensures once && !conn.open
      ensures tracker.conns == if old(once) then old(tracker.conns) else Removed(old(tracker.conns), root.raw, conn)
    {
      if !once {
        once := true;
        tracker.Remove(root, conn);
      }
      conn.Close();
    }
  }
}
