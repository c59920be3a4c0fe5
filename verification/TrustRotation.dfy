/** Handshakes, closes and reloads interleaved: a handshake takes the material in force when it begins,
    verifies its peer against that some time later, and is registered when it has finished; a close untracks
    and closes afterwards; a publication stores the new material and prunes afterwards. */
module TrustRotation {
  import opened Material
  import opened ConnTracker

  type ConnId = nat

  datatype State = State(
    current: Material,
    pruning: bool,                        // a publication whose callback has not run yet
    index: Index<ConnId>,
    started: map<ConnId, Material>,       // handshakes under way, with the material they took
    shaking: map<ConnId, Fingerprint>,    // verified, not registered yet, with its root
    handedOut: map<ConnId, Fingerprint>,  // registered and given to the server, with its root
    untracked: set<ConnId>,               // whose Close has run its once
    open: set<ConnId>,
    // history
    since: set<ConnId>,                   // registered after the last prune
    stale: set<ConnId>)                   // began before the last publication

  datatype Step =
    | Begin(c: ConnId)
    | Verify(c: ConnId, root: Fingerprint)
    | Register(c: ConnId)
    | Untrack(c: ConnId)
    | Close(c: ConnId)
    | Publish(m: Material)
    | Prune

  function Init(m: Material): State {
    State(m, false, map[], map[], map[], map[], {}, {}, {}, {})
  }

  predicate Enabled(s: State, step: Step) {
    match step
    case Begin(c) => c !in s.started && c !in s.shaking && c !in s.handedOut
    // the peer's chain ends in a root of the material the handshake took
    case Verify(c, root) => c in s.started && root in s.started[c].roots
    case Register(c) => c in s.shaking
    case Untrack(c) => c in s.handedOut
    case Close(c) => c in s.untracked
    case Publish(_) => !s.pruning
    case Prune => s.pruning
  }

  function Apply(s: State, step: Step): State
    requires Enabled(s, step)
  {
    match step
    case Begin(c) => s.(started := s.started[c := s.current], open := s.open + {c})
    case Verify(c, root) => s.(started := s.started - {c}, shaking := s.shaking[c := root])
    case Register(c) =>
      var root := s.shaking[c];
      s.(shaking := s.shaking - {c}, handedOut := s.handedOut[c := root],
         index := Added(s.index, root, c), since := s.since + {c})
    case Untrack(c) =>
      s.(index := if c in s.untracked then s.index else Removed(s.index, s.handedOut[c], c),
         untracked := s.untracked + {c})
    case Close(c) => s.(open := s.open - {c})
    case Publish(m) =>
      s.(current := m, pruning := true, stale := s.started.Keys + s.shaking.Keys + s.handedOut.Keys)
    case Prune =>
      s.(index := Pruned(s.index, s.current.roots.Keys), open := s.open - Retired(s.index, s.current.roots.Keys),
         pruning := false, since := {})
  }

  ghost predicate Run(s: State, steps: seq<Step>, t: State)
    decreases |steps|
  {
    if steps == [] then t == s
    else Enabled(s, steps[0]) && Run(Apply(s, steps[0]), steps[1..], t)
  }

  /** Agreement of the index with the connections handed out. */
  ghost predicate Indexed(s: State) {
    && Tidy(s.index)
    && s.shaking.Keys !! s.handedOut.Keys
    && s.untracked <= s.handedOut.Keys
    && s.since <= s.handedOut.Keys
    && (forall c <- s.shaking :: c in s.open)
    && (forall p <- Tracked(s.index) ::
          p.1 in s.handedOut && s.handedOut[p.1] == p.0 && p.1 in s.open && p.1 !in s.untracked)
    && (forall c <- s.handedOut :: c in s.open && c !in s.untracked ==> (s.handedOut[c], c) in Tracked(s.index))
    && (!s.pruning ==> forall p <- Tracked(s.index) :: p.0 in s.current.roots || p.1 in s.since)
    && (forall c <- s.since :: c in s.untracked || (s.handedOut[c], c) in Tracked(s.index))
  }

  /** A connection is known in one way, and one that began since the last publication took the material in
      force. */
  ghost predicate Dated(s: State) {
    && s.started.Keys !! s.shaking.Keys && s.started.Keys !! s.handedOut.Keys && s.shaking.Keys !! s.handedOut.Keys
    && (forall c <- s.started :: c in s.open && (c in s.stale || s.started[c] == s.current))
    && (forall c <- s.shaking :: c in s.stale || s.shaking[c] in s.current.roots)
    && (forall c <- s.handedOut :: c in s.stale || s.handedOut[c] in s.current.roots)
  }

  ghost predicate Inv(s: State) {
    Indexed(s) && Dated(s)
  }

  lemma InitInv(m: Material)
    ensures Inv(Init(m))
  {
  }

  lemma RegisterKeeps(s: State, c: ConnId)
    requires Indexed(s) && Enabled(s, Register(c))
    ensures Indexed(Apply(s, Register(c)))
  {
    AddTracks(s.index, s.shaking[c], c);
    TidyKept(s.index, s.shaking[c], c, {});
  }

  lemma UntrackKeeps(s: State, c: ConnId)
    requires Indexed(s) && Enabled(s, Untrack(c))
    ensures Indexed(Apply(s, Untrack(c)))
  {
    RemoveUntracks(s.index, s.handedOut[c], c);
    TidyKept(s.index, s.handedOut[c], c, {});
  }

  lemma PruneKeeps(s: State)
    requires Indexed(s) && Enabled(s, Prune)
    ensures Indexed(Apply(s, Prune))
  {
    var trusted := s.current.roots.Keys;
    PruneKeepsTrusted(s.index, trusted);
    TidyKept(s.index, [], 0, trusted);
    forall p <- Tracked(Pruned(s.index, trusted))
      ensures p.1 !in Retired(s.index, trusted)
    {
    }
  }

  lemma OtherStepsKeep(s: State, step: Step)
    requires Indexed(s) && Dated(s) && Enabled(s, step) && (step.Begin? || step.Verify? || step.Close? || step.Publish?)
    ensures Indexed(Apply(s, step))
  {
  }

  lemma DatedKeeps(s: State, step: Step)
    requires Dated(s) && Enabled(s, step)
    requires forall c <- s.started :: c in s.open && c !in Retired(s.index, s.current.roots.Keys)
    requires s.untracked <= s.handedOut.Keys
    ensures Dated(Apply(s, step))
  {
  }

  /** The index holds no connection whose handshake is under way. */
  lemma NoneUnderWay(s: State)
    requires Indexed(s) && Dated(s)
    ensures forall c <- s.started :: c in s.open && c !in Retired(s.index, s.current.roots.Keys)
  {
    forall c <- s.started
      ensures c !in Retired(s.index, s.current.roots.Keys)
    {
      PruneKeepsTrusted(s.index, s.current.roots.Keys);
    }
  }

  lemma {:induction false} RunKeeps(s: State, steps: seq<Step>, t: State)
    requires Inv(s) && Run(s, steps, t)
    ensures Inv(t)
    decreases |steps|
  {
    if steps == [] {
    } else {
      NoneUnderWay(s);
      DatedKeeps(s, steps[0]);
      match steps[0] {
        case Register(c) => RegisterKeeps(s, c);
        case Untrack(c) => UntrackKeeps(s, c);
        case Prune => PruneKeeps(s);
        case _ => OtherStepsKeep(s, steps[0]);
      }
      RunKeeps(Apply(s, steps[0]), steps[1..], t);
    }
  }

  /** Over any run the tracked connections are exactly the open ones that were handed out and not closed
      by the server, each in the bucket of its root, and no bucket is empty; between reloads one whose root
      is not trusted was registered after the last prune and took its material before the last publication. */
  lemma TrackerAgrees(m: Material, steps: seq<Step>, t: State)
    requires Run(Init(m), steps, t)
    ensures forall fp <- t.index :: t.index[fp] != {}
    ensures forall fp, c :: fp in t.index && c in t.index[fp] <==>
              c in t.handedOut && t.handedOut[c] == fp && c in t.open && c !in t.untracked
    ensures !t.pruning ==> forall fp, c :: fp in t.index && c in t.index[fp] ==>
              fp in t.current.roots || (c in t.since && c in t.stale)
  {
    InitInv(m);
    RunKeeps(Init(m), steps, t);
    forall fp, c | fp in t.index && c in t.index[fp]
      ensures (fp, c) in Tracked(t.index)
    {
    }
  }

  /** The prune of a publication closes exactly the connections tracked then under roots the new material
      does not hold; afterwards every tracked connection's root is trusted. */
  lemma PruneClosesTheRetired(m: Material, steps: seq<Step>, t: State)
    requires Run(Init(m), steps, t) && t.pruning
    ensures var after := Apply(t, Prune);
            && (forall c :: c in t.open && c !in after.open <==>
                  exists fp :: fp in t.index && c in t.index[fp] && fp !in t.current.roots)
            && (forall fp, c :: fp in after.index && c in after.index[fp] <==>
                  fp in t.index && c in t.index[fp] && fp in t.current.roots)
  {
    TrackerAgrees(m, steps, t);
  }

  /** What a prune leaves open, of the connections whose root is no longer trusted, are exactly the
      handshakes that have verified their peer and are not registered yet, and the connections the server is
      just closing. */
  lemma OnlyHandshakesOutlive(m: Material, steps: seq<Step>, t: State, c: ConnId)
    requires Run(Init(m), steps, t) && t.pruning && (c in t.shaking || c in t.handedOut)
    requires (if c in t.shaking then t.shaking[c] else t.handedOut[c]) !in t.current.roots
    ensures c in Apply(t, Prune).open <==> c in t.shaking || (c in t.untracked && c in t.open)
  {
    InitInv(m);
    RunKeeps(Init(m), steps, t);
    PruneClosesTheRetired(m, steps, t);
    TrackerAgrees(m, steps, t);
  }

  /** Between reloads, of the connections handed out under a root that is not trusted and not being closed,
      exactly those registered after the last prune are open; and such a connection, or a handshake that has
      verified its peer against such a root, took its material before the last publication. */
  lemma OnlyStaleHandshakesOutlive(m: Material, steps: seq<Step>, t: State, c: ConnId)
    requires Run(Init(m), steps, t) && !t.pruning
    ensures c in t.handedOut && t.handedOut[c] !in t.current.roots ==>
              c in t.stale && (c !in t.untracked ==> (c in t.open <==> c in t.since))
    ensures c in t.shaking && t.shaking[c] !in t.current.roots ==> c in t.stale
  {
    InitInv(m);
    RunKeeps(Init(m), steps, t);
    TrackerAgrees(m, steps, t);
  }

  /** A connection a prune has closed can be closed again by the server: that untracks nothing and closes
      nothing, even if its root was trusted again and others are tracked under it. */
  lemma LateCloseIsHarmless(m: Material, steps: seq<Step>, t: State, c: ConnId)
    requires Run(Init(m), steps, t) && c in t.handedOut && c !in t.open
    ensures var u := Apply(t, Untrack(c));
            u.index == t.index && u.open == t.open && Apply(u, Close(c)) == u
  {
    InitInv(m);
    RunKeeps(Init(m), steps, t);
    RemoveUntracks(t.index, t.handedOut[c], c);
  }

  /** Closing any connection leaves every other one tracked and open. */
  lemma CloseUntracksOne(m: Material, steps: seq<Step>, t: State, c: ConnId)
    requires Run(Init(m), steps, t) && c in t.handedOut
    ensures var u := Apply(t, Untrack(c));
            && Tracked(u.index) == (set p <- Tracked(t.index) | p.1 != c) && u.open == t.open
            && Apply(u, Close(c)).index == u.index && Apply(u, Close(c)).open == t.open - {c}
  {
    InitInv(m);
    RunKeeps(Init(m), steps, t);
    RemoveUntracks(t.index, t.handedOut[c], c);
  }

  lemma RunTwo(s: State, a: seq<Step>, m: State, step: Step)
    requires Run(s, a, m) && Enabled(m, step)
    ensures Run(s, a + [step], Apply(m, step))
    decreases |a|
  {
    if a == [] {
      assert (a + [step])[1..] == [];
    } else {
      RunTwo(Apply(s, a[0]), a[1..], m, step);
      assert (a + [step])[1..] == a[1..] + [step];
    }
  }

  /** The connection is tracked and open under a root that is not trusted, and no prune is to come. */
  ghost predicate Outlives(s: State, root: Fingerprint, c: ConnId) {
    !s.pruning && root !in s.current.roots && (root, c) in Tracked(s.index) && c in s.open
  }

  lemma Started(before: Material) returns (s: State)
    ensures Run(Init(before), [Begin(0)], s) && s == Apply(Init(before), Begin(0))
  {
    s := Apply(Init(before), Begin(0));
    assert [Begin(0)][1..] == [];
  }

  /** Trust can outlive one reload: a handshake that verified its peer before a publication and is
      registered after its prune is tracked, and open, under a root that is no longer trusted. */
  lemma HandshakeOutlivesAReload(before: Material, after: Material, root: Fingerprint)
    requires root in before.roots && root !in after.roots
    ensures exists steps, t :: Run(Init(before), steps, t) && t.current == after && Outlives(t, root, 0)
  {
    var s0, s1, a := Init(before), Apply(Init(before), Begin(0)), [Begin(0)];
    var s2, b := Apply(s1, Verify(0, root)), a + [Verify(0, root)];
    var s3, d := Apply(s2, Publish(after)), b + [Publish(after)];
    var s4, e := Apply(s3, Prune), d + [Prune];
    var s := Started(before);
    RunTwo(s0, a, s1, Verify(0, root));
    RunTwo(s0, b, s2, Publish(after));
    RunTwo(s0, d, s3, Prune);
    RunTwo(s0, e, s4, Register(0));
    AddTracks(s4.index, root, 0);
  }

  /** So can a handshake that takes its material before a publication and verifies its peer only after the
      prune. */
  lemma StalledHandshakeOutlivesAReload(before: Material, after: Material, root: Fingerprint)
    requires root in before.roots && root !in after.roots
    ensures exists steps, t :: Run(Init(before), steps, t) && t.current == after && Outlives(t, root, 0)
                               && |steps| == 5 && steps[3] == Verify(0, root) && steps[2] == Prune
  {
    var s0, s1, a := Init(before), Apply(Init(before), Begin(0)), [Begin(0)];
    var s2, b := Apply(s1, Publish(after)), a + [Publish(after)];
    var s3, d := Apply(s2, Prune), b + [Prune];
    var s4, e := Apply(s3, Verify(0, root)), d + [Verify(0, root)];
    var s := Started(before);
    RunTwo(s0, a, s1, Publish(after));
    RunTwo(s0, b, s2, Prune);
    RunTwo(s0, d, s3, Verify(0, root));
    RunTwo(s0, e, s4, Register(0));
    AddTracks(s4.index, root, 0);
  }
}
