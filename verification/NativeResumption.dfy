/** A native EventSource over any number of connections: it resumes from the standard's own last event ID,
    and starts every connection with an empty last event ID buffer. */
module NativeResumption {
  import opened Basics
  import opened Sequences
  import opened Frames
  import opened EventSource
  import opened StreamInvariants
  import opened Resumption

  /** The standard's last event ID after a connection that was opened with `held`. */
  function HeldAfter(held: Bytes, k: Connection): Bytes {
    ReadAll(Connect([], held), k.received).lastId
  }

  function HeldBehind(held: Bytes, ks: seq<Connection>): Bytes
    decreases |ks|
  {
    if ks == [] then held else HeldAfter(HeldBehind(held, ks[..|ks| - 1]), ks[|ks| - 1])
  }

  /** What connection i dispatched. */
  function Got(held: Bytes, ks: seq<Connection>, i: nat): seq<Message>
    requires i < |ks|
  {
    OperationsOf(HeldBehind(held, ks[..i]), ks[i])
  }

  function Joined(parts: seq<seq<Message>>, n: nat): seq<Message>
    requires n <= |parts|
  {
    if n == 0 then [] else Joined(parts, n - 1) + parts[n - 1]
  }

  /** Everything dispatched over the connections, in order. */
  function AllGot(held: Bytes, ks: seq<Connection>): seq<Message> {
    Joined(seq(|ks|, i requires 0 <= i < |ks| => Got(held, ks, i)), |ks|)
  }

  ghost predicate OpenedByHeld(log: seq<Event>, held: Bytes, ks: seq<Connection>, i: nat)
    requires i < |ks|
  {
    ks[i].seed == [] && Happened(log, HeldBehind(held, ks[..i]), ks[i])
  }

  /** Connections in a row, each opened with the last event ID the standard keeps. */
  ghost predicate NativeSession(log: seq<Event>, held: Bytes, ks: seq<Connection>) {
    forall i | 0 <= i < |ks| :: OpenedByHeld(log, held, ks, i)
  }

  /** The first frame, the retry preamble, arrived whole. */
  predicate PreambleArrived(k: Connection) {
    Wire(k.state) != [] && Encode(Wire(k.state)[0]) <= k.received
  }

  /** Connection i makes the client forget its place: it was opened behind some event of the log, its
      preamble arrived, and no event did. */
  predicate Forgets(log: seq<Event>, held: Bytes, ks: seq<Connection>, i: nat)
    requires i < |ks|
  {
    var was := HeldBehind(held, ks[..i]);
    PreambleArrived(ks[i]) && Got(held, ks, i) == [] && IsCursor(was) && Position(log, was) > 0
  }

  /** Nothing was dispatched once the place was forgotten. */
  ghost predicate SilentOnceForgotten(log: seq<Event>, held: Bytes, ks: seq<Connection>, n: nat)
    requires n <= |ks|
  {
    forall i, j | 0 <= i < j < n :: Forgets(log, held, ks, i) ==> Got(held, ks, j) == []
  }

  /** The messages are the n events of the log from `p` on. */
  ghost predicate Gapless(log: seq<Event>, p: nat, n: nat, messages: seq<Message>) {
    p + n <= |log| && messages == MessagesOf(log[p..p + n])
  }

  // ---- what one connection gives ----

  /** A connection as the client sees it: the last event ID before and after, whether the preamble arrived,
      and the events that did. */
  datatype Leg = Leg(was: Bytes, now: Bytes, preamble: bool, es: seq<Event>)

  ghost predicate IsServed(log: seq<Event>, p: nat, es: seq<Event>) {
    p + |es| <= |log| && log[p..p + |es|] == es
  }

  ghost predicate IsLeg(log: seq<Event>, l: Leg) {
    && IsCursor(l.was) && IsServed(log, Position(log, l.was), l.es)
    && (!l.preamble ==> l.es == [])
    && l.now == if l.preamble then CursorAfter([], l.es) else l.was
  }

  lemma PreambleIsFirst(w: seq<Chunk>, k: nat, received: Bytes)
    requires k <= |w| && EncodeAll(w[..k]) <= received && (k < |w| ==> received < EncodeAll(w[..k + 1]))
    ensures k > 0 <==> w != [] && Encode(w[0]) <= received
  {
    if k > 0 {
      EncodeFirst(w, k);
    } else if w != [] {
      EncodeFirst(w, 1);
      assert EncodeAll([]) == [];
      assert Encode(w[0]) + [] == Encode(w[0]);
    }
  }

  /** The client dispatches the events of the first j frames. */
  lemma NativeArrived(held: Bytes, k: Connection) returns (j: nat)
    requires k.seed == [] && AllSendable(Wire(k.state)) && k.received <= EncodeAll(Wire(k.state))
    ensures j <= |Wire(k.state)|
    ensures var es := EventsOf(Wire(k.state)[..j]);
            && OperationsOf(held, k) == MessagesOf(es)
            && (!PreambleArrived(k) ==> es == [])
            && HeldAfter(held, k) == if PreambleArrived(k) then CursorAfter([], es) else held
  {
    var w := Wire(k.state);
    j := WireDelivers([], held, w, k.received);
    PreambleIsFirst(w, j, k.received);
    assert j == 0 ==> w[..j] == [];
  }

  /** Leg i is what connection i gave. */
  ghost predicate LegOf(held: Bytes, ks: seq<Connection>, i: nat, l: Leg)
    requires i < |ks|
  {
    && l.was == HeldBehind(held, ks[..i]) && l.now == HeldBehind(held, ks[..i + 1])
    && l.preamble == PreambleArrived(ks[i]) && MessagesOf(l.es) == Got(held, ks, i)
  }

  ghost predicate LegAt(held: Bytes, ks: seq<Connection>, ls: seq<Leg>, i: nat)
    requires i < |ls| && i < |ks|
  {
    LegOf(held, ks, i, ls[i])
  }

  lemma ConnectionGave(log: seq<Event>, held: Bytes, ks: seq<Connection>, i: nat) returns (l: Leg)
    requires IsLog(log) && i < |ks| && NativeSession(log, held, ks)
    ensures IsLeg(log, l) && LegOf(held, ks, i, l)
  {
    assert OpenedByHeld(log, held, ks, i);
    assert ks[..i + 1][..i] == ks[..i];
    var was := HeldBehind(held, ks[..i]);
    WireIsSendable(log, was, ks[i]);
    var j := NativeArrived(was, ks[i]);
    var es := EventsOf(Wire(ks[i].state)[..j]);
    StartOfLog(ks[i].config, ks[i].state, j);
    l := Leg(was, HeldAfter(was, ks[i]), PreambleArrived(ks[i]), es);
  }

  // ---- any number of them ----

  /** The last event ID behind n legs. */
  function Held(held: Bytes, ls: seq<Leg>, n: nat): Bytes
    requires n <= |ls|
  {
    if n == 0 then held else ls[n - 1].now
  }

  function AllOf(ls: seq<Leg>, n: nat): seq<Message>
    requires n <= |ls|
  {
    if n == 0 then [] else AllOf(ls, n - 1) + MessagesOf(ls[n - 1].es)
  }

  ghost predicate Follows(log: seq<Event>, held: Bytes, ls: seq<Leg>, i: nat)
    requires i < |ls|
  {
    IsLeg(log, ls[i]) && ls[i].was == Held(held, ls, i)
  }

  ghost predicate InARow(log: seq<Event>, held: Bytes, ls: seq<Leg>) {
    IsCursor(held) && forall i | 0 <= i < |ls| :: Follows(log, held, ls, i)
  }

  predicate LegForgets(log: seq<Event>, l: Leg) {
    l.preamble && l.es == [] && IsCursor(l.was) && Position(log, l.was) > 0
  }

  /** One of the first n legs made the client forget its place. */
  predicate Lost(log: seq<Event>, ls: seq<Leg>, n: nat)
    requires n <= |ls|
  {
    exists i :: 0 <= i < n && LegForgets(log, ls[i])
  }

  predicate SilentOnceLost(log: seq<Event>, ls: seq<Leg>, n: nat)
    requires n <= |ls|
  {
    forall i, j | 0 <= i < j < n :: LegForgets(log, ls[i]) ==> ls[j].es == []
  }

  lemma LostOneMore(log: seq<Event>, ls: seq<Leg>, n: nat)
    requires n < |ls|
    ensures Lost(log, ls, n + 1) <==> Lost(log, ls, n) || LegForgets(log, ls[n])
    ensures SilentOnceLost(log, ls, n + 1) <==> SilentOnceLost(log, ls, n) && (Lost(log, ls, n) ==> ls[n].es == [])
  {
  }

  /** The client knows its place, having got n events behind `p`. */
  ghost predicate InPlace(log: seq<Event>, p: nat, n: nat, now: Bytes, messages: seq<Message>) {
    Gapless(log, p, n, messages) && IsCursor(now) && Position(log, now) == p + n
  }

  /** The client got n events behind `p` and then forgot its place. */
  ghost predicate Forgotten(log: seq<Event>, p: nat, n: nat, now: Bytes, messages: seq<Message>) {
    Gapless(log, p, n, messages) && now == [] && p + n > 0
  }

  lemma MoreMessages(log: seq<Event>, p: nat, n: nat, es: seq<Event>, messages: seq<Message>)
    requires Gapless(log, p, n, messages) && IsServed(log, p + n, es)
    ensures Gapless(log, p, n + |es|, messages + MessagesOf(es))
  {
    assert log[p..p + n + |es|] == log[p..p + n] + es;
    AppendEvents([], [], log[p..p + n], es);
    assert [] + messages == messages && [] + MessagesOf(log[p..p + n] + es) == MessagesOf(log[p..p + n] + es);
  }

  lemma EventAt(log: seq<Event>, p: nat, n: nat, messages: seq<Message>, i: nat)
    requires Gapless(log, p, n, messages) && i < |messages|
    ensures p + i < |log| && messages[i] == MessageOf(log[p + i])
  {
  }

  /** Getting an event of the log's start after n later ones is no stretch of the log. */
  lemma StartsOver(log: seq<Event>, p: nat, n: nat, m: nat, es: seq<Event>, messages: seq<Message>)
    requires IsLog(log) && Gapless(log, p, n, messages) && p + n > 0 && es != [] && IsServed(log, 0, es)
    ensures !Gapless(log, p, m, messages + MessagesOf(es))
  {
    var all := messages + MessagesOf(es);
    assert all[n] == MessageOf(es[0]) && es[0] == log[0];
    ValueOfPrint(log[0].seqNo);
    if p + n < |log| {
      ValueOfPrint(log[p + n].seqNo);
    }
    if Gapless(log, p, m, all) {
      EventAt(log, p, m, all, n);
    }
  }

  lemma GaplessStart(log: seq<Event>, p: nat, n: nat, a: seq<Message>, b: seq<Message>)
    requires Gapless(log, p, n, a + b)
    ensures Gapless(log, p, |a|, a)
  {
    var es := log[p..p + |a|];
    assert |a + b| == n;
    forall i | 0 <= i < |a|
      ensures a[i] == MessagesOf(es)[i]
    {
      EventAt(log, p, n, a + b, i);
      assert (a + b)[i] == a[i];
    }
  }

  ghost predicate Broken(log: seq<Event>, p: nat, messages: seq<Message>) {
    forall n: nat :: !Gapless(log, p, n, messages)
  }

  lemma NeverMended(log: seq<Event>, p: nat, a: seq<Message>, b: seq<Message>)
    requires Broken(log, p, a)
    ensures Broken(log, p, a + b)
  {
    forall n: nat
      ensures !Gapless(log, p, n, a + b)
    {
      if Gapless(log, p, n, a + b) {
        GaplessStart(log, p, n, a, b);
      }
    }
  }

  /** Where n legs leave the client. */
  ghost predicate Standing(log: seq<Event>, p: nat, ls: seq<Leg>, n: nat, now: Bytes, all: seq<Message>)
    requires n <= |ls|
  {
    if !SilentOnceLost(log, ls, n) then Broken(log, p, all)
    else if Lost(log, ls, n) then exists m: nat :: Forgotten(log, p, m, now, all)
    else exists m: nat :: InPlace(log, p, m, now, all)
  }

  /** The cursor a leg leaves names its end, but for a preamble without an event. */
  lemma PlaceAfter(log: seq<Event>, l: Leg)
    requires IsLog(log) && IsLeg(log, l)
    ensures IsCursor(l.now)
    ensures if l.preamble && l.es == [] then l.now == [] && Position(log, l.now) == 0
            else Position(log, l.now) == Position(log, l.was) + |l.es|
  {
    if l.es == [] {
    } else {
      assert CursorAfter(l.was, l.es) == l.now;
      CursorNamesEvent(log, l.was, |l.es|);
    }
  }

  lemma FromPlace(log: seq<Event>, p: nat, m: nat, l: Leg, all: seq<Message>)
    requires IsLog(log) && IsLeg(log, l) && InPlace(log, p, m, l.was, all)
    ensures if LegForgets(log, l) then Forgotten(log, p, m, l.now, all + MessagesOf(l.es))
            else InPlace(log, p, m + |l.es|, l.now, all + MessagesOf(l.es))
  {
    MoreMessages(log, p, m, l.es, all);
    PlaceAfter(log, l);
  }

  lemma FromNowhere(log: seq<Event>, p: nat, m: nat, l: Leg, all: seq<Message>)
    requires IsLog(log) && IsLeg(log, l) && Forgotten(log, p, m, l.was, all)
    ensures if l.es == [] then Forgotten(log, p, m, l.now, all + MessagesOf(l.es))
            else Broken(log, p, all + MessagesOf(l.es))
  {
    if l.es == [] {
      assert all + MessagesOf(l.es) == all;
    } else {
      forall k: nat
        ensures !Gapless(log, p, k, all + MessagesOf(l.es))
      {
        StartsOver(log, p, m, k, l.es, all);
      }
    }
  }

  lemma OneMoreLeg(log: seq<Event>, p: nat, ls: seq<Leg>, n: nat, all: seq<Message>)
    requires IsLog(log) && n < |ls| && IsLeg(log, ls[n]) && Standing(log, p, ls, n, ls[n].was, all)
    ensures Standing(log, p, ls, n + 1, ls[n].now, all + MessagesOf(ls[n].es))
  {
    var more := all + MessagesOf(ls[n].es);
    LostOneMore(log, ls, n);
    if !SilentOnceLost(log, ls, n) {
      NeverMended(log, p, all, MessagesOf(ls[n].es));
    } else if Lost(log, ls, n) {
      var m: nat :| Forgotten(log, p, m, ls[n].was, all);
      FromNowhere(log, p, m, ls[n], all);
    } else {
      var m: nat :| InPlace(log, p, m, ls[n].was, all);
      FromPlace(log, p, m, ls[n], all);
      assert Forgotten(log, p, m, ls[n].now, more) || InPlace(log, p, m + |ls[n].es|, ls[n].now, more);
    }
  }

  lemma NoLeg(log: seq<Event>, held: Bytes, ls: seq<Leg>)
    requires IsCursor(held)
    ensures Standing(log, Position(log, held), ls, 0, held, [])
  {
    var p := Position(log, held);
    assert log[p..p + 0] == [];
    assert InPlace(log, p, 0, held, []);
  }

  lemma {:induction false} StandingAfter(log: seq<Event>, held: Bytes, ls: seq<Leg>, n: nat)
    requires IsLog(log) && InARow(log, held, ls) && n <= |ls|
    ensures Standing(log, Position(log, held), ls, n, Held(held, ls, n), AllOf(ls, n))
  {
    if n == 0 {
      NoLeg(log, held, ls);
    } else {
      StandingAfter(log, held, ls, n - 1);
      StandingGoesOn(log, held, ls, n - 1);
    }
  }

  lemma StandingGoesOn(log: seq<Event>, held: Bytes, ls: seq<Leg>, n: nat)
    requires IsLog(log) && InARow(log, held, ls) && n < |ls|
    requires Standing(log, Position(log, held), ls, n, Held(held, ls, n), AllOf(ls, n))
    ensures Standing(log, Position(log, held), ls, n + 1, Held(held, ls, n + 1), AllOf(ls, n + 1))
  {
    assert Follows(log, held, ls, n);
    OneMoreLeg(log, Position(log, held), ls, n, AllOf(ls, n));
  }

  lemma StandingDecides(log: seq<Event>, p: nat, ls: seq<Leg>, n: nat, now: Bytes, all: seq<Message>)
    requires n <= |ls| && Standing(log, p, ls, n, now, all)
    ensures Broken(log, p, all) <==> !SilentOnceLost(log, ls, n)
  {
    if SilentOnceLost(log, ls, n) {
      if Lost(log, ls, n) {
        var m: nat :| Forgotten(log, p, m, now, all);
        assert Gapless(log, p, m, all);
      } else {
        var m: nat :| InPlace(log, p, m, now, all);
        assert Gapless(log, p, m, all);
      }
    }
  }

  /** Legs in a row are no stretch of the log exactly when one dispatches after another made the client
      forget its place. */
  lemma LegsAreGapless(log: seq<Event>, held: Bytes, ls: seq<Leg>)
    requires IsLog(log) && InARow(log, held, ls)
    ensures Broken(log, Position(log, held), AllOf(ls, |ls|)) <==> !SilentOnceLost(log, ls, |ls|)
  {
    StandingAfter(log, held, ls, |ls|);
    StandingDecides(log, Position(log, held), ls, |ls|, Held(held, ls, |ls|), AllOf(ls, |ls|));
  }

  // ---- a session is its legs ----

  lemma {:induction false} LegsOf(log: seq<Event>, held: Bytes, ks: seq<Connection>, n: nat) returns (ls: seq<Leg>)
    requires IsLog(log) && NativeSession(log, held, ks) && n <= |ks|
    ensures |ls| == n
    ensures forall i | 0 <= i < n :: LegAt(held, ks, ls, i)
    ensures forall i | 0 <= i < n :: IsLeg(log, ls[i])
  {
    if n == 0 {
      ls := [];
    } else {
      var init := LegsOf(log, held, ks, n - 1);
      var l := ConnectionGave(log, held, ks, n - 1);
      ls := init + [l];
      forall i | 0 <= i < n
        ensures LegAt(held, ks, ls, i)
      {
        assert i < n - 1 ==> LegAt(held, ks, init, i);
      }
    }
  }

  lemma LegsAreInARow(log: seq<Event>, held: Bytes, ks: seq<Connection>, ls: seq<Leg>)
    requires IsCursor(held) && |ls| == |ks|
    requires forall i | 0 <= i < |ls| :: LegAt(held, ks, ls, i)
    requires forall i | 0 <= i < |ls| :: IsLeg(log, ls[i])
    ensures InARow(log, held, ls)
  {
    forall i | 0 <= i < |ls|
      ensures Follows(log, held, ls, i)
    {
      assert LegAt(held, ks, ls, i);
      if i == 0 {
        assert ks[..0] == [];
      } else {
        assert LegAt(held, ks, ls, i - 1);
      }
    }
  }

  lemma {:induction false} JoinedLegs(parts: seq<seq<Message>>, ls: seq<Leg>, n: nat)
    requires |ls| == |parts| && n <= |ls| && forall i | 0 <= i < |ls| :: parts[i] == MessagesOf(ls[i].es)
    ensures Joined(parts, n) == AllOf(ls, n)
  {
    if n == 0 {
    } else {
      JoinedLegs(parts, ls, n - 1);
    }
  }

  lemma SameMessages(held: Bytes, ks: seq<Connection>, ls: seq<Leg>)
    requires |ls| == |ks| && forall i | 0 <= i < |ls| :: LegAt(held, ks, ls, i)
    ensures AllGot(held, ks) == AllOf(ls, |ls|)
  {
    var parts := seq(|ks|, i requires 0 <= i < |ks| => Got(held, ks, i));
    forall i | 0 <= i < |ls|
      ensures parts[i] == MessagesOf(ls[i].es)
    {
      assert LegAt(held, ks, ls, i);
    }
    JoinedLegs(parts, ls, |ls|);
  }

  lemma SameForgetting(log: seq<Event>, held: Bytes, ks: seq<Connection>, i: nat, l: Leg)
    requires i < |ks| && LegOf(held, ks, i, l)
    ensures Forgets(log, held, ks, i) <==> LegForgets(log, l)
    ensures Got(held, ks, i) == [] <==> l.es == []
  {
    assert |MessagesOf(l.es)| == |l.es|;
  }

  lemma SameSilence(log: seq<Event>, held: Bytes, ks: seq<Connection>, ls: seq<Leg>)
    requires |ls| == |ks| && forall i | 0 <= i < |ls| :: LegAt(held, ks, ls, i)
    ensures SilentOnceForgotten(log, held, ks, |ks|) <==> SilentOnceLost(log, ls, |ls|)
  {
    forall i | 0 <= i < |ls|
      ensures Forgets(log, held, ks, i) <==> LegForgets(log, ls[i])
      ensures Got(held, ks, i) == [] <==> ls[i].es == []
    {
      assert LegAt(held, ks, ls, i);
      SameForgetting(log, held, ks, i, ls[i]);
    }
  }

  /** A native EventSource gets a gapless, duplicate-free stretch of the log behind its first cursor exactly
      when nothing was dispatched after a connection that made it forget its place: one opened behind an
      event of the log whose preamble arrived and no event with it. */
  lemma NativeSessionIsGapless(log: seq<Event>, held: Bytes, ks: seq<Connection>)
    requires IsLog(log) && IsCursor(held) && NativeSession(log, held, ks)
    ensures Broken(log, Position(log, held), AllGot(held, ks)) <==> !SilentOnceForgotten(log, held, ks, |ks|)
  {
    var ls := LegsOf(log, held, ks, |ks|);
    LegsAreInARow(log, held, ks, ls);
    SameMessages(held, ks, ls);
    SameSilence(log, held, ks, ls);
    LegsAreGapless(log, held, ls);
  }
}
