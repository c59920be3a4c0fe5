/** The readiness answer: Control's health, cached, and withdrawn when the shutdown begins. Times are
    nanoseconds of one monotonic clock. */
module Readiness {
  import opened Basics

  /** nil, or the error a health call gave. */
  datatype Health = Healthy | Unhealthy(error: string)

  datatype Answer = Answered(health: Health) | Stopping

  /** The last completed health call; nothing counts before the first. */
  datatype Cache = Cache(checked: Option<int>, last: Health)

  const FRESH := Cache(None, Healthy)

  predicate Cached(cacheFor: int, cache: Cache, now: int) {
    cache.checked.Some? && now - cache.checked.value < cacheFor
  }

  /** What a check leaves that gets the mutex at `now`, when a call started then would answer `health`
      at `completed`. */
  function Consulted(cacheFor: int, cache: Cache, now: int, health: Health, completed: int): Cache {
    if Cached(cacheFor, cache, now) then cache else Cache(Some(completed), health)
  }

  class Readiness {
    const cacheFor: int
    var stopping: bool
    var checked: Option<int>
    var last: Health

    function Value(): Cache
      reads this
    {
      Cache(checked, last)
    }

    constructor (cacheFor: int)
      ensures this.cacheFor == cacheFor && !stopping && Value() == FRESH
    {
      this.cacheFor, stopping, checked, last := cacheFor, false, None, Healthy;
    }

    method Stop()
      modifies this`stopping
      ensures stopping
    {
      stopping := true;
    }

    /** The part of check under the mutex. `health` is what a call started at `now` would answer and
        `completed` when. */
    method Consult(now: int, health: Health, completed: int) returns (answer: Health, called: bool)
      modifies this`checked, this`last
      ensures called <==> !Cached(cacheFor, old(Value()), now)
      ensures Value() == Consulted(cacheFor, old(Value()), now, health, completed)
      ensures answer == Value().last
    {
      if checked.Some? && now - checked.value < cacheFor {
        return last, false;
      }
      last := health;
      checked := Some(completed);
      return last, true;
    }

    method Check(now: int, health: Health, completed: int) returns (answer: Answer, called: bool)
      modifies this`checked, this`last
      ensures answer == Stopping <==> stopping
      ensures stopping ==> !called && Value() == old(Value())
      ensures !stopping ==> (called <==> !Cached(cacheFor, old(Value()), now))
      ensures !stopping ==> Value() == Consulted(cacheFor, old(Value()), now, health, completed)
      ensures !stopping ==> answer == Answered(Value().last)
    {
      if stopping {
        return Stopping, false;
      }
      var h, c := Consult(now, health, completed);
      return Answered(h), c;
    }
  }

  // ---- runs of concurrent checks ----

  type CheckId = nat

  datatype Call = Call(check: CheckId, start: int, end: int, health: Health)

  datatype Reply = Reply(id: CheckId, answer: Answer, at: int)

  /** Checks that passed the stopping test wait for the mutex; calls and replies are the history. */
  datatype State = State(
    cache: Cache, stopping: bool, waiting: set<CheckId>, begun: set<CheckId>, clock: int,
    calls: seq<Call>, replies: seq<Reply>)

  datatype Event =
    | Begin(id: CheckId)
    | Finish(id: CheckId, now: int, health: Health, completed: int)
    | Stop

  function Init(clock: int): State {
    State(FRESH, false, {}, {}, clock, [], [])
  }

  predicate May(s: State, e: Event) {
    match e
    case Begin(id) => id !in s.begun
    case Finish(id, now, _, completed) => id in s.waiting && s.clock <= now <= completed
    case Stop => true
  }

  function Do(cacheFor: int, s: State, e: Event): State
    requires May(s, e)
  {
    match e
    case Begin(id) =>
      if s.stopping then s.(begun := s.begun + {id}, replies := s.replies + [Reply(id, Stopping, s.clock)])
      else s.(begun := s.begun + {id}, waiting := s.waiting + {id})
    case Finish(id, now, health, completed) =>
      var c := Consulted(cacheFor, s.cache, now, health, completed);
      var called := !Cached(cacheFor, s.cache, now);
      var at := if called then completed else now;
      s.(waiting := s.waiting - {id}, clock := at, cache := c,
         calls := if called then s.calls + [Call(id, now, completed, health)] else s.calls,
         replies := s.replies + [Reply(id, Answered(c.last), at)])
    case Stop => s.(stopping := true)
  }

  ghost predicate Run(cacheFor: int, s: State, es: seq<Event>, t: State)
    decreases |es|
  {
    if es == [] then t == s else May(s, es[0]) && Run(cacheFor, Do(cacheFor, s, es[0]), es[1..], t)
  }

  /** The reply rests on a success of its own call, or on the call before it, completed less than
      cacheFor earlier. */
  ghost predicate Backed(cacheFor: int, calls: seq<Call>, r: Reply) {
    r.answer == Answered(Healthy) ==> exists k :: 0 <= k < |calls| && Backs(cacheFor, calls[k], r)
  }

  predicate Backs(cacheFor: int, call: Call, r: Reply) {
    call.health == Healthy && (call.check == r.id || (call.end <= r.at && r.at - call.end < cacheFor))
  }

  predicate Apart(cacheFor: int, earlier: Call, later: Call) {
    earlier.end <= later.start && earlier.end + cacheFor <= later.start
  }

  function CacheOf(calls: seq<Call>): Cache {
    if calls == [] then FRESH
    else
      var last := calls[|calls| - 1];
      Cache(Some(last.end), last.health)
  }

  ghost predicate Inv(cacheFor: int, s: State) {
    && s.cache == CacheOf(s.calls)
    && (forall i :: 0 <= i < |s.calls| ==> s.calls[i].start <= s.calls[i].end <= s.clock)
    && (forall i, j :: 0 <= i < j < |s.calls| ==> Apart(cacheFor, s.calls[i], s.calls[j]))
    && (forall i :: 0 <= i < |s.replies| ==> Backed(cacheFor, s.calls, s.replies[i]))
    && s.waiting <= s.begun
    && (forall i :: 0 <= i < |s.replies| ==> s.replies[i].id in s.begun && s.replies[i].id !in s.waiting)
  }

  lemma BackedStill(cacheFor: int, calls: seq<Call>, more: Call, r: Reply)
    requires Backed(cacheFor, calls, r)
    ensures Backed(cacheFor, calls + [more], r)
  {
    if r.answer == Answered(Healthy) {
      var k :| 0 <= k < |calls| && Backs(cacheFor, calls[k], r);
      assert (calls + [more])[k] == calls[k];
    }
  }

  lemma FinishKeeps(cacheFor: int, s: State, e: Event)
    requires Inv(cacheFor, s) && May(s, e) && e.Finish?
    ensures Inv(cacheFor, Do(cacheFor, s, e))
  {
    var t := Do(cacheFor, s, e);
    if Cached(cacheFor, s.cache, e.now) {
      var last := |s.calls| - 1;
      assert s.calls[last].health == s.cache.last;
      assert Backed(cacheFor, t.calls, t.replies[|s.replies|]);
    } else {
      assert t.calls[|s.calls|].check == e.id;
      assert Backed(cacheFor, t.calls, t.replies[|s.replies|]);
      forall i | 0 <= i < |s.replies|
        ensures Backed(cacheFor, t.calls, t.replies[i])
      {
        BackedStill(cacheFor, s.calls, t.calls[|s.calls|], s.replies[i]);
      }
    }
  }

  lemma {:induction false} RunKeeps(cacheFor: int, s: State, es: seq<Event>, t: State)
    requires Inv(cacheFor, s) && Run(cacheFor, s, es, t)
    ensures Inv(cacheFor, t)
    decreases |es|
  {
    if es == [] {
    } else {
      if es[0].Finish? {
        FinishKeeps(cacheFor, s, es[0]);
      }
      RunKeeps(cacheFor, Do(cacheFor, s, es[0]), es[1..], t);
    }
  }

  /** Over any run each health call starts at least cacheFor after the one before it completed. */
  lemma CallsAreSpaced(cacheFor: int, clock: int, es: seq<Event>, t: State)
    requires Run(cacheFor, Init(clock), es, t)
    ensures forall i, j :: 0 <= i < j < |t.calls| ==> Apart(cacheFor, t.calls[i], t.calls[j])
  {
    RunKeeps(cacheFor, Init(clock), es, t);
  }

  lemma {:induction false} Spread(cacheFor: int, calls: seq<Call>, i: nat, j: nat)
    requires i <= j < |calls|
    requires forall k :: 0 <= k < |calls| ==> calls[k].start <= calls[k].end
    requires forall k, l :: 0 <= k < l < |calls| ==> Apart(cacheFor, calls[k], calls[l])
    ensures (j - i) * cacheFor <= calls[j].start - calls[i].start
    decreases j
  {
    if i == j {
    } else {
      Spread(cacheFor, calls, i, j - 1);
      assert (j - i) * cacheFor == (j - 1 - i) * cacheFor + cacheFor;
      assert Apart(cacheFor, calls[j - 1], calls[j]);
    }
  }

  lemma Quotient(n: nat, d: nat, w: nat)
    requires d > 0 && n * d <= w
    ensures n <= w / d
  {
    var q := w / d;
    assert n * d < q * d + d;
    assert (q + 1 - n) * d > 0;
  }

  /** So a window of length w holds at most w / cacheFor + 1 call starts. */
  lemma CallsAreRare(cacheFor: int, clock: int, es: seq<Event>, t: State, i: nat, j: nat, w: nat)
    requires cacheFor > 0 && Run(cacheFor, Init(clock), es, t)
    requires i <= j < |t.calls| && t.calls[j].start - t.calls[i].start <= w
    ensures j - i + 1 <= w / cacheFor + 1
  {
    RunKeeps(cacheFor, Init(clock), es, t);
    Spread(cacheFor, t.calls, i, j);
    Quotient(j - i, cacheFor, w);
  }

  /** Ready is only ever answered on a success: the check's own, or one completed less than cacheFor
      before the answer. */
  lemma ReadyIsBacked(cacheFor: int, clock: int, es: seq<Event>, t: State, i: nat)
    requires Run(cacheFor, Init(clock), es, t) && i < |t.replies|
    ensures Backed(cacheFor, t.calls, t.replies[i])
  {
    RunKeeps(cacheFor, Init(clock), es, t);
  }

  /** A check that gets the mutex answers what the last call said while that is younger than cacheFor, and
      otherwise calls health and answers what it says. */
  lemma ChecksAnswer(cacheFor: int, clock: int, es: seq<Event>, s: State, e: Event)
    requires Run(cacheFor, Init(clock), es, s) && e.Finish? && May(s, e)
    ensures var t := Do(cacheFor, s, e);
            && |t.replies| == |s.replies| + 1
            && if s.calls != [] && e.now - s.calls[|s.calls| - 1].end < cacheFor
               then t.calls == s.calls && t.replies[|s.replies|].answer == Answered(s.calls[|s.calls| - 1].health)
               else t.calls == s.calls + [Call(e.id, e.now, e.completed, e.health)]
                    && t.replies[|s.replies|].answer == Answered(e.health)
  {
    RunKeeps(cacheFor, Init(clock), es, s);
  }

  // ---- after Stop ----

  /** What a run after Stop keeps: the replies given since then are Stopping, but for the checks that were
      waiting for the mutex when Stop was called. */
  ghost predicate Stopped(atStop: State, s: State) {
    && s.stopping
    && s.waiting <= atStop.waiting <= atStop.begun <= s.begun
    && |atStop.replies| <= |s.replies|
    && forall i | |atStop.replies| <= i < |s.replies| :: Late(atStop, s.replies[i])
  }

  predicate Late(atStop: State, r: Reply) {
    r.answer != Stopping <==> r.id in atStop.waiting
  }

  lemma StoppedStays(cacheFor: int, atStop: State, s: State, e: Event)
    requires Stopped(atStop, s) && May(s, e)
    ensures Stopped(atStop, Do(cacheFor, s, e))
  {
  }

  lemma {:induction false} StoppedRun(cacheFor: int, atStop: State, s: State, es: seq<Event>, t: State)
    requires Stopped(atStop, s) && Run(cacheFor, s, es, t)
    ensures Stopped(atStop, t)
    decreases |es|
  {
    if es == [] {
    } else {
      StoppedStays(cacheFor, atStop, s, es[0]);
      StoppedRun(cacheFor, atStop, Do(cacheFor, s, es[0]), es[1..], t);
    }
  }

  /** Of the checks answered after Stop exactly those that had passed the stopping test before it are
      answered from Control's health; every check that begins after Stop is told Stopping. */
  lemma OnlyWaitersAnswer(cacheFor: int, clock: int, es: seq<Event>, s: State, fs: seq<Event>, t: State, i: nat)
    requires Run(cacheFor, Init(clock), es, s) && Run(cacheFor, Do(cacheFor, s, Stop), fs, t)
    requires |s.replies| <= i < |t.replies|
    ensures t.replies[i].answer != Stopping <==> t.replies[i].id in s.waiting
  {
    RunKeeps(cacheFor, Init(clock), es, s);
    StoppedRun(cacheFor, s, Do(cacheFor, s, Stop), fs, t);
    assert Late(s, t.replies[i]);
  }

  /** Readiness is not withdrawn at once: a check that waits for the mutex when Stop is called can still
      answer that all is well, long after. */
  lemma ReadyAfterStop(cacheFor: int, clock: int, delay: nat)
    ensures exists s, t ::
      && Run(cacheFor, Init(clock), [Begin(0)], s) && s.replies == []
      && Run(cacheFor, Do(cacheFor, s, Stop), [Finish(0, clock + delay, Healthy, clock + delay)], t)
      && t.replies == [Reply(0, Answered(Healthy), clock + delay)]
  {
    var begin, finish := Begin(0), Finish(0, clock + delay, Healthy, clock + delay);
    var s := Do(cacheFor, Init(clock), begin);
    var m := Do(cacheFor, s, Stop);
    assert [begin][1..] == [] && [finish][1..] == [];
    assert Run(cacheFor, Init(clock), [begin], s);
    assert Run(cacheFor, m, [finish], Do(cacheFor, m, finish));
  }

  /** A check that begins after Stop has its answer, Stopping, and never another. */
  lemma {:induction false} StoppedChecksSaySo(cacheFor: int, s: State, id: CheckId, es: seq<Event>, t: State)
    requires Inv(cacheFor, s) && s.stopping && May(s, Begin(id))
    requires Run(cacheFor, Do(cacheFor, s, Begin(id)), es, t)
    ensures exists i :: 0 <= i < |t.replies| && t.replies[i].id == id
    ensures forall i :: 0 <= i < |t.replies| && t.replies[i].id == id ==> t.replies[i].answer == Stopping
  {
    var b := Do(cacheFor, s, Begin(id));
    assert b.replies[|s.replies|] == Reply(id, Stopping, s.clock);
    SettledStays(cacheFor, b, id, es, t);
  }

  ghost predicate Settled(s: State, id: CheckId) {
    && id in s.begun && id !in s.waiting
    && (exists i :: 0 <= i < |s.replies| && s.replies[i].id == id)
    && (forall i :: 0 <= i < |s.replies| && s.replies[i].id == id ==> s.replies[i].answer == Stopping)
  }

  lemma {:induction false} SettledStays(cacheFor: int, s: State, id: CheckId, es: seq<Event>, t: State)
    requires Settled(s, id) && Run(cacheFor, s, es, t)
    ensures Settled(t, id)
    decreases |es|
  {
    if es == [] {
    } else {
      var m := Do(cacheFor, s, es[0]);
      var i :| 0 <= i < |s.replies| && s.replies[i].id == id;
      assert m.replies[i].id == id;
      SettledStays(cacheFor, m, id, es[1..], t);
    }
  }
}
