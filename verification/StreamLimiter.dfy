/** The cap on open event streams, per process and per subject. */
module StreamLimiter {
  type Subject = string

  /** The limiter's counters as a value. */
  datatype Slots = Slots(total: int, bySubject: map<Subject, int>)

  /** The configured caps; zero or less means unbounded. */
  datatype Caps = Caps(max: int, perSubject: int)

  const EMPTY := Slots(0, map[])

  function Held(slots: Slots, subject: Subject): int {
    if subject in slots.bySubject then slots.bySubject[subject] else 0
  }

  predicate HasRoom(caps: Caps, slots: Slots, subject: Subject) {
    && !(caps.max > 0 && slots.total >= caps.max)
    && !(caps.perSubject > 0 && Held(slots, subject) >= caps.perSubject)
  }

  function Acquired(slots: Slots, subject: Subject): Slots {
    Slots(slots.total + 1, slots.bySubject[subject := Held(slots, subject) + 1])
  }

  function Released(slots: Slots, subject: Subject): Slots {
    var left := Held(slots, subject) - 1;
    Slots(slots.total - 1, if left == 0 then slots.bySubject - {subject} else slots.bySubject[subject := left])
  }

  /** No subject is kept with a count that is not positive. */
  predicate Tidy(slots: Slots) {
    forall s <- slots.bySubject :: slots.bySubject[s] > 0
  }

  /** Each call moves one subject's count by one and no other's. */
  lemma HeldAfter(slots: Slots, subject: Subject, s: Subject)
    requires Tidy(slots)
    ensures Held(Acquired(slots, subject), s) == Held(slots, s) + (if s == subject then 1 else 0)
    ensures Held(Released(slots, subject), s) == Held(slots, s) - (if s == subject then 1 else 0)
    ensures Tidy(Acquired(slots, subject))
    ensures Held(slots, subject) > 0 ==> Tidy(Released(slots, subject))
  {
  }

  /** Releasing undoes acquiring, and the order of releases does not matter. */
  lemma ReleaseUndoesAcquire(slots: Slots, subject: Subject)
    requires Tidy(slots)
    ensures Released(Acquired(slots, subject), subject) == slots
  {
    var m := slots.bySubject;
    assert m[subject := Held(slots, subject) + 1][subject := Held(slots, subject)] - {subject} == m - {subject};
    assert subject in m ==> m[subject := Held(slots, subject) + 1][subject := m[subject]] == m;
  }

  lemma ReleasesCommute(slots: Slots, a: Subject, b: Subject)
    requires Tidy(slots) && Held(slots, a) > (if a == b then 1 else 0) && Held(slots, b) > 0
    ensures Released(Released(slots, a), b) == Released(Released(slots, b), a)
  {
    if a != b {
      var l, r := Released(Released(slots, a), b).bySubject, Released(Released(slots, b), a).bySubject;
      assert l.Keys == r.Keys;
      assert forall s <- l.Keys :: l[s] == r[s];
    }
  }

  class Limiter {
    const caps: Caps
    var total: int
    var bySubject: map<Subject, int>

    function Value(): Slots
      reads this
    {
      Slots(total, bySubject)
    }

    constructor (max: int, perSubject: int)
      ensures caps == Caps(max, perSubject)
      ensures Value() == EMPTY
    {
      caps := Caps(max, perSubject);
      total := 0;
      bySubject := map[];
    }

    method Acquire(subject: Subject) returns (ok: bool)
      modifies this
      ensures ok == HasRoom(caps, old(Value()), subject)
      ensures Value() == if ok then Acquired(old(Value()), subject) else old(Value())
    {
      var held := if subject in bySubject then bySubject[subject] else 0;
      if (caps.max > 0 && total >= caps.max) || (caps.perSubject > 0 && held >= caps.perSubject) {
        return false;
      }
      total := total + 1;
      bySubject := bySubject[subject := held + 1];
      return true;
    }

    /** The closure a successful Acquire hands out. */
    method Release(subject: Subject)
      modifies this
      ensures Value() == Released(old(Value()), subject)
    {
      total := total - 1;
      var held := if subject in bySubject then bySubject[subject] else 0;
      bySubject := bySubject[subject := held - 1];
      if bySubject[subject] == 0 {
        bySubject := bySubject - {subject};
      }
      assert map[subject := held - 1] - {subject} == map[];
    }
  }
}
