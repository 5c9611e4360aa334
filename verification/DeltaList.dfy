/** Lists of events that store each event's distance from the one before it. */
module DeltaList {
  datatype Ev = Ev(id: nat, delta: int)

  /** Distance of the first `n` entries together. */
  function Sum(l: seq<Ev>, n: nat): int
    requires n <= |l|
  {
    if n == 0 then 0 else Sum(l, n - 1) + l[n - 1].delta
  }

  /** When entry `i` is due, counted from the list's own origin. */
  function Due(l: seq<Ev>, i: nat): int
    requires i < |l|
  {
    Sum(l, i + 1)
  }

  /** Behind the head no distance is negative; the head may be overdue. */
  ghost predicate Ordered(l: seq<Ev>) { forall i :: 1 <= i < |l| ==> l[i].delta >= 0 }

  ghost predicate Unique(l: seq<Ev>) { forall i, j :: 0 <= i < j < |l| ==> l[i].id != l[j].id }

  ghost predicate Has(l: seq<Ev>, id: nat) { exists i :: 0 <= i < |l| && l[i].id == id }

  // ---------------------------------------------------------------- operations

  /** A new event goes behind equal ones (`early` false) or before them. */
  predicate Passes(d: int, delta: int, early: bool) { if early then d < delta else d <= delta }

  /** Where a new event goes from place `i` on, and its distance from the entry before that. */
  function Slot(l: seq<Ev>, i: nat, delta: int, early: bool): (int, int)
    decreases |l| - i
  {
    if i < |l| && Passes(l[i].delta, delta, early) then Slot(l, i + 1, delta - l[i].delta, early) else (i, delta)
  }

  /** Links an event in at place `k`, at distance `d` from its predecessor. */
  function Link(l: seq<Ev>, k: nat, id: nat, d: int): seq<Ev>
    requires k <= |l|
  {
    l[..k] + [Ev(id, d)] + (if k < |l| then [Ev(l[k].id, l[k].delta - d)] + l[k + 1..] else [])
  }

  lemma {:induction false} SlotInRange(l: seq<Ev>, i: nat, delta: int, early: bool)
    requires i <= |l|
    ensures i <= Slot(l, i, delta, early).0 <= |l|
    decreases |l| - i
  {
    if i < |l| && Passes(l[i].delta, delta, early) { SlotInRange(l, i + 1, delta - l[i].delta, early); }
  }

  function Insert(l: seq<Ev>, id: nat, delta: int, early: bool): seq<Ev> {
    SlotInRange(l, 0, delta, early);
    Link(l, Slot(l, 0, delta, early).0, id, Slot(l, 0, delta, early).1)
  }

  /** Unlinks entry `k`; its successor inherits its distance. */
  function RemoveAt(l: seq<Ev>, k: nat): seq<Ev>
    requires k < |l|
  {
    l[..k] + (if k + 1 < |l| then [Ev(l[k + 1].id, l[k + 1].delta + l[k].delta)] + l[k + 2..] else [])
  }

  /** The origin moves on by `d`. */
  function Shift(l: seq<Ev>, d: int): seq<Ev> {
    if |l| == 0 then l else l[0 := Ev(l[0].id, l[0].delta - d)]
  }

  // ---------------------------------------------------------------- what they mean

  lemma {:induction false} SumOfPrefix(l: seq<Ev>, m: seq<Ev>, n: nat)
    requires n <= |l| && n <= |m| && l[..n] == m[..n]
    ensures Sum(l, n) == Sum(m, n)
  {
    if n > 0 {
      assert l[..n - 1] == l[..n][..n - 1] == m[..n][..n - 1] == m[..n - 1];
      assert l[n - 1] == l[..n][n - 1] == m[..n][n - 1] == m[n - 1];
      SumOfPrefix(l, m, n - 1);
    }
  }

  /** The slot search knows how far it has come. */
  lemma {:induction false} SlotMeans(l: seq<Ev>, i: nat, delta: int, early: bool, total: int)
    requires i <= |l| && total == delta + Sum(l, i) && Ordered(l)
    requires i > 0 ==> delta >= 0
    requires forall j :: 0 <= j < i ==> Passes(Due(l, j), total, early)
    ensures var (k, d) := Slot(l, i, delta, early);
      && i <= k <= |l| && d == total - Sum(l, k) && (k > 0 ==> d >= 0)
      && (forall j :: 0 <= j < k ==> Passes(Due(l, j), total, early))
      && (k < |l| ==> !Passes(l[k].delta, d, early))
    decreases |l| - i
  {
    if i < |l| && Passes(l[i].delta, delta, early) {
      assert Due(l, i) == Sum(l, i) + l[i].delta;
      SlotMeans(l, i + 1, delta - l[i].delta, early, total);
    }
  }

  /** Due times never fall along the list. */
  lemma {:induction false} DueRises(l: seq<Ev>, i: nat, j: nat)
    requires Ordered(l) && i <= j < |l|
    ensures Due(l, i) <= Due(l, j)
    decreases j
  {
    if i < j { DueRises(l, i, j - 1); }
  }

  lemma {:induction false} LinkedDue(l: seq<Ev>, k: nat, id: nat, d: int, i: nat)
    requires k <= |l| && i < |l| + 1
    ensures var m := Link(l, k, id, d);
      && |m| == |l| + 1
      && m[i].id == (if i < k then l[i].id else if i == k then id else l[i - 1].id)
      && Due(m, i) == (if i < k then Due(l, i) else if i == k then Sum(l, k) + d else Due(l, i - 1))
  {
    var m := Link(l, k, id, d);
    if i <= k {
      assert m[..i] == l[..i];
      SumOfPrefix(m, l, i);
    } else {
      LinkedDue(l, k, id, d, i - 1);
      assert Due(m, i) == Due(m, i - 1) + m[i].delta;
    }
  }

  /** Inserting gives the new event its due time, keeps all others, and sorts it in (behind or before equals). */
  lemma {:induction false} InsertMeans(l: seq<Ev>, id: nat, delta: int, early: bool)
    requires Ordered(l)
    ensures var m, k := Insert(l, id, delta, early), Slot(l, 0, delta, early).0;
      && Ordered(m) && 0 <= k < |m| == |l| + 1 && m[k].id == id && Due(m, k) == delta
      && (forall i :: 0 <= i < k ==> m[i].id == l[i].id && Due(m, i) == Due(l, i) && Passes(Due(l, i), delta, early))
      && (forall i :: k <= i < |l| ==> m[i + 1].id == l[i].id && Due(m, i + 1) == Due(l, i) && !Passes(Due(l, i), delta, early))
  {
    SlotMeans(l, 0, delta, early, delta);
    var (k, d) := Slot(l, 0, delta, early);
    var m := Link(l, k, id, d);
    forall i: nat | i < k ensures m[i].id == l[i].id && Due(m, i) == Due(l, i) {
      LinkedDue(l, k, id, d, i);
    }
    LinkedDue(l, k, id, d, k);
    forall i: nat | k <= i < |l|
      ensures m[i + 1].id == l[i].id && Due(m, i + 1) == Due(l, i) && !Passes(Due(l, i), delta, early)
    {
      LinkedDue(l, k, id, d, i + 1);
      DueRises(l, k, i);
      assert Due(l, k) == Sum(l, k) + l[k].delta;
    }
  }

  /** Among events due at the same time a new one goes last, or first if it goes early. */
  lemma {:induction false} TiesInOrder(l: seq<Ev>, id: nat, delta: int, early: bool)
    requires Ordered(l)
    ensures var m := Insert(l, id, delta, early);
      exists k :: 0 <= k < |m| && m[k].id == id && Due(m, k) == delta
        && (forall i :: 0 <= i < k ==> Due(m, i) < delta || (!early && Due(m, i) == delta))
        && (forall i :: k < i < |m| ==> delta < Due(m, i) || (early && Due(m, i) == delta))
  {
    InsertMeans(l, id, delta, early);
    var m, k := Insert(l, id, delta, early), Slot(l, 0, delta, early).0;
    forall i | k < i < |m| ensures delta < Due(m, i) || (early && Due(m, i) == delta) {
      assert Due(m, i - 1 + 1) == Due(l, i - 1);
    }
    assert 0 <= k < |m| && m[k].id == id && Due(m, k) == delta;
  }

  /** Removing keeps the due times of all others and their order. */
  lemma {:induction false} RemoveMeans(l: seq<Ev>, k: nat)
    requires k < |l|
    ensures var m := RemoveAt(l, k);
      && |m| == |l| - 1
      && (Ordered(l) ==> Ordered(m))
      && (forall i :: 0 <= i < k ==> m[i] == l[i] && Due(m, i) == Due(l, i))
      && (forall i :: k <= i < |m| ==> m[i].id == l[i + 1].id && Due(m, i) == Due(l, i + 1))
  {
    var m := RemoveAt(l, k);
    forall i: nat | i < k ensures m[i] == l[i] && Due(m, i) == Due(l, i) {
      assert m[..i + 1] == l[..i + 1];
      SumOfPrefix(m, l, i + 1);
    }
    forall i: nat | k <= i < |m| ensures m[i].id == l[i + 1].id && Due(m, i) == Due(l, i + 1) {
      RemovedDue(l, k, i);
    }
  }

  lemma {:induction false} RemovedDue(l: seq<Ev>, k: nat, i: nat)
    requires k <= i < |l| - 1
    ensures i < |RemoveAt(l, k)| && RemoveAt(l, k)[i].id == l[i + 1].id && Due(RemoveAt(l, k), i) == Due(l, i + 1)
  {
    var m := RemoveAt(l, k);
    if i == k {
      assert m[..k] == l[..k];
      SumOfPrefix(m, l, k);
      assert Sum(l, k + 1) == Sum(l, k) + l[k].delta;
      assert Due(l, k + 1) == Sum(l, k) + l[k].delta + l[k + 1].delta;
    } else {
      RemovedDue(l, k, i - 1);
    }
  }

  lemma {:induction false} ShiftMeans(l: seq<Ev>, d: int)
    ensures var m := Shift(l, d);
      && |m| == |l| && (Ordered(l) ==> Ordered(m))
      && (forall i :: 0 <= i < |l| ==> m[i].id == l[i].id && Due(m, i) == Due(l, i) - d)
  {
    forall i: nat | i < |l| ensures Shift(l, d)[i].id == l[i].id && Due(Shift(l, d), i) == Due(l, i) - d {
      ShiftedDue(l, d, i);
    }
  }

  lemma {:induction false} ShiftedDue(l: seq<Ev>, d: int, i: nat)
    requires i < |l|
    ensures Due(Shift(l, d), i) == Due(l, i) - d
  {
    if i > 0 {
      ShiftedDue(l, d, i - 1);
    } else {
      assert Sum(l, 0) == 0 && Sum(Shift(l, d), 0) == 0;
    }
  }

  /** Searching on from a place that everything before is known to precede finds the same slot. */
  lemma {:induction false} SlotFrom(l: seq<Ev>, i: nat, k: nat, delta: int, early: bool)
    requires i <= k <= |l| && Ordered(l)
    requires forall j :: i <= j < k ==> Passes(Due(l, j), delta, early)
    ensures Slot(l, i, delta - Sum(l, i), early) == Slot(l, k, delta - Sum(l, k), early)
    decreases k - i
  {
    if i < k {
      assert Due(l, i) == Sum(l, i) + l[i].delta;
      SlotFrom(l, i + 1, k, delta, early);
    }
  }

  // ---------------------------------------------------------------- absolute deadlines

  /** An event and its deadline, on a clock with `unit` ticks per distance step, from origin `last`. */
  function Stamp(l: seq<Ev>, last: int, unit: int, i: nat): (nat, int)
    requires i < |l|
  {
    (l[i].id, When(last, unit, Due(l, i)))
  }

  function When(last: int, unit: int, d: int): int { last + unit * d }

  /** The deadlines a list stands for. */
  ghost function Deadlines(l: seq<Ev>, last: int, unit: int): set<(nat, int)> {
    set i: nat | i < |l| :: Stamp(l, last, unit, i)
  }

  /** Refinement of insertion: one more deadline. */
  lemma {:induction false} InsertAddsDeadline(l: seq<Ev>, id: nat, delta: int, early: bool, last: int, unit: int)
    requires Ordered(l)
    ensures Deadlines(Insert(l, id, delta, early), last, unit) == Deadlines(l, last, unit) + {(id, When(last, unit, delta))}
  {
    InsertMeans(l, id, delta, early);
    var m, k := Insert(l, id, delta, early), Slot(l, 0, delta, early).0;
    assert Stamp(m, last, unit, k) == (id, When(last, unit, delta));
    forall i: nat | i < |l| ensures Stamp(l, last, unit, i) in Deadlines(m, last, unit) {
      var j := if i < k then i else i + 1;
      assert Stamp(m, last, unit, j) == Stamp(l, last, unit, i);
    }
    forall j: nat | j < |m| && j != k ensures Stamp(m, last, unit, j) in Deadlines(l, last, unit) {
      var i := if j < k then j else j - 1;
      assert m[j].id == l[i].id && Due(m, j) == Due(l, i);
      assert Stamp(m, last, unit, j) == Stamp(l, last, unit, i);
    }
  }

  /** Refinement of removal: exactly that event's deadline goes. */
  lemma {:induction false} RemoveDropsDeadline(l: seq<Ev>, k: nat, last: int, unit: int)
    requires k < |l| && Unique(l)
    ensures Deadlines(RemoveAt(l, k), last, unit) == Deadlines(l, last, unit) - {Stamp(l, last, unit, k)}
  {
    RemoveMeans(l, k);
    var m := RemoveAt(l, k);
    forall i: nat | i < |m| ensures Stamp(m, last, unit, i) in Deadlines(l, last, unit) - {Stamp(l, last, unit, k)} {
      var j := if i < k then i else i + 1;
      assert Stamp(m, last, unit, i) == Stamp(l, last, unit, j);
    }
    forall j: nat | j < |l| && j != k ensures Stamp(l, last, unit, j) in Deadlines(m, last, unit) {
      var i := if j < k then j else j - 1;
      assert m[i].id == l[j].id && Due(m, i) == Due(l, j);
      assert Stamp(m, last, unit, i) == Stamp(l, last, unit, j);
    }
  }

  lemma {:induction false} RemoveKeepsIds(l: seq<Ev>, k: nat)
    requires k < |l| && Unique(l)
    ensures Unique(RemoveAt(l, k))
    ensures forall id :: Has(RemoveAt(l, k), id) <==> Has(l, id) && id != l[k].id
  {
    RemoveMeans(l, k);
    var m := RemoveAt(l, k);
    assert forall i :: 0 <= i < |m| ==> m[i].id == if i < k then l[i].id else l[i + 1].id;
    forall id | Has(l, id) && id != l[k].id ensures Has(m, id) {
      var j :| 0 <= j < |l| && l[j].id == id;
      assert m[if j < k then j else j - 1].id == id;
    }
  }

  lemma {:induction false} InsertKeepsIds(l: seq<Ev>, id: nat, delta: int, early: bool)
    requires Ordered(l) && Unique(l) && !Has(l, id)
    ensures Unique(Insert(l, id, delta, early))
    ensures forall x :: Has(Insert(l, id, delta, early), x) <==> Has(l, x) || x == id
  {
    InsertMeans(l, id, delta, early);
    var m, k := Insert(l, id, delta, early), Slot(l, 0, delta, early).0;
    assert forall i :: 0 <= i < |m| ==> m[i].id == if i < k then l[i].id else if i == k then id else l[i - 1].id;
    forall x | Has(l, x) ensures Has(m, x) {
      var j :| 0 <= j < |l| && l[j].id == x;
      assert m[if j < k then j else j + 1].id == x;
    }
  }

  /** Moving the origin and the head together changes no deadline. */
  lemma {:induction false} ShiftKeepsDeadlines(l: seq<Ev>, d: int, last: int, unit: int)
    ensures Deadlines(Shift(l, d), last + unit * d, unit) == Deadlines(l, last, unit)
    ensures Unique(l) ==> Unique(Shift(l, d))
    ensures forall id :: Has(Shift(l, d), id) <==> Has(l, id)
  {
    ShiftMeans(l, d);
    var m := Shift(l, d);
    var now := last + unit * d;
    forall i: nat | i < |l| ensures Stamp(m, now, unit, i) == Stamp(l, last, unit, i) {
      assert unit * (Due(l, i) - d) == unit * Due(l, i) - unit * d;
    }
    forall i: nat | i < |l| ensures Stamp(l, last, unit, i) in Deadlines(m, now, unit) {
      assert Stamp(m, now, unit, i) == Stamp(l, last, unit, i);
    }
    forall i: nat | i < |m| ensures Stamp(m, now, unit, i) in Deadlines(l, last, unit) {
      assert Stamp(m, now, unit, i) == Stamp(l, last, unit, i);
    }
    forall id ensures Has(m, id) <==> Has(l, id) {
      if i :| 0 <= i < |l| && l[i].id == id { assert m[i].id == id; }
      if i :| 0 <= i < |m| && m[i].id == id { assert l[i].id == id; }
    }
  }
}
