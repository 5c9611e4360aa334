/** The event timer with 10 ms granularity over a clock that counts 5 ms (kernel/timer.c). */
module Timers {
  import opened DeltaList

  /** Clock ticks per unit of distance. */
  const UNIT := 2

  /** Whole units from `last` to `now`. */
  function Elapsed(last: int, now: int): int { (now - last) / UNIT }

  class EventTimer {
    var list: seq<Ev>
    var last: int
    var started: bool

    ghost predicate Valid()
      reads this
    {
      Ordered(list) && Unique(list) && (|list| > 0 ==> started)
    }

    ghost function Absolute(): set<(nat, int)>
      reads this
    {
      Deadlines(list, last, UNIT)
    }

    constructor ()
      ensures Valid() && list == [] && Absolute() == {}
    {
      list, last, started := [], 0, false;
    }

    /** The clock has not gone backwards, or nothing is pending. */
    ghost predicate Forward(now: int)
      reads this
    {
      last <= now || list == []
    }

    /** Brings the head's distance up to date; the odd tick stays for the next call, so no deadline changes. */
    method UpdateHead(now: int)
      requires Valid()
      modifies this
      ensures Valid() && started
      ensures last <= now < last + UNIT
      ensures old(Forward(now)) ==> Absolute() == old(Absolute())
      ensures old(Forward(now)) && |list| > 0 ==>
        var d := Elapsed(old(last), now); list == Shift(old(list), d) && last == old(last) + UNIT * d
      ensures !old(Forward(now)) ==> list == old(list) && last == now
      ensures |list| == |old(list)| && forall id :: Has(list, id) <==> Has(old(list), id)
    {
      if !started || |list| == 0 || now - last < 0 {
        last, started := now, true;
      } else {
        var diff := (now - last) / UNIT;
        ShiftKeepsDeadlines(list, diff, last, UNIT);
        ShiftMeans(list, diff);
        list := list[0 := Ev(list[0].id, list[0].delta - diff)];
        last := last + diff * UNIT;
      }
    }

    /** The insertion loop, from place `from` on. */
    method FindSlot(from: nat, delta: int) returns (k: nat, d: int)
      requires from <= |list|
      ensures (k, d) == Slot(list, from, delta, false) && k <= |list|
    {
      k, d := from, delta;
      while k < |list| && list[k].delta <= d
        invariant k <= |list| && Slot(list, k, d, false) == Slot(list, from, delta, false)
        decreases |list| - k
      {
        d, k := d - list[k].delta, k + 1;
      }
    }

    /** Inserts an event; with nothing left to wait it fires at once instead. */
    method EventInsert(id: nat, delta: int, now: int) returns (fired: bool)
      requires Valid() && !Has(list, id)
      modifies this
      ensures Valid() && fired == (delta <= 0)
      ensures fired ==> list == old(list) && last == old(last)
      ensures !fired ==> last <= now < last + UNIT
      ensures !fired && old(Forward(now)) ==> Absolute() == old(Absolute()) + {(id, last + UNIT * delta)}
      ensures !fired && !old(Forward(now)) ==> last == now && list == Insert(old(list), id, delta, false)
      ensures !fired ==> forall x :: Has(list, x) <==> Has(old(list), x) || x == id
    {
      if delta <= 0 {
        return true;
      }
      UpdateHead(now);
      Inserted(list, id, delta, last);
      var k, d := FindSlot(0, delta);
      list := Link(list, k, id, d);
      return false;
    }

    /** Sets an event, whether it was pending or not; no other deadline changes. */
    method EventAdd(id: nat, delta: int, now: int) returns (fired: bool)
      requires Valid()
      modifies this
      ensures Valid() && fired == (delta <= 0) && Has(list, id) == !fired
      ensures !fired ==> last <= now < last + UNIT
      ensures !fired && old(Forward(now)) ==> (id, last + UNIT * delta) in Absolute()
      ensures old(Forward(now)) ==> forall p: (nat, int) :: p.0 != id ==> (p in Absolute() <==> p in old(Absolute()))
    {
      var _ := EventRemove(id);
      fired := EventInsert(id, delta, now);
    }

    /** The place of an event in the list, or the list's length. */
    method Find(id: nat) returns (k: nat)
      ensures k <= |list| && (k < |list| ==> list[k].id == id) && (k == |list| ==> !Has(list, id))
    {
      k := 0;
      while k < |list| && list[k].id != id
        invariant k <= |list| && forall i :: 0 <= i < k ==> list[i].id != id
      {
        k := k + 1;
      }
    }

    /** Takes an event out; no other deadline changes. */
    method EventRemove(id: nat) returns (found: bool)
      requires Valid()
      modifies `list
      ensures Valid() && found == Has(old(list), id) && !Has(list, id)
      ensures !found ==> list == old(list)
      ensures forall p :: p in Absolute() <==> p in old(Absolute()) && p.0 != id
    {
      var k := Find(id);
      if k == |list| {
        NotListed(list, last, id);
        return false;
      }
      Unlink(k);
      return true;
    }

    method Unlink(k: nat)
      requires Valid() && k < |list|
      modifies `list
      ensures Valid() && list == RemoveAt(old(list), k) && !Has(list, old(list)[k].id)
      ensures forall p :: p in Absolute() <==> p in old(Absolute()) && p.0 != old(list)[k].id
    {
      RemoveDropsDeadline(list, k, last, UNIT);
      RemoveKeepsIds(list, k);
      RemoveMeans(list, k);
      OnlyStamp(list, k, last);
      NotListed(RemoveAt(list, k), last, list[k].id);
      list := RemoveAt(list, k);
    }

    /** Time until an event, in units, and whether there is one. */
    method EventDelta(id: nat, now: int) returns (ticks: int, found: bool)
      requires Valid()
      modifies this
      ensures Valid() && found == Has(list, id) == Has(old(list), id)
      ensures found ==> (id, last + UNIT * ticks) in Absolute() && last <= now < last + UNIT
      ensures !found ==> ticks == 0
      ensures old(Forward(now)) ==> Absolute() == old(Absolute())
    {
      UpdateHead(now);
      var k := Find(id);
      found := k < |list|;
      ticks := 0;
      if found {
        ticks := SumTo(k + 1);
        assert Stamp(list, last, UNIT, k) == (id, last + UNIT * ticks);
      }
    }

    method SumTo(n: nat) returns (s: int)
      requires n <= |list|
      ensures s == Sum(list, n)
    {
      s := 0;
      for i := 0 to n
        invariant s == Sum(list, i)
      {
        s := s + list[i].delta;
      }
    }

    /**
     * Gives a listed event a new time. The usual case, a later time, searches on from the event's own place;
     * the result is what taking the event out and inserting it afresh would give.
     */
    method EventReset(id: nat, delta: int, now: int) returns (found: bool, fired: bool)
      requires Valid()
      modifies this
      ensures Valid() && found == Has(old(list), id)
      ensures fired ==> delta <= 0 && !Has(list, id)
      ensures old(Forward(now)) && found ==>
        (fired <==> delta <= 0 && exists due :: (id, due) in old(Absolute()) && last + UNIT * delta < due)
      ensures found && !fired ==> (id, last + UNIT * delta) in Absolute()
      ensures found && !fired ==> last <= now < last + UNIT
      ensures old(Forward(now)) ==> forall p: (nat, int) :: p.0 != id ==> (p in Absolute() <==> p in old(Absolute()))
    {
      UpdateHead(now);
      var k := Find(id);
      found, fired := k < |list|, false;
      if !found {
        return;
      }
      var ticks := SumTo(k + 1);
      assert Stamp(list, last, UNIT, k) == (id, last + UNIT * ticks);
      OnlyStamp(list, k, last);
      if delta == ticks {
        assert Stamp(list, last, UNIT, k) == (id, last + UNIT * delta);
        return;
      }
      var own := list[k].delta;
      ghost var was := list;
      Unlink(k);
      if delta > ticks {
        LinkLater(was, id, k, delta, delta - (ticks - own));
      } else {
        fired := EventInsert(id, delta, now);
      }
    }

    /** Links an event in again behind the place `k` it was taken from; `rest` counts from there. */
    method LinkLater(ghost was: seq<Ev>, id: nat, k: nat, delta: int, rest: int)
      requires Valid() && started && !Has(list, id) && k < |was| && Ordered(was) && list == RemoveAt(was, k)
      requires Due(was, k) < delta && rest == delta - (Due(was, k) - was[k].delta)
      modifies `list
      ensures Valid() && list == Insert(old(list), id, delta, false)
      ensures Absolute() == old(Absolute()) + {(id, last + UNIT * delta)}
    {
      Inserted(list, id, delta, last);
      var at, d := FindSlot(k, rest);
      assert (at, d) == Slot(list, 0, delta, false) by { SearchOn(was, k, delta); }
      assert Link(list, at, id, d) == Insert(list, id, delta, false);
      list := Link(list, at, id, d);
    }

    /** Takes the head off if it is due. */
    method PopDue(now: int) returns (id: nat, due: bool)
      requires Valid()
      modifies this
      ensures Valid() && last <= now < last + UNIT
      ensures old(Forward(now)) ==>
        var all := old(Absolute());
        && (due <==> exists p :: p in all && p.1 <= now)
        && (due ==> exists t :: (id, t) in all && Absolute() == all - {(id, t)} && t <= now && forall p :: p in all ==> t <= p.1)
        && (!due ==> Absolute() == all)
      ensures due ==> |list| == |old(list)| - 1
    {
      UpdateHead(now);
      if |list| == 0 {
        return 0, false;
      }
      DueFromHead(list, last, now);
      if list[0].delta > 0 {
        return 0, false;
      }
      id := list[0].id;
      assert Stamp(list, last, UNIT, 0) in Absolute();
      ghost var t := last + UNIT * Due(list, 0);
      assert Stamp(list, last, UNIT, 0) == (id, t);
      RemoveDropsDeadline(list, 0, last, UNIT);
      RemoveKeepsIds(list, 0);
      RemoveMeans(list, 0);
      list := RemoveAt(list, 0);
      return id, true;
    }

    /** Fires what is due at clock reading `now`: exactly that, in order of deadlines. */
    method CheckEvents(now: int) returns (fired: seq<nat>)
      requires Valid()
      modifies this
      ensures Valid()
      ensures old(Forward(now)) ==> exists n :: FiredFirst(old(list), old(last), n, now, fired)
      ensures old(Forward(now)) ==> forall p :: p in Absolute() <==> p in old(Absolute()) && now < p.1
    {
      ghost var was, from, forward := list, last, Forward(now);
      fired := [];
      UpdateHead(now);
      ghost var l, o := list, last;
      while |list| > 0 && list[0].delta <= 0
        invariant Valid() && last == o && o <= now < o + UNIT
        invariant |fired| <= |l| && SuffixOf(list, l, |fired|)
        invariant forall i :: 0 <= i < |fired| ==> fired[i] == l[i].id && Due(l, i) <= 0
        decreases |list|
      {
        RemoveMeans(list, 0);
        RemoveKeepsIds(list, 0);
        HeadIsDue(list, l, |fired|);
        SuffixShrinks(list, l, |fired|);
        fired := fired + [list[0].id];
        list := RemoveAt(list, 0);
      }
      RestIsLater(list, l, |fired|);
      ExactlyTheDue(list, l, |fired|, o, now);
      if forward && |was| > 0 {
        FiredMeans(was, from, now, l, o, fired);
      }
      assert forward ==> FiredFirst(was, from, |fired|, now, fired);
    }
  }

  /** `m` is `l` without its first `n` entries, with the same due times. */
  ghost predicate SuffixOf(m: seq<Ev>, l: seq<Ev>, n: nat) {
    |l| == n + |m| && forall i :: 0 <= i < |m| ==> m[i].id == l[n + i].id && Due(m, i) == Due(l, n + i)
  }

  /** Exactly the first `n` entries of `l` are due at `now`, and they were fired in order. */
  ghost predicate FiredFirst(l: seq<Ev>, last: int, n: nat, now: int, fired: seq<nat>) {
    && n == |fired| <= |l|
    && (forall i :: 0 <= i < n ==> fired[i] == l[i].id && last + UNIT * Due(l, i) <= now)
    && (forall i :: n <= i < |l| ==> now < last + UNIT * Due(l, i))
  }

  lemma {:induction false} HeadIsDue(m: seq<Ev>, l: seq<Ev>, n: nat)
    requires SuffixOf(m, l, n) && |m| > 0
    ensures Due(l, n) == m[0].delta && l[n].id == m[0].id
  {
    assert Due(m, 0) == Sum(m, 0) + m[0].delta;
  }

  lemma {:induction false} SuffixShrinks(m: seq<Ev>, l: seq<Ev>, n: nat)
    requires SuffixOf(m, l, n) && |m| > 0
    ensures SuffixOf(RemoveAt(m, 0), l, n + 1)
  {
    RemoveMeans(m, 0);
  }

  lemma {:induction false} RestIsLater(m: seq<Ev>, l: seq<Ev>, n: nat)
    requires SuffixOf(m, l, n) && Ordered(m) && (|m| > 0 ==> m[0].delta > 0)
    ensures forall i :: n <= i < |l| ==> Due(l, i) > 0
  {
    forall i: nat | n <= i < |l| ensures Due(l, i) > 0 {
      DueRises(m, 0, i - n);
      HeadIsDue(m, l, n);
    }
  }

  /** An event that is not listed has no deadline. */
  lemma {:induction false} NotListed(l: seq<Ev>, last: int, id: nat)
    ensures !Has(l, id) ==> forall p :: p in Deadlines(l, last, UNIT) ==> p.0 != id
  {
  }

  /** In a list without repetitions each event has one deadline. */
  lemma {:induction false} OnlyStamp(l: seq<Ev>, k: nat, last: int)
    requires k < |l| && Unique(l)
    ensures forall p :: p in Deadlines(l, last, UNIT) && p.0 == l[k].id ==> p == Stamp(l, last, UNIT, k)
  {
  }

  lemma {:induction false} Inserted(l: seq<Ev>, id: nat, delta: int, last: int)
    requires Ordered(l) && Unique(l) && !Has(l, id)
    ensures var m := Insert(l, id, delta, false);
      && Ordered(m) && Unique(m) && (forall x :: Has(m, x) <==> Has(l, x) || x == id)
      && Deadlines(m, last, UNIT) == Deadlines(l, last, UNIT) + {(id, last + UNIT * delta)}
  {
    InsertAddsDeadline(l, id, delta, false, last, UNIT);
    InsertKeepsIds(l, id, delta, false);
    InsertMeans(l, id, delta, false);
  }

  /** Searching on from the place an event was taken from is the same as searching from the start. */
  lemma {:induction false} SearchOn(l: seq<Ev>, k: nat, delta: int)
    requires Ordered(l) && k < |l| && Due(l, k) < delta
    ensures var m := RemoveAt(l, k); Slot(m, 0, delta, false) == Slot(m, k, delta - (Due(l, k) - l[k].delta), false)
    ensures Slot(RemoveAt(l, k), 0, delta, false).0 <= |RemoveAt(l, k)|
  {
    var m := RemoveAt(l, k);
    RemoveMeans(l, k);
    forall j: nat | j < k ensures Passes(Due(m, j), delta, false) {
      DueRises(l, j, k);
    }
    assert m[..k] == l[..k];
    SumOfPrefix(m, l, k);
    assert Due(l, k) == Sum(l, k) + l[k].delta;
    SlotFrom(m, 0, k, delta, false);
    assert Sum(m, 0) == 0;
    SlotInRange(m, 0, delta, false);
  }

  lemma {:induction false} DueFromHead(l: seq<Ev>, last: int, now: int)
    requires Ordered(l) && |l| > 0 && last <= now < last + UNIT
    ensures l[0].delta == Due(l, 0)
    ensures forall p :: p in Deadlines(l, last, UNIT) ==> last + UNIT * l[0].delta <= p.1
    ensures last + UNIT * l[0].delta <= now <==> l[0].delta <= 0
  {
    assert Sum(l, 0) == 0;
    forall i: nat | i < |l| ensures l[0].delta <= Due(l, i) {
      DueRises(l, 0, i);
    }
  }

  lemma {:induction false} ExactlyTheDue(m: seq<Ev>, l: seq<Ev>, n: nat, last: int, now: int)
    requires SuffixOf(m, l, n) && last <= now < last + UNIT
    requires forall i :: 0 <= i < n ==> Due(l, i) <= 0
    requires forall i :: n <= i < |l| ==> Due(l, i) > 0
    ensures forall p :: p in Deadlines(m, last, UNIT) <==> p in Deadlines(l, last, UNIT) && now < p.1
  {
    forall i: nat | i < |m| ensures Stamp(m, last, UNIT, i) == Stamp(l, last, UNIT, n + i) {
    }
    forall i: nat | n <= i < |l| ensures Stamp(l, last, UNIT, i) in Deadlines(m, last, UNIT) {
      assert Stamp(l, last, UNIT, i) == Stamp(m, last, UNIT, i - n);
    }
  }

  lemma {:induction false} FiredMeans(was: seq<Ev>, from: int, now: int, l: seq<Ev>, o: int, fired: seq<nat>)
    requires l == Shift(was, Elapsed(from, now)) && o == from + UNIT * Elapsed(from, now) && o <= now < o + UNIT
    requires |fired| <= |l|
    requires forall i :: 0 <= i < |fired| ==> fired[i] == l[i].id && Due(l, i) <= 0
    requires forall i :: |fired| <= i < |l| ==> Due(l, i) > 0
    ensures FiredFirst(was, from, |fired|, now, fired)
  {
    ShiftMeans(was, Elapsed(from, now));
    forall i: nat | i < |was| ensures from + UNIT * Due(was, i) == o + UNIT * Due(l, i) {
    }
  }

  // ---------------------------------------------------------------- many readings

  /** The origin after a series of clock readings, as the updates move it. */
  function Origin(last: int, readings: seq<int>): int
    decreases |readings|
  {
    if |readings| == 0 then last else
    var o, now := Origin(last, readings[..|readings| - 1]), readings[|readings| - 1];
    if now < o then now else o + UNIT * Elapsed(o, now)
  }

  /** Whatever the clock does, the origin is less than one unit behind the last reading. */
  lemma {:induction false} OriginIsCurrent(last: int, readings: seq<int>)
    requires |readings| > 0
    ensures Origin(last, readings) <= readings[|readings| - 1] < Origin(last, readings) + UNIT
  {
  }

  /** The clock starts at or after `last` and never falls. */
  ghost predicate Rising(last: int, readings: seq<int>) {
    && (forall i :: 0 <= i < |readings| ==> last <= readings[i])
    && (forall i, j :: 0 <= i < j < |readings| ==> readings[i] <= readings[j])
  }

  /** Over any number of readings no half unit is lost: the origin is where one single update would put it. */
  lemma {:induction false} NoHalfTickLost(last: int, readings: seq<int>)
    requires |readings| > 0 && Rising(last, readings)
    ensures Origin(last, readings) == last + UNIT * Elapsed(last, readings[|readings| - 1])
  {
    var n := |readings| - 1;
    var o := Origin(last, readings[..n]);
    if n > 0 {
      NoHalfTickLost(last, readings[..n]);
      OriginIsCurrent(last, readings[..n]);
      var c := Elapsed(last, readings[..n][n - 1]);
      assert o == last + UNIT * c && o <= readings[..n][n - 1] <= readings[n];
      assert readings[n] - o == (readings[n] - last) - UNIT * c;
    }
  }
}
