/** The kernel's own timeout queue and its list of expired entries kept for reuse (kernel/timeout.c). */
module RootTimeouts {
  import opened DeltaList

  /** Ticks of 5 ms after which an expired entry is old. */
  const EXPIRE_LIMIT := 400

  datatype Old = Old(id: nat, func: nat, when: int)

  /** Newest first. */
  ghost predicate Falling(e: seq<Old>) { forall i, j :: 0 <= i < j < |e| ==> e[j].when <= e[i].when }

  /** The entries that are not old at `now`. */
  function Young(e: seq<Old>, now: int): seq<Old> {
    if |e| == 0 then [] else (if e[0].when < now then [] else [e[0]]) + Young(e[1..], now)
  }

  /** In a falling list the old entries are exactly those from the first old one on. */
  lemma {:induction false} OldAreLast(e: seq<Old>, now: int, n: nat)
    requires Falling(e) && n <= |e|
    requires forall i :: 0 <= i < n ==> now <= e[i].when
    requires n < |e| ==> e[n].when < now
    ensures Young(e, now) == e[..n]
  {
    if |e| > 0 {
      if n > 0 {
        OldAreLast(e[1..], now, n - 1);
        assert e[..n] == [e[0]] + e[1..][..n - 1];
      } else {
        OldAreLast(e[1..], now, 0);
      }
    }
  }

  class TimeoutQueue {
    var tlist: seq<Ev>
    var funcs: map<nat, nat>
    var expired: seq<Old>
    ghost var clock: int

    ghost predicate Valid()
      reads this
    {
      && Ordered(tlist) && Unique(tlist) && Falling(expired)
      && (forall i :: 0 <= i < |tlist| ==> tlist[i].id in funcs)
      && (forall i, j :: 0 <= i < j < |expired| ==> expired[i].id != expired[j].id)
      && (forall i :: 0 <= i < |expired| ==> !Has(tlist, expired[i].id))
    }

    ghost function Absolute(): set<(nat, int)>
      reads this
    {
      Deadlines(tlist, clock, 1)
    }

    constructor ()
      ensures Valid() && tlist == [] && expired == []
    {
      tlist, funcs, expired, clock := [], map[], [], 0;
    }

    /** The system timer: the head comes closer, no deadline changes. */
    method Tick(ms: nat)
      requires Valid()
      modifies `tlist, `clock
      ensures Valid() && clock == old(clock) + ms && Absolute() == old(Absolute())
      ensures forall id :: Has(tlist, id) <==> Has(old(tlist), id)
    {
      ShiftKeepsDeadlines(tlist, ms, clock, 1);
      ShiftMeans(tlist, ms);
      if |tlist| > 0 {
        tlist := tlist[0 := Ev(tlist[0].id, tlist[0].delta - ms)];
      }
      clock := clock + ms;
    }

    /** Links an entry in, before others that are due at the same time. */
    method Insert(id: nat, delta: int)
      requires Valid() && !Has(tlist, id) && id in funcs
      requires forall i :: 0 <= i < |expired| ==> expired[i].id != id
      modifies `tlist
      ensures Valid() && tlist == DeltaList.Insert(old(tlist), id, delta, true)
      ensures Absolute() == old(Absolute()) + {(id, clock + delta)}
      ensures forall x :: Has(tlist, x) <==> Has(old(tlist), x) || x == id
    {
      InsertAddsDeadline(tlist, id, delta, true, clock, 1);
      InsertKeepsIds(tlist, id, delta, true);
      InsertMeans(tlist, id, delta, true);
      var k: nat, d := 0, delta;
      while k < |tlist| && tlist[k].delta < d
        invariant k <= |tlist| && Slot(tlist, k, d, true) == Slot(tlist, 0, delta, true)
        decreases |tlist| - k
      {
        d, k := d - tlist[k].delta, k + 1;
      }
      ghost var was := tlist;
      tlist := Link(tlist, k, id, d);
      ListedKnown(tlist, funcs, was, id);
    }

    /** The first expired entry for `func`, or the number of them. */
    method FindExpired(func: nat) returns (k: nat)
      ensures k <= |expired| && (k < |expired| ==> expired[k].func == func)
      ensures forall i :: 0 <= i < k ==> expired[i].func != func
    {
      k := 0;
      while k < |expired| && expired[k].func != func
        invariant k <= |expired| && forall i :: 0 <= i < k ==> expired[i].func != func
      {
        k := k + 1;
      }
    }

    /** Sets a timeout: an expired entry of the same function is reused, otherwise `spare` is, if there is one. */
    method AddRoot(delta: int, func: nat, spare: nat, available: bool) returns (id: nat, ok: bool)
      requires Valid() && !Has(tlist, spare) && forall i :: 0 <= i < |expired| ==> expired[i].id != spare
      modifies this
      ensures Valid() && clock == old(clock)
      ensures ok <==> available || exists i :: 0 <= i < |old(expired)| && old(expired)[i].func == func
      ensures ok ==> Absolute() == old(Absolute()) + {(id, clock + delta)} && !Has(old(tlist), id) && funcs[id] == func
      ensures !ok ==> tlist == old(tlist) && expired == old(expired)
      ensures forall x :: x in expired ==> x in old(expired)
    {
      var k := FindExpired(func);
      if k < |expired| {
        id := expired[k].id;
        expired := expired[..k] + expired[k + 1..];
      } else if available {
        id := spare;
      } else {
        return 0, false;
      }
      funcs := funcs[id := func];
      Insert(id, delta);
      return id, true;
    }

    /** Cancels a timeout wherever it is; an unknown one is left alone. */
    method Cancel(id: nat)
      requires Valid()
      modifies this
      ensures Valid() && clock == old(clock) && !Has(tlist, id) && forall i :: 0 <= i < |expired| ==> expired[i].id != id
      ensures forall p :: p in Absolute() <==> p in old(Absolute()) && p.0 != id
      ensures forall x :: x in expired <==> x in old(expired) && x.id != id
    {
      var k := 0;
      while k < |expired| && expired[k].id != id
        invariant k <= |expired| && forall i :: 0 <= i < k ==> expired[i].id != id
      {
        k := k + 1;
      }
      if k < |expired| {
        NoDeadline(tlist, clock, id);
        expired := expired[..k] + expired[k + 1..];
        return;
      }
      k := 0;
      while k < |tlist| && tlist[k].id != id
        invariant k <= |tlist| && forall i :: 0 <= i < k ==> tlist[i].id != id
      {
        k := k + 1;
      }
      if k < |tlist| {
        Unlink(k);
      } else {
        NoDeadline(tlist, clock, id);
      }
    }

    method Unlink(k: nat)
      requires Valid() && k < |tlist|
      modifies `tlist
      ensures Valid() && tlist == RemoveAt(old(tlist), k) && !Has(tlist, old(tlist)[k].id)
      ensures forall p :: p in Absolute() <==> p in old(Absolute()) && p.0 != old(tlist)[k].id
    {
      RemoveDropsDeadline(tlist, k, clock, 1);
      RemoveKeepsIds(tlist, k);
      RemoveMeans(tlist, k);
      OneDeadline(tlist, k, clock);
      NoDeadline(RemoveAt(tlist, k), clock, tlist[k].id);
      tlist := RemoveAt(tlist, k);
    }

    /** Takes the next due timeout off and keeps it as expired; `hz` is the 5 ms clock. */
    method Expire(hz: int) returns (id: nat, due: bool)
      requires Valid() && forall i :: 0 <= i < |expired| ==> expired[i].when <= hz + EXPIRE_LIMIT
      modifies `tlist, `expired
      ensures Valid() && forall i :: 0 <= i < |expired| ==> expired[i].when <= hz + EXPIRE_LIMIT
      ensures due <==> exists p :: p in old(Absolute()) && p.1 <= clock
      ensures due ==> id in funcs && expired == [Old(id, funcs[id], hz + EXPIRE_LIMIT)] + old(expired)
      ensures due ==> |old(tlist)| > 0 && id == old(tlist)[0].id && tlist == RemoveAt(old(tlist), 0)
      ensures due ==> exists t :: (id, t) in old(Absolute()) && t <= clock && forall p :: p in old(Absolute()) ==> t <= p.1
      ensures due ==> forall p :: p in Absolute() <==> p in old(Absolute()) && p.0 != id
      ensures !due ==> tlist == old(tlist) && expired == old(expired)
    {
      if |tlist| == 0 {
        return 0, false;
      }
      HeadIsFirst(tlist, clock);
      if tlist[0].delta > 0 {
        return 0, false;
      }
      id := tlist[0].id;
      assert Stamp(tlist, clock, 1, 0) == (id, clock + tlist[0].delta);
      Unlink(0);
      expired := [Old(id, funcs[id], hz + EXPIRE_LIMIT)] + expired;
      return id, true;
    }

    /** Throws the old expired entries away: exactly those. */
    method DisposeOld(now: int) returns (disposed: seq<Old>)
      requires Valid()
      modifies `expired
      ensures Valid() && expired == Young(old(expired), now) && expired + disposed == old(expired)
      ensures forall x :: x in disposed ==> x.when < now
    {
      var k := 0;
      while k < |expired| && now <= expired[k].when
        invariant k <= |expired| && forall i :: 0 <= i < k ==> now <= expired[i].when
      {
        k := k + 1;
      }
      OldAreLast(expired, now, k);
      disposed := expired[k..];
      expired := expired[..k];
    }

    /** Runs all due timeouts, earliest first, then tidies up. */
    method CheckAlarms(hz: int) returns (fired: seq<nat>)
      requires Valid() && forall i :: 0 <= i < |expired| ==> expired[i].when <= hz + EXPIRE_LIMIT
      modifies `tlist, `expired
      ensures Valid()
      ensures forall p :: p in Absolute() <==> p in old(Absolute()) && clock < p.1
      ensures forall id :: id in fired <==> exists t :: (id, t) in old(Absolute()) && t <= clock
      ensures FiredInOrder(fired, tlist, old(tlist))
      ensures forall x :: x in expired ==> hz <= x.when
    {
      fired := [];
      ghost var all := Absolute();
      var due := true;
      while due
        invariant Valid() && forall i :: 0 <= i < |expired| ==> expired[i].when <= hz + EXPIRE_LIMIT
        invariant forall p :: p in Absolute() <==> p in all && p.0 !in fired
        invariant forall id :: id in fired ==> exists t :: (id, t) in all && t <= clock
        invariant FiredInOrder(fired, tlist, old(tlist))
        invariant !due ==> forall p :: p in Absolute() ==> clock < p.1
        decreases |tlist| + (if due then 1 else 0)
      {
        ghost var was := tlist;
        var id;
        id, due := Expire(hz);
        if due {
          FiredOneMore(fired, was, old(tlist));
          fired := fired + [id];
        }
      }
      OneDeadlineEach(old(tlist), clock);
      YoungAre(expired, hz);
      var _ := DisposeOld(hz);
    }
  }

  /** The fired events and the remaining ones are the original list in its order. */
  ghost predicate FiredInOrder(fired: seq<nat>, rest: seq<Ev>, all: seq<Ev>) {
    && |fired| + |rest| == |all|
    && (forall i :: 0 <= i < |fired| ==> fired[i] == all[i].id)
    && (forall i :: 0 <= i < |rest| ==> rest[i].id == all[|fired| + i].id)
  }

  lemma {:induction false} FiredOneMore(fired: seq<nat>, rest: seq<Ev>, all: seq<Ev>)
    requires FiredInOrder(fired, rest, all) && |rest| > 0
    ensures FiredInOrder(fired + [rest[0].id], RemoveAt(rest, 0), all)
  {
    RemoveMeans(rest, 0);
  }

  lemma {:induction false} YoungAre(e: seq<Old>, now: int)
    ensures forall x :: x in Young(e, now) ==> now <= x.when
  {
    if |e| > 0 { YoungAre(e[1..], now); }
  }

  lemma {:induction false} ListedKnown(l: seq<Ev>, funcs: map<nat, nat>, was: seq<Ev>, id: nat)
    requires forall x :: Has(l, x) <==> Has(was, x) || x == id
    requires (forall i :: 0 <= i < |was| ==> was[i].id in funcs) && id in funcs
    ensures forall i :: 0 <= i < |l| ==> l[i].id in funcs
  {
    forall i | 0 <= i < |l| ensures l[i].id in funcs {
      assert Has(l, l[i].id);
    }
  }

  lemma {:induction false} NoDeadline(l: seq<Ev>, clock: int, id: nat)
    requires !Has(l, id)
    ensures forall p :: p in Deadlines(l, clock, 1) ==> p.0 != id
  {
  }

  lemma {:induction false} OneDeadline(l: seq<Ev>, k: nat, clock: int)
    requires k < |l| && Unique(l)
    ensures forall p :: p in Deadlines(l, clock, 1) && p.0 == l[k].id ==> p == Stamp(l, clock, 1, k)
  {
  }

  lemma {:induction false} OneDeadlineEach(l: seq<Ev>, clock: int)
    requires Unique(l)
    ensures forall p, q :: p in Deadlines(l, clock, 1) && q in Deadlines(l, clock, 1) && p.0 == q.0 ==> p == q
  {
  }

  lemma {:induction false} HeadIsFirst(l: seq<Ev>, clock: int)
    requires Ordered(l) && |l| > 0
    ensures forall p :: p in Deadlines(l, clock, 1) ==> clock + l[0].delta <= p.1
    ensures (l[0].id, clock + l[0].delta) in Deadlines(l, clock, 1)
  {
    assert Sum(l, 0) == 0;
    assert Stamp(l, clock, 1, 0) == (l[0].id, clock + l[0].delta);
    forall i: nat | i < |l| ensures l[0].delta <= Due(l, i) {
      DueRises(l, 0, i);
    }
  }
}
