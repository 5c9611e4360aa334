/** Searching and changing the routing table (kernel/route.c). */
module RouteTable {
  import opened Common
  import opened Routes

  /** Usable and covering `d`. */
  predicate Matches(r: Route, d: bv32) { r.ttl > 0 && r.up && Covers(r.net, r.mask, d) }

  /** The scan of a list: the first matching host route, else the last matching net route seen. */
  function Scan(l: seq<Route>, d: bv32, best: Option<Route>): Option<Route> {
    if |l| == 0 then best
    else if !Matches(l[0], d) then Scan(l[1..], d, best)
    else if l[0].host then Some(l[0])
    else Scan(l[1..], d, Some(l[0]))
  }

  /** The table: 256 buckets and the default route. */
  datatype Table = Table(all: seq<seq<Route>>, def: Option<Route>)

  /** Every route is in the bucket of its net, (net, mask) keys are unique, and the any-net is not listed. */
  ghost predicate Valid(t: Table) {
    && |t.all| == BUCKETS
    && forall i :: 0 <= i < BUCKETS ==> InBucket(t.all[i], i) && UniqueKeys(t.all[i])
  }

  ghost predicate InBucket(l: seq<Route>, i: nat) { forall r :: r in l ==> Hash(r.net) == i && r.net != 0 }

  ghost predicate UniqueKeys(l: seq<Route>) {
    forall i, j :: 0 <= i < j < |l| ==> !(l[i].net == l[j].net && l[i].mask == l[j].mask)
  }

  /** Masks keep the class bits of their nets. */
  ghost predicate ClassMasks(t: Table) {
    forall i, r :: 0 <= i < |t.all| && r in t.all[i] ==> KeepsClass(r)
  }

  predicate KeepsClass(r: Route) { KeepsBits(r.net, r.mask) }

  lemma {:induction false} SameBucket(r: Route, d: bv32)
    requires KeepsClass(r) && Matches(r, d)
    ensures Hash(d) == Hash(r.net)
  {
    MatchingShareBucket(r.net, r.mask, d);
  }

  function Flat(all: seq<seq<Route>>): seq<Route> {
    if |all| == 0 then [] else all[0] + Flat(all[1..])
  }

  function OrDefault(found: Option<Route>, def: Option<Route>): Option<Route> {
    var r := if found.Some? then found else def;
    if r.Some? && r.value.up then r else None
  }

  /** The answer of a search through the destination's bucket. */
  function BucketSearch(t: Table, d: bv32): Option<Route>
    requires |t.all| == BUCKETS
  {
    OrDefault(Scan(t.all[Hash(d)], d, None), t.def)
  }

  /** The answer of a search through the whole table. */
  function FullSearch(t: Table, d: bv32): Option<Route> { OrDefault(Scan(Flat(t.all), d, None), t.def) }

  // ---------------------------------------------------------------- the scan

  /** What the scan returns: a host route if one matches, else the last matching route. */
  lemma {:induction false} ScanMeans(l: seq<Route>, d: bv32, best: Option<Route>)
    ensures Scan(l, d, best) == None <==> best == None && forall r :: r in l ==> !Matches(r, d)
    ensures forall k :: 0 <= k < |l| && FirstHost(l, d, k) ==> Scan(l, d, best) == Some(l[k])
    ensures forall k :: 0 <= k < |l| && LastNet(l, d, k) ==> Scan(l, d, best) == Some(l[k])
  {
    if |l| > 0 {
      var next := if Matches(l[0], d) && !l[0].host then Some(l[0]) else best;
      ScanMeans(l[1..], d, next);
      forall k: nat | k < |l| && FirstHost(l, d, k) ensures Scan(l, d, best) == Some(l[k]) {
        if k > 0 { assert FirstHost(l[1..], d, k - 1); }
      }
      forall k: nat | k < |l| && LastNet(l, d, k) ensures Scan(l, d, best) == Some(l[k]) {
        if k > 0 {
          assert LastNet(l[1..], d, k - 1);
        } else {
          NoneLeft(l[1..], d, Some(l[0]));
        }
      }
    }
  }

  ghost predicate FirstHost(l: seq<Route>, d: bv32, k: nat)
    requires k < |l|
  {
    Matches(l[k], d) && l[k].host && forall i :: 0 <= i < k ==> !(Matches(l[i], d) && l[i].host)
  }

  ghost predicate LastNet(l: seq<Route>, d: bv32, k: nat)
    requires k < |l|
  {
    && Matches(l[k], d) && (forall i :: 0 <= i < |l| ==> !(Matches(l[i], d) && l[i].host))
    && forall i :: k < i < |l| ==> !Matches(l[i], d)
  }

  /** What a search through `l` with this default must answer: a match goes before the default, which must be up. */
  ghost predicate Best(l: seq<Route>, def: Option<Route>, d: bv32, r: Option<Route>) {
    && (forall k :: 0 <= k < |l| && (FirstHost(l, d, k) || LastNet(l, d, k)) ==> r == Some(l[k]))
    && ((forall x :: x in l ==> !Matches(x, d)) ==> r == if def.Some? && def.value.up then def else None)
  }

  /** Only routes that are up, have not expired and cover the destination are looked at, and all of them are. */
  lemma {:induction false} ScanPicks(l: seq<Route>, d: bv32, best: Option<Route>)
    ensures var r := Scan(l, d, best); r.Some? && r != best ==> r.value in l && r.value.ttl > 0 && r.value.up && Covers(r.value.net, r.value.mask, d)
    ensures (exists x :: x in l && x.ttl > 0 && x.up && Covers(x.net, x.mask, d)) ==> Scan(l, d, best).Some?
    ensures best.Some? ==> Scan(l, d, best).Some?
  {
    hide Covers;
    if |l| > 0 { ScanPicks(l[1..], d, if Matches(l[0], d) && !l[0].host then Some(l[0]) else best); }
  }

  lemma {:induction false} SearchMeans(l: seq<Route>, def: Option<Route>, d: bv32)
    ensures Best(l, def, d, OrDefault(Scan(l, d, None), def))
  {
    ScanMeans(l, d, None);
  }

  /** If anything matches there is a first host route or a last net route. */
  lemma {:induction false} SomethingIsBest(l: seq<Route>, d: bv32, i: nat) returns (k: nat)
    requires i < |l| && Matches(l[i], d)
    ensures k < |l| && (FirstHost(l, d, k) || LastNet(l, d, k))
  {
    k := 0;
    while k < |l| && !(Matches(l[k], d) && l[k].host)
      invariant k <= |l| && forall j :: 0 <= j < k ==> !(Matches(l[j], d) && l[j].host)
    {
      k := k + 1;
    }
    if k == |l| {
      k := |l| - 1;
      while !Matches(l[k], d)
        invariant i <= k < |l| && forall j :: k < j < |l| ==> !Matches(l[j], d)
        decreases k
      {
        k := k - 1;
      }
    }
  }

  /** So a search has exactly one answer. */
  lemma {:induction false} BestIsUnique(l: seq<Route>, def: Option<Route>, d: bv32, r: Option<Route>, r': Option<Route>)
    requires Best(l, def, d, r) && Best(l, def, d, r')
    ensures r == r'
  {
    if x :| x in l && Matches(x, d) {
      var i :| 0 <= i < |l| && l[i] == x;
      var k := SomethingIsBest(l, d, i);
    }
  }

  lemma {:induction false} NoneLeft(l: seq<Route>, d: bv32, best: Option<Route>)
    requires forall i :: 0 <= i < |l| ==> !Matches(l[i], d)
    ensures Scan(l, d, best) == best
  {
    if |l| > 0 { NoneLeft(l[1..], d, best); }
  }

  lemma {:induction false} ScanSkips(a: seq<Route>, b: seq<Route>, d: bv32, best: Option<Route>)
    requires forall r :: r in a ==> !Matches(r, d)
    ensures Scan(a + b, d, best) == Scan(b, d, best)
  {
    if |a| > 0 {
      assert (a + b)[1..] == a[1..] + b;
      ScanSkips(a[1..], b, d, best);
    } else {
      assert a + b == b;
    }
  }

  lemma {:induction false} ScanEnds(a: seq<Route>, b: seq<Route>, d: bv32, best: Option<Route>)
    requires forall r :: r in b ==> !Matches(r, d)
    ensures Scan(a + b, d, best) == Scan(a, d, best)
  {
    if |a| > 0 {
      assert (a + b)[1..] == a[1..] + b;
      ScanEnds(a[1..], b, d, if Matches(a[0], d) && !a[0].host then Some(a[0]) else best);
    } else {
      assert a + b == b;
      NoneLeft(b, d, best);
    }
  }

  lemma {:induction false} FlatMembers(all: seq<seq<Route>>, r: Route)
    ensures r in Flat(all) <==> exists i :: 0 <= i < |all| && r in all[i]
  {
    if |all| > 0 {
      FlatMembers(all[1..], r);
      if i :| 0 <= i < |all[1..]| && r in all[1..][i] { assert r in all[i + 1]; }
      if i :| 0 <= i < |all| && r in all[i] {
        if i > 0 { assert r in all[1..][i - 1]; }
      }
    }
  }

  lemma {:induction false} FlatSplits(all: seq<seq<Route>>, k: nat)
    requires k < |all|
    ensures Flat(all) == Flat(all[..k]) + (all[k] + Flat(all[k + 1..]))
  {
    if k > 0 {
      FlatSplits(all[1..], k - 1);
      assert all[1..][..k - 1] == all[..k][1..];
      assert all[1..][k..] == all[k + 1..];
    } else {
      assert all[..0] == [];
    }
  }

  /** No other bucket has a route for `d`. */
  lemma {:induction false} OtherBucketsSilent(t: Table, d: bv32, k: nat, r: Route)
    requires Valid(t) && ClassMasks(t) && k < BUCKETS && k != Hash(d) && r in t.all[k]
    ensures !Matches(r, d)
  {
    assert KeepsClass(r) && Hash(r.net) == k;
    if Matches(r, d) { SameBucket(r, d); }
  }

  /** One bucket is enough: the search of the destination's bucket finds what a search of all would. */
  lemma {:induction false} OneBucketIsEnough(t: Table, d: bv32)
    requires Valid(t) && ClassMasks(t)
    ensures BucketSearch(t, d) == FullSearch(t, d)
  {
    var k := Hash(d);
    var before, after := Flat(t.all[..k]), Flat(t.all[k + 1..]);
    FlatSplits(t.all, k);
    forall r | r in before ensures !Matches(r, d) {
      FlatMembers(t.all[..k], r);
      var i :| 0 <= i < |t.all[..k]| && r in t.all[..k][i];
      OtherBucketsSilent(t, d, i, r);
    }
    forall r | r in after ensures !Matches(r, d) {
      FlatMembers(t.all[k + 1..], r);
      var i :| 0 <= i < |t.all[k + 1..]| && r in t.all[k + 1..][i];
      OtherBucketsSilent(t, d, k + 1 + i, r);
    }
    ScanSkips(before, t.all[k] + after, d, None);
    ScanEnds(t.all[k], after, d, None);
  }

  // ---------------------------------------------------------------- changing a bucket

  predicate SameKey(r: Route, net: bv32, mask: bv32) { r.net == net && r.mask == mask }

  /** A static route is not overwritten by one that is not. */
  predicate Protected(l: seq<Route>, r: Route) {
    |l| > 0 && (if SameKey(l[0], r.net, r.mask) then l[0].static_ && !r.static_ else Protected(l[1..], r))
  }

  /** Replaces the route with the same key, or appends. */
  function Put(l: seq<Route>, r: Route): seq<Route> {
    if |l| == 0 then [r]
    else if SameKey(l[0], r.net, r.mask) then [r] + l[1..]
    else [l[0]] + Put(l[1..], r)
  }

  /** The routes that stay when `gone` says which go. */
  function Keep(l: seq<Route>, gone: Route -> bool): seq<Route> {
    if |l| == 0 then [] else if gone(l[0]) then Keep(l[1..], gone) else [l[0]] + Keep(l[1..], gone)
  }

  function ByKey(net: bv32, mask: bv32): Route -> bool { (x: Route) => SameKey(x, net, mask) }

  /** Routes over an interface, except local ones. */
  function Via(nif: nat): Route -> bool { (x: Route) => x.nif == nif && !x.local }

  lemma {:induction false} PutMeans(l: seq<Route>, r: Route)
    requires UniqueKeys(l)
    ensures UniqueKeys(Put(l, r))
    ensures forall x :: x in Put(l, r) <==> x == r || (x in l && !SameKey(x, r.net, r.mask))
  {
    if |l| > 0 {
      KeyOnce(l);
      if SameKey(l[0], r.net, r.mask) {
        KeysBehind(r, l[1..]);
      } else {
        PutMeans(l[1..], r);
        assert forall x :: x in Put(l[1..], r) ==> !SameKey(x, l[0].net, l[0].mask);
        KeysBehind(l[0], Put(l[1..], r));
      }
    }
  }

  /** A replaced route keeps its place in the list, a new one goes to the end. */
  lemma {:induction false} PutKeepsPlace(l: seq<Route>, r: Route)
    ensures forall k :: 0 <= k < |l| && SameKey(l[k], r.net, r.mask) && UniqueKeys(l) ==> Put(l, r) == l[k := r]
    ensures (forall x :: x in l ==> !SameKey(x, r.net, r.mask)) ==> Put(l, r) == l + [r]
  {
    if |l| > 0 {
      PutKeepsPlace(l[1..], r);
      forall k: nat | k < |l| && SameKey(l[k], r.net, r.mask) && UniqueKeys(l) ensures Put(l, r) == l[k := r] {
        if k > 0 { assert l[1..][k - 1] == l[k]; }
      }
    }
  }

  /** A list is protected from `r` exactly if it has a static route with the same key and `r` is not static. */
  lemma {:induction false} ProtectedMeans(l: seq<Route>, r: Route)
    requires UniqueKeys(l)
    ensures Protected(l, r) <==> !r.static_ && exists x :: x in l && SameKey(x, r.net, r.mask) && x.static_
  {
    if |l| > 0 {
      KeyOnce(l);
      ProtectedMeans(l[1..], r);
    }
  }

  lemma {:induction false} PutPasses(l: seq<Route>, r: Route, k: nat)
    requires k < |l| && !SameKey(l[k], r.net, r.mask)
    ensures l[..k] + Put(l[k..], r) == l[..k + 1] + Put(l[k + 1..], r)
    ensures Protected(l[k..], r) == Protected(l[k + 1..], r)
  {
    assert l[k..][0] == l[k] && l[k..][1..] == l[k + 1..];
    assert l[..k + 1] == l[..k] + [l[k]];
  }

  lemma {:induction false} PutHere(l: seq<Route>, r: Route, k: nat)
    requires k <= |l| && (k < |l| ==> SameKey(l[k], r.net, r.mask))
    ensures l[..k] + Put(l[k..], r) == l[..k] + [r] + (if k < |l| then l[k + 1..] else [])
    ensures Protected(l[k..], r) == (k < |l| && l[k].static_ && !r.static_)
  {
    if k < |l| { assert l[k..][0] == l[k] && l[k..][1..] == l[k + 1..]; }
  }

  lemma {:induction false} KeyOnce(l: seq<Route>)
    requires UniqueKeys(l) && |l| > 0
    ensures UniqueKeys(l[1..]) && forall x :: x in l[1..] ==> !SameKey(x, l[0].net, l[0].mask)
  {
  }

  lemma {:induction false} KeysBehind(r: Route, l: seq<Route>)
    requires UniqueKeys(l) && forall x :: x in l ==> !SameKey(x, r.net, r.mask)
    ensures UniqueKeys([r] + l)
  {
    assert forall i :: 0 <= i < |l| ==> l[i] in l;
  }

  lemma {:induction false} KeepMeans(l: seq<Route>, gone: Route -> bool)
    requires UniqueKeys(l)
    ensures UniqueKeys(Keep(l, gone))
    ensures forall x :: x in Keep(l, gone) <==> x in l && !gone(x)
  {
    if |l| > 0 {
      KeyOnce(l);
      KeepMeans(l[1..], gone);
      if !gone(l[0]) { KeysBehind(l[0], Keep(l[1..], gone)); }
    }
  }

  /** What stays keeps its order. */
  lemma {:induction false} KeepSplits(a: seq<Route>, b: seq<Route>, gone: Route -> bool)
    ensures Keep(a + b, gone) == Keep(a, gone) + Keep(b, gone)
  {
    if |a| == 0 {
      assert a + b == b;
    } else {
      assert (a + b)[1..] == a[1..] + b;
      KeepSplits(a[1..], b, gone);
    }
  }

  // ---------------------------------------------------------------- changing the table

  /** The any-net sets the default route; a protected route stays. */
  function Added(t: Table, r: Route): Table
    requires |t.all| == BUCKETS
  {
    var l := t.all[Hash(r.net)];
    if r.net == 0 then t.(def := Some(r))
    else if Protected(l, r) then t
    else t.(all := t.all[Hash(r.net) := Put(l, r)])
  }

  /** The any-net stands for the default route if there is one. */
  function Deleted(t: Table, net: bv32, mask: bv32): Table
    requires |t.all| == BUCKETS
  {
    if t.def.Some? && net == 0 then t.(def := None)
    else t.(all := t.all[Hash(net) := Keep(t.all[Hash(net)], ByKey(net, mask))])
  }

  function Flushed(t: Table, nif: nat): Table {
    Table(KeepAll(t.all, Via(nif)), if t.def.Some? && t.def.value.nif == nif then None else t.def)
  }

  function KeepAll(all: seq<seq<Route>>, gone: Route -> bool): (kept: seq<seq<Route>>)
    ensures |kept| == |all| && forall i :: 0 <= i < |all| ==> kept[i] == Keep(all[i], gone)
  {
    if |all| == 0 then [] else [Keep(all[0], gone)] + KeepAll(all[1..], gone)
  }

  /** The table lists the route. */
  predicate Listed(t: Table, r: Route)
    requires |t.all| == BUCKETS
  {
    r in t.all[Hash(r.net)]
  }

  /** An addition lists the new route in place of one with its key, unless that is static and the new one is not. */
  lemma {:induction false} AddedMeans(t: Table, r: Route)
    requires Valid(t)
    ensures var t' := Added(t, r);
      if r.net == 0 then t'.all == t.all && t'.def == Some(r)
      else if !r.static_ && (exists x :: Listed(t, x) && SameKey(x, r.net, r.mask) && x.static_) then t' == t
      else t'.def == t.def && forall x :: Listed(t', x) <==> x == r || (Listed(t, x) && !SameKey(x, r.net, r.mask))
  {
    hide Hash;
    var l := t.all[Hash(r.net)];
    ProtectedMeans(l, r);
    PutMeans(l, r);
    if x :| x in l && SameKey(x, r.net, r.mask) && x.static_ { assert Listed(t, x); }
  }

  /** A deletion takes the route with that key away, or the default route if there is one and it is meant. */
  lemma {:induction false} DeletedMeans(t: Table, net: bv32, mask: bv32)
    requires Valid(t)
    ensures var t' := Deleted(t, net, mask);
      if t.def.Some? && net == 0 then t'.all == t.all && t'.def == None
      else t'.def == t.def && forall x :: Listed(t', x) <==> Listed(t, x) && !SameKey(x, net, mask)
  {
    hide Hash;
    KeepMeans(t.all[Hash(net)], ByKey(net, mask));
  }

  /** Flushing an interface takes away its routes that are not local, and the default route over it. */
  lemma {:induction false} FlushedMeans(t: Table, nif: nat)
    requires Valid(t)
    ensures var t' := Flushed(t, nif);
      && (forall x :: Listed(t', x) <==> Listed(t, x) && !(x.nif == nif && !x.local))
      && t'.def == if t.def.Some? && t.def.value.nif == nif then None else t.def
  {
    hide Hash;
    forall x ensures Listed(Flushed(t, nif), x) <==> Listed(t, x) && !(x.nif == nif && !x.local) {
      KeepMeans(t.all[Hash(x.net)], Via(nif));
    }
  }

  datatype Answer = Done | NoMemory | Denied

  /** The route that is made of an addition's arguments: only a gateway route has a gateway. */
  function Made(r: Route, gateway: bool): Route { if gateway then r else r.(gway := 0) }

  // ---------------------------------------------------------------- as the program runs it

  class Router {
    const all: array<seq<Route>>
    var def: Option<Route>

    ghost function View(): Table
      reads this, all
    {
      Table(all[..], def)
    }

    constructor ()
      ensures fresh(all) && Valid(View()) && def == None
      ensures forall i :: 0 <= i < BUCKETS ==> View().all[i] == []
    {
      all := new seq<Route>[BUCKETS](_ => []);
      def := None;
    }

    /** The route to `d`; with class masks it is the best one of the whole table. */
    method Get(d: bv32) returns (r: Option<Route>)
      requires Valid(View())
      ensures r == BucketSearch(View(), d)
      ensures Best(View().all[Hash(d)], def, d, r)
      ensures r.Some? && r != def ==> r.value in View().all[Hash(d)] && r.value.ttl > 0 && r.value.up && Covers(r.value.net, r.value.mask, d)
      ensures (exists x :: x in View().all[Hash(d)] && x.ttl > 0 && x.up && Covers(x.net, x.mask, d)) ==> r.Some?
      ensures ClassMasks(View()) ==> r == FullSearch(View(), d) && Best(Flat(View().all), def, d, r)
    {
      hide Hash, Covers;
      var rest, best := all[Hash(d)], None;
      while |rest| > 0 && !(Matches(rest[0], d) && rest[0].host)
        invariant Scan(all[Hash(d)], d, None) == Scan(rest, d, best)
        decreases |rest|
      {
        if Matches(rest[0], d) {
          best := Some(rest[0]);
        }
        rest := rest[1..];
      }
      r := if |rest| > 0 then Some(rest[0]) else if best.Some? then best else def;
      if !(r.Some? && r.value.up) {
        r := None;
      }
      assert View().all[Hash(d)] == all[Hash(d)];
      SearchMeans(all[Hash(d)], def, d);
      ScanPicks(all[Hash(d)], d, None);
      SearchMeans(Flat(View().all), def, d);
      if ClassMasks(View()) { OneBucketIsEnough(View(), d); }
    }

    /** Adds or replaces a route; the any-net sets the default route. */
    method Add(asked: Route, gateway: bool, mem: bool) returns (a: Answer)
      requires Valid(View())
      modifies this, all
      ensures Valid(View())
      ensures a == NoMemory <==> !mem || (gateway && asked.gway == 0)
      ensures a == Denied <==> mem && !(gateway && asked.gway == 0) && asked.net != 0 && Protected(old(View()).all[Hash(asked.net)], Made(asked, gateway))
      ensures View() == if a == NoMemory then old(View()) else Added(old(View()), Made(asked, gateway))
    {
      if !mem || (gateway && asked.gway == 0) {
        return NoMemory;
      }
      a := Link(Made(asked, gateway));
    }

    /** Links a route in, in place of one with the same key or at the end of its bucket. */
    method Link(r: Route) returns (a: Answer)
      requires Valid(View())
      modifies this, all
      ensures Valid(View())
      ensures a != NoMemory && (a == Denied <==> r.net != 0 && Protected(old(View()).all[Hash(r.net)], r))
      ensures View() == Added(old(View()), r)
    {
      if r.net == 0 {
        def := Some(r);
        return Done;
      }
      var h := Hash(r.net);
      var l := all[h];
      assert View().all[h] == l;
      var k := FindKey(l, r);
      if k < |l| && !r.static_ && l[k].static_ {
        return Denied;
      }
      PutMeans(l, r);
      all[h] := l[..k] + [r] + (if k < |l| then l[k + 1..] else []);
      assert View().all == old(View()).all[h := Put(l, r)];
      return Done;
    }

    /** The place of the route with the same key, or the length of the list. */
    method FindKey(l: seq<Route>, r: Route) returns (k: nat)
      ensures k <= |l|
      ensures Put(l, r) == l[..k] + [r] + (if k < |l| then l[k + 1..] else [])
      ensures Protected(l, r) == (k < |l| && l[k].static_ && !r.static_)
    {
      k := 0;
      while k < |l| && !SameKey(l[k], r.net, r.mask)
        invariant k <= |l|
        invariant Put(l, r) == l[..k] + Put(l[k..], r)
        invariant Protected(l, r) == Protected(l[k..], r)
      {
        PutPasses(l, r, k);
        k := k + 1;
      }
      PutHere(l, r, k);
    }

    /** Deletes the route with this key; the any-net stands for the default route if there is one. */
    method Delete(net: bv32, mask: bv32)
      requires Valid(View())
      modifies this, all
      ensures Valid(View())
      ensures View() == Deleted(old(View()), net, mask)
    {
      if def.Some? && net == 0 {
        def := None;
        return;
      }
      var h := Hash(net);
      var gone := ByKey(net, mask);
      assert View().all[h] == all[h];
      KeepMeans(all[h], gone);
      var kept := Sweep(all[h], gone);
      all[h] := kept;
      assert View().all == old(View()).all[h := kept];
    }

    method Sweep(l: seq<Route>, gone: Route -> bool) returns (kept: seq<Route>)
      ensures kept == Keep(l, gone)
    {
      kept := [];
      var rest := l;
      while |rest| > 0
        invariant Keep(l, gone) == kept + Keep(rest, gone)
        decreases |rest|
      {
        if !gone(rest[0]) {
          kept := kept + [rest[0]];
        }
        rest := rest[1..];
      }
    }

    /** Deletes every route over an interface, except local ones; the default route goes too. */
    method Flush(nif: nat)
      requires Valid(View())
      modifies this, all
      ensures Valid(View())
      ensures View() == Flushed(old(View()), nif)
    {
      if def.Some? && def.value.nif == nif {
        def := None;
      }
      var gone := Via(nif);
      var i := 0;
      while i < BUCKETS
        invariant 0 <= i <= BUCKETS && all.Length == BUCKETS
        invariant def == if old(def).Some? && old(def).value.nif == nif then None else old(def)
        invariant forall j :: 0 <= j < i ==> all[j] == Keep(old(all[j]), gone)
        invariant forall j :: i <= j < BUCKETS ==> all[j] == old(all[j])
        modifies all
      {
        var kept := Sweep(all[i], gone);
        all[i] := kept;
        i := i + 1;
      }
      FlushKeeps(old(View()), View(), gone);
    }
  }

  lemma {:induction false} FlushKeeps(t: Table, t': Table, gone: Route -> bool)
    requires Valid(t) && |t'.all| == BUCKETS
    requires forall j :: 0 <= j < BUCKETS ==> t'.all[j] == Keep(t.all[j], gone)
    ensures Valid(t')
  {
    forall j: nat | j < BUCKETS ensures InBucket(t'.all[j], j) && UniqueKeys(t'.all[j]) {
      KeepMeans(t.all[j], gone);
    }
  }
}
