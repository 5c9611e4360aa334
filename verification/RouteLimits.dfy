/** Exactly when the search of one bucket misses a route. */
module RouteLimits {
  import opened Common
  import opened Routes
  import opened RouteClasses
  import opened RouteTable

  /** Buckets are numbered by the hash. */
  lemma {:induction false} HashTellsBits(d: bv32, e: bv32)
    requires HashBits(d) != HashBits(e)
    ensures Hash(d) != Hash(e)
  {
    assert HashBits(d) < 256 && HashBits(e) < 256;
    NumbersDiffer(HashBits(d), HashBits(e));
  }

  lemma {:induction false} NumbersDiffer(x: bv32, y: bv32)
    requires x < 256 && y < 256 && x != y
    ensures x as nat != y as nat
  {
    var n: nat := x as nat;
    assert n as bv32 == x;
  }

  /** A route that is found in another bucket than the destination's is missed if nothing else answers. */
  lemma {:induction false} StrayIsMissed(t: Table, i: nat, r: Route, d: bv32)
    requires Valid(t) && t.def == None && i < BUCKETS && r in t.all[i] && Matches(r, d)
    requires forall x :: x in t.all[Hash(d)] ==> !Matches(x, d)
    ensures BucketSearch(t, d) == None && FullSearch(t, d) != None
  {
    ScanMeans(t.all[Hash(d)], d, None);
    FlatMembers(t.all, r);
    ScanMeans(Flat(t.all), d, None);
    var found := Scan(Flat(t.all), d, None);
    ScanFindsUp(Flat(t.all), d, None);
  }

  /** What a scan finds is up. */
  lemma {:induction false} ScanFindsUp(l: seq<Route>, d: bv32, best: Option<Route>)
    requires best.Some? ==> best.value.up
    ensures Scan(l, d, best).Some? ==> Scan(l, d, best).value.up
  {
    if |l| > 0 { ScanFindsUp(l[1..], d, if Matches(l[0], d) && !l[0].host then Some(l[0]) else best); }
  }

  /** The table that holds one route and no default. */
  function Only(r: Route): Table {
    Table(seq(BUCKETS, i => if i == Hash(r.net) then [r] else []), None)
  }

  lemma {:induction false} OnlyIsValid(r: Route)
    requires r.net != 0
    ensures Valid(Only(r))
    ensures forall i, x :: 0 <= i < BUCKETS && x in Only(r).all[i] ==> x == r && i == Hash(r.net)
  {
    hide Hash;
  }

  /** A usable route for a whole network: its net lies within its mask, and the mask is a prefix. */
  predicate Ordinary(r: Route) { r.net != 0 && r.ttl > 0 && r.up && Covers(r.net, r.mask, r.net) && Prefix(r.mask) }

  /** The search of one bucket is right for every destination exactly if the mask keeps the class bits. */
  lemma {:induction false} RightIffClassKept(r: Route)
    requires Ordinary(r)
    ensures Valid(Only(r))
    ensures (forall d :: BucketSearch(Only(r), d) == FullSearch(Only(r), d)) <==> KeepsClass(r)
  {
    hide KeepsBits, Prefix, BucketSearch, FullSearch, Only;
    OnlyIsValid(r);
    if KeepsClass(r) {
      FoundEverywhere(r);
    } else {
      var d := MissedSomewhere(r);
    }
  }

  lemma {:induction false} FoundEverywhere(r: Route)
    requires r.net != 0 && KeepsClass(r)
    ensures Valid(Only(r)) && forall d :: BucketSearch(Only(r), d) == FullSearch(Only(r), d)
  {
    hide KeepsClass, BucketSearch, FullSearch;
    OnlyIsValid(r);
    assert ClassMasks(Only(r));
    forall d ensures BucketSearch(Only(r), d) == FullSearch(Only(r), d) {
      OneBucketIsEnough(Only(r), d);
    }
  }

  lemma {:induction false} MissedSomewhere(r: Route) returns (d: bv32)
    requires Ordinary(r) && !KeepsClass(r)
    ensures Valid(Only(r)) && BucketSearch(Only(r), d) != FullSearch(Only(r), d)
  {
    hide HashBits, Covers, KeepsBits, Prefix, BucketSearch, FullSearch, Only, Valid;
    d := StrayOf(r);
    OnlyMisses(r, d);
  }

  lemma {:induction false} StrayOf(r: Route) returns (d: bv32)
    requires Ordinary(r) && !KeepsClass(r)
    ensures Matches(r, d) && HashBits(d) != HashBits(r.net)
  {
    hide HashBits, Covers, KeepsBits, Prefix;
    d := ShortPrefixIsNotEnough(r.net, r.mask);
  }

  lemma {:induction false} OnlyMisses(r: Route, d: bv32)
    requires r.net != 0 && Matches(r, d) && HashBits(d) != HashBits(r.net)
    ensures Valid(Only(r)) && BucketSearch(Only(r), d) != FullSearch(Only(r), d)
  {
    OnlyIsValid(r);
    HashTellsBits(d, r.net);
    StrayIsMissed(Only(r), Hash(r.net), r, d);
  }

  /** A class B network with the mask of a class A network: its second half is not found. */
  lemma {:induction false} ShortMaskIsMissed(r: Route, d: bv32)
    requires r.net == 0x8000_0000 && r.mask == 0xff00_0000 && r.ttl > 0 && r.up && d == 0x8001_0000
    ensures Ordinary(r) && !KeepsClass(r)
    ensures Valid(Only(r)) && BucketSearch(Only(r), d) == None && FullSearch(Only(r), d) == Some(r)
  {
    ShortMaskBits(r, d);
    OnlyIsValid(r);
    HashTellsBits(d, r.net);
    StrayIsMissed(Only(r), Hash(r.net), r, d);
    OnlyAnswer(r, d);
  }

  lemma {:induction false} ShortMaskBits(r: Route, d: bv32)
    requires r.net == 0x8000_0000 && r.mask == 0xff00_0000 && r.ttl > 0 && r.up && d == 0x8001_0000
    ensures Ordinary(r) && !KeepsClass(r) && Matches(r, d) && HashBits(d) != HashBits(r.net)
  {
    assert HashBits(d) == 0x81 && HashBits(r.net) == 0x80;
  }

  /** The only route there is. */
  lemma {:induction false} OnlyAnswer(r: Route, d: bv32)
    requires r.net != 0 && FullSearch(Only(r), d) != None
    ensures FullSearch(Only(r), d) == Some(r)
  {
    OnlyIsValid(r);
    ScanFinds(Flat(Only(r).all), d, None);
    var x := Scan(Flat(Only(r).all), d, None).value;
    FlatMembers(Only(r).all, x);
  }

  lemma {:induction false} ScanFinds(l: seq<Route>, d: bv32, best: Option<Route>)
    ensures Scan(l, d, best) == best || (Scan(l, d, best).Some? && Scan(l, d, best).value in l)
  {
    if |l| > 0 { ScanFinds(l[1..], d, if Matches(l[0], d) && !l[0].host then Some(l[0]) else best); }
  }
}
