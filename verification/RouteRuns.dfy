/** Every table that additions, deletions and flushes build. */
module RouteRuns {
  import opened Common
  import opened Routes
  import opened RouteTable

  datatype Change = Addition(r: Route) | Deletion(net: bv32, mask: bv32) | Flushing(nif: nat)

  function Apply(t: Table, c: Change): (t': Table)
    requires |t.all| == BUCKETS
    ensures |t'.all| == BUCKETS
  {
    match c
    case Addition(r) => Added(t, r)
    case Deletion(net, mask) => Deleted(t, net, mask)
    case Flushing(nif) => Flushed(t, nif)
  }

  function NoRoutes(): (t: Table)
    ensures |t.all| == BUCKETS && t.def == None && forall i :: 0 <= i < BUCKETS ==> t.all[i] == []
  {
    Table(seq(BUCKETS, i => []), None)
  }

  /** The table after a series of changes. */
  function Built(cs: seq<Change>): (t: Table)
    ensures |t.all| == BUCKETS
  {
    if |cs| == 0 then NoRoutes() else Apply(Built(cs[..|cs| - 1]), cs[|cs| - 1])
  }

  /** The route is the default, or its mask keeps the class bits. */
  predicate Classy(c: Change) { c.Addition? && c.r.net != 0 ==> KeepsClass(c.r) }

  lemma {:induction false} AddedKeeps(t: Table, r: Route)
    requires Valid(t)
    ensures Valid(Added(t, r))
    ensures ClassMasks(t) && (r.net != 0 ==> KeepsClass(r)) ==> ClassMasks(Added(t, r))
  {
    hide Hash, KeepsClass;
    var h := Hash(r.net);
    PutMeans(t.all[h], r);
  }

  lemma {:induction false} DeletedKeeps(t: Table, net: bv32, mask: bv32)
    requires Valid(t)
    ensures Valid(Deleted(t, net, mask))
    ensures ClassMasks(t) ==> ClassMasks(Deleted(t, net, mask))
  {
    hide Hash, KeepsClass;
    KeepMeans(t.all[Hash(net)], ByKey(net, mask));
  }

  lemma {:induction false} FlushedKeeps(t: Table, nif: nat)
    requires Valid(t)
    ensures Valid(Flushed(t, nif))
    ensures ClassMasks(t) ==> ClassMasks(Flushed(t, nif))
  {
    hide Hash, KeepsClass;
    var t' := Flushed(t, nif);
    forall j: nat | j < BUCKETS
      ensures InBucket(t'.all[j], j) && UniqueKeys(t'.all[j]) && forall x :: x in t'.all[j] ==> x in t.all[j]
    {
      KeepMeans(t.all[j], Via(nif));
    }
  }

  lemma {:induction false} ChangeKeeps(t: Table, c: Change)
    requires Valid(t)
    ensures Valid(Apply(t, c))
    ensures ClassMasks(t) && Classy(c) ==> ClassMasks(Apply(t, c))
  {
    hide Hash, KeepsClass, Valid, ClassMasks;
    match c
    case Addition(r) => AddedKeeps(t, r);
    case Deletion(net, mask) => DeletedKeeps(t, net, mask);
    case Flushing(nif) => FlushedKeeps(t, nif);
  }

  lemma {:induction false} BuiltIsValid(cs: seq<Change>)
    ensures Valid(Built(cs))
    ensures (forall c :: c in cs ==> Classy(c)) ==> ClassMasks(Built(cs))
  {
    hide Apply, Classy, KeepsClass;
    if |cs| > 0 {
      var before, c := cs[..|cs| - 1], cs[|cs| - 1];
      assert cs == before + [c];
      BuiltIsValid(before);
      ChangeKeeps(Built(before), c);
    }
  }

  /**
   * However a table came about: if the mask of every added route keeps the class bits, the search of one bucket
   * answers as a search of all for every destination.
   */
  lemma {:induction false} OneBucketAlways(cs: seq<Change>, d: bv32)
    requires forall c :: c in cs ==> Classy(c)
    ensures BucketSearch(Built(cs), d) == FullSearch(Built(cs), d)
  {
    hide Built, Valid, ClassMasks, BucketSearch, FullSearch;
    BuiltIsValid(cs);
    OneBucketIsEnough(Built(cs), d);
  }
}
