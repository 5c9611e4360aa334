/** The queue of received, possibly out-of-order and overlapping segments. */
module RecvQueue {
  import opened TcpTypes

  /** A queued segment; `used` is the source's free-me mark on fully read segments. */
  datatype Seg = Seg(start: int, data: seq<Byte>, used: bool) {
    function End(): int { start + |data| }
  }

  /** Starts and ends both strictly increase, so no segment contains another. */
  ghost predicate Normal(q: seq<Seg>) {
    && (forall i :: 0 <= i < |q| ==> |q[i].data| > 0)
    && (forall i, j :: 0 <= i < j < |q| ==> q[i].start < q[j].start && q[i].End() < q[j].End())
  }

  ghost predicate Covers(q: seq<Seg>, x: int) {
    exists i :: 0 <= i < |q| && q[i].start <= x < q[i].End()
  }

  /** Every sequence number of `s` is already in the queue. */
  ghost predicate Redundant(q: seq<Seg>, s: Seg) {
    forall x :: s.start <= x < s.End() ==> Covers(q, x)
  }

  /** `s` reaches into a hole between segment `i` and the one before it. */
  predicate MeetsHole(q: seq<Seg>, s: Seg, i: nat)
    requires 1 <= i < |q|
  {
    q[i - 1].End() < q[i].start && s.start < q[i].start && q[i - 1].End() < s.End()
  }

  /** Number of leading segments that start before `x`. */
  function LowCut(q: seq<Seg>, x: int): (k: nat)
    ensures k <= |q|
    ensures forall i :: 0 <= i < k ==> q[i].start < x
    ensures k < |q| ==> x <= q[k].start
  {
    if |q| == 0 || x <= q[0].start then 0 else 1 + LowCut(q[1..], x)
  }

  /** Number of leading segments that end at or before `e`. */
  function HighCut(q: seq<Seg>, e: int): (k: nat)
    ensures k <= |q|
    ensures forall i :: 0 <= i < k ==> q[i].End() <= e
    ensures k < |q| ==> e < q[k].End()
  {
    if |q| == 0 || e < q[0].End() then 0 else 1 + HighCut(q[1..], e)
  }

  /** The queue after a segment arrives: swallowed neighbours go, a segment with nothing new is dropped. */
  ghost function Insert(q: seq<Seg>, s: Seg): seq<Seg> {
    if Redundant(q, s) then q
    else q[..LowCut(q, s.start)] + [s] + q[HighCut(q, s.End())..]
  }

  /** Sequence space between the lowest and the highest queued byte. */
  function Span(q: seq<Seg>): int {
    if |q| == 0 then 0 else q[|q| - 1].End() - q[0].start
  }

  /** The segment reaches past both ends of a non-empty queue. */
  predicate GrowsBothEnds(q: seq<Seg>, s: Seg) {
    |q| > 0 && s.start < q[0].start && q[|q| - 1].End() < s.End()
  }

  /** The byte counter the source keeps beside the queue. */
  ghost function CountAfter(q: seq<Seg>, cur: int, s: Seg): int {
    if Redundant(q, s) then cur
    else if |q| == 0 then |s.data|
    else if q[|q| - 1].End() < s.End() then cur + s.End() - q[|q| - 1].End()
    else if s.start < q[0].start then cur + q[0].start - s.start
    else cur
  }

  /** A segment that sits inside the queue and meets no hole is redundant. */
  lemma {:induction false} NoHoleMeansRedundant(q: seq<Seg>, s: Seg)
    requires Normal(q) && |q| > 0
    requires q[0].start <= s.start && s.End() <= q[|q| - 1].End()
    requires forall i :: 1 <= i < |q| ==> !MeetsHole(q, s, i)
    ensures Redundant(q, s)
  {
    forall x | s.start <= x < s.End() ensures Covers(q, x) {
      var k := LowCut(q, x + 1);
      assert k < |q| ==> !MeetsHole(q, s, k);
      assert q[k - 1].start <= x < q[k - 1].End();
    }
  }

  /** A number below the queue, above it or in the hole before segment `k` is not covered. */
  lemma {:induction false} HoleMeansNew(q: seq<Seg>, s: Seg, k: nat, x: int)
    requires Normal(q) && s.start <= x < s.End() && k <= |q|
    requires k > 0 ==> q[k - 1].End() <= x
    requires k < |q| ==> x < q[k].start
    ensures !Redundant(q, s)
  {
    forall j | 0 <= j < |q| ensures !(q[j].start <= x < q[j].End()) {
      assert j < k ==> q[j].End() <= q[k - 1].End();
    }
    assert !Covers(q, x);
  }

  lemma {:induction false} InsideMeansRedundant(q: seq<Seg>, s: Seg, i: nat)
    requires i < |q| && q[i].start <= s.start && s.End() <= q[i].End()
    ensures Redundant(q, s)
  {
    forall x | s.start <= x < s.End() ensures Covers(q, x) {
      assert q[i].start <= x < q[i].End();
    }
  }

  /** Where the cuts fall around a segment that brings something new. */
  lemma {:induction false} CutsAround(q: seq<Seg>, s: Seg)
    requires Normal(q) && !Redundant(q, s)
    ensures LowCut(q, s.start) <= HighCut(q, s.End())
    ensures forall i :: 0 <= i < LowCut(q, s.start) ==> q[i].End() < s.End()
    ensures forall i :: HighCut(q, s.End()) <= i < |q| ==> s.start < q[i].start
  {
    var lo, hi := LowCut(q, s.start), HighCut(q, s.End());
    forall i: nat | i < lo ensures q[i].End() < s.End() {
      if s.End() <= q[i].End() { InsideMeansRedundant(q, s, i); }
    }
    forall i: nat | hi <= i < |q| ensures s.start < q[i].start {
      assert q[hi].End() <= q[i].End();
      if q[i].start <= s.start { InsideMeansRedundant(q, s, i); }
    }
  }

  /** The queue after an insertion, one place at a time. */
  lemma {:induction false} InsertedAt(q: seq<Seg>, s: Seg, i: nat)
    requires Normal(q) && !Redundant(q, s) && i < |Insert(q, s)|
    ensures var lo, hi := LowCut(q, s.start), HighCut(q, s.End());
      Insert(q, s)[i] == if i < lo then q[i] else if i == lo then s else q[hi + i - lo - 1]
  {
    CutsAround(q, s);
  }

  lemma {:induction false} InsertKeepsNormal(q: seq<Seg>, s: Seg)
    requires Normal(q)
    ensures Normal(Insert(q, s))
    ensures forall t :: t in Insert(q, s) ==> t in q || t == s
  {
    if !Redundant(q, s) {
      CutsAround(q, s);
      var r := Insert(q, s);
      forall i | 0 <= i < |r| ensures |r[i].data| > 0 && (r[i] in q || r[i] == s) {
        InsertedAt(q, s, i);
      }
      forall i, j | 0 <= i < j < |r| ensures r[i].start < r[j].start && r[i].End() < r[j].End() {
        InsertedAt(q, s, i);
        InsertedAt(q, s, j);
      }
    }
  }

  /** The covered numbers become exactly the old ones plus the new segment's. */
  lemma {:induction false} InsertCoversUnion(q: seq<Seg>, s: Seg, x: int)
    requires Normal(q)
    ensures Covers(Insert(q, s), x) <==> Covers(q, x) || s.start <= x < s.End()
  {
    if !Redundant(q, s) {
      CutsAround(q, s);
      var lo, hi := LowCut(q, s.start), HighCut(q, s.End());
      InsertedAt(q, s, lo);
      if i :| 0 <= i < |q| && q[i].start <= x < q[i].End() {
        KeptOrSwallowed(q, s, i, x);
      }
      if i :| 0 <= i < |Insert(q, s)| && Insert(q, s)[i].start <= x < Insert(q, s)[i].End() {
        InsertedAt(q, s, i);
      }
    }
  }

  lemma {:induction false} KeptOrSwallowed(q: seq<Seg>, s: Seg, i: nat, x: int)
    requires Normal(q) && !Redundant(q, s) && i < |q| && q[i].start <= x < q[i].End()
    ensures Covers(Insert(q, s), x)
  {
    CutsAround(q, s);
    var lo, hi := LowCut(q, s.start), HighCut(q, s.End());
    var k := if i < lo then i else if i < hi then lo else i - hi + lo + 1;
    InsertedAt(q, s, k);
    assert lo <= i < hi ==> s.start <= q[lo].start <= q[i].start;
    assert Insert(q, s)[k].start <= x < Insert(q, s)[k].End();
  }

  /** The counter keeps equalling the span exactly when the segment does not grow both ends at once. */
  lemma {:induction false} CountTracksSpan(q: seq<Seg>, cur: int, s: Seg)
    requires Normal(q) && cur == Span(q)
    ensures CountAfter(q, cur, s) == Span(Insert(q, s)) <==> !GrowsBothEnds(q, s)
    ensures CountAfter(q, cur, s) <= Span(Insert(q, s))
  {
    if GrowsBothEnds(q, s) { HoleMeansNew(q, s, 0, s.start); }
    if !Redundant(q, s) { SpanAfter(q, s); }
  }

  /** The ends of the queue after an insertion. */
  lemma {:induction false} SpanAfter(q: seq<Seg>, s: Seg)
    requires Normal(q) && !Redundant(q, s)
    ensures Span(Insert(q, s)) ==
      if |q| == 0 then |s.data| else Max(s.End(), q[|q| - 1].End()) - Min(s.start, q[0].start)
  {
    var lo, hi := LowCut(q, s.start), HighCut(q, s.End());
    assert lo <= hi by { CutsAround(q, s); }
    var r := q[..lo] + [s] + q[hi..];
    assert r[0] == if lo > 0 then q[0] else s;
    assert r[|r| - 1] == if hi < |q| then q[|q| - 1] else s;
    assert hi < |q| ==> q[hi].End() <= q[|q| - 1].End();
  }

  lemma {:induction false} FirstSegment(s: Seg, cur: int)
    requires |s.data| > 0
    ensures !Redundant([], s) && Insert([], s) == [s] && CountAfter([], cur, s) == |s.data| && LowCut([], s.start) == 0
  {
    HoleMeansNew([], s, 0, s.start);
  }

  /** The source's queue head with its counter. */
  class InQueue {
    var segs: seq<Seg>
    var curdatalen: int

    constructor ()
      ensures segs == [] && curdatalen == 0
    {
      segs, curdatalen := [], 0;
    }

    /** Adds a segment and says where it now is; false means it was empty or a duplicate and has been dropped. */
    method AddSeg(s: Seg) returns (added: bool, place: nat)
      requires Normal(segs)
      modifies this
      ensures segs == Insert(old(segs), s)
      ensures curdatalen == CountAfter(old(segs), old(curdatalen), s)
      ensures added == !Redundant(old(segs), s)
      ensures added ==> place == LowCut(old(segs), s.start)
    {
      if |s.data| == 0 {
        return false, 0;
      }
      if |segs| == 0 {
        FirstSegment(s, curdatalen);
        segs, curdatalen := [s], |s.data|;
        return true, 0;
      }
      var at := FindPlace(s);
      if at == 0 && segs[0].start <= s.start {
        return false, 0;
      }
      place := Relink(s, at);
      return true, place;
    }

    /** The place before which `s` belongs, after adjusting the counter; 0 inside the queue means a duplicate. */
    method FindPlace(s: Seg) returns (at: nat)
      requires Normal(segs) && |segs| > 0 && |s.data| > 0
      modifies `curdatalen
      ensures at <= |segs|
      ensures curdatalen == CountAfter(segs, old(curdatalen), s)
      ensures Redundant(segs, s) <==> at == 0 && segs[0].start <= s.start
      ensures at > 0 ==> segs[at - 1].End() < s.End()
      ensures !Redundant(segs, s) && at < |segs| ==> s.start < segs[at].start
    {
      var n := |segs|;
      if segs[n - 1].End() < s.End() {
        HoleMeansNew(segs, s, n, s.End() - 1);
        curdatalen := curdatalen + s.End() - segs[n - 1].End();
        at := n;
      } else if s.start < segs[0].start {
        HoleMeansNew(segs, s, 0, s.start);
        curdatalen := curdatalen + segs[0].start - s.start;
        at := 0;
      } else {
        at := FindHole(s);
        if at > 0 {
          HoleMeansNew(segs, s, at, Max(s.start, segs[at - 1].End()));
        }
      }
    }

    /** The rightmost hole that `s` reaches into, searching backwards; 0 if there is none. */
    method FindHole(s: Seg) returns (at: nat)
      requires Normal(segs) && |segs| > 0
      requires segs[0].start <= s.start && s.End() <= segs[|segs| - 1].End()
      ensures at < |segs|
      ensures at == 0 ==> Redundant(segs, s)
      ensures at > 0 ==> MeetsHole(segs, s, at)
    {
      at := |segs| - 1;
      while at > 0 && !MeetsHole(segs, s, at)
        invariant at < |segs|
        invariant forall i :: at < i < |segs| ==> !MeetsHole(segs, s, i)
      {
        at := at - 1;
      }
      if at == 0 {
        NoHoleMeansRedundant(segs, s);
      }
    }

    method PassContainedRight(s: Seg, at: nat) returns (hi: nat)
      requires at <= |segs|
      ensures at <= hi <= |segs| && (hi > at ==> segs[hi - 1].End() <= s.End()) && (hi < |segs| ==> s.End() < segs[hi].End())
    {
      hi := at;
      while hi < |segs| && segs[hi].End() <= s.End()
        invariant at <= hi <= |segs|
        invariant hi > at ==> segs[hi - 1].End() <= s.End()
      {
        hi := hi + 1;
      }
    }

    method PassContainedLeft(s: Seg, at: nat) returns (lo: nat)
      requires at <= |segs|
      ensures lo <= at && (lo < at ==> s.start <= segs[lo].start) && (lo > 0 ==> segs[lo - 1].start < s.start)
    {
      lo := at;
      while lo > 0 && s.start <= segs[lo - 1].start
        invariant lo <= at && (lo < at ==> s.start <= segs[lo].start)
      {
        lo := lo - 1;
      }
    }

    /** Links `s` in before place `at` and frees the later, then the earlier, segments it contains. */
    method Relink(s: Seg, at: nat) returns (place: nat)
      requires Normal(segs) && !Redundant(segs, s) && at <= |segs|
      requires at > 0 ==> segs[at - 1].End() < s.End()
      requires at < |segs| ==> s.start < segs[at].start
      modifies `segs
      ensures segs == Insert(old(segs), s) && place == LowCut(old(segs), s.start)
    {
      var hi := PassContainedRight(s, at);
      var lo := PassContainedLeft(s, at);
      CutsAre(segs, s, lo, hi);
      segs := segs[..lo] + [s] + segs[hi..];
      place := lo;
    }
  }

  lemma {:induction false} CutsAre(q: seq<Seg>, s: Seg, lo: nat, hi: nat)
    requires Normal(q) && lo <= hi <= |q|
    requires lo > 0 ==> q[lo - 1].start < s.start
    requires lo < |q| ==> s.start <= q[lo].start
    requires hi > 0 ==> q[hi - 1].End() <= s.End()
    requires hi < |q| ==> s.End() < q[hi].End()
    ensures lo == LowCut(q, s.start) && hi == HighCut(q, s.End())
  {
  }
}
