/** Reassembly when parts of different cuts of one payload arrive: exactly when it still succeeds. */
module MixedCuts {
  import opened Common
  import opened TcpTypes
  import opened IpTypes
  import opened IpReassembly
  import opened ReassemblyFacts
  import opened RoundTrip

  /** A part of `data` as any cut may produce it: not empty, with MF exactly if more follows. */
  predicate Proper(p: Dgram, data: seq<Byte>) {
    PartOf(p, data) && |p.data| > 0 && (p.mf <==> 8 * p.off + |p.data| < |data|)
  }

  /** The fragments lie side by side and make up all of `data`. */
  predicate Tiles(list: seq<Dgram>, data: seq<Byte>) { Contiguous(list, 0) && |Payload(list)| == |data| }

  /** A slot of proper parts that knows the total length whenever its last fragment ends the payload. */
  ghost predicate Informed(s: Slot, data: seq<Byte>) {
    && Holds(s, data) && (forall p :: p in s.list ==> Proper(p, data))
    && (|s.list| > 0 && !s.list[|s.list| - 1].mf ==> s.totlen == |data|)
  }

  // ---------------------------------------------------------------- one slot

  /** A fragment that is no duplicate goes to the end, or the end stays what it is. */
  lemma {:induction false} EndAfterInsert(list: seq<Dgram>, p: Dgram)
    requires !Duplicate(list, p)
    ensures |Insert(list, p)| > 0
    ensures var last := Insert(list, p)[|Insert(list, p)| - 1];
      if GoesLast(list, p) then last == p else |list| > 0 && last == list[|list| - 1]
  {
    if |list| > 0 && list[0].off < p.off {
      EndAfterInsert(list[1..], p);
    }
  }

  lemma {:induction false} AddKeepsInformed(s: Slot, p: Dgram, data: seq<Byte>)
    requires Informed(s, data) && Proper(p, data)
    ensures Informed(Add(s, p), data)
  {
    AddKeepsHolds(s, p, data);
    InsertAdds(s.list, p);
    if !Duplicate(s.list, p) { EndAfterInsert(s.list, p); }
  }

  /** What is assembled: a slot gives the payload out exactly if its fragments tile it. */
  lemma {:induction false} AssembledIffTiled(s: Slot, data: seq<Byte>)
    requires Informed(s, data) && InUse(s) && |data| > 0
    ensures Pullup(s, true).1.Some? <==> Tiles(s.list, data)
  {
    if Tiles(s.list, data) {
      LastEnds(s.list, 0);
      assert s.list[|s.list| - 1] in s.list;
    }
  }

  // ---------------------------------------------------------------- one arrival

  /** Slot `j`, and no other, is collecting parts of `data` for datagram (id, saddr). */
  ghost predicate Gathers(t: seq<Slot>, j: nat, id: nat, saddr: nat, data: seq<Byte>) {
    && j < |t| && InUse(t[j]) && t[j].id == id && t[j].saddr == saddr && Informed(t[j], data)
    && (forall i :: 0 <= i < |t| && i != j && InUse(t[i]) ==> !(t[i].id == id && t[i].saddr == saddr))
  }

  /** The datagram comes out exactly if the fragment completes a tiling of the payload. */
  lemma {:induction false} DefragIffTiled(t: seq<Slot>, j: nat, p: Dgram, data: seq<Byte>)
    requires Gathers(t, j, p.id, p.saddr, data) && Proper(p, data) && IsFragment(p)
    ensures var (t', r) := Defrag(t, p, true);
      && (r.Some? <==> Tiles(Insert(t[j].list, p), data))
      && (r.Some? ==> r.value.data == data)
      && (|t'| == |t| && (InUse(t'[j]) ==> Gathers(t', j, p.id, p.saddr, data) && t'[j].list == Insert(t[j].list, p)))
  {
    hide PartOf, Contiguous, Tiles;
    assert Match(t, p) == j;
    AddKeepsInformed(t[j], p, data);
    InsertAdds(t[j].list, p);
    InsertKeepsSome(t[j].list, p);
    var s := Add(t[j], p);
    assert s.list == Insert(t[j].list, p);
    assert |data| > 0 by { assert 8 * p.off + |p.data| <= |data| by { NotEmpty(p, data); } }
    AssembledIffTiled(s, data);
    PullupIsExact(s, true, data);
    assert Defrag(t, p, true) == (t[j := Pullup(s, true).0], Pullup(s, true).1);
  }

  lemma {:induction false} NotEmpty(p: Dgram, data: seq<Byte>)
    requires Proper(p, data)
    ensures 8 * p.off + |p.data| <= |data| && 0 < |p.data|
  {
  }

  // ---------------------------------------------------------------- whole runs

  /** The parts of (id, saddr) that arrive, in order of arrival. */
  function Arrivals(es: seq<Event>, id: nat, saddr: nat): seq<Dgram>
    decreases |es|
  {
    if |es| == 0 then [] else
    var e := es[|es| - 1];
    Arrivals(es[..|es| - 1], id, saddr) + if e.Arrive? && e.p.id == id && e.p.saddr == saddr then [e.p] else []
  }

  /** Sorting a series of arrivals in, one after the other. */
  function Sorted(list: seq<Dgram>, ps: seq<Dgram>): seq<Dgram>
    decreases |ps|
  {
    if |ps| == 0 then list else Insert(Sorted(list, ps[..|ps| - 1]), ps[|ps| - 1])
  }

  /** Own parts are proper and meet enough memory, slot `j` does not time out; others may do what they like. */
  ghost predicate Honest(e: Event, j: nat, id: nat, saddr: nat, data: seq<Byte>) {
    match e
    case Arrive(p, mem) => p.id == id && p.saddr == saddr ==> mem && Proper(p, data) && IsFragment(p)
    case Expire(i) => i != j
  }

  lemma {:induction false} OthersKeepGathering(t: seq<Slot>, e: Event, j: nat, id: nat, saddr: nat, data: seq<Byte>)
    requires Gathers(t, j, id, saddr, data) && Honest(e, j, id, saddr, data)
    requires e.Arrive? ==> !(e.p.id == id && e.p.saddr == saddr)
    ensures Gathers(Step(t, e).0, j, id, saddr, data) && Step(t, e).0[j] == t[j]
  {
    hide Informed;
    if e.Arrive? && IsFragment(e.p) { ForeignTouchesOneSlot(t, e.p, e.mem); }
  }

  /** Slot `j` was never emptied in the run. */
  ghost predicate StaysInUse(t: seq<Slot>, es: seq<Event>, j: nat) {
    forall n :: 0 <= n <= |es| ==> j < |Run(t, es[..n])| && InUse(Run(t, es[..n])[j])
  }

  lemma {:induction false} StaysInUseBefore(t: seq<Slot>, es: seq<Event>, j: nat)
    requires StaysInUse(t, es, j) && |es| > 0
    ensures StaysInUse(t, es[..|es| - 1], j) && j < |Run(t, es)| && InUse(Run(t, es)[j])
  {
    var before := es[..|es| - 1];
    forall n | 0 <= n <= |before| ensures j < |Run(t, before[..n])| && InUse(Run(t, before[..n])[j]) {
      assert before[..n] == es[..n];
    }
    assert es[..|es|] == es;
  }

  /** As long as it is not emptied, a slot holds the first arrivals, sorted. */
  lemma {:induction false} HoldsFirstArrivals(t: seq<Slot>, es: seq<Event>, j: nat, id: nat, saddr: nat, data: seq<Byte>)
    requires Gathers(t, j, id, saddr, data) && StaysInUse(t, es, j)
    requires forall e :: e in es ==> Honest(e, j, id, saddr, data)
    ensures Gathers(Run(t, es), j, id, saddr, data)
    ensures Run(t, es)[j].list == Sorted(t[j].list, Arrivals(es, id, saddr))
    decreases |es|
  {
    if |es| > 0 {
      var before, e := es[..|es| - 1], es[|es| - 1];
      assert es == before + [e] && e in es;
      StaysInUseBefore(t, es, j);
      HoldsFirstArrivals(t, before, j, id, saddr, data);
      OneMoreArrival(Run(t, before), e, j, id, saddr, data);
      SortedOneMore(t[j].list, Arrivals(before, id, saddr), e.Arrive? && e.p.id == id && e.p.saddr == saddr, if e.Arrive? then e.p else t[j].list[0]);
    }
  }

  lemma {:induction false} SortedOneMore(list: seq<Dgram>, ps: seq<Dgram>, own: bool, p: Dgram)
    ensures Sorted(list, ps + if own then [p] else []) == if own then Insert(Sorted(list, ps), p) else Sorted(list, ps)
  {
    if own {
      assert (ps + [p])[..|ps + [p]| - 1] == ps;
    } else {
      assert ps + [] == ps;
    }
  }

  lemma {:induction false} OneMoreArrival(t: seq<Slot>, e: Event, j: nat, id: nat, saddr: nat, data: seq<Byte>)
    requires Gathers(t, j, id, saddr, data) && Honest(e, j, id, saddr, data)
    requires j < |Step(t, e).0| && InUse(Step(t, e).0[j])
    ensures Gathers(Step(t, e).0, j, id, saddr, data)
    ensures Step(t, e).0[j].list ==
      if e.Arrive? && e.p.id == id && e.p.saddr == saddr then Insert(t[j].list, e.p) else t[j].list
  {
    hide Informed, Proper, Tiles;
    if e.Arrive? && e.p.id == id && e.p.saddr == saddr {
      DefragIffTiled(t, j, e.p, data);
    } else {
      OthersKeepGathering(t, e, j, id, saddr, data);
    }
  }

  /**
   * Over any run of parts of any cuts: the next part brings the payload out exactly if the first arrivals per
   * offset, with it, tile the payload.
   */
  lemma {:induction false} ComesOutIffTiled(t: seq<Slot>, es: seq<Event>, j: nat, p: Dgram, data: seq<Byte>)
    requires Gathers(t, j, p.id, p.saddr, data) && StaysInUse(t, es, j) && Proper(p, data) && IsFragment(p)
    requires forall e :: e in es ==> Honest(e, j, p.id, p.saddr, data)
    ensures var r := Step(Run(t, es), Arrive(p, true)).1;
      && (r.Some? <==> Tiles(Sorted(t[j].list, Arrivals(es, p.id, p.saddr) + [p]), data))
      && (r.Some? ==> r.value.data == data)
  {
    hide Informed, Proper, Tiles;
    HoldsFirstArrivals(t, es, j, p.id, p.saddr, data);
    DefragIffTiled(Run(t, es), j, p, data);
    SortedOneMore(t[j].list, Arrivals(es, p.id, p.saddr), true, p);
  }

  // ---------------------------------------------------------------- from a free slot on

  /** The first part to arrive takes a free slot and cannot complete anything. */
  lemma {:induction false} FirstPart(t: seq<Slot>, p: Dgram, mem: bool, j: nat, data: seq<Byte>)
    requires NoSlot(t, p) && Proper(p, data) && IsFragment(p)
    requires exists i :: 0 <= i < |t| && !InUse(t[i])
    requires j == LastFree(t) - 1
    ensures var (t', r) := Step(t, Arrive(p, mem)); r == None && Gathers(t', j, p.id, p.saddr, data) && t'[j].list == [p]
  {
    hide PartOf;
    assert Match(t, p) == |t|;
    var s := Slot([], p.id, p.saddr, 0, 0);
    NotEmpty(p, data);
    EmptyIsInformed(s, data);
    AddKeepsInformed(s, p, data);
    assert Add(s, p).list == [p];
    assert Step(t, Arrive(p, mem)) == (t[j := Add(s, p)], None);
  }

  lemma {:induction false} EmptyIsInformed(s: Slot, data: seq<Byte>)
    requires s.list == [] && s.totlen == 0 && s.curlen == 0
    ensures Informed(s, data)
  {
  }

  lemma {:induction false} SortedFrom(p: Dgram, ps: seq<Dgram>)
    ensures Sorted([p], ps) == Sorted([], [p] + ps)
    decreases |ps|
  {
    var all := [p] + ps;
    if |ps| > 0 {
      assert all[..|all| - 1] == [p] + ps[..|ps| - 1];
      SortedFrom(p, ps[..|ps| - 1]);
    } else {
      assert all == [p] && [p][..0] == [];
      assert Sorted([], [p][..0]) == [];
    }
  }

  /**
   * From any table with a free slot and none for the datagram, over other traffic and parts of any cuts: a part
   * brings the payload out exactly if the first arrivals per offset, with it, tile the payload.
   */
  lemma {:induction false} ArrivesIffTiled(t: seq<Slot>, other: seq<Event>, first: Dgram, mem: bool, es: seq<Event>, j: nat,
                                           p: Dgram, data: seq<Byte>)
    requires NoSlot(t, p) && (forall e :: e in other ==> Foreign(e, p))
    requires exists i :: 0 <= i < |Run(t, other)| && !InUse(Run(t, other)[i])
    requires j == LastFree(Run(t, other)) - 1
    requires first.id == p.id && first.saddr == p.saddr
    requires Proper(first, data) && IsFragment(first) && Proper(p, data) && IsFragment(p)
    requires StaysInUse(Run(t, other + [Arrive(first, mem)]), es, j)
    requires forall e :: e in es ==> Honest(e, j, p.id, p.saddr, data)
    ensures var r := Step(Run(t, other + [Arrive(first, mem)] + es), Arrive(p, true)).1;
      && (r.Some? <==> Tiles(Sorted([], [first] + Arrivals(es, p.id, p.saddr) + [p]), data))
      && (r.Some? ==> r.value.data == data)
  {
    hide Informed, Proper, Tiles, Step, StaysInUse, Honest;
    ForeignKeepsNoSlot(t, other, p);
    var t0, e := Run(t, other), Arrive(first, mem);
    FirstPart(t0, first, mem, j, data);
    var t1 := Run(t, other + [e]);
    assert t1 == Step(t0, e).0 by { assert (other + [e])[..|other + [e]| - 1] == other; }
    RunJoins(t, other + [e], es);
    ComesOutIffTiled(t1, es, j, p, data);
    SortedFrom(first, Arrivals(es, p.id, p.saddr) + [p]);
    assert [first] + (Arrivals(es, p.id, p.saddr) + [p]) == [first] + Arrivals(es, p.id, p.saddr) + [p];
  }

  // ---------------------------------------------------------------- first arrivals

  ghost predicate Rising(list: seq<Dgram>) { forall i, j :: 0 <= i < j < |list| ==> list[i].off < list[j].off }

  ghost predicate HasOffset(s: seq<Dgram>, o: nat) { exists i :: 0 <= i < |s| && s[i].off == o }

  /** In a rising list the walk finds a fragment with the same offset if there is one. */
  lemma {:induction false} DuplicateMeans(list: seq<Dgram>, p: Dgram)
    requires Rising(list)
    ensures Duplicate(list, p) <==> HasOffset(list, p.off)
  {
    if |list| > 0 {
      if list[0].off < p.off {
        DuplicateMeans(list[1..], p);
        if HasOffset(list, p.off) {
          var i :| 0 <= i < |list| && list[i].off == p.off;
          assert list[1..][i - 1].off == p.off;
        }
        if HasOffset(list[1..], p.off) {
          var i :| 0 <= i < |list[1..]| && list[1..][i].off == p.off;
          assert list[i + 1].off == p.off;
        }
      } else {
        assert list[0].off == p.off ==> HasOffset(list, p.off);
      }
    }
  }

  lemma {:induction false} InsertRises(list: seq<Dgram>, p: Dgram)
    requires Rising(list)
    ensures Rising(Insert(list, p))
    ensures |list| > 0 ==> Insert(list, p)[0].off == Min(p.off, list[0].off)
    ensures |list| == 0 ==> Insert(list, p) == [p]
  {
    if |list| > 0 && list[0].off < p.off {
      InsertRises(list[1..], p);
      RisesBehind(list[0], Insert(list[1..], p));
    } else if |list| > 0 && p.off < list[0].off {
      RisesBehind(p, list);
    }
  }

  lemma {:induction false} RisesBehind(p: Dgram, list: seq<Dgram>)
    requires Rising(list) && (|list| > 0 ==> p.off < list[0].off)
    ensures Rising([p] + list)
  {
  }

  lemma {:induction false} InsertOffsets(list: seq<Dgram>, p: Dgram, o: nat)
    requires Rising(list)
    ensures HasOffset(Insert(list, p), o) <==> HasOffset(list, o) || o == p.off
  {
    InsertMembers(list, p);
    var r := Insert(list, p);
    if HasOffset(r, o) {
      var i :| 0 <= i < |r| && r[i].off == o;
      if r[i] in list {
        var k :| 0 <= k < |list| && list[k] == r[i];
        assert list[k].off == o;
      }
    }
    if HasOffset(list, o) {
      var i :| 0 <= i < |list| && list[i].off == o;
      assert list[i] in r;
      var k :| 0 <= k < |r| && r[k] == list[i];
      assert r[k].off == o;
    }
    if o == p.off {
      if Duplicate(list, p) {
        DuplicateMeans(list, p);
        assert r == list by { InsertAdds(list, p); }
      } else {
        assert p in r;
        var k :| 0 <= k < |r| && r[k] == p;
        assert r[k].off == o;
      }
    }
  }

  lemma {:induction false} InsertMembers(list: seq<Dgram>, p: Dgram)
    ensures forall x :: x in Insert(list, p) <==> x in list || (x == p && !Duplicate(list, p))
  {
    if |list| > 0 && list[0].off < p.off {
      InsertMembers(list[1..], p);
      assert list == [list[0]] + list[1..];
    }
  }

  /** Of a series of arrivals, an arrival is kept exactly if none before it had its offset; the kept ones rise. */
  lemma {:induction false} SortedKeepsFirsts(ps: seq<Dgram>, p: Dgram)
    ensures Rising(Sorted([], ps)) && (forall o: nat :: HasOffset(Sorted([], ps), o) <==> HasOffset(ps, o))
    ensures forall x :: x in Sorted([], ps + [p]) <==> x in Sorted([], ps) || (x == p && !HasOffset(ps, p.off))
    decreases |ps|
  {
    if |ps| > 0 { SortedSoFar(ps); }
    SortedOneMore([], ps, true, p);
    InsertMembers(Sorted([], ps), p);
    DuplicateMeans(Sorted([], ps), p);
  }

  lemma {:induction false} SortedSoFar(ps: seq<Dgram>)
    ensures Rising(Sorted([], ps)) && forall o: nat :: HasOffset(Sorted([], ps), o) <==> HasOffset(ps, o)
    decreases |ps|
  {
    if |ps| > 0 {
      var n := |ps| - 1;
      var l := Sorted([], ps[..n]);
      SortedSoFar(ps[..n]);
      InsertRises(l, ps[n]);
      forall o: nat ensures HasOffset(Sorted([], ps), o) <==> HasOffset(ps, o) {
        InsertOffsets(l, ps[n], o);
        OffsetsOneMore(ps, o);
      }
    }
  }

  lemma {:induction false} OffsetsOneMore(ps: seq<Dgram>, o: nat)
    requires |ps| > 0
    ensures HasOffset(ps, o) <==> HasOffset(ps[..|ps| - 1], o) || ps[|ps| - 1].off == o
  {
    var n := |ps| - 1;
    if HasOffset(ps[..n], o) {
      var i :| 0 <= i < n && ps[..n][i].off == o;
      assert ps[i].off == o;
    }
    if HasOffset(ps, o) {
      var i :| 0 <= i < |ps| && ps[i].off == o;
      if i < n { assert ps[..n][i].off == o; }
    }
  }

  // ---------------------------------------------------------------- fragments that block each other

  /** Two parts that overlap and a third that would have fitted the first. */
  ghost predicate Clash(x: Dgram, y: Dgram, z: Dgram, data: seq<Byte>) {
    && |data| == 24
    && x == Dgram(7, 9, 0, false, true, 36, data[..16])
    && y == Dgram(7, 9, 1, false, false, 36, data[8..])
    && z == Dgram(7, 9, 2, false, false, 28, data[16..])
  }

  lemma {:induction false} ClashIsProper(x: Dgram, y: Dgram, z: Dgram, data: seq<Byte>)
    requires Clash(x, y, z, data)
    ensures Proper(x, data) && Proper(y, data) && Proper(z, data)
    ensures data == x.data + z.data && data == data[..8] + y.data
  {
  }

  /** Slots that hold the first two, or all three. */
  function Two(x: Dgram, y: Dgram): Slot { Slot([x, y], 7, 9, 24, 32) }

  function Three(x: Dgram, y: Dgram, z: Dgram): Slot { Slot([x, y, z], 7, 9, 24, 40) }

  lemma {:induction false} AddToEmpty(x: Dgram, y: Dgram, z: Dgram, data: seq<Byte>)
    requires Clash(x, y, z, data)
    ensures Add(Slot([], 7, 9, 0, 0), x) == Slot([x], 7, 9, 0, 16)
    ensures Add(Slot([x], 7, 9, 0, 16), y) == Two(x, y)
  {
    assert [x][1..] == [];
    assert Insert([], y) == [y] && !Duplicate([], y) && GoesLast([], y);
    assert Insert([x], y) == [x] + Insert([x][1..], y) == [x, y] && GoesLast([x], y);
  }

  lemma {:induction false} AddToTwo(x: Dgram, y: Dgram, z: Dgram, p: Dgram, data: seq<Byte>)
    requires Clash(x, y, z, data) && p in [x, y, z]
    ensures Add(Two(x, y), p) == if p == z then Three(x, y, z) else Two(x, y)
    ensures Add(Three(x, y, z), p) == Three(x, y, z)
  {
    assert [x, y][1..] == [y] && [y][1..] == [] && [x, y, z][1..] == [y, z] && [y, z][1..] == [z] && [z][1..] == [];
    if p == z {
      assert Insert([], z) == [z] && GoesLast([], z) && !Duplicate([], z);
      assert Insert([y], z) == [y] + Insert([y][1..], z) == [y, z] && !Duplicate([y], z) && GoesLast([y], z);
      assert Insert([x, y], z) == [x] + Insert([x, y][1..], z) == [x, y, z];
      assert Duplicate([z], z) && Duplicate([y, z], z);
    } else if p == y {
      assert Duplicate([y], y) && Duplicate([y, z], y);
    }
  }

  /** Slot `j` holds the first two or all three. */
  ghost predicate Stuck(t: seq<Slot>, j: nat, x: Dgram, y: Dgram, z: Dgram) {
    && j < |t| && (t[j] == Two(x, y) || t[j] == Three(x, y, z))
    && (forall i :: 0 <= i < |t| && i != j && InUse(t[i]) ==> !(t[i].id == 7 && t[i].saddr == 9))
  }

  /** Own arrivals are repetitions of the three. */
  ghost predicate Repeats(e: Event, j: nat, x: Dgram, y: Dgram, z: Dgram) {
    match e
    case Arrive(p, mem) => p.id == 7 && p.saddr == 9 ==> p in [x, y, z]
    case Expire(i) => i != j
  }

  lemma {:induction false} StuckStep(t: seq<Slot>, e: Event, j: nat, x: Dgram, y: Dgram, z: Dgram, data: seq<Byte>)
    requires Clash(x, y, z, data) && Stuck(t, j, x, y, z) && Repeats(e, j, x, y, z)
    ensures Stuck(Step(t, e).0, j, x, y, z)
    ensures e.Arrive? && e.p.id == 7 && e.p.saddr == 9 ==> Step(t, e).1 == None
  {
    if e.Arrive? && e.p.id == 7 && e.p.saddr == 9 {
      assert Match(t, e.p) == j;
      AddToTwo(x, y, z, e.p, data);
    } else if e.Arrive? && IsFragment(e.p) {
      ForeignTouchesOneSlot(t, e.p, e.mem);
    }
  }

  /** All bytes have arrived, and arrive again and again, yet nothing ever comes out. */
  lemma {:induction false} MixedCutsBlock(t: seq<Slot>, es: seq<Event>, j: nat, e: Event,
                                          x: Dgram, y: Dgram, z: Dgram, data: seq<Byte>)
    requires Clash(x, y, z, data) && Stuck(t, j, x, y, z)
    requires forall f :: f in es ==> Repeats(f, j, x, y, z)
    requires e.Arrive? && e.p in [x, y, z]
    ensures Stuck(Run(t, es), j, x, y, z) && Step(Run(t, es), e).1 == None
    decreases |es|
  {
    if |es| > 0 {
      var before, f := es[..|es| - 1], es[|es| - 1];
      assert es == before + [f] && f in es;
      MixedCutsBlock(t, before, j, e, x, y, z, data);
      StuckStep(Run(t, before), f, j, x, y, z, data);
    }
    StuckStep(Run(t, es), e, j, x, y, z, data);
  }

  /** The first two arrivals are enough to get there, from any table with room and no slot for the datagram. */
  lemma {:induction false} TwoPartsClash(t: seq<Slot>, m1: bool, m2: bool, j: nat, x: Dgram, y: Dgram, z: Dgram, data: seq<Byte>)
    requires Clash(x, y, z, data) && NoSlot(t, x)
    requires exists i :: 0 <= i < |t| && !InUse(t[i])
    requires j == LastFree(t) - 1
    ensures Stuck(Run(t, [Arrive(x, m1), Arrive(y, m2)]), j, x, y, z)
  {
    AddToEmpty(x, y, z, data);
    assert Match(t, x) == |t|;
    var t1 := t[j := Slot([x], 7, 9, 0, 16)];
    assert Step(t, Arrive(x, m1)) == (t1, None);
    assert forall i :: 0 <= i < |t1| && i != j ==> t1[i] == t[i] && !Matches(t1[i], y);
    assert Matches(t1[j], y) && Match(t1, y) == j;
    assert Step(t1, Arrive(y, m2)) == (t1[j := Two(x, y)], None);
    RunTwo(t, Arrive(x, m1), Arrive(y, m2));
  }

  lemma {:induction false} RunTwo(t: seq<Slot>, a: Event, b: Event)
    ensures Run(t, [a, b]) == Step(Step(t, a).0, b).0
  {
    var one, two := [a], [a, b];
    assert one[..|one| - 1] == [] && two[..|two| - 1] == one;
    assert Run(t, one[..|one| - 1]) == t;
    assert Run(t, one) == Step(t, a).0;
  }
}
