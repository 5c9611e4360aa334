/** What reassembly guarantees: nothing but the original payload comes out, and it comes out when all is there. */
module ReassemblyFacts {
  import opened Common
  import opened TcpTypes
  import opened IpTypes
  import opened IpReassembly

  // ---------------------------------------------------------------- safety: only the original payload

  /** `p` is some part of `data`, however it was cut; without MF it is the last part. */
  predicate PartOf(p: Dgram, data: seq<Byte>) {
    && 8 * p.off + |p.data| <= |data| && data[8 * p.off..8 * p.off + |p.data|] == p.data
    && (!p.mf ==> 8 * p.off + |p.data| == |data|)
  }

  /** The slot's fragments are all parts of `data`, and its counters are right. */
  ghost predicate Holds(s: Slot, data: seq<Byte>) {
    && (forall p :: p in s.list ==> PartOf(p, data))
    && s.curlen == |Payload(s.list)|
    && (s.totlen == 0 || s.totlen == |data|)
  }

  /** Every slot in use for datagram (id, saddr) holds parts of `data`. */
  ghost predicate TableHolds(t: seq<Slot>, id: nat, saddr: nat, data: seq<Byte>) {
    forall i :: 0 <= i < |t| && InUse(t[i]) && t[i].id == id && t[i].saddr == saddr ==> Holds(t[i], data)
  }

  lemma {:induction false} InsertAdds(list: seq<Dgram>, p: Dgram)
    ensures forall x :: x in Insert(list, p) ==> x in list || x == p
    ensures |Payload(Insert(list, p))| == |Payload(list)| + if Duplicate(list, p) then 0 else |p.data|
    ensures Duplicate(list, p) ==> Insert(list, p) == list
  {
    if |list| > 0 && list[0].off < p.off {
      InsertAdds(list[1..], p);
      var r := Insert(list[1..], p);
      assert ([list[0]] + r)[1..] == r;
      assert list == [list[0]] + list[1..];
    } else {
      assert ([p] + list)[1..] == list;
    }
  }

  lemma {:induction false} AddKeepsHolds(s: Slot, p: Dgram, data: seq<Byte>)
    requires Holds(s, data) && PartOf(p, data)
    ensures Holds(Add(s, p), data)
  {
    InsertAdds(s.list, p);
  }

  /** Fragments without gaps spell out the payload from where they start. */
  lemma {:induction false} ContiguousSpells(list: seq<Dgram>, at: nat, data: seq<Byte>)
    requires Contiguous(list, at) && (forall p :: p in list ==> PartOf(p, data)) && at <= |data|
    ensures at + |Payload(list)| <= |data| && Payload(list) == data[at..at + |Payload(list)|]
  {
    if |list| > 0 {
      assert list[0] in list;
      var n := |list[0].data|;
      ContiguousSpells(list[1..], at + n, data);
      var m := |Payload(list[1..])|;
      RunOn(data, at, at + n, at + n + m);
    }
  }

  lemma {:induction false} RunOn(data: seq<Byte>, a: nat, b: nat, c: nat)
    requires a <= b <= c <= |data|
    ensures data[a..b] + data[b..c] == data[a..c]
  {
  }

  lemma {:induction false} PullupIsExact(s: Slot, mem: bool, data: seq<Byte>)
    requires Holds(s, data)
    ensures var (s', r) := Pullup(s, mem); (InUse(s') ==> Holds(s', data)) && (r.Some? ==> r.value.data == data)
  {
    if Complete(s) && InUse(s) && Contiguous(s.list, 0) {
      ContiguousSpells(s.list, 0, data);
      assert data[0..|data|] == data;
    }
  }

  /** However fragments are cut, lost, repeated or mixed with other traffic, only the original payload comes out. */
  lemma {:induction false} OnlyTheOriginal(t: seq<Slot>, p: Dgram, mem: bool, id: nat, saddr: nat, data: seq<Byte>)
    requires TableHolds(t, id, saddr, data)
    requires p.id == id && p.saddr == saddr ==> PartOf(p, data)
    ensures var (t', r) := Defrag(t, p, mem);
      TableHolds(t', id, saddr, data) && (r.Some? && p.id == id && p.saddr == saddr ==> r.value.data == data)
  {
    if !IsFragment(p) {
      assert p.id == id && p.saddr == saddr ==> p.data == data[0..|data|] == data;
    } else if p.id == id && p.saddr == saddr {
      var i := Match(t, p);
      if i < |t| {
        AddKeepsHolds(t[i], p, data);
        PullupIsExact(Add(t[i], p), mem, data);
      } else {
        var s := Slot([], id, saddr, 0, 0);
        assert Holds(s, data);
        AddKeepsHolds(s, p, data);
      }
    } else {
      ForeignTouchesOneSlot(t, p, mem);
    }
  }

  /** A fragment changes at most one slot, to one with its own key. */
  lemma {:induction false} ForeignTouchesOneSlot(t: seq<Slot>, p: Dgram, mem: bool)
    ensures var t' := Defrag(t, p, mem).0;
      && |t'| == |t|
      && (forall i :: 0 <= i < |t| ==>
            t'[i] == t[i] || (t'[i].id == p.id && t'[i].saddr == p.saddr && (InUse(t[i]) ==> Matches(t[i], p))))
  {
  }

  // ---------------------------------------------------------------- progress: it does come out

  /** The fragments of `ps` from place `i` on whose place is in `have`. */
  function Pick(ps: seq<Dgram>, have: set<nat>, i: nat): seq<Dgram>
    decreases |ps| - i
  {
    if i >= |ps| then [] else if i in have then [ps[i]] + Pick(ps, have, i + 1) else Pick(ps, have, i + 1)
  }

  predicate Ordered(ps: seq<Dgram>) { forall i, j :: 0 <= i < j < |ps| ==> ps[i].off < ps[j].off }

  /** What cutting gives: one key, increasing offsets without gaps, nothing empty, MF on all but the last. */
  ghost predicate Regular(ps: seq<Dgram>, d: Dgram) {
    && |ps| > 0 && Ordered(ps) && Contiguous(ps, 8 * d.off)
    && (forall i :: 0 <= i < |ps| ==>
          ps[i].id == d.id && ps[i].saddr == d.saddr && |ps[i].data| > 0 && (ps[i].mf <==> i < |ps| - 1 || d.mf))
  }

  lemma {:induction false} CutsAreRegular(ps: seq<Dgram>, d: Dgram)
    requires Cuts(ps, d) && |d.data| > 0
    ensures Regular(ps, d)
  {
    if |ps| > 1 {
      var n := |ps[0].data|;
      var d1 := Rest(d, n);
      CutsAreRegular(ps[1..], d1);
      assert 8 * d1.off == 8 * d.off + n;
      OrderedBehind(ps);
      RegularBehind(ps, d, d1);
    }
  }

  lemma {:induction false} OrderedBehind(ps: seq<Dgram>)
    requires |ps| > 1 && Ordered(ps[1..]) && ps[0].off < ps[1].off
    ensures Ordered(ps)
  {
    forall i, j | 0 <= i < j < |ps| ensures ps[i].off < ps[j].off {
      assert ps[j] == ps[1..][j - 1] && ps[1] == ps[1..][0];
      if i > 0 { assert ps[i] == ps[1..][i - 1]; }
    }
  }

  lemma {:induction false} RegularBehind(ps: seq<Dgram>, d: Dgram, d1: Dgram)
    requires |ps| > 1 && Regular(ps[1..], d1) && ps[0].mf && |ps[0].data| > 0
    requires ps[0].id == d.id == d1.id && ps[0].saddr == d.saddr == d1.saddr && d1.mf == d.mf
    ensures forall i :: 0 <= i < |ps| ==>
          ps[i].id == d.id && ps[i].saddr == d.saddr && |ps[i].data| > 0 && (ps[i].mf <==> i < |ps| - 1 || d.mf)
  {
    forall i: nat | i < |ps| ensures ps[i].id == d.id && ps[i].saddr == d.saddr && |ps[i].data| > 0
      ensures ps[i].mf <==> i < |ps| - 1 || d.mf {
      if i > 0 { assert ps[i] == ps[1..][i - 1]; }
    }
  }

  /** Places before `i` do not matter. */
  lemma {:induction false} PickIgnores(ps: seq<Dgram>, have: set<nat>, k: nat, i: nat)
    requires k < i
    ensures Pick(ps, have + {k}, i) == Pick(ps, have, i)
    decreases |ps| - i
  {
    if i < |ps| { PickIgnores(ps, have, k, i + 1); }
  }

  lemma {:induction false} PickIsLater(ps: seq<Dgram>, have: set<nat>, i: nat)
    ensures forall x :: x in Pick(ps, have, i) ==> exists j :: i <= j < |ps| && j in have && ps[j] == x
    decreases |ps| - i
  {
    if i < |ps| {
      PickIsLater(ps, have, i + 1);
      assert i in have ==> ps[i] == ps[i] && i in have;
    }
  }

  /** Inserting fragment `k` into what is there gives what is there with `k`. */
  lemma {:induction false} InsertPick(ps: seq<Dgram>, have: set<nat>, k: nat, i: nat)
    requires Ordered(ps) && i <= k < |ps|
    ensures Insert(Pick(ps, have, i), ps[k]) == Pick(ps, have + {k}, i)
    ensures Duplicate(Pick(ps, have, i), ps[k]) <==> k in have
    ensures k == |ps| - 1 && k !in have ==> GoesLast(Pick(ps, have, i), ps[k])
    decreases k - i
  {
    var rest := Pick(ps, have, i + 1);
    PickIsLater(ps, have, i + 1);
    if i < k {
      InsertPick(ps, have, k, i + 1);
      if i in have { assert Pick(ps, have, i)[1..] == rest; }
    } else {
      PickIgnores(ps, have, k, i + 1);
      if k in have {
        assert have + {k} == have;
      } else {
        assert rest == Pick(ps, have, i);
        assert |rest| > 0 ==> rest[0] in rest;
      }
    }
  }

  /** With every place present the whole list is there. */
  lemma {:induction false} PickAll(ps: seq<Dgram>, have: set<nat>, i: nat)
    requires i <= |ps| && forall j :: i <= j < |ps| ==> j in have
    ensures Pick(ps, have, i) == ps[i..]
    decreases |ps| - i
  {
    if i < |ps| { PickAll(ps, have, i + 1); }
  }

  /** With a place missing the payload is short. */
  lemma {:induction false} PickSome(ps: seq<Dgram>, have: set<nat>, i: nat)
    requires i <= |ps| && forall j :: 0 <= j < |ps| ==> |ps[j].data| > 0
    ensures |Payload(Pick(ps, have, i))| <= |Payload(ps[i..])|
    ensures (exists j :: i <= j < |ps| && j !in have) ==> |Payload(Pick(ps, have, i))| < |Payload(ps[i..])|
    decreases |ps| - i
  {
    if i < |ps| {
      PickSome(ps, have, i + 1);
      assert ps[i..][1..] == ps[i + 1..];
      if i in have {
        assert Pick(ps, have, i)[1..] == Pick(ps, have, i + 1);
      }
    }
  }

  ghost predicate AllThere(ps: seq<Dgram>, have: set<nat>) { forall i :: 0 <= i < |ps| ==> i in have }

  /** Slot `j`, and no other, is collecting the fragments of `d`, and has those in `have`. */
  ghost predicate Collecting(t: seq<Slot>, j: nat, ps: seq<Dgram>, d: Dgram, have: set<nat>) {
    && j < |t| && SlotHas(t[j], ps, d, have)
    && (forall i :: 0 <= i < |t| && i != j && InUse(t[i]) ==> !(t[i].id == d.id && t[i].saddr == d.saddr))
  }

  ghost predicate SlotHas(s: Slot, ps: seq<Dgram>, d: Dgram, have: set<nat>) {
    && s.id == d.id && s.saddr == d.saddr && s.list == Pick(ps, have, 0) && |s.list| > 0
    && s.curlen == |Payload(s.list)|
    && s.totlen == if |ps| - 1 in have then |d.data| else 0
  }

  /** A whole datagram and its fragments, possibly cut several times over. */
  ghost predicate Fragmented(ps: seq<Dgram>, d: Dgram) {
    Cuts(ps, d) && |ps| >= 2 && d.off == 0 && !d.mf
  }

  lemma {:induction false} FragmentedFacts(ps: seq<Dgram>, d: Dgram)
    requires Fragmented(ps, d)
    ensures Regular(ps, d) && |d.data| > 0 && Payload(ps) == d.data
    ensures forall k :: 0 <= k < |ps| ==> IsFragment(ps[k])
    ensures var last := ps[|ps| - 1]; last.off * 8 + |last.data| == |d.data|
  {
    CutsAreRegular(ps, d);
    CutsKeepPayload(ps, d);
    LastEnds(ps, 0);
    assert forall k :: 0 < k < |ps| ==> ps[0].off < ps[k].off;
  }

  lemma {:induction false} LastEnds(ps: seq<Dgram>, at: nat)
    requires |ps| > 0 && Contiguous(ps, at)
    ensures var last := ps[|ps| - 1]; last.off * 8 + |last.data| == at + |Payload(ps)|
  {
    if |ps| > 1 {
      LastEnds(ps[1..], at + |ps[0].data|);
    } else {
      assert ps[1..] == [];
    }
  }

  lemma {:induction false} AddCollects(s: Slot, k: nat, ps: seq<Dgram>, d: Dgram, have: set<nat>)
    requires Fragmented(ps, d) && k < |ps|
    requires s.id == d.id && s.saddr == d.saddr && s.list == Pick(ps, have, 0) && s.curlen == |Payload(s.list)|
    requires s.totlen == if |ps| - 1 in have then |d.data| else 0
    ensures SlotHas(Add(s, ps[k]), ps, d, have + {k})
  {
    FragmentedFacts(ps, d);
    InsertPick(ps, have, k, 0);
    InsertAdds(s.list, ps[k]);
    InsertKeepsSome(s.list, ps[k]);
  }

  /** A slot is complete exactly when all fragments are there, and then it holds the original. */
  lemma {:induction false} CompleteIffAllThere(s: Slot, ps: seq<Dgram>, d: Dgram, have: set<nat>)
    requires Fragmented(ps, d) && SlotHas(s, ps, d, have)
    ensures Complete(s) <==> AllThere(ps, have)
    ensures AllThere(ps, have) ==> Contiguous(s.list, 0) && Payload(s.list) == d.data
  {
    FragmentedFacts(ps, d);
    if AllThere(ps, have) {
      PickAll(ps, have, 0);
      assert ps[0..] == ps;
    } else {
      PickSome(ps, have, 0);
      assert ps[0..] == ps;
    }
  }

  /** The first fragment to arrive takes a free slot and is never enough by itself. */
  lemma {:induction false} FirstFragment(t: seq<Slot>, k: nat, mem: bool, ps: seq<Dgram>, d: Dgram)
    requires Fragmented(ps, d) && k < |ps|
    requires forall i :: 0 <= i < |t| && InUse(t[i]) ==> !(t[i].id == d.id && t[i].saddr == d.saddr)
    requires exists i :: 0 <= i < |t| && !InUse(t[i])
    ensures var (t', r) := Defrag(t, ps[k], mem); r == None && Collecting(t', LastFree(t) - 1, ps, d, {k})
  {
    FragmentedFacts(ps, d);
    assert Match(t, ps[k]) == |t|;
    var s := Slot([], d.id, d.saddr, 0, 0);
    assert Pick(ps, {}, 0) == [] by { PickNone(ps, 0); }
    AddCollects(s, k, ps, d, {});
    assert {} + {k} == {k};
  }

  lemma {:induction false} PickNone(ps: seq<Dgram>, i: nat)
    ensures Pick(ps, {}, i) == []
    decreases |ps| - i
  {
    if i < |ps| { PickNone(ps, i + 1); }
  }

  /** A further fragment completes the datagram exactly when it was the last one missing. */
  lemma {:induction false} NextFragment(t: seq<Slot>, j: nat, k: nat, ps: seq<Dgram>, d: Dgram, have: set<nat>)
    requires Fragmented(ps, d) && Collecting(t, j, ps, d, have) && k < |ps|
    ensures var (t', r) := Defrag(t, ps[k], true);
      && (!AllThere(ps, have + {k}) ==> r == None && Collecting(t', j, ps, d, have + {k}))
      && (AllThere(ps, have + {k}) ==>
            r == Some(Dgram(d.id, d.saddr, 0, false, false, |d.data|, d.data)) && !InUse(t'[j]) && t' == t[j := t'[j]])
  {
    FragmentedFacts(ps, d);
    assert Match(t, ps[k]) == j;
    AddCollects(t[j], k, ps, d, have);
    var s := Add(t[j], ps[k]);
    CompleteIffAllThere(s, ps, d, have + {k});
    if AllThere(ps, have + {k}) {
      PickAll(ps, have + {k}, 0);
    }
  }

  // ---------------------------------------------------------------- runs

  datatype Event = Arrive(p: Dgram, mem: bool) | Expire(slot: nat)

  function Step(t: seq<Slot>, e: Event): (seq<Slot>, Option<Dgram>) {
    match e
    case Arrive(p, mem) => Defrag(t, p, mem)
    case Expire(i) => if i < |t| then (t[i := t[i].(list := [])], None) else (t, None)
  }

  function Run(t: seq<Slot>, es: seq<Event>): seq<Slot>
    decreases |es|
  {
    if |es| == 0 then t else Step(Run(t, es[..|es| - 1]), es[|es| - 1]).0
  }

  /** Own fragments meet enough memory; anything may happen to other datagrams; slot `j` does not time out. */
  ghost predicate Fair(e: Event, j: nat, ps: seq<Dgram>, d: Dgram) {
    match e
    case Arrive(p, mem) => (p.id == d.id && p.saddr == d.saddr) ==> mem && p in ps
    case Expire(i) => i != j
  }

  /** The fragments of `ps` that arrive among `es`. */
  ghost function Seen(ps: seq<Dgram>, es: seq<Event>): set<nat> {
    set k: nat | k < |ps| && Arrive(ps[k], true) in es
  }

  lemma {:induction false} OtherTraffic(t: seq<Slot>, e: Event, j: nat, ps: seq<Dgram>, d: Dgram, have: set<nat>)
    requires Collecting(t, j, ps, d, have) && Fair(e, j, ps, d)
    requires e.Arrive? ==> !(e.p.id == d.id && e.p.saddr == d.saddr)
    ensures Collecting(Step(t, e).0, j, ps, d, have)
  {
    if e.Arrive? && IsFragment(e.p) { ForeignTouchesOneSlot(t, e.p, e.mem); }
  }

  /** In any order, with any repetition and any other traffic, the slot collects what has been seen. */
  lemma {:induction false} CollectsWhatIsSeen(t: seq<Slot>, es: seq<Event>, j: nat, ps: seq<Dgram>, d: Dgram, have: set<nat>)
    requires Fragmented(ps, d) && Collecting(t, j, ps, d, have) && !AllThere(ps, have + Seen(ps, es))
    requires forall e :: e in es ==> Fair(e, j, ps, d)
    ensures Collecting(Run(t, es), j, ps, d, have + Seen(ps, es))
    decreases |es|
  {
    FragmentedFacts(ps, d);
    if |es| == 0 {
      assert have + Seen(ps, es) == have;
    } else {
      var before, e := es[..|es| - 1], es[|es| - 1];
      assert es == before + [e];
      assert have + Seen(ps, before) <= have + Seen(ps, es);
      CollectsWhatIsSeen(t, before, j, ps, d, have);
      var so := have + Seen(ps, before);
      if e.Arrive? && e.p.id == d.id && e.p.saddr == d.saddr {
        assert Fair(e, j, ps, d);
        var k :| 0 <= k < |ps| && ps[k] == e.p;
        SeenOneMore(ps, before, k);
        assert have + Seen(ps, es) == so + {k};
        NextFragment(Run(t, before), j, k, ps, d, so);
      } else {
        SeenNothing(ps, before, e, d);
        OtherTraffic(Run(t, before), e, j, ps, d, so);
      }
    }
  }

  lemma {:induction false} SeenOneMore(ps: seq<Dgram>, es: seq<Event>, k: nat)
    requires k < |ps| && Ordered(ps)
    ensures Seen(ps, es + [Arrive(ps[k], true)]) == Seen(ps, es) + {k}
  {
  }

  lemma {:induction false} SeenNothing(ps: seq<Dgram>, es: seq<Event>, e: Event, d: Dgram)
    requires forall i :: 0 <= i < |ps| ==> ps[i].id == d.id && ps[i].saddr == d.saddr
    requires e.Arrive? ==> !(e.p.id == d.id && e.p.saddr == d.saddr)
    ensures Seen(ps, es + [e]) == Seen(ps, es)
  {
  }

  /** The whole datagram comes out exactly at the arrival of the last fragment that was missing. */
  lemma {:induction false} LastMissingCompletes(t: seq<Slot>, es: seq<Event>, j: nat, ps: seq<Dgram>, d: Dgram, have: set<nat>, k: nat)
    requires Fragmented(ps, d) && Collecting(t, j, ps, d, have) && !AllThere(ps, have + Seen(ps, es))
    requires forall e :: e in es ==> Fair(e, j, ps, d)
    requires k < |ps|
    ensures var (t', r) := Step(Run(t, es), Arrive(ps[k], true));
      && (r.Some? <==> AllThere(ps, have + Seen(ps, es) + {k}))
      && (r.Some? ==> r.value == Dgram(d.id, d.saddr, 0, false, false, |d.data|, d.data) && j < |t'| && !InUse(t'[j]))
  {
    CollectsWhatIsSeen(t, es, j, ps, d, have);
    NextFragment(Run(t, es), j, k, ps, d, have + Seen(ps, es));
  }

  /** Over a whole run of genuine parts of `data` and arbitrary other traffic, loss, memory shortage and timeouts. */
  lemma {:induction false} OnlyTheOriginalEver(t: seq<Slot>, es: seq<Event>, id: nat, saddr: nat, data: seq<Byte>)
    requires TableHolds(t, id, saddr, data)
    requires forall e :: e in es && e.Arrive? && e.p.id == id && e.p.saddr == saddr ==> PartOf(e.p, data)
    ensures TableHolds(Run(t, es), id, saddr, data)
    ensures forall e: Event :: e.Arrive? && e.p.id == id && e.p.saddr == saddr && PartOf(e.p, data) ==>
      var r := Step(Run(t, es), e).1; r.Some? ==> r.value.data == data
    decreases |es|
  {
    if |es| > 0 {
      var before, e := es[..|es| - 1], es[|es| - 1];
      assert es == before + [e];
      OnlyTheOriginalEver(t, before, id, saddr, data);
      if e.Arrive? { OnlyTheOriginal(Run(t, before), e.p, e.mem, id, saddr, data); }
    }
    forall e: Event | e.Arrive? && e.p.id == id && e.p.saddr == saddr && PartOf(e.p, data)
      ensures var r := Step(Run(t, es), e).1; r.Some? ==> r.value.data == data
    {
      OnlyTheOriginal(Run(t, es), e.p, e.mem, id, saddr, data);
    }
  }
}
