/** Fragmenting and reassembling as one theorem, from any table with room. */
module RoundTrip {
  import opened IpTypes
  import opened IpFragment
  import opened IpReassembly
  import opened ReassemblyFacts

  // ---------------------------------------------------------------- cutting again and again

  /** Every fragment of a cut tells its length and carries something. */
  lemma {:induction false} FragmentsAreSound(ps: seq<Dgram>, d: Dgram, i: nat)
    requires Cuts(ps, d) && i < |ps|
    ensures Sound(ps[i])
  {
    if i > 0 { FragmentsAreSound(ps[1..], Rest(d, |ps[0].data|), i - 1); }
  }

  /** Any fragment of any cut may be cut again. */
  lemma {:induction false} CutAgain(ps: seq<Dgram>, d: Dgram, i: nat, mtu: nat)
    requires Fragmented(ps, d) && i < |ps| && HEADER + 8 <= mtu < ps[i].length
    ensures Fragmented(ps[..i] + Pieces(ps[i], 0, mtu) + ps[i + 1..], d)
  {
    var p := ps[i];
    FragmentsAreSound(ps, d, i);
    PiecesCut(p, 0, mtu);
    assert Rest(p, 0).data == p.data;
    SameCuts(Pieces(p, 0, mtu), Rest(p, 0), p);
    RefragmentingKeepsCuts(ps, d, i, Pieces(p, 0, mtu));
  }

  /** A router on the way cuts fragment `i` for an interface with this `mtu`. */
  datatype Recut = Recut(i: nat, mtu: nat)

  /** The fragments after one more router; one that need not or cannot cut leaves them alone. */
  function CutOnce(ps: seq<Dgram>, c: Recut): seq<Dgram> {
    if c.i < |ps| && HEADER + 8 <= c.mtu < ps[c.i].length then
      ps[..c.i] + Pieces(ps[c.i], 0, c.mtu) + ps[c.i + 1..]
    else ps
  }

  function CutAll(ps: seq<Dgram>, cs: seq<Recut>): seq<Dgram>
    decreases |cs|
  {
    if |cs| == 0 then ps else CutOnce(CutAll(ps, cs[..|cs| - 1]), cs[|cs| - 1])
  }

  /** What is sent for a whole datagram stays a set of its fragments however often it is cut on the way. */
  lemma {:induction false} SentThenCutOnTheWay(d: Dgram, mtu: nat, cs: seq<Recut>)
    requires HEADER + 8 <= mtu < d.length && Sound(d) && !OffsetOverflows(d) && d.off == 0 && !d.mf
    ensures Fragmented(CutAll(Pieces(d, 0, mtu), cs), d)
    decreases |cs|
  {
    if |cs| == 0 {
      SentIsCut(d, mtu);
    } else {
      var n := |cs| - 1;
      SentThenCutOnTheWay(d, mtu, cs[..n]);
      var ps, c := CutAll(Pieces(d, 0, mtu), cs[..n]), cs[n];
      if c.i < |ps| && HEADER + 8 <= c.mtu < ps[c.i].length { CutAgain(ps, d, c.i, c.mtu); }
    }
  }

  /** No fragment's offset outgrows its field if the datagram's does not, so further cuts are never refused for that. */
  lemma {:induction false} FragmentsDoNotOverflow(ps: seq<Dgram>, d: Dgram, i: nat)
    requires Cuts(ps, d) && i < |ps| && !OffsetOverflows(d)
    ensures !OffsetOverflows(ps[i])
  {
    if |ps| > 1 {
      var n := |ps[0].data|;
      Units8(n, |d.data|);
      if i > 0 { FragmentsDoNotOverflow(ps[1..], Rest(d, n), i - 1); }
    }
  }

  lemma {:induction false} Units8(a: nat, b: nat)
    requires a % 8 == 0 && a <= b
    ensures a / 8 + (b - a) / 8 == b / 8 && a / 8 <= b / 8
  {
  }

  // ---------------------------------------------------------------- runs in pieces

  lemma {:induction false} RunJoins(t: seq<Slot>, a: seq<Event>, b: seq<Event>)
    ensures Run(t, a + b) == Run(Run(t, a), b)
    decreases |b|
  {
    hide Step;
    if |b| == 0 {
      assert a + b == a;
    } else {
      var n, c := |b| - 1, a + b;
      RunJoins(t, a, b[..n]);
      assert c[..|c| - 1] == a + b[..n] && c[|c| - 1] == b[n];
    }
  }

  /** No slot is collecting fragments of `d`. */
  ghost predicate NoSlot(t: seq<Slot>, d: Dgram) {
    forall i :: 0 <= i < |t| && InUse(t[i]) ==> !(t[i].id == d.id && t[i].saddr == d.saddr)
  }

  ghost predicate Foreign(e: Event, d: Dgram) { e.Arrive? ==> !(e.p.id == d.id && e.p.saddr == d.saddr) }

  /** Other traffic and timeouts never start a slot for `d`. */
  lemma {:induction false} ForeignKeepsNoSlot(t: seq<Slot>, es: seq<Event>, d: Dgram)
    requires NoSlot(t, d) && forall e :: e in es ==> Foreign(e, d)
    ensures NoSlot(Run(t, es), d)
    decreases |es|
  {
    if |es| > 0 {
      var before, e := es[..|es| - 1], es[|es| - 1];
      assert es == before + [e];
      ForeignKeepsNoSlot(t, before, d);
      assert e in es;
      ForeignStep(Run(t, before), e, d);
    }
  }

  lemma {:induction false} ForeignStep(t: seq<Slot>, e: Event, d: Dgram)
    requires NoSlot(t, d) && Foreign(e, d)
    ensures NoSlot(Step(t, e).0, d)
  {
    if e.Arrive? && IsFragment(e.p) { ForeignTouchesOneSlot(t, e.p, e.mem); }
  }

  // ---------------------------------------------------------------- the theorem

  /**
   * Other traffic, then the first fragment, then other traffic, further fragments in any order and duplicates:
   * the next fragment brings out the original datagram exactly if it was the last one missing.
   */
  lemma {:induction false} RoundTrip(t: seq<Slot>, other: seq<Event>, first: nat, mem: bool, es: seq<Event>, k: nat,
                                     ps: seq<Dgram>, d: Dgram, j: nat)
    requires Fragmented(ps, d) && NoSlot(t, d) && first < |ps| && k < |ps|
    requires forall e :: e in other ==> Foreign(e, d)
    requires exists i :: 0 <= i < |Run(t, other)| && !InUse(Run(t, other)[i])
    requires j == LastFree(Run(t, other)) - 1
    requires forall e :: e in es ==> Fair(e, j, ps, d)
    requires !AllThere(ps, {first} + Seen(ps, es))
    ensures var (t', r) := Step(Run(t, other + [Arrive(ps[first], mem)] + es), Arrive(ps[k], true));
      && (r.Some? <==> AllThere(ps, {first} + Seen(ps, es) + {k}))
      && (r.Some? ==> r.value.data == d.data && r.value.id == d.id && r.value.saddr == d.saddr)
      && (r.Some? ==> NoSlot(t', d))
  {
    ForeignKeepsNoSlot(t, other, d);
    var t0 := Run(t, other);
    FirstFragment(t0, first, mem, ps, d);
    var e := Arrive(ps[first], mem);
    var t1 := Run(t, other + [e]);
    assert t1 == Step(t0, e).0 by { assert (other + [e])[..|other + [e]| - 1] == other; }
    RunJoins(t, other + [e], es);
    CollectsWhatIsSeen(t1, es, j, ps, d, {first});
    NextFragment(Run(t1, es), j, k, ps, d, {first} + Seen(ps, es));
  }
}
