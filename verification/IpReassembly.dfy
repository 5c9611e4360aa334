/** Putting fragments together again (kernel/ip.c, `ip_defrag`). */
module IpReassembly {
  import opened Common
  import opened IpTypes

  const SLOTS := 16

  /** One datagram under reassembly; the slot is free when its list is empty. */
  datatype Slot = Slot(list: seq<Dgram>, id: nat, saddr: nat, totlen: nat, curlen: nat)

  predicate InUse(s: Slot) { |s.list| > 0 }

  predicate Matches(s: Slot, p: Dgram) { InUse(s) && s.id == p.id && s.saddr == p.saddr }

  predicate IsFragment(p: Dgram) { p.mf || p.off != 0 }

  // ---------------------------------------------------------------- one slot

  /** A fragment with the same offset is already there. */
  predicate Duplicate(list: seq<Dgram>, p: Dgram) {
    |list| > 0 && (list[0].off == p.off || (list[0].off < p.off && Duplicate(list[1..], p)))
  }

  /** Every listed fragment starts before `p`. */
  predicate GoesLast(list: seq<Dgram>, p: Dgram) {
    |list| == 0 || (list[0].off < p.off && GoesLast(list[1..], p))
  }

  /** The list sorted by offset, with `p` unless it is a duplicate. */
  function Insert(list: seq<Dgram>, p: Dgram): seq<Dgram> {
    if |list| == 0 || p.off < list[0].off then [p] + list
    else if p.off == list[0].off then list
    else [list[0]] + Insert(list[1..], p)
  }

  function Add(s: Slot, p: Dgram): Slot {
    if Duplicate(s.list, p) then s else
    s.(list := Insert(s.list, p), curlen := s.curlen + |p.data|,
       totlen := if GoesLast(s.list, p) && !p.mf then p.off * 8 + |p.data| else s.totlen)
  }

  predicate Contiguous(list: seq<Dgram>, at: nat) {
    |list| == 0 || (8 * list[0].off == at && Contiguous(list[1..], at + |list[0].data|))
  }

  /** The assembled datagram; its length field counts the payload only. */
  function Whole(list: seq<Dgram>): Dgram
    requires |list| > 0
  {
    var data := Payload(list);
    Dgram(list[0].id, list[0].saddr, 0, false, false, |data|, data)
  }

  predicate Complete(s: Slot) { s.totlen != 0 && s.totlen == s.curlen }

  /** Assembles a complete slot and frees it; without memory or with gaps the fragments are thrown away. */
  function Pullup(s: Slot, mem: bool): (Slot, Option<Dgram>) {
    if !Complete(s) then (s, None)
    else if mem && InUse(s) && Contiguous(s.list, 0) then (s.(list := []), Some(Whole(s.list)))
    else (s.(list := []), None)
  }

  // ---------------------------------------------------------------- the table

  /** The first slot in use for this datagram, or the table's length. */
  function Match(t: seq<Slot>, p: Dgram): (k: nat)
    ensures k <= |t|
    ensures k < |t| ==> Matches(t[k], p)
    ensures forall i :: 0 <= i < k ==> !Matches(t[i], p)
  {
    if |t| == 0 || Matches(t[0], p) then 0 else 1 + Match(t[1..], p)
  }

  /** One more than the last free slot, or 0. */
  function LastFree(t: seq<Slot>): (k: nat)
    ensures k <= |t|
    ensures k > 0 ==> !InUse(t[k - 1])
    ensures forall i :: k <= i < |t| ==> InUse(t[i])
  {
    if |t| == 0 then 0 else if InUse(t[|t| - 1]) then LastFree(t[..|t| - 1]) else |t|
  }

  /** A datagram arrives; the result is a whole datagram, if there is one now. */
  function Defrag(t: seq<Slot>, p: Dgram, mem: bool): (seq<Slot>, Option<Dgram>) {
    if !IsFragment(p) then (t, Some(p)) else
    var i := Match(t, p);
    if i < |t| then
      var (s, r) := Pullup(Add(t[i], p), mem);
      (t[i := s], r)
    else
      var k := LastFree(t);
      if k > 0 then (t[k - 1 := Add(Slot([], p.id, p.saddr, 0, 0), p)], None) else (t, None)
  }

  /** A slot that has all its bytes is free again, also if there is no memory for them or they do not fit together. */
  lemma {:induction false} CompleteFreesSlot(t: seq<Slot>, p: Dgram, mem: bool)
    requires IsFragment(p) && Match(t, p) < |t| && Complete(Add(t[Match(t, p)], p))
    ensures !InUse(Defrag(t, p, mem).0[Match(t, p)])
    ensures Defrag(t, p, mem).1.Some? <==> mem && InUse(Add(t[Match(t, p)], p)) && Contiguous(Add(t[Match(t, p)], p).list, 0)
  {
  }

  // ---------------------------------------------------------------- as the program runs it

  class Reassembler {
    const slots: array<Slot>

    constructor ()
      ensures fresh(slots) && slots.Length == SLOTS
      ensures forall i :: 0 <= i < SLOTS ==> !InUse(slots[i])
    {
      slots := new Slot[SLOTS](_ => Slot([], 0, 0, 0, 0));
    }

    /** Links a fragment into its place in the list of slot `i`. */
    method FragInsert(i: nat, p: Dgram)
      requires i < slots.Length
      modifies slots
      ensures slots[..] == old(slots[..])[i := Add(old(slots[i]), p)]
    {
      var s := slots[i];
      var n := FindPlace(s.list, p);
      if n < |s.list| && s.list[n].off == p.off {
        assert slots[..] == old(slots[..])[i := s];
        return;
      }
      var list := s.list[..n] + [p] + s.list[n..];
      var totlen := if n == |s.list| && !p.mf then p.off * 8 + |p.data| else s.totlen;
      slots[i] := Slot(list, s.id, s.saddr, totlen, s.curlen + |p.data|);
      assert slots[..] == old(slots[..])[i := slots[i]];
    }

    /** The first fragment that does not start before `p`. */
    method FindPlace(list: seq<Dgram>, p: Dgram) returns (n: nat)
      ensures n <= |list|
      ensures Duplicate(list, p) == (n < |list| && list[n].off == p.off)
      ensures !Duplicate(list, p) ==> Insert(list, p) == list[..n] + [p] + list[n..]
      ensures !Duplicate(list, p) ==> GoesLast(list, p) == (n == |list|)
    {
      n := 0;
      while n < |list| && list[n].off < p.off
        invariant n <= |list|
        invariant Insert(list, p) == list[..n] + Insert(list[n..], p)
        invariant Duplicate(list, p) == Duplicate(list[n..], p)
        invariant GoesLast(list, p) == GoesLast(list[n..], p)
      {
        PassOne(list, p, n);
        n := n + 1;
      }
      StopHere(list, p, n);
    }

    /** Copies the fragments of slot `i` together if they are complete. */
    method FragPullup(i: nat, mem: bool) returns (r: Option<Dgram>)
      requires i < slots.Length && InUse(slots[i])
      modifies slots
      ensures (slots[..], r) == (old(slots[..])[i := Pullup(old(slots[i]), mem).0], Pullup(old(slots[i]), mem).1)
    {
      var s := slots[i];
      if s.totlen == 0 || s.totlen != s.curlen {
        assert slots[..] == old(slots[..])[i := s];
        return None;
      }
      slots[i] := s.(list := []);
      assert slots[..] == old(slots[..])[i := s.(list := [])];
      if !mem {
        return None;
      }
      var rest, data := s.list, [];
      while |rest| > 0
        invariant Payload(s.list) == data + Payload(rest)
        invariant Contiguous(s.list, 0) == Contiguous(rest, |data|)
        decreases |rest|
      {
        if 8 * rest[0].off != |data| {
          return None;
        }
        data := data + rest[0].data;
        rest := rest[1..];
      }
      assert data + Payload(rest) == data;
      return Some(Dgram(s.list[0].id, s.list[0].saddr, 0, false, false, |data|, data));
    }

    /** Takes a datagram in; hands back whole datagrams. */
    method Take(p: Dgram, mem: bool) returns (r: Option<Dgram>)
      modifies slots
      ensures (slots[..], r) == Defrag(old(slots[..]), p, mem)
    {
      if !p.mf && p.off == 0 {
        return Some(p);
      }
      var i, free := Search(p);
      if i < slots.Length {
        InsertKeepsSome(slots[i].list, p);
        FragInsert(i, p);
        ghost var s := slots[i];
        r := FragPullup(i, mem);
        assert slots[..] == old(slots[..])[i := Pullup(s, mem).0];
        return;
      }
      r := None;
      if free > 0 {
        slots[free - 1] := Slot([], p.id, p.saddr, 0, 0);
        FragInsert(free - 1, p);
        assert slots[..] == old(slots[..])[free - 1 := Add(Slot([], p.id, p.saddr, 0, 0), p)];
      }
    }

    /** One pass over the slots: the matching one, and the last free one. */
    method Search(p: Dgram) returns (i: nat, free: nat)
      ensures i == Match(slots[..], p)
      ensures i == slots.Length ==> free == LastFree(slots[..])
    {
      i, free := 0, 0;
      while i < slots.Length && !Matches(slots[i], p)
        invariant i <= slots.Length
        invariant Match(slots[..], p) == i + Match(slots[i..], p)
        invariant free == LastFree(slots[..i])
      {
        assert slots[i..][1..] == slots[i + 1..];
        assert slots[..i + 1][..i] == slots[..i];
        if !InUse(slots[i]) {
          free := i + 1;
        }
        i := i + 1;
      }
      assert i == slots.Length ==> slots[..i] == slots[..];
    }
  }

  lemma {:induction false} PassOne(list: seq<Dgram>, p: Dgram, n: nat)
    requires n < |list| && list[n].off < p.off
    ensures list[..n] + Insert(list[n..], p) == list[..n + 1] + Insert(list[n + 1..], p)
    ensures Duplicate(list[n..], p) == Duplicate(list[n + 1..], p) && GoesLast(list[n..], p) == GoesLast(list[n + 1..], p)
  {
    assert list[n..][0] == list[n] && list[n..][1..] == list[n + 1..];
    assert list[..n + 1] == list[..n] + [list[n]];
  }

  lemma {:induction false} StopHere(list: seq<Dgram>, p: Dgram, n: nat)
    requires n <= |list| && (n < |list| ==> p.off <= list[n].off)
    ensures Duplicate(list[n..], p) == (n < |list| && list[n].off == p.off)
    ensures !Duplicate(list[n..], p) ==> list[..n] + Insert(list[n..], p) == list[..n] + [p] + list[n..]
    ensures !Duplicate(list[n..], p) ==> GoesLast(list[n..], p) == (n == |list|)
  {
    if n < |list| { assert list[n..][0] == list[n]; }
  }

  lemma {:induction false} InsertKeepsSome(list: seq<Dgram>, p: Dgram)
    ensures |Insert(list, p)| > 0
  {
  }
}
