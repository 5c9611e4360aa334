/** The receive side as the program runs it: fields updated in place and loops over the queue. */
module ReceiveSide {
  import opened TcpTypes
  import opened RecvQueue
  import opened TcpRecv
  import opened ReceiveFacts

  class RecvSide {
    const queue: InQueue
    var sync: bool
    var rcvNxt: int
    var rcvWnd: int
    var finSeen: bool
    var seqFin: int
    var seqRead: int
    var maxdatalen: int
    var rcvMss: int

    /** The value that the connection model works on. */
    ghost function View(): Rcv
      reads this, queue
    {
      Rcv(sync, rcvNxt, rcvWnd, finSeen, seqFin, seqRead, queue.segs, queue.curdatalen, maxdatalen, rcvMss)
    }

    constructor (max: int, mss: int)
      ensures fresh(queue)
      ensures View() == Rcv(false, 0, 0, false, 0, 0, [], 0, max, mss)
    {
      queue := new InQueue();
      sync, rcvNxt, rcvWnd, finSeen, seqFin, seqRead, maxdatalen, rcvMss := false, 0, 0, false, 0, 0, max, mss;
    }

    /** The peer's SYN tells where its numbers start. */
    method Synchronise(seqno: int, mss: int)
      modifies this
      ensures View() == old(View()).(sync := true, nxt := seqno, wnd := seqno, read := seqno + 1, mss := mss)
    {
      sync, rcvNxt, rcvWnd, seqRead, rcvMss := true, seqno, seqno, seqno + 1, mss;
    }

    method Flush()
      modifies queue
      ensures View() == old(View()).(q := [], cur := 0)
    {
      queue.segs, queue.curdatalen := [], 0;
    }

    /** The window to advertise; `update` records its right edge. */
    method RcvWnd(st: State, update: bool) returns (space: int)
      modifies this
      ensures space == Window(old(View()), st)
      ensures View() == if update then Record(old(View()), st) else old(View())
    {
      space := maxdatalen - queue.curdatalen;
      if space < rcvMss && space * 4 < maxdatalen {
        space := 0;
      }
      if st.Synchronised() {
        var minwnd := rcvWnd - rcvNxt;
        if space < minwnd {
          space := minwnd;
        }
        if update {
          rcvWnd := rcvNxt + space;
        }
      }
    }

    /** Takes an accepted packet in; the result says whether it must be acknowledged at once. */
    method RcvData(p: Packet) returns (ackNow: bool)
      requires Normal(queue.segs)
      modifies this, queue
      ensures View() == Receive(old(View()), p)
      ensures ackNow == AckNow(old(View()), p)
    {
      hide Redundant, Insert, CountAfter, Normal, AckNow, Walk;
      var s := Seg(p.seqno + Bit(p.syn), p.data, false);
      if p.syn {
        rcvNxt := rcvNxt + 1;
      }
      if p.fin {
        finSeen, seqFin := true, s.start + |p.data|;
      }
      var nxt := rcvNxt;
      ghost var r := old(View());
      assert s == Payload(p) && nxt == r.nxt + Bit(p.syn);
      var added;
      added, nxt := AddAndWalk(s, nxt);
      assert nxt == NextData(r, p);
      ackNow := !added || rcvNxt != s.start || nxt - rcvNxt != |p.data|;
      ReceiveInSteps(r, p, nxt, rcvNxt, added);
      if finSeen && seqFin == nxt {
        ackNow := true;
        nxt := nxt + 1;
      }
      rcvNxt := nxt;
    }

    /** Queues a segment and moves on from it to the end of the continuous run, if it was new. */
    method AddAndWalk(s: Seg, from: int) returns (added: bool, nxt: int)
      requires Normal(queue.segs)
      modifies queue
      ensures added == !Redundant(old(queue.segs), s)
      ensures queue.segs == Insert(old(queue.segs), s)
      ensures queue.curdatalen == CountAfter(old(queue.segs), old(queue.curdatalen), s)
      ensures nxt == if added then Walk(queue.segs, LowCut(old(queue.segs), s.start), from) else from
    {
      var place;
      added, place := queue.AddSeg(s);
      nxt := from;
      if added {
        nxt := WalkFrom(place, from);
      }
    }

    method WalkFrom(place: nat, from: int) returns (nxt: int)
      ensures nxt == Walk(queue.segs, place, from)
    {
      var b := place;
      nxt := from;
      while b < |queue.segs| && queue.segs[b].start <= nxt
        invariant Walk(queue.segs, b, nxt) == Walk(queue.segs, place, from)
        decreases |queue.segs| - b
      {
        nxt, b := queue.segs[b].End(), b + 1;
      }
    }

    /** The segment the read position lies in, past segments that are already used up. */
    method FindRead() returns (x: int, b: nat)
      ensures (x, b) == SkipUsed(queue.segs, HighCut(queue.segs, seqRead), seqRead)
      ensures b <= |queue.segs|
    {
      var q := queue.segs;
      b := 0;
      while b < |q| && q[b].End() <= seqRead
        invariant b <= |q|
        invariant HighCut(q, seqRead) == b + HighCut(q[b..], seqRead)
      {
        assert q[b..][1..] == q[b + 1..];
        b := b + 1;
      }
      x := seqRead;
      while b < |q| && q[b].used && q[b].start <= x
        invariant b <= |q|
        invariant SkipUsed(q, b, x) == SkipUsed(q, HighCut(q, seqRead), seqRead)
      {
        x, b := q[b].End(), b + 1;
      }
    }

    /** One read: the bytes copied out; finished segments are marked and the head of the queue unlinked. */
    method Recv(size: nat) returns (bytes: seq<Byte>)
      requires Normal(queue.segs)
      modifies this, queue
      ensures Read(bytes, View()) == ReadCall(old(View()), size)
    {
      bytes := [];
      if size == 0 {
        return;
      }
      var x, b := FindRead();
      if !(b < |queue.segs| && queue.segs[b].start <= x) {
        return;
      }
      assert x < queue.segs[b].End() by {
        SkipStaysBelow(queue.segs, HighCut(queue.segs, seqRead), seqRead);
      }
      bytes, x := CopyOut(b, x, size);
      seqRead := x;
      DropSegs();
    }

    /** The copying loop: stops at a hole, marks each segment that has been read to its end. */
    method CopyOut(place: nat, from: int, size: nat) returns (bytes: seq<Byte>, x: int)
      requires Normal(queue.segs) && place < |queue.segs|
      requires queue.segs[place].start <= from < queue.segs[place].End()
      modifies queue`segs
      ensures Copied(bytes, x) == CopyFrom(old(queue.segs), place, from, size)
      ensures queue.segs == MarkUsed(old(queue.segs), place, x)
    {
      hide CopyFrom;
      ghost var q, all := queue.segs, CopyFrom(queue.segs, place, from, size);
      var b: nat, left: nat := place, size;
      bytes, x := [], from;
      while b < |queue.segs| && left > 0 && queue.segs[b].start <= x
        invariant place <= b <= |q| && (b < |q| ==> x < q[b].End())
        invariant left > 0 ==> forall i :: place <= i < b ==> q[i].End() <= x
        invariant MarkedTo(queue.segs, q, place, b, x)
        invariant all == Copied(bytes + CopyFrom(q, b, x, left).bytes, CopyFrom(q, b, x, left).read)
        decreases |queue.segs| - b
      {
        ghost var was := x;
        if queue.segs[b].used {
          CopyPasses(q, b, x, left);
          x := queue.segs[b].End();
        } else {
          CopyOneMore(q, b, x, left, bytes, all);
          var piece := Piece(queue.segs[b], x, left);
          bytes, left, x := bytes + piece, left - |piece|, x + |piece|;
        }
        MarkOneMore(queue.segs, q, place, b, was, x);
        MarkIfRead(b, x);
        b := b + 1;
      }
      CopyEnds(q, b, x, left);
      MarkedAll(queue.segs, q, place, b, x);
    }

    method MarkIfRead(b: nat, x: int)
      requires b < |queue.segs|
      modifies queue`segs
      ensures queue.segs == if old(queue.segs)[b].End() <= x
                            then old(queue.segs)[b := old(queue.segs)[b].(used := true)] else old(queue.segs)
    {
      if queue.segs[b].End() <= x {
        queue.segs := queue.segs[b := queue.segs[b].(used := true)];
      }
    }

    /** Unlinks the used-up head of the queue and drags the read position along. */
    method DropSegs()
      modifies this, queue
      ensures var d := Drop(old(queue.segs), old(queue.curdatalen), old(seqRead));
        View() == old(View()).(q := d.q, cur := d.cur, read := d.read)
    {
      ghost var d := Drop(queue.segs, queue.curdatalen, seqRead);
      while |queue.segs| > 0 && queue.segs[0].used
        invariant Drop(queue.segs, queue.curdatalen, seqRead) == d
        invariant View() == old(View()).(q := queue.segs, cur := queue.curdatalen, read := seqRead)
        decreases |queue.segs|
      {
        if |queue.segs| > 1 {
          queue.curdatalen := queue.curdatalen - (queue.segs[1].start - queue.segs[0].start);
        } else {
          queue.curdatalen := 0;
        }
        if seqRead < queue.segs[0].End() {
          seqRead := queue.segs[0].End();
        }
        queue.segs := queue.segs[1..];
      }
    }

    /** The number of bytes a read with enough room returns: those up to the first hole. */
    method CanRead() returns (n: int)
      requires Normal(queue.segs)
      ensures forall size: nat :: |ReadCall(View(), size).bytes| == Min(size, n)
      ensures forall e :: IsEdge(queue.segs, seqRead, e) && NoneMarked(queue.segs, seqRead) ==> n == e - seqRead
    {
      hide ReadCall, SkipUsed, IsEdge;
      var x, b := FindRead();
      ReadReturns(View());
      if !(b < |queue.segs| && queue.segs[b].start <= x) {
        NothingThere(queue.segs, seqRead);
        return 0;
      }
      SkipStaysBelow(queue.segs, HighCut(queue.segs, seqRead), seqRead);
      n := CountOn(b, x);
      ReadableIsWalk(queue.segs, seqRead);
    }

    /** The counting loop, from the first segment that can be read on. */
    method CountOn(at: nat, x0: int) returns (n: int)
      requires Normal(queue.segs) && at < |queue.segs| && x0 < queue.segs[at].End()
      ensures n == Available(queue.segs, at, x0)
      ensures (forall i :: at <= i < |queue.segs| ==> !queue.segs[i].used) ==> n == Walk(queue.segs, at, x0) - x0
    {
      var q, b, x := queue.segs, at, x0;
      n := 0;
      while b < |q| && q[b].start <= x
        invariant at <= b <= |q| && (b < |q| ==> x < q[b].End())
        invariant n + Available(q, b, x) == Available(q, at, x0)
        invariant Walk(q, b, x) == Walk(q, at, x0)
        invariant (forall i :: at <= i < |q| ==> !q[i].used) ==> n == x - x0
      {
        if !q[b].used {
          n := n + |q[b].data| - (x - q[b].start);
        }
        x, b := q[b].End(), b + 1;
      }
    }
  }

  /** Unread bytes from number `x` on, up to a hole. */
  function Available(q: seq<Seg>, k: nat, x: int): int
    decreases |q| - k
  {
    if k < |q| && q[k].start <= x <= q[k].End() then
      (if q[k].used then 0 else q[k].End() - x) + Available(q, k + 1, q[k].End())
    else 0
  }

  lemma {:induction false} ReadReturns(r: Rcv)
    ensures var (x, k) := SkipUsed(r.q, HighCut(r.q, r.read), r.read);
      forall size: nat :: |ReadCall(r, size).bytes| == Min(size, if k < |r.q| && r.q[k].start <= x then Available(r.q, k, x) else 0)
  {
    hide CopyFrom, SkipUsed, Drop, MarkUsed, Available;
    var (x, k) := SkipUsed(r.q, HighCut(r.q, r.read), r.read);
    forall size: nat
      ensures |ReadCall(r, size).bytes| == Min(size, if k < |r.q| && r.q[k].start <= x then Available(r.q, k, x) else 0)
    {
      CopiesAvailable(r.q, k, x, size);
    }
  }

  lemma {:induction false} CopiesAvailable(q: seq<Seg>, k: nat, x: int, size: nat)
    ensures 0 <= Available(q, k, x) && |CopyFrom(q, k, x, size).bytes| == Min(size, Available(q, k, x))
    decreases |q| - k
  {
    if k < |q| && q[k].start <= x <= q[k].End() {
      var n := Min(size, q[k].End() - x);
      CopiesAvailable(q, k + 1, q[k].End(), if q[k].used then size else size - n);
      if !q[k].used && n == size { CopyEnds(q, k + 1, x + n, 0); }
    }
  }

  /** The received state and the need to acknowledge, in terms of what the steps have at hand. */
  lemma {:induction false} ReceiveInSteps(r: Rcv, p: Packet, nxt: int, from: int, added: bool)
    requires nxt == NextData(r, p) && from == r.nxt + Bit(p.syn) && added == !Redundant(r.q, Payload(p))
    ensures var fin := p.fin || r.finSeen;
      var at := if p.fin then Payload(p).End() else r.seqFin;
      var last := fin && at == nxt;
      && Receive(r, p) == Rcv(r.sync, if last then nxt + 1 else nxt, r.wnd, fin, at, r.read,
                              Insert(r.q, Payload(p)), CountAfter(r.q, r.cur, Payload(p)), r.max, r.mss)
      && AckNow(r, p) == (!added || from != Payload(p).start || nxt - from != |p.data| || last)
  {
  }

  /** The segments from `place` up to `b` that end at or before `x` have been marked, the others left alone. */
  ghost predicate MarkedTo(now: seq<Seg>, q: seq<Seg>, place: nat, b: nat, x: int) {
    && |now| == |q|
    && forall i :: 0 <= i < |q| ==>
         now[i] == if place <= i < b && q[i].End() <= x then q[i].(used := true) else q[i]
  }

  lemma {:induction false} MarkOneMore(now: seq<Seg>, q: seq<Seg>, place: nat, b: nat, x: int, x': int)
    requires MarkedTo(now, q, place, b, x) && place <= b < |q| && x <= x' && (q[b].used ==> q[b].End() <= x')
    requires forall i :: place <= i < b ==> q[i].End() <= x
    ensures MarkedTo(if q[b].End() <= x' then now[b := now[b].(used := true)] else now, q, place, b + 1, x')
  {
  }

  lemma {:induction false} MarkedAll(now: seq<Seg>, q: seq<Seg>, place: nat, b: nat, x: int)
    requires MarkedTo(now, q, place, b, x) && Normal(q) && place <= b && (b < |q| ==> x < q[b].End())
    ensures now == MarkUsed(q, place, x)
  {
    assert forall i :: b <= i < |q| ==> q[b].End() <= q[i].End();
  }

  /** What has been copied stays the beginning of the whole copy. */
  lemma {:induction false} CopyOneMore(q: seq<Seg>, b: nat, x: int, left: nat, bytes: seq<Byte>, all: Copied)
    requires b < |q| && left > 0 && q[b].start <= x < q[b].End() && !q[b].used
    requires all == Copied(bytes + CopyFrom(q, b, x, left).bytes, CopyFrom(q, b, x, left).read)
    ensures var piece := Piece(q[b], x, left);
      var c := CopyFrom(q, b + 1, x + |piece|, left - |piece|);
      all == Copied(bytes + piece + c.bytes, c.read)
  {
    var piece := Piece(q[b], x, left);
    assert q[b].data[x - q[b].start..][..|piece|] == piece;
    assert forall u: seq<Byte>, v, w :: u + (v + w) == (u + v) + w;
  }

  lemma {:induction false} CopyPasses(q: seq<Seg>, b: nat, x: int, left: nat)
    requires b < |q| && left > 0 && q[b].start <= x <= q[b].End() && q[b].used
    ensures CopyFrom(q, b, x, left) == CopyFrom(q, b + 1, q[b].End(), left)
  {
  }

  lemma {:induction false} CopyEnds(q: seq<Seg>, b: nat, x: int, left: nat)
    requires b >= |q| || left == 0 || x < q[b].start
    ensures CopyFrom(q, b, x, left) == Copied([], x)
  {
  }

  /** At most `left` bytes of `s` from number `x` on. */
  function Piece(s: Seg, x: int, left: nat): (d: seq<Byte>)
    requires s.start <= x < s.End()
    ensures |d| == Min(left, s.End() - x)
  {
    s.data[x - s.start..x - s.start + Min(left, s.End() - x)]
  }

  /** Marked segments have been read. */
  ghost predicate NoneMarked(q: seq<Seg>, x: int) {
    forall i :: 0 <= i < |q| && q[i].used ==> q[i].End() <= x
  }

  lemma {:induction false} SkipStaysBelow(q: seq<Seg>, k: nat, x: int)
    requires Normal(q) && k <= |q|
    requires k < |q| ==> x < q[k].End()
    ensures var (y, j) := SkipUsed(q, k, x); k <= j <= |q| && (j < |q| ==> y < q[j].End())
    decreases |q| - k
  {
    if k < |q| && q[k].used && q[k].start <= x {
      SkipStaysBelow(q, k + 1, q[k].End());
    }
  }

  /** Nothing marked lies behind the read position, so the skip loop stops at once. */
  lemma {:induction false} SkipNothing(q: seq<Seg>, x: int)
    requires Normal(q) && NoneMarked(q, x)
    ensures SkipUsed(q, HighCut(q, x), x) == (x, HighCut(q, x))
    ensures forall i :: HighCut(q, x) <= i < |q| ==> !q[i].used
  {
    var k := HighCut(q, x);
    assert forall i :: k <= i < |q| ==> q[k].End() <= q[i].End();
  }

  lemma {:induction false} NothingThere(q: seq<Seg>, x: int)
    requires Normal(q)
    requires var (y, k) := SkipUsed(q, HighCut(q, x), x); !(k < |q| && q[k].start <= y)
    ensures forall e :: IsEdge(q, x, e) && NoneMarked(q, x) ==> e == x
  {
    if NoneMarked(q, x) {
      SkipNothing(q, x);
      assert !Covers(q, x);
    }
  }

  lemma {:induction false} ReadableIsWalk(q: seq<Seg>, x: int)
    requires Normal(q)
    ensures forall e :: IsEdge(q, x, e) && NoneMarked(q, x) ==> e == Walk(q, HighCut(q, x), x)
    ensures NoneMarked(q, x) ==> SkipUsed(q, HighCut(q, x), x) == (x, HighCut(q, x))
    ensures NoneMarked(q, x) ==> forall i :: HighCut(q, x) <= i < |q| ==> !q[i].used
  {
    if NoneMarked(q, x) {
      SkipNothing(q, x);
      WalkReachesEdge(q, HighCut(q, x), x, x);
      var w := Walk(q, HighCut(q, x), x);
      forall e | IsEdge(q, x, e) ensures e == w {
        assert e < w ==> Covers(q, e);
        assert w < e ==> Covers(q, w);
      }
    }
  }
}
