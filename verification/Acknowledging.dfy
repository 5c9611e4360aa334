/** What a host tells its peer: what is acknowledged when, and when a window that has opened is announced. */
module Acknowledging {
  import opened TcpTypes
  import opened TcpSend
  import opened RecvQueue
  import opened TcpRecv
  import opened TcpEndpoint
  import opened TcpSystem

  // ---------------------------------------------------------------- acknowledgments

  /** The segment starts at the frontier, and the frontier moves exactly to its end. */
  ghost predicate PlainNext(r: Rcv, p: Packet) {
    && !Redundant(r.q, Payload(p))
    && Payload(p).start == r.nxt + Bit(p.syn) && NextData(r, p) == Payload(p).End() == Receive(r, p).nxt
  }

  /** The packet acknowledges everything received in sequence and offers the current window. */
  predicate Acknowledges(k: Packet, ep: Endpoint) {
    k.ack && k.Len() == 0 && !k.rst && k.ackno == ep.rcv.nxt && k.window == Window(ep.rcv, ep.st) && k.seqno == ep.snd.nxt
  }

  lemma {:induction false} PlainIsNotUrgent(r: Rcv, p: Packet)
    ensures PlainNext(r, p) <==> !AckNow(r, p)
  {
    hide Redundant, Insert, CountAfter, Walk;
  }

  /**
   * A segment with data or FIN is acknowledged at once, or, if it is plainly the next one of an established connection,
   * with the delayed acknowledgment; a second one is not delayed.
   */
  lemma {:induction false} DataIsAcknowledged(ep: Endpoint, p: Packet, ie: InEnv)
    ensures var d, ep1 := TakeData(ep, p, ie), ep.(rcv := Receive(ep.rcv, p));
      if p.Len() == Bit(p.syn) then d == Res(ep1, [])
      else if ep.st.Established? && PlainNext(ep.rcv, p) && !ep.delack then d == Res(ep1.(delack := true), [])
      else if !ie.m2 then d == Res(ep1, [])
      else |d.out| == 1 && Acknowledges(d.out[0], ep1) && d.ep == ep1.(delack := false, rcv := Record(ep1.rcv, ep1.st))
  {
    hide Window, Record, Redundant, Insert, CountAfter, Walk;
    PlainIsNotUrgent(ep.rcv, p);
  }

  lemma {:induction false} QuietApplied(ep: Endpoint, s: Snd)
    ensures Apply(ep, Quiet(s)) == Res(ep.(snd := s), [])
  {
    hide Window;
    assert Stamp([], ep.rcv.nxt, Window(ep.rcv, ep.st)) == [];
  }

  lemma {:induction false} NothingTaken(ep: Endpoint, p: Packet, ie: InEnv)
    requires p.Len() == 0 && p.data == [] && !ep.rcv.finSeen
    ensures TakeData(ep, p, ie) == Res(ep, [])
  {
    assert Redundant(ep.rcv.q, Payload(p));
  }

  /** The delayed acknowledgment goes out when it is due. */
  lemma {:induction false} DelayedAckGoesOut(h: Host, wire: set<Packet>) returns (k: Packet)
    requires h.ep.delack && !h.ep.st.Closed? && !h.ep.st.TimeWait?
    ensures var h' := Act(h, wire, DelayedAck(true)); k in h'.wire && Acknowledges(k, h.ep) && !h'.ep.delack
  {
    hide Window, Record;
    var r := PureAck(h.ep, true);
    k := r.out[0];
    assert k in Took(h, r).wire;
  }

  /** A segment that is not acceptable is answered with the frontier and the window, unless it is a reset. */
  lemma {:induction false} RefusedIsAnswered(ep: Endpoint, p: Packet, ie: InEnv)
    requires !Check(ep.rcv, ep.st, p).ok && ie.m1 && !p.rst
    ensures var r := Input(ep, p, ie);
      && |r.out| == 1 && r.out[0].ack && r.out[0].Len() == 0 && !r.out[0].rst
      && r.out[0].ackno == ep.rcv.nxt && r.out[0].window == Window(ep.rcv, ep.st)
      && r.ep == ep.(rcv := Record(ep.rcv, ep.st), delack := false)
  {
    hide Window, Record, Check;
  }

  /**
   * Everything an output event sends acknowledges what has been received and offers the current window; if a segment
   * was handed down, that offer is on record and no delayed acknowledgment is due any more.
   */
  lemma {:induction false} SegmentsAcknowledge(ep: Endpoint, ev: OEvent, e: Env)
    ensures var o := Output(ep.snd, ev, e);
      var r := Apply(ep, o);
      && |r.out| == |o.out|
      && (forall i :: 0 <= i < |r.out| ==> r.out[i] == o.out[i].(ackno := ep.rcv.nxt, window := Window(ep.rcv, ep.st)))
      && (!o.dead && !o.wrote ==> r.ep == ep.(snd := o.s))
      && (!o.dead && o.wrote ==> r.ep.rcv == Record(ep.rcv, ep.st) && !r.ep.delack && r.ep.snd == o.s && r.ep.st == ep.st)
  {
    hide Output, Window, Record;
  }

  /** A connection that is given up waits for nothing: no timer, no delayed acknowledgment, nothing queued. */
  lemma {:induction false} GivenUpIsQuiet(ep: Endpoint, ev: OEvent, e: Env)
    ensures var o := Output(ep.snd, ev, e);
      o.dead ==>
        var ep' := Apply(ep, o).ep;
        && ep'.st.Closed? && !ep'.delack && !ep'.snd.timer && ep'.snd.ostate.Idle?
        && ep'.snd.q == [] && ep'.snd.cur == 0 && ep'.rcv.q == [] && ep'.rcv.cur == 0
  {
    hide Output, Window, Record;
  }

  // ---------------------------------------------------------------- the window

  /**
   * The window is what was promised or, if that is more, the free space; free space that is less than a segment and
   * less than a quarter of the buffer is not offered.
   */
  lemma {:induction false} WindowMeans(r: Rcv, st: State)
    ensures var w, free, promised := Window(r, st), r.max - r.cur, r.wnd - r.nxt;
      && (st.Synchronised() ==> promised <= w)
      && (r.mss <= free || r.max <= 4 * free ==> free <= w)
      && (st.Synchronised() && free < r.mss && 4 * free < r.max ==> w == Max(0, promised))
      && (w == free || w == 0 || (st.Synchronised() && w == promised))
  {
  }

  /** What has been put on record is what was offered. */
  lemma {:induction false} RecordMeans(r: Rcv, st: State)
    ensures Record(r, st) == r.(wnd := if st.Synchronised() then r.nxt + Window(r, st) else r.wnd)
    ensures st.Synchronised() ==> Window(Record(r, st), st) == Window(r, st)
  {
  }

  /** Whoever has read everything gets the whole buffer offered. */
  lemma {:induction false} EmptyBufferIsOffered(r: Rcv, st: State)
    requires r.cur == 0
    ensures r.max <= Window(r, st)
  {
  }

  /** After a read the peer is told exactly if the window has opened by two segments or half the buffer. */
  lemma {:induction false} ReadsAnnounce(ep: Endpoint)
    ensures var more := Window(ep.rcv, ep.st) - (ep.rcv.wnd - ep.rcv.nxt);
      var r := AnnounceRead(ep, true);
      if 2 * ep.rcv.mss <= more || ep.rcv.max <= 2 * more
      then |r.out| == 1 && Acknowledges(r.out[0], ep) && r.ep == ep.(rcv := Record(ep.rcv, ep.st), delack := false)
      else r == Res(ep, [])
  {
    hide Window, Record;
  }

  /** A window that was promised closed or half closed is announced as soon as everything has been read. */
  lemma {:induction false} ReadingAllAnnounces(h: Host, wire: set<Packet>, size: nat) returns (k: Packet)
    requires h.ep.sock && h.ep.st.Synchronised() && size > 0 && Readable(h.ep.rcv)
    requires var r := ReadCall(h.ep.rcv, size).r;
      r.cur == 0 && r.nxt == h.ep.rcv.nxt && r.wnd == h.ep.rcv.wnd && r.max == h.ep.rcv.max && 2 * (r.wnd - r.nxt) <= r.max
    ensures k in Act(h, wire, DoRead(size, true)).wire && k.ack && k.ackno == h.ep.rcv.nxt && h.ep.rcv.max <= k.window
  {
    hide Window, Record, ReadCall, Readable;
    var ep1 := h.ep.(rcv := ReadCall(h.ep.rcv, size).r);
    EmptyBufferIsOffered(ep1.rcv, ep1.st);
    ReadsAnnounce(ep1);
    var f := AnnounceRead(ep1, true);
    k := f.out[0];
    assert k in Took(h, f).wire;
  }

  /** A new buffer size is taken as it is within its limits, else the nearest limit, but never below what is queued. */
  lemma {:induction false} BufferSizeMeans(h: Host, wire: set<Packet>, bytes: int)
    ensures var r, r' := h.ep.rcv, Act(h, wire, SetRcvBuf(bytes)).ep.rcv;
      && r' == r.(max := r'.max)
      && (r'.max != r.max ==> 4096 <= r'.max <= MAX_SPACE && r.cur <= r'.max)
      && (4096 <= bytes <= MAX_SPACE && r.cur <= bytes ==> r'.max == bytes)
      && (bytes < 4096 && r.cur <= 4096 ==> r'.max == 4096)
      && (bytes > MAX_SPACE && r.cur <= MAX_SPACE ==> r'.max == MAX_SPACE)
  {
  }

  // ---------------------------------------------------------------- closing for good

  lemma {:induction false} DropsAllMarked(q: seq<Seg>, cur: int, read: int)
    ensures var d := Drop(MarkAll(q), cur, read);
      && d.q == [] && d.cur == (if q == [] then cur else 0)
      && read <= d.read && forall i :: 0 <= i < |q| ==> q[i].End() <= d.read
  {
    if q != [] {
      assert MarkAll(q)[1..] == MarkAll(q[1..]);
      var cur' := if |q| > 1 then cur - (q[1].start - q[0].start) else 0;
      DropsAllMarked(q[1..], cur', Max(read, q[0].End()));
      assert forall i :: 1 <= i < |q| ==> q[i] == q[1..][i - 1];
    }
  }

  /**
   * Whatever was received and not read is thrown away when the user goes, nothing of it will ever be read, and the peer is
   * told if that opens the window by two segments or half the buffer.
   */
  lemma {:induction false} UnreadIsDiscarded(ep: Endpoint)
    ensures var r := Discard(ep, true);
      var ep1 := ep.(sock := false, rcv := ep.rcv.(q := [], cur := if ep.rcv.q == [] then ep.rcv.cur else 0, read := r.ep.rcv.read));
      var more := Window(ep1.rcv, ep1.st) - (ep.rcv.wnd - ep.rcv.nxt);
      && ep.rcv.nxt <= r.ep.rcv.read && (forall i :: 0 <= i < |ep.rcv.q| ==> ep.rcv.q[i].End() <= r.ep.rcv.read)
      && if 2 * ep.rcv.mss <= more || ep.rcv.max <= 2 * more
         then |r.out| == 1 && Acknowledges(r.out[0], ep1) && r.ep == ep1.(rcv := Record(ep1.rcv, ep1.st), delack := false)
         else r == Res(ep1, [])
  {
    hide Window;
    DropsAllMarked(ep.rcv.q, ep.rcv.cur, ep.rcv.nxt);
  }

  /** A full close takes the socket away; without a connection it ends everything at once. */
  lemma {:induction false} DetachMeans(ep: Endpoint, mem: nat, e: Env, m: bool)
    ensures var r := Detach(ep, mem, e, m);
      && !r.ep.sock
      && (ep.st.Synchronised() ==> r == After(Shutdown(ep, mem, e), Discard(Shutdown(ep, mem, e).ep, m)))
      && (!ep.st.Synchronised() ==> r.out == [] && r.ep.st.Closed? && r.ep.snd.q == [] && r.ep.rcv.q == [] && !r.ep.snd.timer && !r.ep.delack)
  {
    hide Window, Shutdown, Drop, MarkAll, Record;
  }
}
