/** What each handler of the connection keeps, seen from the send side. */
module EndpointFacts {
  import opened TcpTypes
  import opened Stream
  import opened TcpSend
  import opened SendFacts
  import opened TcpRecv
  import opened TcpEndpoint

  /** What may leave an endpoint: resets, and acknowledged stream content or probes. */
  ghost predicate OutOk(p: Packet, ep: Endpoint, str: seq<Byte>, closed: bool) {
    if p.rst then |p.data| == 0 && !p.syn && !p.fin
    else
      && (p.ack ==> p.ackno <= ep.rcv.nxt)
      && (|| (p.seqno + 2 <= ep.snd.una && |p.data| == 1 && !p.syn && !p.fin)
          || (Genuine(p, ep.snd.isn + 1, str, closed) && (p.Len() > 0 ==> p.seqno + p.Len() <= ep.snd.max)))
  }

  ghost predicate AllOut(out: seq<Packet>, ep: Endpoint, str: seq<Byte>, closed: bool) {
    forall i :: 0 <= i < |out| ==> OutOk(out[i], ep, str, closed)
  }

  ghost predicate EpOk(ep: Endpoint, str: seq<Byte>, closed: bool) {
    SndOk(ep.snd, str, closed) && TimerOk(ep.snd)
  }

  /** Only the recorded window edge may differ. */
  predicate SameButWindow(r: Rcv, r': Rcv) { r' == r.(wnd := r'.wnd) }

  /** A step that keeps the send invariant, moves pointers forward only and emits proper packets. */
  ghost predicate Carried(ep: Endpoint, r: Res, str: seq<Byte>, closed: bool, ack: int) {
    && EpOk(r.ep, str, closed) && r.ep.st == ep.st && r.ep.sock == ep.sock
    && r.ep.snd.isn == ep.snd.isn && r.ep.snd.write == ep.snd.write
    && ep.snd.una <= r.ep.snd.una <= Max(ep.snd.una, ack)
    && ep.snd.max <= r.ep.snd.max && ep.rcv.nxt <= r.ep.rcv.nxt
    && AllOut(r.out, r.ep, str, closed)
  }

  /** Pointers have only moved forward, so what was proper to send still is. */
  predicate Forward(ep: Endpoint, ep': Endpoint) {
    && ep'.snd.isn == ep.snd.isn && ep.snd.una <= ep'.snd.una && ep.snd.max <= ep'.snd.max
    && ep.rcv.nxt <= ep'.rcv.nxt
  }

  // ---------------------------------------------------------------- what the handlers look at

  /** The state's handler looks at the acknowledgment. */
  predicate Heeds(ep: Endpoint, p: Packet) {
    match ep.st
    case Closed => false
    case Listen => false
    case SynSent => p.syn && !p.rst
    case SynRcvd => !p.rst && !p.syn
    case Established => !p.rst && !p.syn
    case CloseWait => !p.rst && !p.syn
    case _ => !Fatal(ep, p)
  }

  /** The states that take over the peer's window. */
  predicate Updates(st: State) { st.Established? || st.FinWait1? || st.CloseWait? }

  /** The state's handler takes the payload in; in the last states no payload is acceptable or looked at. */
  predicate TakesData(ep: Endpoint, p: Packet) {
    match ep.st
    case SynRcvd => p.ack && !p.rst && !p.syn
    case Established => p.ack && !p.rst && !p.syn
    case FinWait1 => p.ack && !Fatal(ep, p)
    case FinWait2 => p.ack && !Fatal(ep, p)
    case _ => false
  }

  // ---------------------------------------------------------------- packets

  lemma {:induction false} AllOutLater(out: seq<Packet>, ep: Endpoint, ep': Endpoint, str: seq<Byte>, closed: bool)
    requires AllOut(out, ep, str, closed) && Forward(ep, ep')
    ensures AllOut(out, ep', str, closed)
  {
    forall i | 0 <= i < |out| ensures OutOk(out[i], ep', str, closed) {
      assert OutOk(out[i], ep, str, closed);
    }
  }

  lemma {:induction false} AllOutBoth(a: seq<Packet>, b: seq<Packet>, ep: Endpoint, str: seq<Byte>, closed: bool)
    requires AllOut(a, ep, str, closed) && AllOut(b, ep, str, closed)
    ensures AllOut(a + b, ep, str, closed)
  {
    forall i | 0 <= i < |a + b| ensures OutOk((a + b)[i], ep, str, closed) {
      assert (a + b)[i] == if i < |a| then a[i] else b[i - |a|];
    }
  }

  /** Window variables, the congestion window and duplicate counts play no part in the send invariant. */
  lemma {:induction false} WindowFieldsFree(s: Snd, s': Snd, str: seq<Byte>, closed: bool)
    requires SndOk(s, str, closed) && TimerOk(s) && MAX_RETRY < s'.mss <= s'.cwnd
    requires s' == s.(wnd := s'.wnd, wndseq := s'.wndseq, wndack := s'.wndack, dupacks := s'.dupacks, mss := s'.mss, cwnd := s'.cwnd, thresh := s'.thresh)
    ensures SndOk(s', str, closed) && TimerOk(s')
  {
  }

  lemma {:induction false} CarriedAfter(ep: Endpoint, a: Res, b: Res, str: seq<Byte>, closed: bool, ack: int)
    requires Carried(ep, a, str, closed, ack) && Carried(a.ep, b, str, closed, ack)
    ensures Carried(ep, After(a, b), str, closed, ack)
  {
    AllOutLater(a.out, a.ep, b.ep, str, closed);
    AllOutBoth(a.out, b.out, b.ep, str, closed);
  }

  /** Packets of an output event, stamped with the current acknowledgment and window. */
  lemma {:induction false} StampedOut(s: Snd, r: SndRes, ep: Endpoint, ackno: int, window: int, str: seq<Byte>, closed: bool)
    requires AllEmitted(r.out, s.isn, str, closed, s.una, r.s.max)
    requires ep.snd.isn == s.isn && s.una <= ep.snd.una && r.s.max <= ep.snd.max && ackno <= ep.rcv.nxt
    ensures AllOut(Stamp(r.out, ackno, window), ep, str, closed)
  {
    hide Emitted, OutOk;
    var out := Stamp(r.out, ackno, window);
    forall i | 0 <= i < |out| ensures OutOk(out[i], ep, str, closed) {
      assert Emitted(r.out[i], s.isn, str, closed, s.una, r.s.max);
      StampedOk(r.out[i], s, r.s.max, ep, ackno, window, str, closed);
    }
  }

  lemma {:induction false} StampedOk(p: Packet, s: Snd, top: int, ep: Endpoint, ackno: int, window: int, str: seq<Byte>, closed: bool)
    requires Emitted(p, s.isn, str, closed, s.una, top)
    requires ep.snd.isn == s.isn && s.una <= ep.snd.una && top <= ep.snd.max && ackno <= ep.rcv.nxt
    ensures OutOk(p.(ackno := ackno, window := window), ep, str, closed)
  {
    hide InStream;
  }

  lemma {:induction false} ApplyCarries(ep: Endpoint, s: Snd, r: SndRes, str: seq<Byte>, closed: bool, ack: int)
    requires Fine(s, r, str, closed) && !r.dead
    requires s.isn == ep.snd.isn && s.write == ep.snd.write && ep.snd.una <= s.una <= Max(ep.snd.una, ack) && ep.snd.max <= s.max
    ensures Carried(ep, Apply(ep, r), str, closed, ack) && SameButWindow(ep.rcv, Apply(ep, r).ep.rcv)
  {
    StampedOut(s, r, Apply(ep, r).ep, ep.rcv.nxt, Window(ep.rcv, ep.st), str, closed);
  }

  lemma {:induction false} PureAckCarries(ep: Endpoint, mem: bool, str: seq<Byte>, closed: bool, ack: int)
    requires EpOk(ep, str, closed)
    ensures Carried(ep, PureAck(ep, mem), str, closed, ack) && SameButWindow(ep.rcv, PureAck(ep, mem).ep.rcv)
  {
  }

  lemma {:induction false} SndAckCarries(ep: Endpoint, p: Packet, mem: bool, str: seq<Byte>, closed: bool, ack: int)
    requires EpOk(ep, str, closed)
    ensures Carried(ep, SndAck(ep, p, mem), str, closed, ack) && SameButWindow(ep.rcv, SndAck(ep, p, mem).ep.rcv)
  {
  }

  // ---------------------------------------------------------------- acknowledgments

  lemma {:induction false} NewAckCarries(ep: Endpoint, p: Packet, oldWnd: int, ie: InEnv, str: seq<Byte>, closed: bool)
    requires EpOk(ep, str, closed) && ep.snd.una < p.ackno <= ep.snd.max
    ensures Carried(ep, AckNumber(ep, p, oldWnd, ie), str, closed, p.ackno)
    ensures SameButWindow(ep.rcv, AckNumber(ep, p, oldWnd, ie).ep.rcv)
  {
    var s := ep.snd.(una := p.ackno);
    assert Before(s, AckRcvd, str, closed);
    OutputFine(s, AckRcvd, ie.e1, str, closed);
    var r := Apply(ep, Output(s, AckRcvd, ie.e1));
    ApplyCarries(ep, s, Output(s, AckRcvd, ie.e1), str, closed, p.ackno);
    DupacksCarries(ep, r, str, closed, p.ackno);
  }

  lemma {:induction false} DupacksCarries(ep: Endpoint, r: Res, str: seq<Byte>, closed: bool, ack: int)
    requires Carried(ep, r, str, closed, ack)
    ensures Carried(ep, r.(ep := r.ep.(snd := r.ep.snd.(dupacks := 0))), str, closed, ack)
  {
    var ep' := r.ep.(snd := r.ep.snd.(dupacks := 0));
    AllOutLater(r.out, r.ep, ep', str, closed);
    WindowFieldsFree(r.ep.snd, ep'.snd, str, closed);
  }

  lemma {:induction false} AckNumberCarries(ep: Endpoint, p: Packet, oldWnd: int, ie: InEnv, str: seq<Byte>, closed: bool)
    requires EpOk(ep, str, closed)
    ensures Carried(ep, AckNumber(ep, p, oldWnd, ie), str, closed, p.ackno)
    ensures SameButWindow(ep.rcv, AckNumber(ep, p, oldWnd, ie).ep.rcv)
  {
    if p.ackno > ep.snd.max {
      TooHighCarries(ep, p, oldWnd, ie, str, closed);
    } else if ep.snd.una < p.ackno {
      NewAckCarries(ep, p, oldWnd, ie, str, closed);
    } else {
      NotNewCarries(ep, p, oldWnd, ie, str, closed);
    }
  }

  lemma {:induction false} TooHighCarries(ep: Endpoint, p: Packet, oldWnd: int, ie: InEnv, str: seq<Byte>, closed: bool)
    requires EpOk(ep, str, closed) && p.ackno > ep.snd.max
    ensures Carried(ep, AckNumber(ep, p, oldWnd, ie), str, closed, p.ackno)
    ensures SameButWindow(ep.rcv, AckNumber(ep, p, oldWnd, ie).ep.rcv)
  {
    if ep.st.SynRcvd? {
      StayCarries(ep, SndRst(p, ie.m1), str, closed, p.ackno);
      assert AckNumber(ep, p, oldWnd, ie) == Res(ep, SndRst(p, ie.m1));
    } else {
      SndAckCarries(ep, p, ie.m1, str, closed, p.ackno);
      assert AckNumber(ep, p, oldWnd, ie) == SndAck(ep, p, ie.m1);
    }
  }

  lemma {:induction false} NotNewCarries(ep: Endpoint, p: Packet, oldWnd: int, ie: InEnv, str: seq<Byte>, closed: bool)
    requires EpOk(ep, str, closed) && p.ackno <= ep.snd.una
    ensures Carried(ep, AckNumber(ep, p, oldWnd, ie), str, closed, p.ackno)
    ensures SameButWindow(ep.rcv, AckNumber(ep, p, oldWnd, ie).ep.rcv)
  {
    if p.ackno == ep.snd.una && oldWnd == p.window && p.Len() == 0 {
      DupAckCarries(ep, ie.e1, str, closed, p.ackno);
      assert AckNumber(ep, p, oldWnd, ie) == Apply(ep, Output(ep.snd.(dupacks := ep.snd.dupacks + 1), DupAck, ie.e1));
    } else {
      StayCarries(ep, [], str, closed, p.ackno);
      assert AckNumber(ep, p, oldWnd, ie) == Res(ep, []);
    }
  }

  lemma {:induction false} StayCarries(ep: Endpoint, out: seq<Packet>, str: seq<Byte>, closed: bool, ack: int)
    requires EpOk(ep, str, closed) && AllOut(out, ep, str, closed)
    ensures Carried(ep, Res(ep, out), str, closed, ack) && SameButWindow(ep.rcv, ep.rcv)
  {
  }

  lemma {:induction false} DupAckCarries(ep: Endpoint, e: Env, str: seq<Byte>, closed: bool, ack: int)
    requires EpOk(ep, str, closed)
    ensures var r := Apply(ep, Output(ep.snd.(dupacks := ep.snd.dupacks + 1), DupAck, e));
      Carried(ep, r, str, closed, ack) && SameButWindow(ep.rcv, r.ep.rcv)
  {
    var s := ep.snd.(dupacks := ep.snd.dupacks + 1);
    WindowFieldsFree(ep.snd, s, str, closed);
    OutputFine(s, DupAck, e, str, closed);
    ApplyCarries(ep, s, Output(s, DupAck, e), str, closed, ack);
  }

  /** An acknowledgment moves the left edge at most to its number, and everything else stays in order. */
  lemma {:induction false} TakeAckCarries(ep: Endpoint, p: Packet, update: bool, ie: InEnv, str: seq<Byte>, closed: bool)
    requires EpOk(ep, str, closed)
    ensures Carried(ep, TakeAck(ep, p, update, ie), str, closed, p.ackno)
    ensures SameButWindow(ep.rcv, TakeAck(ep, p, update, ie).ep.rcv)
    ensures !p.ack ==> TakeAck(ep, p, update, ie).ep.snd.una == ep.snd.una
  {
    hide QueueOk, Counted, Genuine, Output, AckNumber, Apply;
    if p.ack {
      var u := if update then SndWnd(ep.snd, p) else Stale;
      if u.Update? {
        SndWndKeeps(ep.snd, p, str, closed);
        var ep1 := ep.(snd := u.s);
        AckNumberCarries(ep1, p, ep.snd.wnd, ie, str, closed);
        var r := AckNumber(ep1, p, ep.snd.wnd, ie);
        OutputFine(r.ep.snd, u.ev, ie.e2, str, closed);
        ApplyCarries(r.ep, r.ep.snd, Output(r.ep.snd, u.ev, ie.e2), str, closed, p.ackno);
        CarriedAfter(ep, r, Apply(r.ep, Output(r.ep.snd, u.ev, ie.e2)), str, closed, p.ackno);
      } else {
        AckNumberCarries(ep, p, ep.snd.wnd, ie, str, closed);
      }
    }
  }

  // ---------------------------------------------------------------- data and user calls

  lemma {:induction false} TakeDataCarries(ep: Endpoint, p: Packet, ie: InEnv, str: seq<Byte>, closed: bool, ack: int)
    requires EpOk(ep, str, closed) && ep.rcv.nxt <= Receive(ep.rcv, p).nxt
    ensures Carried(ep, TakeData(ep, p, ie), str, closed, ack)
    ensures SameButWindow(Receive(ep.rcv, p), TakeData(ep, p, ie).ep.rcv)
  {
    hide QueueOk, Receive, AckNow, Genuine, Window;
    PureAckCarries(ep.(rcv := Receive(ep.rcv, p)), ie.m2, str, closed, ack);
  }

  /** How the receive variables may change: window only, one segment taken in, or flushed. */
  ghost predicate RcvStep(r: Rcv, p: Packet, r': Rcv, st: State) {
    || SameButWindow(r, r')
    || SameButWindow(Receive(r, p), r')
    || (st.Closed? && r' == r.(q := [], cur := 0))
  }

  /** How a segment may change a synchronised state, and what must hold to get there (section 3.5 of RFC 793). */
  predicate StateStep(st: State, ep': Endpoint) {
    var fin, acked := ep'.rcv.Finished(), ep'.snd.write <= ep'.snd.una;
    match ep'.st
    case Closed => true
    case Established => st.SynRcvd? || st.Established?
    case CloseWait => st.CloseWait? || ((st.SynRcvd? || st.Established?) && fin)
    case FinWait2 => st.FinWait2? || (st.FinWait1? && acked)
    case Closing => st.Closing? || (st.FinWait1? && fin)
    case TimeWait => st.TimeWait? || (st.FinWait1? && fin && acked) || (st.FinWait2? && fin) || (st.Closing? && acked)
    case other => st == other
  }

  /** What one segment does to a synchronised connection. */
  ghost predicate Handled(ep: Endpoint, r: Res, p: Packet, str: seq<Byte>, closed: bool) {
    && (r.ep.st.Closed? || EpOk(r.ep, str, closed))
    && r.ep.snd.isn == ep.snd.isn && r.ep.snd.write == ep.snd.write && Pointers(r.ep.snd)
    && ep.snd.una <= r.ep.snd.una <= Max(ep.snd.una, if p.ack && !p.rst then p.ackno else ep.snd.una)
    && ep.snd.max <= r.ep.snd.max
    && AllOut(r.out, r.ep, str, closed)
    && r.ep.sock == ep.sock
    && RcvStep(ep.rcv, p, r.ep.rcv, r.ep.st)
    && StateStep(ep.st, r.ep)
    && (ep.st.CloseWait? || ep.st.LastAck? || ep.st.Closing? ==> r.ep.rcv.nxt == ep.rcv.nxt && r.ep.rcv.Finished() == ep.rcv.Finished())
  }

  lemma {:induction false} ResetHandled(ep: Endpoint, p: Packet, m: bool, out: seq<Packet>, str: seq<Byte>, closed: bool)
    requires Pointers(ep.snd) && (out == [] || out == SndRst(p, m))
    ensures Handled(ep, Res(Reset(ep), out), p, str, closed)
    ensures Handled(ep, Res(ep.(st := Closed), out), p, str, closed)
  {
  }

  // ---------------------------------------------------------------- acknowledgment, then data

  /** The middle of the handlers that take data: acknowledgment first, then payload. */
  ghost function AckThenData(ep: Endpoint, p: Packet, update: bool, ie: InEnv): Res {
    var r := TakeAck(ep, p, update, ie);
    After(r, TakeData(r.ep, p, ie))
  }

  lemma {:induction false} AckThenDataCarries(ep: Endpoint, p: Packet, update: bool, ie: InEnv, str: seq<Byte>, closed: bool)
    requires EpOk(ep, str, closed) && ep.rcv.nxt <= Receive(ep.rcv, p).nxt && p.ack
    ensures var r := AckThenData(ep, p, update, ie);
      Carried(ep, r, str, closed, p.ackno) && SameButWindow(Receive(ep.rcv, p), r.ep.rcv)
  {
    TakeAckCarries(ep, p, update, ie, str, closed);
    var r := TakeAck(ep, p, update, ie);
    WindowDoesNotMatter(ep.rcv, r.ep.rcv, p);
    TakeDataCarries(r.ep, p, ie, str, closed, p.ackno);
    CarriedAfter(ep, r, TakeData(r.ep, p, ie), str, closed, p.ackno);
  }

  lemma {:induction false} WindowDoesNotMatter(r: Rcv, r': Rcv, p: Packet)
    requires SameButWindow(r, r')
    ensures SameButWindow(Receive(r, p), Receive(r', p)) && Receive(r, p).nxt == Receive(r', p).nxt
  {
  }

  /** A step that ends in another state, with the data part unchanged. */
  lemma {:induction false} Relabelled(ep: Endpoint, r: Res, ep': Endpoint, p: Packet, str: seq<Byte>, closed: bool)
    requires Carried(ep, r, str, closed, p.ackno) && p.ack && !p.rst
    requires RcvStep(ep.rcv, p, r.ep.rcv, ep'.st) && StateStep(ep.st, ep')
    requires ep' == r.ep.(st := ep'.st, delack := ep'.delack)
             || (ep'.st.TimeWait? && |r.ep.snd.q| == 0 && ep' == EnterTimeWait(r.ep))
    requires ep.st.CloseWait? || ep.st.LastAck? || ep.st.Closing? ==> SameButWindow(ep.rcv, r.ep.rcv)
    ensures Handled(ep, Res(ep', r.out), p, str, closed)
  {
    AllOutLater(r.out, r.ep, ep', str, closed);
  }

  lemma {:induction false} AckedMeansEmpty(s: Snd, str: seq<Byte>, closed: bool)
    requires SndOk(s, str, closed) && s.write <= s.una
    ensures |s.q| == 0
  {
    if |s.q| > 0 { ChainOrder(s.q, s.write, 0); }
  }

  // ---------------------------------------------------------------- the handlers of the synchronised states

  lemma {:induction false} SynRcvdHandled(ep: Endpoint, p: Packet, ie: InEnv, str: seq<Byte>, closed: bool)
    requires EpOk(ep, str, closed) && ep.st.SynRcvd? && (p.ack && !p.rst && !p.syn ==> ep.rcv.nxt <= Receive(ep.rcv, p).nxt)
    ensures Handled(ep, InSynRcvd(ep, p, ie), p, str, closed)
  {
    hide QueueOk, Genuine, Receive, TakeAck;
    if p.rst || p.syn {
      ResetHandled(ep, p, ie.m1, InSynRcvd(ep, p, ie).out, str, closed);
    } else if p.ack {
      TakeAckCarries(ep, p, false, ie, str, closed);
      var r := TakeAck(ep, p, false, ie);
      var ep1 := r.ep.(st := Established, snd := r.ep.snd.(wnd := p.window, wndseq := p.seqno, wndack := p.ackno));
      WindowFieldsFree(r.ep.snd, ep1.snd, str, closed);
      WindowDoesNotMatter(ep.rcv, r.ep.rcv, p);
      TakeDataCarries(ep1, p, ie, str, closed, p.ackno);
      var d := TakeData(ep1, p, ie);
      var ep2 := if d.ep.rcv.Finished() then d.ep.(st := CloseWait) else d.ep;
      SynRcvdEnds(ep, r, d, ep2, p, str, closed);
    }
  }

  lemma {:induction false} SynRcvdEnds(ep: Endpoint, r: Res, d: Res, ep2: Endpoint, p: Packet, str: seq<Byte>, closed: bool)
    requires ep.st.SynRcvd? && p.ack && !p.rst && Carried(ep, r, str, closed, p.ackno)
    requires EpOk(d.ep, str, closed) && AllOut(d.out, d.ep, str, closed) && Forward(r.ep, d.ep)
    requires d.ep.snd.write == r.ep.snd.write && d.ep.snd.una == r.ep.snd.una && d.ep.sock == r.ep.sock
    requires SameButWindow(Receive(ep.rcv, p), d.ep.rcv) && d.ep.st.Established?
    requires ep2 == if d.ep.rcv.Finished() then d.ep.(st := CloseWait) else d.ep
    ensures Handled(ep, Res(ep2, r.out + d.out), p, str, closed)
  {
    AllOutLater(r.out, r.ep, ep2, str, closed);
    AllOutLater(d.out, d.ep, ep2, str, closed);
    AllOutBoth(r.out, d.out, ep2, str, closed);
  }

  lemma {:induction false} EstablishedHandled(ep: Endpoint, p: Packet, ie: InEnv, str: seq<Byte>, closed: bool)
    requires EpOk(ep, str, closed) && ep.st.Established? && (p.ack && !p.rst && !p.syn ==> ep.rcv.nxt <= Receive(ep.rcv, p).nxt)
    ensures Handled(ep, InEstablished(ep, p, ie), p, str, closed)
  {
    if p.rst || p.syn {
      ResetHandled(ep, p, ie.m1, InEstablished(ep, p, ie).out, str, closed);
    } else if p.ack {
      AckThenDataCarries(ep, p, true, ie, str, closed);
      var r := AckThenData(ep, p, true, ie);
      var ep' := if r.ep.rcv.Finished() then r.ep.(st := CloseWait) else r.ep;
      Relabelled(ep, r, ep', p, str, closed);
      assert InEstablished(ep, p, ie) == Res(ep', r.out);
    }
  }

  lemma {:induction false} FinWait1Handled(ep: Endpoint, p: Packet, ie: InEnv, str: seq<Byte>, closed: bool)
    requires EpOk(ep, str, closed) && ep.st.FinWait1? && (p.ack && !Fatal(ep, p) ==> ep.rcv.nxt <= Receive(ep.rcv, p).nxt)
    ensures Handled(ep, InFinWait1(ep, p, ie), p, str, closed)
  {
    hide QueueOk, Genuine, Receive, TakeAck;
    if Fatal(ep, p) {
      ResetHandled(ep, p, ie.m1, InFinWait1(ep, p, ie).out, str, closed);
    } else if p.ack {
      AckThenDataCarries(ep, p, true, ie, str, closed);
      var r := AckThenData(ep, p, true, ie);
      var ep' := InFinWait1(ep, p, ie).ep;
      if r.ep.snd.write <= r.ep.snd.una { AckedMeansEmpty(r.ep.snd, str, closed); }
      Relabelled(ep, r, ep', p, str, closed);
      assert InFinWait1(ep, p, ie) == Res(ep', r.out);
    }
  }

  lemma {:induction false} FinWait2Handled(ep: Endpoint, p: Packet, ie: InEnv, str: seq<Byte>, closed: bool)
    requires EpOk(ep, str, closed) && ep.st.FinWait2? && ep.snd.write <= ep.snd.una
    requires p.ack && !Fatal(ep, p) ==> ep.rcv.nxt <= Receive(ep.rcv, p).nxt
    ensures Handled(ep, InFinWait2(ep, p, ie), p, str, closed)
  {
    if Fatal(ep, p) {
      ResetHandled(ep, p, ie.m1, InFinWait2(ep, p, ie).out, str, closed);
    } else if p.ack {
      AckThenDataCarries(ep, p, false, ie, str, closed);
      var r := AckThenData(ep, p, false, ie);
      var ep' := InFinWait2(ep, p, ie).ep;
      AckedMeansEmpty(r.ep.snd, str, closed);
      Relabelled(ep, r, ep', p, str, closed);
      assert InFinWait2(ep, p, ie) == Res(ep', r.out);
    }
  }

  lemma {:induction false} CloseWaitHandled(ep: Endpoint, p: Packet, ie: InEnv, str: seq<Byte>, closed: bool)
    requires EpOk(ep, str, closed) && ep.st.CloseWait?
    ensures Handled(ep, InCloseWait(ep, p, ie), p, str, closed)
  {
    if p.rst || p.syn {
      ResetHandled(ep, p, ie.m1, InCloseWait(ep, p, ie).out, str, closed);
    } else {
      TakeAckCarries(ep, p, true, ie, str, closed);
    }
  }

  lemma {:induction false} LastAckHandled(ep: Endpoint, p: Packet, ie: InEnv, str: seq<Byte>, closed: bool)
    requires EpOk(ep, str, closed) && ep.st.LastAck?
    ensures Handled(ep, InLastAck(ep, p, ie), p, str, closed)
  {
    hide QueueOk, Genuine, AckNumber, Apply;
    if Fatal(ep, p) {
      ResetHandled(ep, p, ie.m1, InLastAck(ep, p, ie).out, str, closed);
    } else if p.ack {
      TakeAckCarries(ep, p, false, ie, str, closed);
      var r := TakeAck(ep, p, false, ie);
      Relabelled(ep, r, InLastAck(ep, p, ie).ep, p, str, closed);
    }
  }

  lemma {:induction false} ClosingHandled(ep: Endpoint, p: Packet, ie: InEnv, str: seq<Byte>, closed: bool)
    requires EpOk(ep, str, closed) && ep.st.Closing?
    ensures Handled(ep, InClosing(ep, p, ie), p, str, closed)
  {
    if Fatal(ep, p) {
      ResetHandled(ep, p, ie.m1, InClosing(ep, p, ie).out, str, closed);
    } else {
      TakeAckCarries(ep, p, false, ie, str, closed);
      var r := TakeAck(ep, p, false, ie);
      if r.ep.snd.write <= r.ep.snd.una { AckedMeansEmpty(r.ep.snd, str, closed); }
      if p.ack { Relabelled(ep, r, InClosing(ep, p, ie).ep, p, str, closed); }
    }
  }

  lemma {:induction false} TimeWaitHandled(ep: Endpoint, p: Packet, ie: InEnv, str: seq<Byte>, closed: bool)
    requires EpOk(ep, str, closed) && ep.st.TimeWait? && ep.snd.write <= ep.snd.una
    requires !Fatal(ep, p) ==> ep.rcv.nxt <= Receive(ep.rcv, p).nxt
    ensures Handled(ep, InTimeWait(ep, p, ie), p, str, closed)
  {
    if Fatal(ep, p) {
      ResetHandled(ep, p, ie.m1, InTimeWait(ep, p, ie).out, str, closed);
    } else {
      AckedMeansEmpty(ep.snd, str, closed);
      if p.ack {
        AckThenDataCarries(ep, p, false, ie, str, closed);
        var r := AckThenData(ep, p, false, ie);
        AckedMeansEmpty(r.ep.snd, str, closed);
        Relabelled(ep, r, EnterTimeWait(r.ep), p, str, closed);
      } else {
        TakeDataCarries(ep, p, ie, str, closed, ep.snd.una);
        TimeWaitEnds(ep, TakeData(ep, p, ie), p, str, closed);
      }
    }
  }

  lemma {:induction false} TimeWaitEnds(ep: Endpoint, d: Res, p: Packet, str: seq<Byte>, closed: bool)
    requires EpOk(ep, str, closed) && ep.st.TimeWait? && |ep.snd.q| == 0
    requires Carried(ep, d, str, closed, ep.snd.una) && SameButWindow(Receive(ep.rcv, p), d.ep.rcv) && d.ep.snd == ep.snd
    ensures Handled(ep, After(Res(ep, []), Res(EnterTimeWait(d.ep), d.out)), p, str, closed)
  {
    AllOutLater(d.out, d.ep, EnterTimeWait(d.ep), str, closed);
    assert [] + d.out == d.out;
  }
}
