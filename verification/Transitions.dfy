/** The state diagram of RFC 793, section 3.2: exactly when a segment changes the state of a connection. */
module Transitions {
  import opened TcpTypes
  import opened Stream
  import opened TcpSend
  import opened SendFacts
  import opened RecvQueue
  import opened TcpRecv
  import opened ReceiveFacts
  import opened TcpEndpoint
  import opened EndpointFacts
  import opened TcpSystem
  import opened SystemFacts
  import opened RunFacts
  import opened RunTheorems
  import opened Acceptance

  /** Where a connection goes: `fin` says that the peer's FIN has been consumed, `acked` that all of ours is acknowledged. */
  function NextState(st: State, fin: bool, acked: bool): State {
    match st
    case SynRcvd => if fin then CloseWait else Established
    case Established => if fin then CloseWait else Established
    case FinWait1 => if fin && acked then TimeWait else if fin then Closing else if acked then FinWait2 else FinWait1
    case FinWait2 => if fin then TimeWait else FinWait2
    case Closing => if acked then TimeWait else Closing
    case LastAck => if acked then Closed else LastAck
    case other => other
  }

  /** A segment that the state's handler acts on: it acknowledges, and nothing in it kills the connection. */
  predicate ActedOn(ep: Endpoint, p: Packet) { ep.st.Synchronised() && Heeds(ep, p) && p.ack }

  predicate AllAcked(s: Snd) { s.write <= s.una }

  // ---------------------------------------------------------------- one segment

  lemma {:induction false} AckKeepsState(ep: Endpoint, p: Packet, update: bool, ie: InEnv, str: seq<Byte>, closed: bool)
    requires EpOk(ep, str, closed)
    ensures var r := TakeAck(ep, p, update, ie).ep;
      r.st == ep.st && r.snd.write == ep.snd.write && SameButWindow(ep.rcv, r.rcv)
  {
    hide EpOk, TakeAck, AllOut;
    TakeAckCarries(ep, p, update, ie, str, closed);
  }

  lemma {:induction false} DataFinishes(ep: Endpoint, p: Packet, ie: InEnv)
    ensures TakeData(ep, p, ie).ep.rcv.Finished() == Receive(ep.rcv, p).Finished()
  {
    hide Receive, AckNow, Window;
  }

  /** The states that take data in. */
  lemma {:induction false} OpenStateAfter(ep: Endpoint, p: Packet, ie: InEnv, str: seq<Byte>, closed: bool)
    requires EpOk(ep, str, closed) && ActedOn(ep, p)
    requires ep.st.SynRcvd? || ep.st.Established? || ep.st.FinWait1? || ep.st.FinWait2?
    ensures var ep' := Dispatch(ep, p, ie).ep;
      && ep'.st == NextState(ep.st, Receive(ep.rcv, p).Finished(), AllAcked(ep'.snd))
      && ep'.rcv.Finished() == Receive(ep.rcv, p).Finished()
  {
    hide EpOk, TakeAck, TakeData, Receive;
    var update := ep.st.Established? || ep.st.FinWait1?;
    AckKeepsState(ep, p, update, ie, str, closed);
    var r := TakeAck(ep, p, update, ie).ep;
    WindowDoesNotMatter(ep.rcv, r.rcv, p);
    var r1 := if ep.st.SynRcvd? then r.(st := Established, snd := r.snd.(wnd := p.window, wndseq := p.seqno, wndack := p.ackno)) else r;
    DataKeepsSender(r1, p, ie);
    DataFinishes(r1, p, ie);
  }

  /** The states that only look at acknowledgments. */
  lemma {:induction false} ClosedStateAfter(ep: Endpoint, p: Packet, ie: InEnv, str: seq<Byte>, closed: bool)
    requires EpOk(ep, str, closed) && ActedOn(ep, p)
    requires ep.st.CloseWait? || ep.st.LastAck? || ep.st.Closing? || ep.st.TimeWait?
    ensures var ep' := Dispatch(ep, p, ie).ep; ep'.st == NextState(ep.st, true, AllAcked(ep'.snd))
  {
    hide EpOk, TakeAck, TakeData, Receive;
    AckKeepsState(ep, p, ep.st.CloseWait?, ie, str, closed);
  }

  /** Exactly these transitions: the state after a segment that is acted on. */
  lemma {:induction false} StateAfter(ep: Endpoint, p: Packet, ie: InEnv, str: seq<Byte>, closed: bool)
    requires EpOk(ep, str, closed) && ActedOn(ep, p)
    ensures var ep' := Dispatch(ep, p, ie).ep;
      ep'.st == NextState(ep.st, if TakesData(ep, p) then ep'.rcv.Finished() else true, AllAcked(ep'.snd))
  {
    hide EpOk, Dispatch;
    if TakesData(ep, p) { OpenStateAfter(ep, p, ie, str, closed); } else { ClosedStateAfter(ep, p, ie, str, closed); }
  }

  /** Any other acceptable segment ends the connection, or lacks an acknowledgment and changes nothing. */
  lemma {:induction false} StateElse(ep: Endpoint, p: Packet, ie: InEnv)
    requires ep.st.Synchronised()
    ensures !Heeds(ep, p) ==> Dispatch(ep, p, ie).ep.st.Closed?
    ensures Heeds(ep, p) && !p.ack && !AllAcked(ep.snd) ==> Dispatch(ep, p, ie).ep.st == ep.st
  {
    hide Receive, AckNow, Window;
  }

  /** The answer to our own SYN: established if it acknowledges the SYN, half open if the SYNs cross. */
  lemma {:induction false} StateAfterSyn(ep: Endpoint, p: Packet, ie: InEnv, str: seq<Byte>, closed: bool)
    requires EpOk(ep, str, closed) && ep.st.SynSent? && p.syn && !p.rst && ep.snd.una == ep.snd.isn
    ensures Dispatch(ep, p, ie).ep.st ==
      if !p.ack then SynRcvd else if ep.snd.isn < p.ackno <= ep.snd.max then Established else SynSent
  {
    hide SndOk, TimerOk, TakeAck, TakeData, Receive;
    var ep1 := ep.(rcv := ep.rcv.(sync := true, nxt := p.seqno, wnd := p.seqno, read := p.seqno + 1));
    AckMovesEdge(ep1, p, false, ie, str, closed);
    AckKeepsIsn(ep1, p, ie, str, closed);
    DataKeepsSender(AfterSynAck(TakeAck(ep1, p, false, ie).ep, p, Max(32, ie.mss)), p, ie);
  }

  lemma {:induction false} AckKeepsIsn(ep: Endpoint, p: Packet, ie: InEnv, str: seq<Byte>, closed: bool)
    requires EpOk(ep, str, closed)
    ensures TakeAck(ep, p, false, ie).ep.snd.isn == ep.snd.isn
  {
    hide EpOk, TakeAck, AllOut;
    TakeAckCarries(ep, p, false, ie, str, closed);
  }

  // ---------------------------------------------------------------- over runs

  /** `h` has received everything that `g` will ever send, its FIN included. */
  predicate HasAll(h: Host, g: Host) { g.closed && h.ep.rcv.nxt == g.isn + 2 + |g.sent| }

  lemma {:induction false} FinishedIffHasAll(h: Host, g: Host)
    requires Heard(h, g) && HostOk(g) && h.ep.rcv.sync
    ensures h.ep.rcv.Finished() <==> HasAll(h, g)
  {
    if h.ep.rcv.Finished() { PeerFinConsumed(h, g); }
  }

  lemma {:induction false} DeliveryChanges(h: Host, g: Host, k: Packet, ie: InEnv)
    requires HostOk(h) && HostOk(g) && Link(h, g) && Link(g, h) && h.ep.st.Synchronised() && k in g.wire
    requires Acceptable(h.ep.rcv, h.ep.st, Cut(k)) && k.ack && !k.rst && (h.ep.sock || |k.data| == 0)
    ensures var h' := Act(h, g.wire, Deliver(k, ie));
      h'.ep.st == NextState(h.ep.st, HasAll(h', g), AllAcked(h'.ep.snd))
  {
    hide EpOk, Window, Dispatch, Check, Acceptable;
    assert OnWire(k, g, h);
    CutOnWire(k, g, h);
    AcceptedIffAcceptable(h.ep.rcv, h.ep.st, Cut(k));
    AcceptedIsGenuine(h, g, Cut(k));
    HeaderEdits(h.ep.rcv, h.ep.st, Cut(k));
    var p := Check(h.ep.rcv, h.ep.st, Cut(k)).p;
    StateAfter(h.ep, p, ie, h.sent, h.closed);
    ActSafe(h, g, Deliver(k, ie));
    FinishedIffHasAll(Act(h, g.wire, Deliver(k, ie)), g);
  }

  /**
   * In every reachable state: the delivery of an acceptable acknowledging segment changes the state exactly as the
   * diagram says, where the peer's FIN counts once everything the peer wrote has been received before it.
   */
  lemma {:induction false} DeliveriesFollowTheDiagram(s: Sys, run: seq<Event>, t: Sys, atA: bool, k: Packet, ie: InEnv)
    requires Fresh(s) && t == Exec(s, run)
    requires var h := Mine(t, atA);
      && h.ep.st.Synchronised() && k in Mine(t, !atA).wire && Acceptable(h.ep.rcv, h.ep.st, Cut(k))
      && k.ack && !k.rst && (h.ep.sock || |k.data| == 0)
    ensures var t' := Step(t, Event(atA, Deliver(k, ie)));
      var h' := Mine(t', atA);
      h'.ep.st == NextState(Mine(t, atA).ep.st, HasAll(h', Mine(t', !atA)), AllAcked(h'.ep.snd))
  {
    hide Act, HostOk, Link, Acceptable, Cut;
    InvAlways(s, run);
    DeliveryChanges(Mine(t, atA), Mine(t, !atA), k, ie);
  }

  // ---------------------------------------------------------------- the peer's FIN

  /** A FIN that leaves no hole before it is consumed on arrival. */
  lemma {:induction false} FinConsumed(r: Rcv, p: Packet, base: int, str: seq<Byte>, closed: bool)
    requires Agrees(r, base, str, closed) && Genuine(p, base, str, closed) && !p.syn && p.fin && p.seqno <= r.nxt <= FinAt(p)
    ensures Receive(r, p).Finished()
  {
    ReceiveAgrees(r, p, base, str, closed);
    if |p.data| > 0 {
      FrontierIsFirstHole(r, p, r.read);
      if NextData(r, p) < FinAt(p) {
        InsertCoversUnion(r.q, Payload(p), NextData(r, p));
      }
    }
  }

  lemma {:induction false} FinAloneConsumed(r: Rcv, p: Packet)
    requires |p.data| == 0 && !p.syn && p.fin && p.seqno == r.nxt
    ensures Receive(r, p).Finished()
  {
    assert Redundant(r.q, Payload(p));
  }

  /** A FIN in sequence and inside the window passes the test as it is, and is then consumed. */
  lemma {:induction false} FinPasses(h: Host, g: Host, k: Packet)
    requires Heard(h, g) && OnWire(k, g, h) && h.ep.st.Synchronised() && h.ep.rcv.sync && !h.ep.st.Closed? && TakesData(h.ep, k)
    requires (h.ep.sock || |k.data| == 0) && k.fin && k.seqno <= h.ep.rcv.nxt <= FinAt(k) < h.ep.rcv.nxt + Window(h.ep.rcv, h.ep.st)
    ensures var v := Check(h.ep.rcv, h.ep.st, k); v.ok && ActedOn(h.ep, v.p) && Receive(h.ep.rcv, v.p).Finished()
  {
    hide Window, Check, Receive, Agrees;
    var r := h.ep.rcv;
    assert Occupies(k, FinAt(k)) && InWindow(r, h.ep.st, FinAt(k));
    AcceptedIffAcceptable(r, h.ep.st, k);
    AcceptedIsGenuine(h, g, k);
    HeaderEdits(r, h.ep.st, k);
    var p := Check(r, h.ep.st, k).p;
    if h.ep.sock && |p.data| > 0 {
      FinConsumed(r, p, g.isn + 1, Shown(g), FinShown(g));
    } else {
      FinAloneConsumed(r, p);
    }
  }

  lemma {:induction false} FinHeard(h: Host, g: Host, k: Packet, ie: InEnv)
    requires HostOk(h) && HostOk(g) && Link(h, g) && Link(g, h) && h.ep.st.Synchronised() && k in g.wire && TakesData(h.ep, k)
    requires (h.ep.sock || |k.data| == 0) && k.fin && k.seqno <= h.ep.rcv.nxt <= FinAt(k) < h.ep.rcv.nxt + Window(h.ep.rcv, h.ep.st)
    ensures var h' := Act(h, g.wire, Deliver(k, ie)).ep;
      h'.rcv.Finished() && h'.st == NextState(h.ep.st, true, AllAcked(h'.snd))
  {
    hide EpOk, Window, Dispatch, Check, Receive, FinAgrees;
    assert OnWire(k, g, h);
    CutOnWire(k, g, h);
    FinPasses(h, g, Cut(k));
    OpenStateAfter(h.ep, Check(h.ep.rcv, h.ep.st, Cut(k)).p, ie, h.sent, h.closed);
  }

  /** In every reachable state a FIN in sequence and inside the window is consumed on arrival, and the state says so. */
  lemma {:induction false} FinsAreHeard(s: Sys, run: seq<Event>, t: Sys, atA: bool, k: Packet, ie: InEnv)
    requires Fresh(s) && t == Exec(s, run)
    requires var h := Mine(t, atA);
      && h.ep.st.Synchronised() && k in Mine(t, !atA).wire && TakesData(h.ep, k) && (h.ep.sock || |k.data| == 0)
      && k.fin && k.seqno <= h.ep.rcv.nxt <= FinAt(k) < h.ep.rcv.nxt + Window(h.ep.rcv, h.ep.st)
    ensures var h' := Mine(Step(t, Event(atA, Deliver(k, ie))), atA).ep;
      h'.rcv.Finished() && h'.st == NextState(Mine(t, atA).ep.st, true, AllAcked(h'.snd))
  {
    hide Act, HostOk, Link;
    InvAlways(s, run);
    FinHeard(Mine(t, atA), Mine(t, !atA), k, ie);
  }

  // ---------------------------------------------------------------- resets

  /** `ep` has sent `p` and has received nothing new since. */
  predicate JustSent(ep: Endpoint, p: Packet) {
    && !p.rst
    && (if ep.st.SynSent? then p.syn && !p.ack && p.seqno == ep.snd.isn < ep.snd.max && p.Len() == 1
        else ep.st.Synchronised() && p.ack && p.ackno == ep.rcv.nxt)
  }

  /** A closed host answers with one reset, and the host that sent the segment believes it. */
  lemma {:induction false} ClosedHostResets(gone: Endpoint, ep: Endpoint, p: Packet, ie: InEnv, ie': InEnv)
    requires gone.st.Closed? && ie.m1 && JustSent(ep, p)
    ensures |Input(gone, p, ie).out| == 1 && Input(gone, p, ie).ep == gone
    ensures var rst := Input(gone, p, ie).out[0];
      rst.rst && Check(ep.rcv, ep.st, rst).ok && Input(ep, rst, ie').ep.st.Closed?
  {
    hide Window, Receive, AckNow;
    UnsynchronisedTakesAll(gone.rcv, gone.st, p);
    var rst := Input(gone, p, ie).out[0];
    if ep.st.Synchronised() {
      AcceptedIffAcceptable(ep.rcv, ep.st, rst);
      HeaderEdits(ep.rcv, ep.st, rst);
      StateElse(ep, Check(ep.rcv, ep.st, rst).p, ie');
    }
  }

  /** Nobody answers a reset with a reset. */
  lemma {:induction false} ResetsAreNotAnswered(ep: Endpoint, p: Packet, ie: InEnv)
    requires p.rst
    ensures Input(ep, p, ie).out == []
  {
    hide Window, Receive, AckNow, TakeAck, TakeData;
  }
}
