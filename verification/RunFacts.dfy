/** Every action of a host keeps the invariant; hence every run does. */
module RunFacts {
  import opened TcpTypes
  import opened Stream
  import opened SendFacts
  import opened TcpRecv
  import opened ReceiveFacts
  import opened TcpEndpoint
  import opened EndpointFacts
  import opened TcpSystem
  import opened SystemFacts

  /** What a step from `h` to `h'` owes to the invariant, with `g` the peer. */
  ghost predicate Safe(h: Host, h': Host, g: Host) {
    HostOk(h') && Sends(h, h', g) && Heard(h', g) && Front(h, g.isn) <= Front(h', g.isn)
  }

  // ---------------------------------------------------------------- hearing a packet

  /** The probe's bogus byte lies left of the window and is never accepted. */
  lemma {:induction false} ProbeIsRejected(r: Rcv, st: State, k: Packet)
    requires st.Synchronised() && k.seqno + 2 <= r.nxt && |k.data| == 1 && !k.syn && !k.fin
    ensures !Check(r, st, k).ok
  {
  }

  /** Stripping a SYN or a FIN leaves stream content. */
  lemma {:induction false} CheckKeepsGenuine(r: Rcv, st: State, k: Packet, base: int, str: seq<Byte>, closed: bool)
    requires st.Synchronised() && Check(r, st, k).ok && base <= r.nxt && Genuine(k, base, str, closed)
    ensures var p := Check(r, st, k).p;
      && Genuine(p, base, str, closed) && !p.syn
      && (p.Len() > 0 ==> r.nxt <= p.seqno + |p.data|)
  {
    hide InStream, Window;
    CheckedReachesFrontier(r, st, k);
    CheckStrips(r, st, k);
    var p := Check(r, st, k).p;
    StrippedIsGenuine(k, p, base, str, closed);
    if k.syn && !p.syn {
    } else if k.syn {
      SynLeftOfWindow(r, st, k, base);
    }
  }

  /** The test changes a segment only by dropping its SYN or its FIN. */
  lemma {:induction false} CheckStrips(r: Rcv, st: State, k: Packet)
    ensures var p := Check(r, st, k).p; p == k || p == Stripped(k, !p.syn, !p.fin)
  {
  }

  function Stripped(k: Packet, syn: bool, fin: bool): Packet {
    k.(seqno := k.seqno + Bit(k.syn && syn), syn := k.syn && !syn, fin := k.fin && !fin)
  }

  lemma {:induction false} StrippedIsGenuine(k: Packet, p: Packet, base: int, str: seq<Byte>, closed: bool)
    requires Genuine(k, base, str, closed) && (p == k || p == Stripped(k, !p.syn, !p.fin))
    ensures Genuine(p, base, str, closed)
  {
    hide InStream;
    assert p.seqno + Bit(p.syn) == k.seqno + Bit(k.syn) && p.data == k.data;
  }

  lemma {:induction false} SynLeftOfWindow(r: Rcv, st: State, k: Packet, base: int)
    requires st.Synchronised() && Check(r, st, k).ok && base <= r.nxt && k.syn && k.seqno < base
    ensures !Check(r, st, k).p.syn
  {
  }

  /** A packet that a synchronised host accepts is not a probe and holds stream content that reaches the frontier. */
  lemma {:induction false} AcceptedIsGenuine(h: Host, g: Host, k: Packet)
    requires Heard(h, g) && OnWire(k, g, h) && !k.rst
    requires h.ep.rcv.sync && h.ep.st.Synchronised() && Check(h.ep.rcv, h.ep.st, k).ok
    ensures var p := Check(h.ep.rcv, h.ep.st, k).p;
      && Genuine(p, g.isn + 1, Shown(g), FinShown(g)) && !p.syn
      && (p.Len() > 0 ==> h.ep.rcv.nxt <= p.seqno + |p.data|)
  {
    if k.seqno + 2 <= h.ep.rcv.nxt && |k.data| == 1 && !k.syn && !k.fin {
      ProbeIsRejected(h.ep.rcv, h.ep.st, k);
    } else {
      CheckKeepsGenuine(h.ep.rcv, h.ep.st, k, g.isn + 1, Shown(g), FinShown(g));
    }
  }

  lemma {:induction false} CheckKeepsAck(r: Rcv, st: State, k: Packet)
    ensures var p := Check(r, st, k).p; p.rst == k.rst && p.ack == k.ack && p.ackno == k.ackno
  {
  }

  lemma {:induction false} DataHeard(h: Host, g: Host, p: Packet)
    requires Heard(h, g) && h.ep.rcv.sync && !h.ep.st.Closed? && (h.ep.sock || |p.data| == 0)
    requires Genuine(p, g.isn + 1, Shown(g), FinShown(g)) && !p.syn
    requires p.Len() > 0 ==> h.ep.rcv.nxt <= p.seqno + |p.data|
    ensures Follows(h, Receive(h.ep.rcv, p), g)
  {
    if h.ep.sock {
      ReceiveAgrees(h.ep.rcv, p, g.isn + 1, Shown(g), FinShown(g));
    } else {
      EmptyPacketKeepsFin(h.ep.rcv, p, g.isn + 1, Shown(g), FinShown(g));
    }
  }

  lemma {:induction false} AgreesIgnoresWindow(r: Rcv, r': Rcv, base: int, str: seq<Byte>, closed: bool)
    requires SameButWindow(r, r')
    ensures FinAgrees(r, base, str, closed) ==> FinAgrees(r', base, str, closed)
    ensures Agrees(r, base, str, closed) ==> Agrees(r', base, str, closed)
  {
  }

  /** The peer's FIN, once consumed, stays consumed. */
  lemma {:induction false} FinishedStays(r: Rcv, r': Rcv, base: int, str: seq<Byte>, closed: bool)
    requires FinAgrees(r, base, str, closed) && FinAgrees(r', base, str, closed) && r.nxt <= r'.nxt
    ensures r.Finished() ==> r'.Finished()
  {
  }

  /** `r'` is fit to follow `h`'s receive variables. */
  ghost predicate Follows(h: Host, r': Rcv, g: Host) {
    && h.ep.rcv.nxt <= r'.nxt && r'.sync && r'.read == h.ep.rcv.read
    && FinAgrees(r', g.isn + 1, Shown(g), FinShown(g))
    && (h.ep.sock ==> Agrees(r', g.isn + 1, Shown(g), FinShown(g)))
  }

  lemma {:induction false} FollowsHeard(h: Host, h': Host, r: Rcv, g: Host)
    requires Heard(h, g) && h.ep.rcv.sync && !h.ep.st.Closed? && h'.got == h.got && h'.ep.sock == h.ep.sock
    requires Follows(h, r, g) && SameButWindow(r, h'.ep.rcv)
    ensures Heard(h', g) && h.ep.rcv.nxt <= h'.ep.rcv.nxt && h'.ep.rcv.sync
    ensures h.ep.rcv.Finished() ==> h'.ep.rcv.Finished()
  {
    AgreesIgnoresWindow(r, h'.ep.rcv, g.isn + 1, Shown(g), FinShown(g));
    FinishedStays(h.ep.rcv, h'.ep.rcv, g.isn + 1, Shown(g), FinShown(g));
  }

  /** What the receive variables look like after one accepted packet. */
  lemma {:induction false} StepHeard(h: Host, h': Host, g: Host, p: Packet)
    requires Heard(h, g) && h.ep.rcv.sync && !h.ep.st.Closed? && h'.got == h.got && h'.ep.sock == h.ep.sock
    requires RcvStep(h.ep.rcv, p, h'.ep.rcv, h'.ep.st)
    requires SameButWindow(Receive(h.ep.rcv, p), h'.ep.rcv) ==> Follows(h, Receive(h.ep.rcv, p), g)
    ensures Heard(h', g) && h.ep.rcv.nxt <= h'.ep.rcv.nxt && h'.ep.rcv.sync
    ensures h.ep.rcv.Finished() ==> h'.ep.rcv.Finished()
  {
    if SameButWindow(Receive(h.ep.rcv, p), h'.ep.rcv) {
      FollowsHeard(h, h', Receive(h.ep.rcv, p), g);
    } else if SameButWindow(h.ep.rcv, h'.ep.rcv) {
      FollowsHeard(h, h', h.ep.rcv, g);
    }
  }

  // ---------------------------------------------------------------- a packet arrives at a synchronised host

  lemma {:induction false} CloseStays(h: Host, h': Host)
    requires CloseOk(h) && StateStep(h.ep.st, h'.ep) && h.ep.st.Synchronised()
    requires h'.closed == h.closed && h'.finLost == h.finLost
    requires h'.ep.snd.write == h.ep.snd.write && h.ep.snd.una <= h'.ep.snd.una
    requires h.ep.rcv.Finished() ==> h'.ep.rcv.Finished()
    ensures CloseOk(h')
  {
  }

  lemma {:induction false} HandledSafe(h: Host, g: Host, p: Packet, r: Res)
    requires HostOk(h) && Heard(h, g) && h.ep.st.Synchronised() && h.ep.snd.una <= Front(g, h.isn)
    requires Handled(h.ep, r, p, h.sent, h.closed)
    requires p.ack && !p.rst ==> p.ackno <= Front(g, h.isn)
    requires SameButWindow(Receive(h.ep.rcv, p), r.ep.rcv) ==> Follows(h, Receive(h.ep.rcv, p), g)
    ensures Safe(h, Took(h, r), g)
  {
    hide QueueOk, InStream, SegOk, Receive, Genuine;
    var h' := Took(h, r);
    StepHeard(h, h', g, p);
    CloseStays(h, h');
    TookSends(h, h', g, r.out);
  }

  /** A packet that changes no variable but the recorded window. */
  lemma {:induction false} CarriedSafe(h: Host, g: Host, r: Res)
    requires HostOk(h) && Heard(h, g) && h.ep.st.Synchronised() && h.ep.snd.una <= Front(g, h.isn)
    requires Carried(h.ep, r, h.sent, h.closed, h.ep.snd.una) && SameButWindow(h.ep.rcv, r.ep.rcv)
    ensures Safe(h, Took(h, r), g)
  {
    var h' := Took(h, r);
    FollowsHeard(h, h', h.ep.rcv, g);
    CloseStays(h, h');
    TookSends(h, h', g, r.out);
  }

  lemma {:induction false} DeliverSynced(h: Host, g: Host, k: Packet, ie: InEnv)
    requires HostOk(h) && Link(h, g) && Link(g, h) && OnWire(k, g, h) && h.ep.st.Synchronised()
    ensures Safe(h, Took(h, Input(h.ep, k, ie)), g)
  {
    if Check(h.ep.rcv, h.ep.st, k).ok {
      DeliverAccepted(h, g, k, ie);
    } else {
      SndAckCarries(h.ep, k, ie.m1, h.sent, h.closed, h.ep.snd.una);
      CarriedSafe(h, g, SndAck(h.ep, k, ie.m1));
    }
  }

  lemma {:induction false} DeliverAccepted(h: Host, g: Host, k: Packet, ie: InEnv)
    requires HostOk(h) && Heard(h, g) && h.ep.snd.una <= Front(g, h.isn) && OnWire(k, g, h)
    requires h.ep.st.Synchronised() && Check(h.ep.rcv, h.ep.st, k).ok
    ensures Safe(h, Took(h, Dispatch(h.ep, Check(h.ep.rcv, h.ep.st, k).p, ie)), g)
  {
    hide QueueOk, InStream, Dispatch, Genuine, Receive, Agrees, FinAgrees;
    var p := Check(h.ep.rcv, h.ep.st, k).p;
    CheckKeepsAck(h.ep.rcv, h.ep.st, k);
    if !k.rst {
      AcceptedIsGenuine(h, g, k);
      if h.ep.sock || |p.data| == 0 { DataHeard(h, g, p); }
    }
    var r' := Dispatch(h.ep, p, ie).ep.rcv;
    if k.rst || (!h.ep.sock && |p.data| > 0) {
      UnreadableEnds(h, p, ie);
      if SameButWindow(Receive(h.ep.rcv, p), r') { StillFollows(h, g, p, r'); }
    }
    AcceptedHandled(h, p, ie);
    HandledSafe(h, g, p, Dispatch(h.ep, p, ie));
  }

  /** A reset, and data that nobody can read, is not taken in. */
  lemma {:induction false} UnreadableEnds(h: Host, p: Packet, ie: InEnv)
    requires HostOk(h) && h.ep.st.Synchronised() && (p.rst || (!h.ep.sock && |p.data| > 0))
    ensures var r' := Dispatch(h.ep, p, ie).ep.rcv; r' == h.ep.rcv || r' == h.ep.rcv.(q := [], cur := 0)
  {
    hide EpOk, TakeAck, TakeData;
  }

  /** What is as before follows the peer's stream as before. */
  lemma {:induction false} StillFollows(h: Host, g: Host, p: Packet, r': Rcv)
    requires Heard(h, g) && h.ep.rcv.sync && !h.ep.st.Closed? && (r' == h.ep.rcv || r' == h.ep.rcv.(q := [], cur := 0))
    requires SameButWindow(Receive(h.ep.rcv, p), r')
    ensures Follows(h, Receive(h.ep.rcv, p), g)
  {
    hide NextData;
  }

  /** Dispatch on the state; data that nobody can read never reaches the receive queue. */
  lemma {:induction false} AcceptedHandled(h: Host, p: Packet, ie: InEnv)
    requires HostOk(h) && h.ep.st.Synchronised()
    requires !p.rst && (h.ep.sock || |p.data| == 0) ==> h.ep.rcv.nxt <= Receive(h.ep.rcv, p).nxt
    requires !p.rst ==> !p.syn
    requires !h.ep.sock ==> !h.ep.st.SynRcvd? && !h.ep.st.Established? && !h.ep.st.CloseWait?
    ensures Handled(h.ep, Dispatch(h.ep, p, ie), p, h.sent, h.closed)
  {
    var ep, str, closed := h.ep, h.sent, h.closed;
    match ep.st
    case SynRcvd => SynRcvdHandled(ep, p, ie, str, closed);
    case Established => EstablishedHandled(ep, p, ie, str, closed);
    case FinWait1 => FinWait1Handled(ep, p, ie, str, closed);
    case FinWait2 => FinWait2Handled(ep, p, ie, str, closed);
    case CloseWait => CloseWaitHandled(ep, p, ie, str, closed);
    case LastAck => LastAckHandled(ep, p, ie, str, closed);
    case Closing => ClosingHandled(ep, p, ie, str, closed);
    case TimeWait => TimeWaitHandled(ep, p, ie, str, closed);
  }
}
