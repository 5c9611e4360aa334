/** Opening a connection: the SYN, its retransmission and its answer. */
module OpenFacts {
  import opened TcpTypes
  import opened Stream
  import opened TcpSend
  import opened SendFacts
  import opened TcpRecv
  import opened ReceiveFacts
  import opened TcpEndpoint
  import opened EndpointFacts
  import opened TcpSystem
  import opened SystemFacts
  import opened RunFacts

  // ---------------------------------------------------------------- queueing and sending

  /** What was queued goes to the output machine, which keeps everything in order. */
  lemma {:induction false} SendQueuedCarries(ep: Endpoint, q: Queued, e: Env, str: seq<Byte>, closed: bool)
    requires TimerOk(ep.snd) && Grown(ep.snd, q.s, str, closed) && (q.ok || q.taken > 0) && ep.snd.nxt <= ep.snd.max <= ep.snd.write
    ensures var r := SendQueued(ep, q, e);
      && Carried(ep.(snd := q.s), r, str, closed, ep.snd.una)
      && SameButWindow(ep.rcv, r.ep.rcv)
  {
    assert Before(q.s, Send, str, closed);
    OutputFine(q.s, Send, e, str, closed);
    ApplyCarries(ep.(snd := q.s), q.s, Output(q.s, Send, e), str, closed, ep.snd.una);
  }

  /** Nothing is queued before the SYN. */
  lemma {:induction false} UnopenedIsEmpty(s: Snd)
    requires SndOk(s, [], false) && s.write == s.isn
    ensures s.q == [] && s.una == s.isn && s.max == s.isn
  {
    if |s.q| > 0 { ChainOrder(s.q, s.write, 0); }
  }

  lemma {:induction false} QueueSynCarries(ep: Endpoint, ack: bool, e: Env)
    requires EpOk(ep, [], false) && ep.snd.write == ep.snd.isn
    ensures var q := Queue(ep, [], Ask(true, false, ack), 1);
      var r := SendQueued(ep, q, e);
      && q.s.write == ep.snd.isn + 1 && q.s == ep.snd.(q := q.s.q, cur := q.s.cur, write := q.s.write)
      && Carried(ep.(snd := q.s), r, [], false, ep.snd.una)
      && SameButWindow(ep.rcv, r.ep.rcv)
  {
    SynKeeps(ep.snd, ack, 1);
    SendQueuedCarries(ep, Queue(ep, [], Ask(true, false, ack), 1), e, [], false);
  }

  // ---------------------------------------------------------------- the unanswered SYN

  /** No packet carries an acknowledgment. */
  predicate NoAcks(out: seq<Packet>) { forall i :: 0 <= i < |out| ==> !out[i].ack }

  /** The first SYN always goes out, or counts as sent, so the machine waits to retransmit it. */
  lemma {:induction false} FirstSyn(s: Snd, e: Env)
    requires s.una == s.isn && s.nxt == s.isn && s.max == s.isn && s.wndack == s.isn && s.wnd > 0 && s.ostate.Idle?
    requires s.write == s.isn + 1 && |s.q| == 1 && s.q[0].start == s.isn && s.q[0].Len() == 1 && !s.q[0].ack
    requires 0 < s.mss <= s.cwnd
    ensures var r := Output(s, Send, e); SynWait(r.s) && NoAcks(r.out)
  {
    hide SndHead;
    SynHead(if e.rested then SlowStart(s) else s, e);
  }

  lemma {:induction false} SynHead(s: Snd, e: Env)
    requires s.una == s.isn && s.nxt == s.isn && s.max == s.isn && s.wndack == s.isn && s.wnd > 0 && s.cwnd > 0
    requires s.write == s.isn + 1 && |s.q| == 1 && s.q[0].start == s.isn && s.q[0].Len() == 1 && !s.q[0].ack
    ensures var r := SndHead(s, e); r.s == s.(nxt := s.isn + 1, max := r.s.max) && NoAcks(r.out)
  {
    hide Genuine, Receive;
    var wndnxt := s.wndack + Min(s.wnd, SendLimit(s, e));
    assert FirstPast(s.q, s.nxt) == 0;
    var o := if e.budget > 0 then Sent else e.failure;
    var (r, ok) := SendOne(s, 0, wndnxt, o);
    assert r.s == s.(nxt := s.isn + 1, max := r.s.max) && NoAcks(r.out);
    if ok {
      assert SendFrom(r.s, 1, wndnxt, if e.budget > 0 then e.budget - 1 else 0, e.failure) == Quiet(r.s);
    }
  }

  lemma {:induction false} SynRetransmitted(s: Snd, e: Env)
    requires SynWait(s) && s.q[0].start == s.isn
    ensures var r := TimerFires(s, e); (r.dead || SynWait(r.s)) && NoAcks(r.out)
  {
  }

  // ---------------------------------------------------------------- hearing the peer's SYN

  /** The receive variables when the peer's SYN arrives. */
  function AtSyn(r: Rcv, p: Packet, mss: int): Rcv {
    r.(sync := true, nxt := p.seqno, wnd := p.seqno, read := p.seqno + 1, mss := mss)
  }

  /** A SYN counts as one number, after which it is an ordinary packet. */
  lemma {:induction false} SynIsOneNumber(r: Rcv, p: Packet)
    requires p.syn
    ensures Receive(r, p) == Receive(r.(nxt := r.nxt + 1), p.(syn := false, seqno := p.seqno + 1))
  {
    assert Payload(p) == Payload(p.(syn := false, seqno := p.seqno + 1));
  }

  lemma {:induction false} SynHeard(r: Rcv, p: Packet, mss: int, base: int, str: seq<Byte>, closed: bool)
    requires r.q == [] && !r.finSeen && p.syn && Genuine(p, base, str, closed)
    ensures var r' := Receive(AtSyn(r, p, mss), p);
      && Agrees(r', base, str, closed) && r'.sync && r'.read == base
      && AtSyn(r, p, mss).nxt < base <= r'.nxt
  {
    var r0 := AtSyn(r, p, mss).(nxt := base);
    var p0 := p.(syn := false, seqno := base);
    SynIsOneNumber(AtSyn(r, p, mss), p);
    assert IsEdge(r0.q, base, base);
    ReceiveAgrees(r0, p0, base, str, closed);
  }

  // ---------------------------------------------------------------- packets for a host that is not synchronised

  /** A host that only answers with a reset, or not at all. */
  lemma {:induction false} OnlyResetSafe(h: Host, g: Host, k: Packet, m: bool, out: seq<Packet>)
    requires HostOk(h) && Heard(h, g) && h.ep.snd.una <= Front(g, h.isn) && (out == [] || out == SndRst(k, m))
    ensures Safe(h, Took(h, Res(h.ep, out)), g)
  {
    var h' := Took(h, Res(h.ep, out));
    TookSends(h, h', g, out);
  }

  /** A SYN on the wire is genuine. */
  lemma {:induction false} SynIsGenuine(k: Packet, g: Host, h: Host)
    requires OnWire(k, g, h) && k.syn && !k.rst
    ensures Genuine(k, g.isn + 1, Shown(g), FinShown(g)) && g.isn < g.ep.snd.max
  {
  }

  /** The host that a SYN has synchronised. */
  lemma {:induction false} SyncedSafe(h: Host, g: Host, h': Host, out: seq<Packet>, p: Packet, mss: int)
    requires HostOk(h) && Heard(h, g) && !h.ep.rcv.sync && h.ep.sock && p.syn && Genuine(p, g.isn + 1, Shown(g), FinShown(g)) && g.isn < g.ep.snd.max
    requires h' == h.(ep := h'.ep, wire := h'.wire) && h'.wire == h.wire + set i | 0 <= i < |out| :: out[i]
    requires EpOk(h'.ep, h.sent, h.closed) && h'.ep.snd.isn == h.isn < h'.ep.snd.write && !h.closed
    requires h'.ep.snd.una <= Front(g, h.isn) && h.ep.snd.max <= h'.ep.snd.max
    requires (h'.ep.st.SynRcvd? || h'.ep.st.Established?) && h'.ep.sock
    requires SameButWindow(Receive(AtSyn(h.ep.rcv, p, mss), p), h'.ep.rcv)
    requires AllOut(out, h'.ep, h.sent, h.closed)
    ensures Safe(h, h', g)
  {
    SyncedHeard(h, g, h', p, mss);
    SyncedOk(h, h');
    TookSends(h, h', g, out);
  }

  lemma {:induction false} SyncedOk(h: Host, h': Host)
    requires HostOk(h) && h'.isn == h.isn && h'.sent == h.sent && h'.closed == h.closed == false && h'.finLost == h.finLost
    requires EpOk(h'.ep, h.sent, h.closed) && h'.ep.snd.isn == h.isn < h'.ep.snd.write
    requires (h'.ep.st.SynRcvd? || h'.ep.st.Established?) && h'.ep.sock && h'.ep.rcv.sync
    ensures HostOk(h')
  {
  }

  lemma {:induction false} SyncedHeard(h: Host, g: Host, h': Host, p: Packet, mss: int)
    requires Heard(h, g) && !h.ep.rcv.sync && p.syn && Genuine(p, g.isn + 1, Shown(g), FinShown(g)) && h'.got == h.got && g.isn < g.ep.snd.max
    requires SameButWindow(Receive(AtSyn(h.ep.rcv, p, mss), p), h'.ep.rcv)
    ensures Heard(h', g) && h'.ep.rcv.sync && g.isn < h'.ep.rcv.nxt
  {
    SynHeard(h.ep.rcv, p, mss, g.isn + 1, Shown(g), FinShown(g));
    AgreesIgnoresWindow(Receive(AtSyn(h.ep.rcv, p, mss), p), h'.ep.rcv, g.isn + 1, Shown(g), FinShown(g));
  }

  lemma {:induction false} DeliverListen(h: Host, g: Host, p: Packet, ie: InEnv)
    requires HostOk(h) && Heard(h, g) && h.ep.snd.una <= Front(g, h.isn) && OnWire(p, g, h) && h.ep.st.Listen? && h.ep.sock
    ensures Safe(h, Took(h, InListen(h.ep, p, ie)), g)
  {
    if p.rst || !p.syn || p.ack || !ie.m3 {
      OnlyResetSafe(h, g, p, ie.m1, InListen(h.ep, p, ie).out);
    } else {
      SynIsGenuine(p, g, h);
      UnopenedIsEmpty(h.ep.snd);
      ListenCarries(h.ep, p, ie, g.isn + 1, Shown(g), FinShown(g));
      var r := InListen(h.ep, p, ie);
      SyncedSafe(h, g, Took(h, r), r.out, p, Max(32, ie.rmss));
    }
  }

  /** The passive open: data on the SYN is taken, SYN and ACK are queued and sent. */
  lemma {:induction false} ListenCarries(ep: Endpoint, p: Packet, ie: InEnv, base: int, str: seq<Byte>, closed: bool)
    requires EpOk(ep, [], false) && ep.snd.write == ep.snd.isn && ep.st.Listen?
    requires !p.rst && p.syn && !p.ack && ie.m3 && ep.rcv.q == [] && !ep.rcv.finSeen && Genuine(p, base, str, closed)
    ensures var r := InListen(ep, p, ie);
      && EpOk(r.ep, [], false) && r.ep.st.SynRcvd? && r.ep.sock == ep.sock
      && r.ep.snd.isn == ep.snd.isn && r.ep.snd.write == ep.snd.isn + 1 && r.ep.snd.una == ep.snd.una && ep.snd.max <= r.ep.snd.max
      && SameButWindow(Receive(AtSyn(ep.rcv, p, Max(32, ie.rmss)), p), r.ep.rcv)
      && AllOut(r.out, r.ep, [], false)
  {
    hide QueueOk, InStream, Receive, Output, Enqueue;
    var ep1 := ep.(st := SynRcvd, snd := Agreed(ep.snd.(wnd := WINDOW_FOR_SYN), Max(32, ie.mss)), rcv := AtSyn(ep.rcv, p, Max(32, ie.rmss)));
    WindowFieldsFree(ep.snd, ep1.snd, [], false);
    SynHeard(ep.rcv, p, Max(32, ie.rmss), base, str, closed);
    TakeDataCarries(ep1, p, ie, [], false, ep.snd.una);
    var d := TakeData(ep1, p, ie);
    assert d.ep.snd == ep1.snd;
    QueueSynCarries(d.ep, true, ie.e1);
    var r := SendQueued(d.ep, Queue(d.ep, [], Ask(true, false, true), 1), ie.e1);
    AllOutLater(d.out, d.ep, r.ep, [], false);
    AllOutBoth(d.out, r.out, r.ep, [], false);
    assert InListen(ep, p, ie) == After(d, r);
  }

  lemma {:induction false} DeliverSynSent(h: Host, g: Host, p: Packet, ie: InEnv)
    requires HostOk(h) && Heard(h, g) && h.ep.snd.una <= Front(g, h.isn) && OnWire(p, g, h) && h.ep.st.SynSent?
    ensures Safe(h, Took(h, InSynSent(h.ep, p, ie)), g)
  {
    var r := InSynSent(h.ep, p, ie);
    if !p.rst && p.syn && (p.ack ==> h.ep.snd.isn < p.ackno <= h.ep.snd.max) {
      SynArrives(h, g, p, ie);
      assert r == SynArrived(h.ep, p, ie);
    } else if r == Res(Reset(h.ep), []) {
      ResetSafe(h, g);
    } else {
      OnlyResetSafe(h, g, p, ie.m1, r.out);
      assert r == Res(h.ep, r.out);
    }
  }

  lemma {:induction false} ResetSafe(h: Host, g: Host)
    requires HostOk(h) && Heard(h, g) && h.ep.snd.una <= Front(g, h.isn)
    ensures Safe(h, Took(h, Res(Reset(h.ep), [])), g)
  {
    var h' := Took(h, Res(Reset(h.ep), []));
    assert h'.wire == h.wire;
    assert h'.ep.snd == h.ep.snd.(ostate := Idle, timer := false, q := [], cur := 0);
    TookSends(h, h', g, []);
    ResetHostOk(h, h');
  }

  lemma {:induction false} ResetHostOk(h: Host, h': Host)
    requires HostOk(h) && h' == h.(ep := Reset(h.ep), wire := h'.wire)
    ensures HostOk(h')
  {
    hide QueueOk, Counted, Genuine;
    if h.ep.snd.write == h.isn { EmptiedOk(h.ep.snd, h.sent, h.closed); }
  }

  lemma {:induction false} EmptiedOk(s: Snd, str: seq<Byte>, closed: bool)
    requires SndOk(s, str, closed) && s.write == s.isn
    ensures var s' := s.(ostate := Idle, timer := false, q := [], cur := 0); SndOk(s', str, closed) && TimerOk(s')
  {
  }

  lemma {:induction false} SynArrives(h: Host, g: Host, p: Packet, ie: InEnv)
    requires HostOk(h) && Heard(h, g) && h.ep.snd.una <= Front(g, h.isn) && OnWire(p, g, h) && h.ep.st.SynSent?
    requires !p.rst && p.syn && (p.ack ==> h.ep.snd.isn < p.ackno <= h.ep.snd.max)
    ensures Safe(h, Took(h, SynArrived(h.ep, p, ie)), g)
  {
    SynIsGenuine(p, g, h);
    SynSentCarries(h.ep, p, ie, h.sent, g.isn + 1, Shown(g), FinShown(g));
    SynSentSafe(h, g, p, SynArrived(h.ep, p, ie));
  }

  lemma {:induction false} SynSentSafe(h: Host, g: Host, p: Packet, r: Res)
    requires HostOk(h) && Heard(h, g) && h.ep.snd.una <= Front(g, h.isn) && OnWire(p, g, h) && h.ep.st.SynSent?
    requires !p.rst && p.syn && Genuine(p, g.isn + 1, Shown(g), FinShown(g)) && AnsweredSyn(h.ep, r, p, h.sent)
    ensures Safe(h, Took(h, r), g)
  {
    SyncedSafe(h, g, Took(h, r), r.out, p, h.ep.rcv.mss);
  }

  /** What the peer's SYN does to an endpoint that has sent its own. */
  ghost predicate AnsweredSyn(ep: Endpoint, r: Res, p: Packet, sent: seq<Byte>) {
    && EpOk(r.ep, sent, false) && (r.ep.st.SynRcvd? || r.ep.st.Established?) && r.ep.sock == ep.sock
    && r.ep.snd.isn == ep.snd.isn && r.ep.snd.write == ep.snd.write && ep.snd.max <= r.ep.snd.max
    && r.ep.snd.una <= Max(ep.snd.una, if p.ack then p.ackno else ep.snd.una)
    && SameButWindow(Receive(AtSyn(ep.rcv, p, ep.rcv.mss), p), r.ep.rcv)
    && AllOut(r.out, r.ep, sent, false)
  }

  lemma {:induction false} SynSentCarries(ep: Endpoint, p: Packet, ie: InEnv, sent: seq<Byte>, base: int, str: seq<Byte>, closed: bool)
    requires EpOk(ep, sent, false) && ep.snd.una == ep.snd.isn && p.syn
    requires ep.rcv.q == [] && !ep.rcv.finSeen && Genuine(p, base, str, closed)
    ensures AnsweredSyn(ep, SynArrived(ep, p, ie), p, sent)
  {
    hide QueueOk, Counted, Genuine, Receive, TakeAck, TakeData;
    var ep1 := ep.(rcv := AtSyn(ep.rcv, p, ep.rcv.mss));
    SynHeard(ep.rcv, p, ep.rcv.mss, base, str, closed);
    TakeAckCarries(ep1, p, false, ie, sent, false);
    var r := TakeAck(ep1, p, false, ie);
    var ep3 := AfterSynAck(r.ep, p, Max(32, ie.mss));
    WindowFieldsFree(r.ep.snd, ep3.snd, sent, false);
    WindowDoesNotMatter(ep1.rcv, ep3.rcv, p);
    DataAndAck(ep3, p, ie, sent);
    var d := TakeData(ep3, p, ie);
    var f := PureAck(d.ep, ie.m3);
    SynSentEnds(ep, r, d, f, sent);
    assert SynArrived(ep, p, ie) == After(After(r, d), f);
  }

  lemma {:induction false} DataAndAck(ep: Endpoint, p: Packet, ie: InEnv, sent: seq<Byte>)
    requires EpOk(ep, sent, false) && ep.rcv.nxt <= Receive(ep.rcv, p).nxt
    ensures var d := TakeData(ep, p, ie);
      var f := PureAck(d.ep, ie.m3);
      && d.ep.snd == ep.snd == f.ep.snd && EpOk(f.ep, sent, false)
      && f.ep.st == ep.st && f.ep.sock == ep.sock
      && AllOut(d.out, d.ep, sent, false) && AllOut(f.out, f.ep, sent, false)
      && Forward(ep, d.ep) && Forward(d.ep, f.ep)
      && SameButWindow(Receive(ep.rcv, p), f.ep.rcv)
  {
    TakeDataCarries(ep, p, ie, sent, false, ep.snd.una);
    PureAckCarries(TakeData(ep, p, ie).ep, ie.m3, sent, false, ep.snd.una);
  }

  lemma {:induction false} SynSentEnds(ep: Endpoint, r: Res, d: Res, f: Res, sent: seq<Byte>)
    requires AllOut(r.out, r.ep, sent, false) && AllOut(d.out, d.ep, sent, false) && AllOut(f.out, f.ep, sent, false)
    requires Forward(r.ep, d.ep) && Forward(d.ep, f.ep)
    ensures AllOut(After(After(r, d), f).out, f.ep, sent, false)
  {
    AllOutLater(r.out, r.ep, f.ep, sent, false);
    AllOutLater(d.out, d.ep, f.ep, sent, false);
    AllOutBoth(r.out, d.out, f.ep, sent, false);
    AllOutBoth(r.out + d.out, f.out, f.ep, sent, false);
  }
}
