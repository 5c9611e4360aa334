/** Opening works: from every pair of fresh hosts five events establish the connection at both ends, ready for closing. */
module Handshake {
  import opened TcpTypes
  import opened TcpSend
  import opened SendFacts
  import opened RecvQueue
  import opened TcpRecv
  import opened TcpEndpoint
  import opened TcpSystem
  import opened SystemFacts
  import opened RunTheorems
  import opened Acceptance
  import opened OutputMeaning
  import opened Acknowledging
  import opened Reversal
  import opened Release

  /** Nothing fails. */
  predicate Smooth(ie: InEnv) { ie.e1.budget > 0 && ie.e2.budget > 0 && ie.m1 && ie.m2 && ie.m3 }

  /** A SYN without data. */
  predicate IsSyn(p: Packet, isn: int, ack: bool) {
    p.syn && !p.fin && !p.rst && p.ack == ack && p.data == [] && p.seqno == isn
  }

  lemma {:induction false} SynGoesOut(s: Snd, e: Env)
    requires OnlyFlag(s) && s.nxt == s.isn && s.q[0].syn && e.budget > 0
    ensures var r := Output(s, Send, e);
      && |r.out| == 1 && IsSyn(r.out[0], s.isn, s.q[0].ack) && !r.dead
      && r.s.write == s.write == r.s.nxt && r.s.una == s.una
  {
    hide Output;
    FlagGoesOut(s, e);
  }

  /** Nothing has been received: the whole buffer is free. */
  predicate Clear(r: Rcv) { r.q == [] && r.cur == 0 && !r.finSeen && 0 < r.max <= MAX_SPACE }

  lemma {:induction false} ClearOffersAll(r: Rcv, st: State)
    requires Clear(r) && r.wnd <= r.nxt + r.max
    ensures Window(r, st) == r.max && Clear(Record(r, st))
    ensures forall st': State :: Window(Record(r, st), st') == r.max
  {
  }

  /** Our SYN and nothing else has been queued and sent. */
  predicate SynOut(s: Snd, isn: int) { s.isn == s.una == isn && s.write == s.nxt == isn + 1 }

  // ---------------------------------------------------------------- the active end

  lemma {:induction false} ConnectSends(h: Host, wire: set<Packet>, rmss: int, e: Env) returns (p: Packet)
    requires FreshHost(h) && e.budget > 0
    ensures var h' := Act(h, wire, DoConnect(rmss, e));
      && p in h'.wire && IsSyn(p, h.isn, false)
      && h'.ep.st.SynSent? && h'.ep.sock && SynOut(h'.ep.snd, h.isn) && Clear(h'.ep.rcv) && h'.ep.rcv.max == h.ep.rcv.max
      && h'.isn == h.isn && !h'.closed
  {
    hide Output, Window;
    var ep1 := h.ep.(snd := h.ep.snd.(wnd := WINDOW_FOR_SYN), rcv := h.ep.rcv.(mss := Max(32, rmss)));
    var q := Queue(ep1, [], Ask(true, false, false), 1);
    assert q.s.q == [OutSeg(h.isn, true, [], false, false, h.ep.snd.mss - MAX_RETRY)];
    SynGoesOut(q.s, e);
    OutputKeepsIsn(q.s, Send, e);
    var r := Connect(ep1, e);
    p := r.out[0];
    assert p in Took(h, r).wire;
  }

  lemma OutputKeepsIsn(s: Snd, ev: OEvent, e: Env)
    requires s.ostate.Idle?
    ensures Output(s, ev, e).s.isn == s.isn
  {
    hide SndHead;
    SndHeadKeeps(s, e);
    SndHeadKeeps(SlowStart(s), e);
  }

  // ---------------------------------------------------------------- the passive end

  lemma {:induction false} ListenAnswers(h: Host, wire: set<Packet>, p: Packet, isn: int, ie: InEnv) returns (k: Packet)
    requires HostOk(h) && h.ep.st.Listen? && h.ep.sock && FreshRcv(h.ep.rcv) && FreshSnd(h.ep.snd, h.isn)
    requires p in wire && IsSyn(p, isn, false) && Smooth(ie)
    ensures var h' := Act(h, wire, Deliver(p, ie));
      && k in h'.wire && IsSyn(k, h.isn, true) && k.ackno == isn + 1 && k.window == h.ep.rcv.max
      && h'.ep.st.SynRcvd? && h'.ep.sock && SynOut(h'.ep.snd, h.isn) && h'.isn == h.isn
      && Clear(h'.ep.rcv) && h'.ep.rcv.nxt == isn + 1 && Window(h'.ep.rcv, SynRcvd) == h.ep.rcv.max == h'.ep.rcv.max
  {
    hide Output, Window;
    var ep := h.ep;
    var ep1 := ep.(st := SynRcvd, snd := Agreed(ep.snd.(wnd := WINDOW_FOR_SYN), Max(32, ie.mss)),
                   rcv := ep.rcv.(sync := true, nxt := p.seqno, wnd := p.seqno, read := p.seqno + 1, mss := Max(32, ie.rmss)));
    EmptySynTaken(ep1, Cut(p), ie);
    var d := TakeData(ep1, Cut(p), ie);
    var q := Queue(d.ep, [], Ask(true, false, true), 1);
    assert q.s.q == [OutSeg(h.isn, true, [], false, true, ep1.snd.mss - MAX_RETRY)];
    SynGoesOut(q.s, ie.e1);
    OutputKeepsIsn(q.s, Send, ie.e1);
    ClearOffersAll(d.ep.rcv, SynRcvd);
    var r := SendQueued(d.ep, q, ie.e1);
    k := r.out[0];
    assert InListen(ep, Cut(p), ie) == After(d, r);
    assert (d.out + r.out)[0] == k;
    assert k in Took(h, After(d, r)).wire;
  }

  lemma {:induction false} EmptySynTaken(ep: Endpoint, p: Packet, ie: InEnv)
    requires p.syn && !p.fin && p.data == [] && ep.rcv.q == [] && !ep.rcv.finSeen && ep.rcv.nxt == p.seqno
    ensures TakeData(ep, p, ie) == Res(ep.(rcv := ep.rcv.(nxt := p.seqno + 1)), [])
  {
    assert Redundant([], Payload(p));
  }

  // ---------------------------------------------------------------- the last two steps

  /** The end that has sent its SYN takes in the other's. */
  lemma {:induction false} SynSentTakes(ep: Endpoint, k: Packet, isn: int, ie: InEnv)
    requires ep.st.SynSent? && SynOut(ep.snd, ep.snd.isn) && ep.snd.max == ep.snd.write && !ep.snd.ostate.Idle? && Clear(ep.rcv)
    requires IsSyn(k, isn, true) && k.ackno == ep.snd.isn + 1 && k.window > 0 && Smooth(ie)
    ensures var r := Dispatch(ep, k, ie);
      && r.ep.st.Established? && r.ep.sock == ep.sock && AtRest(r.ep.snd) && r.ep.snd.una == ep.snd.isn + 1
      && Clear(r.ep.rcv) && r.ep.rcv.nxt == isn + 1 && Window(r.ep.rcv, Established) == ep.rcv.max == r.ep.rcv.max
      && |r.out| == 1 && IsAck(r.out[0], ep.snd.isn + 1, isn + 1) && r.out[0].window == ep.rcv.max
  {
    hide TakeAck, TakeData, Window, Record;
    var ep1 := ep.(rcv := ep.rcv.(sync := true, nxt := k.seqno, wnd := k.seqno, read := k.seqno + 1));
    AllAckedQuietly(ep1, k, false, ie);
    var a := AfterSynAck(TakeAck(ep1, k, false, ie).ep, k, Max(32, ie.mss));
    EmptySynTaken(a, k, ie);
    var d := TakeData(a, k, ie);
    ClearOffersAll(d.ep.rcv, Established);
    RecordMeans(d.ep.rcv, Established);
  }

  /**
   * The peer's SYN settles the segment size and lets the congestion window start with one segment, whether it answers
   * ours or crosses it; the segment that establishes the connection is the first one whose window counts.
   */
  lemma {:induction false} SynSettles(ep: Endpoint, p: Packet, ie: InEnv)
    requires ep.st.SynSent? && p.syn && !p.rst && (p.ack ==> ep.snd.isn < p.ackno <= ep.snd.max)
    ensures var r := Dispatch(ep, p, ie).ep;
      && r.snd.mss == r.snd.cwnd == Max(32, ie.mss) && 2 * r.snd.mss <= r.snd.thresh
      && (r.st.Established? ==> r.snd.wnd == p.window && r.snd.wndseq == p.seqno && r.snd.wndack == p.ackno)
  {
    hide TakeAck, TakeData, PureAck;
    var ep1 := ep.(rcv := ep.rcv.(sync := true, nxt := p.seqno, wnd := p.seqno, read := p.seqno + 1));
    var a := AfterSynAck(TakeAck(ep1, p, false, ie).ep, p, Max(32, ie.mss));
    DataKeepsSender(a, p, ie);
    AckKeepsSender(TakeData(a, p, ie).ep, ie.m3);
  }

  /** The same for the end whose SYN the segment acknowledges. */
  lemma {:induction false} AckSettles(ep: Endpoint, p: Packet, ie: InEnv)
    requires ep.st.SynRcvd? && p.ack && !p.syn && !p.rst
    ensures var r := Dispatch(ep, p, ie).ep;
      && (r.st.Established? || r.st.CloseWait?)
      && r.snd.wnd == p.window && r.snd.wndseq == p.seqno && r.snd.wndack == p.ackno
  {
    hide TakeAck, TakeData;
    var r := TakeAck(ep, p, false, ie).ep;
    DataKeepsSender(r.(st := Established, snd := r.snd.(wnd := p.window, wndseq := p.seqno, wndack := p.ackno)), p, ie);
  }

  lemma AckKeepsSender(ep: Endpoint, mem: bool)
    ensures PureAck(ep, mem).ep.snd == ep.snd && PureAck(ep, mem).ep.st == ep.st
  {
    hide Window, Record;
  }

  /** The answer to our SYN establishes the connection, and is acknowledged. */
  lemma {:induction false} AnswerEstablishes(h: Host, g: Host, k: Packet, isn: int, ie: InEnv) returns (p: Packet)
    requires HostOk(h) && h.ep.st.SynSent? && h.ep.sock && SynOut(h.ep.snd, h.isn) && Clear(h.ep.rcv)
    requires k in g.wire && IsSyn(k, isn, true) && k.ackno == h.isn + 1 && 0 < k.window <= MAX_SPACE && Smooth(ie)
    ensures var h' := Act(h, g.wire, Deliver(k, ie));
      && CanRelease(h') && p in h'.wire && IsAck(p, h.isn + 1, isn + 1) && p.window == h.ep.rcv.max
      && h'.isn == h.isn && h'.closed == h.closed
  {
    hide SndOk, TimerOk, Dispatch, Window;
    NotIdleYet(h.ep.snd, h.sent, h.closed);
    NothingBeyond(h);
    SynSentTakes(h.ep, Cut(k), isn, ie);
    var r := Input(h.ep, Cut(k), ie);
    p := r.out[0];
    assert p in Took(h, r).wire;
  }

  /** The acknowledgment establishes the passive end too. */
  lemma {:induction false} AckEstablishes(h: Host, g: Host, k: Packet, ie: InEnv)
    requires HostOk(h) && h.ep.st.SynRcvd? && h.ep.sock && SynOut(h.ep.snd, h.isn) && Clear(h.ep.rcv)
    requires Window(h.ep.rcv, SynRcvd) == h.ep.rcv.max
    requires k in g.wire && IsAck(k, h.ep.rcv.nxt, h.isn + 1) && 0 < k.window <= MAX_SPACE
    ensures CanRelease(Act(h, g.wire, Deliver(k, ie)))
  {
    hide SndOk, TimerOk, TakeAck, TakeData, Window;
    var p := Cut(k);
    NotIdleYet(h.ep.snd, h.sent, h.closed);
    NothingBeyond(h);
    assert Check(h.ep.rcv, h.ep.st, p) == Verdict(true, p);
    AllAckedQuietly(h.ep, p, false, ie);
    var r := TakeAck(h.ep, p, false, ie);
    var ep1 := r.ep.(st := Established, snd := r.ep.snd.(wnd := p.window, wndseq := p.seqno, wndack := p.ackno));
    NothingTaken(ep1, p, ie);
    WindowOfState(h.ep.rcv, SynRcvd, Established);
    assert Took(h, Res(ep1, [])).ep == ep1;
  }

  // ---------------------------------------------------------------- the whole handshake

  lemma {:induction false} ListenIsFresh(h: Host, wire: set<Packet>)
    requires FreshHost(h)
    ensures var h' := Act(h, wire, DoListen); h' == h.(ep := h.ep.(st := Listen))
  {
  }

  /** From any two fresh hosts: connect, listen, SYN, SYN and ACK, ACK; then both ends are established and at rest. */
  lemma {:induction false} HandshakeCompletes(s: Sys, rmss: int, ie: InEnv) returns (run: seq<Event>)
    requires Fresh(s) && Smooth(ie)
    ensures |run| == 5 && var t := Exec(s, run); CanRelease(t.a) && CanRelease(t.b)
  {
    hide Act, HostOk, Link, Exec, Window;
    var e1, e2 := Event(true, DoConnect(rmss, ie.e1)), Event(false, DoListen);
    var syn := ConnectSends(s.a, s.b.wire, rmss, ie.e1);
    var t1 := Step(s, e1);
    ListenIsFresh(s.b, t1.a.wire);
    var t2 := Step(t1, e2);
    ExecTwo(s, e1, e2);
    InvAlways(s, [e1, e2]);
    var e3 := Event(false, Deliver(syn, ie));
    var both := ListenAnswers(t2.b, t2.a.wire, syn, s.a.isn, ie);
    var t3 := Step(t2, e3);
    InvStep(t2, e3);
    var e4 := Event(true, Deliver(both, ie));
    var ack := AnswerEstablishes(t3.a, t3.b, both, s.b.isn, ie);
    var t4 := Step(t3, e4);
    InvStep(t3, e4);
    var e5 := Event(false, Deliver(ack, ie));
    AckEstablishes(t4.b, t4.a, ack, ie);
    run := [e1, e2, e3] + [e4, e5];
    ExecThree(s, e1, e2, e3);
    ExecTwo(t3, e4, e5);
    ExecThen(s, [e1, e2, e3], [e4, e5]);
  }

  /** The wait after the last acknowledgment ends the connection. */
  lemma WaitEnds(h: Host, wire: set<Packet>)
    requires h.ep.st.TimeWait?
    ensures Act(h, wire, DeleteTimer).ep.st.Closed?
  {
  }

  /** A whole life: from any two fresh hosts the connection is opened at both ends and closed at both ends again. */
  lemma {:induction false} OpenedAndClosed(s: Sys, rmss: int, ie: InEnv) returns (run: seq<Event>)
    requires Fresh(s) && Smooth(ie)
    ensures |run| == 12 && var t, u := Exec(s, run[..5]), Exec(s, run);
      && t.a.ep.st.Established? && t.b.ep.st.Established?
      && u.a.ep.st.Closed? && u.b.ep.st.Closed?
  {
    hide Exec, Act;
    var open := HandshakeCompletes(s, rmss, ie);
    var close := ReleaseCompletes(s, open, Exec(s, open), ie.e1, ie);
    var last := [Event(true, DeleteTimer)];
    run := open + close + last;
    assert run[..5] == open;
    ExecThen(s, open, close);
    ExecThen(s, open + close, last);
    var v := Exec(s, open + close);
    ExecTwo(v, last[0], last[0]);
    WaitEnds(v.a, v.b.wire);
  }
}
