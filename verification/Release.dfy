/** Closing works: two established hosts at rest come to TIMEWAIT and CLOSED in six events. */
module Release {
  import opened TcpTypes
  import opened TcpSend
  import opened SendFacts
  import opened RecvQueue
  import opened TcpRecv
  import opened TcpEndpoint
  import opened EndpointFacts
  import opened TcpSystem
  import opened SystemFacts
  import opened RunTheorems
  import opened Acceptance
  import opened OutputMeaning
  import opened Transitions
  import opened Acknowledging

  /** Everything written is acknowledged, and the peer offers a window from there on. */
  predicate AtRest(s: Snd) { s.una == s.nxt == s.write == s.wndack && s.wnd > 0 }

  /** The host offers a window that its field can tell. */
  predicate Offers(ep: Endpoint) { 0 < Window(ep.rcv, ep.st) <= MAX_SPACE }

  /** A FIN without data. */
  predicate IsFin(p: Packet, at: int) { p.fin && !p.syn && !p.rst && p.ack && p.data == [] && p.seqno == at }

  /** A segment that only acknowledges. */
  predicate IsAck(p: Packet, seqno: int, ackno: int) {
    p.Len() == 0 && !p.rst && p.ack && p.data == [] && p.seqno == seqno && p.ackno == ackno
  }

  // ---------------------------------------------------------------- the FIN goes out

  lemma {:induction false} FinOfRest(s: Snd, e: Env, str: seq<Byte>)
    requires SndOk(s, str, false) && TimerOk(s) && AtRest(s) && s.isn < s.write && e.budget > 0
    ensures var q := Enqueue(s, [], Ask(false, true, true), true, 1);
      var r := Output(q.s, Send, e);
      && q.ok && |r.out| == 1 && IsFin(r.out[0], s.write) && !r.dead
      && r.s.write == s.write + 1 && r.s.una == s.write && r.s.nxt == s.write + 1
  {
    hide Output, Enqueue, QueueOk;
    AckedMeansEmpty(s, str, false);
    FinUnfolds(s, 1);
    FlagGoesOut(Enqueue(s, [], Ask(false, true, true), true, 1).s, e);
  }

  lemma {:induction false} ShutdownSends(h: Host, wire: set<Packet>, e: Env) returns (f: Packet)
    requires HostOk(h) && h.ep.sock && (h.ep.st.Established? || h.ep.st.CloseWait?) && AtRest(h.ep.snd) && e.budget > 0
    ensures var h' := Act(h, wire, DoShutdown(1, e));
      && f in h'.wire && IsFin(f, h.ep.snd.write) && f.window == Window(h.ep.rcv, h.ep.st) && f.ackno == h.ep.rcv.nxt
      && h'.ep.st == ClosingState(h.ep.st) && h'.closed && h'.isn == h.isn && h'.sent == h.sent && h'.ep.sock
      && h'.ep.snd.una == h.ep.snd.write && h'.ep.snd.write == h.ep.snd.write + 1 && h'.ep.snd.nxt == h'.ep.snd.write
      && SameButWindow(h.ep.rcv, h'.ep.rcv) && Window(h'.ep.rcv, h'.ep.st) == Window(h.ep.rcv, h.ep.st)
  {
    hide Output, Enqueue, Window, SndOk;
    FinOfRest(h.ep.snd, e, h.sent);
    var ep1 := h.ep.(st := ClosingState(h.ep.st));
    RestIsOpen(h);
    WindowOfState(h.ep.rcv, h.ep.st, ep1.st);
    RecordMeans(h.ep.rcv, ep1.st);
    var r := Shutdown(h.ep, 1, e);
    f := r.out[0];
    assert f in Took(h, r).wire;
  }

  lemma RestIsOpen(h: Host)
    requires HostOk(h) && (h.ep.st.Established? || h.ep.st.CloseWait?)
    ensures h.isn < h.ep.snd.write && MAX_RETRY < h.ep.snd.mss && !h.closed && EpOk(h.ep, h.sent, false)
  {
  }

  lemma WindowOfState(r: Rcv, st: State, st': State)
    requires st.Synchronised() && st'.Synchronised()
    ensures Window(r, st) == Window(r, st') && Record(r, st) == Record(r, st')
  {
  }

  // ---------------------------------------------------------------- the FIN arrives

  /** The window of a segment, if it counts. */
  function Refreshed(s: Snd, p: Packet, update: bool): Snd { if update && SndWnd(s, p).Update? then SndWnd(s, p).s else s }

  /** An acknowledgment of what is acknowledged, on a segment that holds something, only brings its window. */
  lemma {:induction false} QuietAck(ep: Endpoint, p: Packet, update: bool, ie: InEnv)
    requires ep.snd.una <= ep.snd.max && p.ack && p.ackno == ep.snd.una && p.Len() > 0 && (update ==> ep.snd.ostate.Idle?)
    ensures TakeAck(ep, p, update, ie) == Res(ep.(snd := Refreshed(ep.snd, p, update)), [])
  {
    hide Window, Record;
    var s1 := Refreshed(ep.snd, p, update);
    WindowIsTakenIff(ep.snd, p);
    assert AckNumber(ep.(snd := s1), p, ep.snd.wnd, ie) == Res(ep.(snd := s1), []);
    if update && SndWnd(ep.snd, p).Update? {
      var ev := SndWnd(ep.snd, p).ev;
      assert Output(s1, ev, ie.e2) == Quiet(s1);
      assert Stamp([], ep.rcv.nxt, Window(ep.rcv, ep.st)) == [];
    }
  }

  lemma {:induction false} RestStays(s: Snd, p: Packet, update: bool)
    requires AtRest(s) && p.ackno == s.una && p.window > 0
    ensures AtRest(Refreshed(s, p, update)) && Refreshed(s, p, update).write == s.write
  {
    WindowIsTakenIff(s, p);
  }

  /** A FIN in sequence is consumed and acknowledged at once. */
  lemma {:induction false} FinTaken(ep: Endpoint, p: Packet, ie: InEnv)
    requires IsFin(p, ep.rcv.nxt) && ie.m2
    ensures var d := TakeData(ep, p, ie);
      && d.ep.rcv.nxt == ep.rcv.nxt + 1 && d.ep.rcv.Finished() && d.ep.st == ep.st && d.ep.snd == ep.snd && d.ep.sock == ep.sock
      && |d.out| == 1 && IsAck(d.out[0], ep.snd.nxt, ep.rcv.nxt + 1)
      && SameButWindow(ep.rcv.(nxt := ep.rcv.nxt + 1, finSeen := true, seqFin := ep.rcv.nxt), d.ep.rcv)
      && Window(d.ep.rcv, d.ep.st) == d.out[0].window
  {
    hide Window;
    assert Redundant(ep.rcv.q, Payload(p));
    var r := Receive(ep.rcv, p);
    assert r == ep.rcv.(nxt := ep.rcv.nxt + 1, finSeen := true, seqFin := ep.rcv.nxt);
    RecordMeans(r, ep.st);
    DataIsAcknowledged(ep, p, ie);
  }

  /** The FIN at a host at rest: the state says so, and the acknowledgment is on the wire. */
  lemma {:induction false} FinDelivered(h: Host, g: Host, k: Packet, ie: InEnv) returns (a: Packet)
    requires HostOk(h) && k in g.wire && IsFin(k, h.ep.rcv.nxt) && k.ackno == h.ep.snd.una && ie.m2
    requires ((h.ep.st.Established? && AtRest(h.ep.snd) && 0 < k.window <= MAX_SPACE) || h.ep.st.FinWait2?) && Offers(h.ep)
    ensures var h' := Act(h, g.wire, Deliver(k, ie));
      && a in h'.wire && IsAck(a, h.ep.snd.nxt, h.ep.rcv.nxt + 1)
      && h'.ep.st == (if h.ep.st.Established? then CloseWait else TimeWait)
      && h'.ep.rcv.nxt == h.ep.rcv.nxt + 1 && h'.ep.snd.write == h.ep.snd.write && (h.ep.st.Established? ==> AtRest(h'.ep.snd))
      && h'.isn == h.isn && h'.sent == h.sent && h'.closed == h.closed && h'.ep.sock == h.ep.sock
  {
    hide Window, TakeAck, TakeData, SndOk;
    RestIsIdle(h);
    var update := h.ep.st.Established?;
    var p := Cut(k);
    FinPassesCheck(h.ep, p);
    QuietAck(h.ep, p, update, ie);
    if update { RestStays(h.ep.snd, p, update); }
    var ep1 := h.ep.(snd := Refreshed(h.ep.snd, p, update));
    FinTaken(ep1, p, ie);
    var r := Dispatch(h.ep, p, ie);
    a := TakeData(ep1, p, ie).out[0];
    assert r.out == [] + TakeData(ep1, p, ie).out;
    assert a == r.out[0];
    assert a in Took(h, r).wire;
  }

  lemma RestIsIdle(h: Host)
    requires HostOk(h) && ((h.ep.st.Established? && AtRest(h.ep.snd)) || h.ep.st.FinWait2?)
    ensures h.ep.snd.ostate.Idle? && h.ep.snd.max == h.ep.snd.una
  {
    AckedMeansEmpty(h.ep.snd, h.sent, h.closed);
  }

  lemma {:induction false} FinPassesCheck(ep: Endpoint, p: Packet)
    requires IsFin(p, ep.rcv.nxt) && ep.st.Synchronised() && Offers(ep)
    ensures Check(ep.rcv, ep.st, p) == Verdict(true, p)
  {
    hide Window;
  }

  // ---------------------------------------------------------------- the last acknowledgments

  /** The acknowledgment of all that is queued sends nothing and leaves the receive side alone. */
  lemma {:induction false} AllAckedQuietly(ep: Endpoint, p: Packet, update: bool, ie: InEnv)
    requires !ep.snd.ostate.Idle? && ep.snd.una < ep.snd.write == ep.snd.max == ep.snd.nxt
    requires p.ack && p.ackno == ep.snd.write && p.window >= 0
    ensures var r := TakeAck(ep, p, update, ie);
      && r.out == [] && r.ep == ep.(snd := r.ep.snd) && r.ep.snd.isn == ep.snd.isn
      && r.ep.snd.una == r.ep.snd.write == ep.snd.write && r.ep.snd.nxt == ep.snd.nxt
  {
    hide Output, Apply, DropData;
    WindowIsTakenIff(ep.snd, p);
    var s1 := Refreshed(ep.snd, p, update);
    var s2 := s1.(una := p.ackno);
    AllAckedIsQuiet(s2, ie.e1);
    DropKeepsRest(s2);
    var s3 := DropData(s2).(timer := false, ostate := Idle);
    QuietApplied(ep.(snd := s1), s3);
    var s4 := s3.(dupacks := 0);
    assert AckNumber(ep.(snd := s1), p, ep.snd.wnd, ie) == Res(ep.(snd := s4), []);
    if update && SndWnd(ep.snd, p).Update? {
      IdleStays(s4, SndWnd(ep.snd, p).ev, ie.e2);
      QuietApplied(ep.(snd := s4), s4);
    }
  }

  lemma IdleStays(s: Snd, ev: OEvent, e: Env)
    requires s.ostate.Idle? && !ev.Send?
    ensures Output(s, ev, e) == Quiet(s)
  {
  }

  /** FINWAIT1, and our FIN is acknowledged before the other end closes. */
  lemma {:induction false} FinAcked(h: Host, g: Host, k: Packet, ie: InEnv)
    requires HostOk(h) && Heard(h, g) && !g.closed && k in g.wire && h.ep.st.FinWait1? && h.ep.sock && Offers(h.ep)
    requires h.ep.snd.una + 1 == h.ep.snd.write == h.ep.snd.max == h.ep.snd.nxt && IsAck(k, h.ep.rcv.nxt, h.ep.snd.write)
    ensures var h' := Act(h, g.wire, Deliver(k, ie));
      && h'.ep.st.FinWait2? && h'.ep.rcv == h.ep.rcv && h'.ep.snd.una == h'.ep.snd.write == h'.ep.snd.nxt == h.ep.snd.write
      && h'.isn == h.isn && h'.closed == h.closed && h'.ep.sock
  {
    hide TakeAck, TakeData, Window, QueueOk;
    var p := Cut(k);
    NotIdleYet(h.ep.snd, h.sent, h.closed);
    AllAckedQuietly(h.ep, p, true, ie);
    NothingTaken(TakeAck(h.ep, p, true, ie).ep, p, ie);
    assert Check(h.ep.rcv, h.ep.st, p) == Verdict(true, p);
    assert Took(h, Res(h.ep, [])).ep == h.ep;
  }

  lemma NotIdleYet(s: Snd, str: seq<Byte>, closed: bool)
    requires SndOk(s, str, closed) && TimerOk(s) && s.una < s.write
    ensures !s.ostate.Idle?
  {
  }

  /** LASTACK, and our FIN is acknowledged. */
  lemma {:induction false} LastAcked(h: Host, g: Host, k: Packet, ie: InEnv)
    requires HostOk(h) && HostOk(g) && Link(h, g) && Link(g, h) && k in g.wire && h.ep.st.LastAck? && h.ep.sock
    requires h.ep.snd.una < h.ep.snd.write == h.ep.snd.max && IsAck(k, h.ep.rcv.nxt, h.ep.snd.write)
    ensures Act(h, g.wire, Deliver(k, ie)).ep.st.Closed?
  {
    hide Link, Act, EpOk, Window;
    var a := Deliver(k, ie);
    ActSafe(h, g, a);
    DeliveryChanges(h, g, k, ie);
    DeliveryMovesEdge(h, g, k, ie);
    WriteStays(h, g, k, ie);
  }

  lemma {:induction false} WriteStays(h: Host, g: Host, k: Packet, ie: InEnv)
    requires HostOk(h) && h.ep.st.LastAck? && h.ep.sock && k in g.wire && IsAck(k, h.ep.rcv.nxt, h.ep.snd.write)
    ensures Act(h, g.wire, Deliver(k, ie)).ep.snd.write == h.ep.snd.write
  {
    hide EpOk, TakeAck, Window;
    AckKeepsState(h.ep, Cut(k), false, ie, h.sent, h.closed);
    AcceptedIffAcceptable(h.ep.rcv, h.ep.st, Cut(k));
    HeaderEdits(h.ep.rcv, h.ep.st, Cut(k));
  }

  // ---------------------------------------------------------------- the whole release

  /** A host that could close now: connected, its user there, everything acknowledged, a window on offer. */
  predicate CanRelease(h: Host) { h.ep.st.Established? && h.ep.sock && AtRest(h.ep.snd) && Offers(h.ep) }

  /** Where `h` is at rest, `g` has received everything. */
  lemma {:induction false} LevelAtRest(h: Host, g: Host)
    requires HostOk(h) && HostOk(g) && Link(h, g) && h.ep.snd.una == h.ep.snd.write && g.ep.st.Synchronised()
    ensures g.ep.rcv.nxt == h.ep.snd.write
  {
    LinkInOrder(h, g);
  }

  lemma NothingBeyond(h: Host)
    requires HostOk(h) && h.ep.snd.nxt == h.ep.snd.write
    ensures h.ep.snd.max == h.ep.snd.write
  {
  }

  lemma OpenHearsOpen(h: Host, g: Host)
    requires HostOk(h) && Link(g, h) && (h.ep.st.Established? || h.ep.st.CloseWait?)
    ensures !h.closed && Heard(h, g)
  {
  }

  /**
   * From every reachable state in which both ends could close: FIN, ACK, FIN, ACK, and the end that closes first is in
   * TIMEWAIT, the other one closed.
   */
  lemma {:induction false} ReleaseCompletes(s: Sys, before: seq<Event>, t: Sys, e: Env, ie: InEnv) returns (run: seq<Event>)
    requires Fresh(s) && t == Exec(s, before) && CanRelease(t.a) && CanRelease(t.b) && e.budget > 0 && ie.m2
    ensures |run| == 6 && var u := Exec(t, run); u.a.ep.st.TimeWait? && u.b.ep.st.Closed?
  {
    hide Act, HostOk, Link, Exec, Window, Heard;
    InvAlways(s, before);
    LevelAtRest(t.a, t.b);
    LevelAtRest(t.b, t.a);
    OpenHearsOpen(t.b, t.a);
    var e1 := Event(true, DoShutdown(1, e));
    var f1 := ShutdownSends(t.a, t.b.wire, e);
    var t1 := Step(t, e1);
    InvStep(t, e1);
    var e2 := Event(false, Deliver(f1, ie));
    var a1 := FinDelivered(t1.b, t1.a, f1, ie);
    var t2 := Step(t1, e2);
    InvStep(t1, e2);
    var e3 := Event(true, Deliver(a1, ie));
    NothingBeyond(t2.a);
    WindowOfState(t.a.ep.rcv, t.a.ep.st, t2.a.ep.st);
    OpenHears(t2.a, t2.b);
    FinAcked(t2.a, t2.b, a1, ie);
    var t3 := Step(t2, e3);
    InvStep(t2, e3);
    WindowOfState(t2.a.ep.rcv, t2.a.ep.st, t3.a.ep.st);
    var rest := CloseOther(t3, e, ie);
    ExecThree(t, e1, e2, e3);
    ExecThen(t, [e1, e2, e3], rest);
    run := [e1, e2, e3] + rest;
  }

  lemma OpenHears(h: Host, g: Host)
    requires Link(g, h)
    ensures Heard(h, g)
  {
  }

  /** The second half: the other end closes too. */
  lemma {:induction false} CloseOther(t: Sys, e: Env, ie: InEnv) returns (run: seq<Event>)
    requires Inv(t) && t.a.ep.st.FinWait2? && t.a.ep.sock && Offers(t.a.ep) && t.a.ep.snd.una == t.a.ep.snd.write == t.a.ep.snd.nxt
    requires t.b.ep.st.CloseWait? && t.b.ep.sock && AtRest(t.b.ep.snd) && e.budget > 0 && ie.m2
    ensures |run| == 3 && var u := Exec(t, run); u.a.ep.st.TimeWait? && u.b.ep.st.Closed?
  {
    hide Act, HostOk, Link, Exec, Window;
    LevelAtRest(t.a, t.b);
    LevelAtRest(t.b, t.a);
    var e4 := Event(false, DoShutdown(1, e));
    var f2 := ShutdownSends(t.b, t.a.wire, e);
    var t4 := Step(t, e4);
    InvStep(t, e4);
    var e5 := Event(true, Deliver(f2, ie));
    var a2 := FinDelivered(t4.a, t4.b, f2, ie);
    var t5 := Step(t4, e5);
    InvStep(t4, e5);
    NothingBeyond(t5.b);
    LastAcked(t5.b, t5.a, a2, ie);
    run := [e4, e5, Event(false, Deliver(a2, ie))];
    ExecThree(t, e4, e5, run[2]);
  }
}
