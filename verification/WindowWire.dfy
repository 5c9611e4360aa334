/** If the layers below refuse nothing, the windows a host computes are those it puts on the wire. */
module WindowWire {
  import opened TcpTypes
  import opened TcpSend
  import opened SendFacts
  import opened TcpRecv
  import opened TcpEndpoint
  import opened EndpointFacts
  import opened TcpSystem
  import opened SystemFacts
  import opened RunTheorems
  import opened WindowFacts
  import opened WindowRuns

  // ---------------------------------------------------------------- nothing is handed down in vain

  /** A segment that is handed down goes out; it may still find no memory. */
  predicate Willing(e: Env) { !e.failure.Refused? }

  lemma {:induction false} SegSends(s: Snd, k: nat, n: nat, w1: int, w2: int, o: Outcome)
    requires k < |s.q| && !o.Refused?
    ensures Loud(SndSeg(s, k, n, w1, w2, o).0) ==> |SndSeg(s, k, n, w1, w2, o).0.out| > 0
  {
    hide Padded, Appended, Outside;
  }

  lemma {:induction false} SendFromSends(s: Snd, k: nat, wndnxt: int, budget: nat, failure: Outcome)
    requires !failure.Refused?
    ensures var r := SendFrom(s, k, wndnxt, budget, failure); Loud(r) ==> |r.out| > 0
    decreases |s.q| - k
  {
    hide SndSeg;
    if k < |s.q| && (s.q[k].End() <= wndnxt || (s.nxt < wndnxt && 2 * (wndnxt - s.nxt) > s.wndmax)) {
      var o := if budget > 0 then Sent else failure;
      SegSends(s, k, 0, s.nxt, wndnxt, o);
      UnpaddedKeeps(s, k, s.nxt, wndnxt, o);
      var (r, ok) := SendOne(s, k, wndnxt, o);
      if ok { SendFromSends(r.s, k + 1, wndnxt, if budget > 0 then budget - 1 else 0, failure); }
    }
  }

  lemma {:induction false} HeadSends(s: Snd, e: Env)
    requires Willing(e)
    ensures Loud(SndHead(s, e)) ==> |SndHead(s, e).out| > 0
  {
    hide SendFrom;
    SendFromSends(s, FirstPast(s.q, s.nxt), s.wndack + Min(s.wnd, SendLimit(s, e)), e.budget, e.failure);
  }

  lemma {:induction false} AgainSends(s: Snd, e: Env)
    requires Willing(e)
    ensures Loud(Retransmit(s, e)) ==> |Retransmit(s, e).out| > 0
    ensures Loud(Resend(s, e)) ==> |Resend(s, e).out| > 0
  {
    hide SndSeg;
    var s1 := Backed(s.(nretrans := s.nretrans + 1));
    var o := if e.budget > 0 then Sent else e.failure;
    if |s.q| > 0 { SegSends(s1, 0, s1.nretrans, s.una, s.nxt, o); }
    if s.dupacks >= DUP_THRESHOLD && s.dupacks - DUP_THRESHOLD < |s.q| {
      var k := s.dupacks - DUP_THRESHOLD;
      SegSends(s, k, if k == 0 then s.nretrans else 0, s.una, s.nxt, o);
    }
  }

  lemma {:induction false} OutputSends(s: Snd, ev: OEvent, e: Env)
    requires Willing(e) && Loud(Output(s, ev, e))
    ensures |Output(s, ev, e).out| > 0
  {
    hide SndHead, Retransmit, Resend, DropData;
    HeadSends(s, e);
    HeadSends(SlowStart(s), e);
    HeadSends(SlowStart(DropData(s)), e);
    HeadSends(s.(wndmax := s.wnd), e);
    AgainSends(s, e);
    AgainSends(s.(ostate := Retrans, dupacks := if s.dupacks >= DUP_THRESHOLD then DUP_THRESHOLD - 1 else s.dupacks), e);
  }

  // ---------------------------------------------------------------- acknowledgments

  /** Some packet carries this window. */
  ghost predicate Carries(out: seq<Packet>, window: int) { exists i :: 0 <= i < |out| && out[i].window == window }

  lemma {:induction false} ApplySends(ep: Endpoint, r: SndRes)
    ensures |r.out| > 0 ==> Carries(Apply(ep, r).out, Window(ep.rcv, ep.st))
    ensures !Loud(r) && !r.dead ==> Apply(ep, r).ep.rcv == ep.rcv && Apply(ep, r).ep.st == ep.st
  {
    hide Window;
    if |r.out| > 0 { assert Apply(ep, r).out[0].window == Window(ep.rcv, ep.st); }
  }

  lemma {:induction false} CarriesMore(a: seq<Packet>, b: seq<Packet>, window: int)
    ensures Carries(a, window) || Carries(b, window) ==> Carries(a + b, window)
  {
    if i :| 0 <= i < |a| && a[i].window == window { assert (a + b)[i] == a[i]; }
    if i :| 0 <= i < |b| && b[i].window == window { assert (a + b)[|a| + i] == b[i]; }
  }

  lemma {:induction false} NumberSends(ep: Endpoint, p: Packet, oldWnd: int, ie: InEnv)
    requires Willing(ie.e1) && ep.st.Synchronised() && AckNumber(ep, p, oldWnd, ie).ep.st == ep.st
    ensures AckNumberAsks(ep, p, oldWnd, ie) ==> Carries(AckNumber(ep, p, oldWnd, ie).out, Window(ep.rcv, ep.st))
    ensures !AckNumberAsks(ep, p, oldWnd, ie) ==> AckNumber(ep, p, oldWnd, ie).ep.rcv == ep.rcv
  {
    hide Output, Window, Apply, Carries, Record;
    var s := ep.snd;
    if p.ackno > s.max {
      RefusalSends(ep, p, ie.m1);
    } else if s.una < p.ackno {
      var r := Output(s.(una := p.ackno), AckRcvd, ie.e1);
      ApplySends(ep, r);
      ApplyDies(ep, r);
      if Loud(r) { OutputSends(s.(una := p.ackno), AckRcvd, ie.e1); }
    } else {
      var r := Output(s.(dupacks := s.dupacks + 1), DupAck, ie.e1);
      ApplySends(ep, r);
      ApplyDies(ep, r);
      if Loud(r) { OutputSends(s.(dupacks := s.dupacks + 1), DupAck, ie.e1); }
    }
  }

  lemma {:induction false} ApplyDies(ep: Endpoint, r: SndRes)
    ensures r.dead ==> Apply(ep, r).ep.st.Closed?
  {
    hide Window, Record;
  }

  lemma {:induction false} RefusalSends(ep: Endpoint, p: Packet, m: bool)
    ensures !p.rst && m ==> Carries(SndAck(ep, p, m).out, Window(ep.rcv, ep.st))
    ensures p.rst || !m ==> SndAck(ep, p, m).ep == ep
  {
    hide Window, Record;
    if !p.rst && m { assert SndAck(ep, p, m).out[0].window == Window(ep.rcv, ep.st); }
  }

  lemma {:induction false} AckSends(ep: Endpoint, p: Packet, update: bool, ie: InEnv)
    requires Willing(ie.e1) && Willing(ie.e2) && ep.st.Synchronised() && TakeAck(ep, p, update, ie).ep.st == ep.st
    requires TakeAckAsks(ep, p, update, ie)
    ensures Carries(TakeAck(ep, p, update, ie).out, Window(ep.rcv, ep.st))
  {
    hide Output, Window, Apply, Carries, AckNumber, AckNumberAsks, Record;
    var u := if update then SndWnd(ep.snd, p) else Stale;
    var ep1 := if u.Update? then ep.(snd := u.s) else ep;
    var r := AckNumber(ep1, p, ep.snd.wnd, ie);
    if u.Update? {
      var x := Output(r.ep.snd, u.ev, ie.e2);
      var f := Apply(r.ep, x);
      ApplyKeepsState(r.ep, x);
      ApplyDies(r.ep, x);
      NumberKeepsOrCloses(ep1, p, ep.snd.wnd, ie);
      NumberSends(ep1, p, ep.snd.wnd, ie);
      ApplySends(r.ep, x);
      if Loud(x) { OutputSends(r.ep.snd, u.ev, ie.e2); }
      CarriesMore(r.out, f.out, Window(ep.rcv, ep.st));
    } else {
      NumberSends(ep1, p, ep.snd.wnd, ie);
    }
  }

  lemma {:induction false} ApplyKeepsState(ep: Endpoint, r: SndRes)
    ensures Apply(ep, r).ep.st == ep.st || Apply(ep, r).ep.st.Closed?
  {
    hide Window, Record;
  }

  lemma {:induction false} NumberKeepsOrCloses(ep: Endpoint, p: Packet, oldWnd: int, ie: InEnv)
    ensures var st := AckNumber(ep, p, oldWnd, ie).ep.st; st == ep.st || st.Closed?
  {
    hide Output, Window, Record;
  }

  // ---------------------------------------------------------------- arrivals

  lemma {:induction false} DataSends(ep: Endpoint, p: Packet, ie: InEnv)
    requires TakeDataAsks(ep, p, ie)
    ensures Carries(TakeData(ep, p, ie).out, Window(Receive(ep.rcv, p), ep.st))
  {
    hide Receive, AckNow, Window, Record;
    assert TakeData(ep, p, ie).out[0].window == Window(Receive(ep.rcv, p), ep.st);
  }

  /** What the two parts of a handler send, the handler sends. */
  lemma {:induction false} HandlerSends(ep: Endpoint, p: Packet, ie: InEnv, window: int)
    requires ep.st.Synchronised() && Heeds(ep, p)
    ensures p.ack && Carries(TakeAck(ep, p, Updates(ep.st), ie).out, window) ==> Carries(Dispatch(ep, p, ie).out, window)
    ensures LooksAtData(ep, p) && Carries(TakeData(Afterwards(ep, p, Updates(ep.st), ie), p, ie).out, window) ==> Carries(Dispatch(ep, p, ie).out, window)
  {
    hide TakeAck, TakeData, Carries;
    CarriesMore(TakeAck(ep, p, Updates(ep.st), ie).out, TakeData(Afterwards(ep, p, Updates(ep.st), ie), p, ie).out, window);
  }

  lemma {:induction false} HandlingSends(ep: Endpoint, p: Packet, ie: InEnv, str: seq<Byte>, closed: bool)
    requires EpOk(ep, str, closed) && ep.st.Synchronised() && Willing(ie.e1) && Willing(ie.e2) && TooWide(Handling(ep, p, ie))
    ensures exists i :: 0 <= i < |Dispatch(ep, p, ie).out| && Dispatch(ep, p, ie).out[i].window > MAX_SPACE
  {
    hide TakeAck, TakeAckAsks, TakeDataAsks, Heeds, LooksAtData, Receive, EpOk, TooWide, Window, Dispatch, TakeData;
    var later := Afterwards(ep, p, Updates(ep.st), ie);
    var b, c := Heeds(ep, p) && TakeAckAsks(ep, p, Updates(ep.st), ie), LooksAtData(ep, p) && TakeDataAsks(later, p, ie);
    TooWideParts(b, ep.rcv, ep.st, One(c, Receive(later.rcv, p), later.st));
    TooWideParts(c, Receive(later.rcv, p), later.st, []);
    TakeAckCarries(ep, p, Updates(ep.st), ie, str, closed);
    DataLooksAtAck(ep, p);
    AsksMeansAck(ep, p, Updates(ep.st), ie);
    if b && Window(ep.rcv, ep.st) > MAX_SPACE {
      AckSends(ep, p, Updates(ep.st), ie);
      HandlerSends(ep, p, ie, Window(ep.rcv, ep.st));
    } else {
      DataSends(later, p, ie);
      HandlerSends(ep, p, ie, Window(Receive(later.rcv, p), later.st));
    }
  }

  lemma {:induction false} AsksMeansAck(ep: Endpoint, p: Packet, update: bool, ie: InEnv)
    ensures TakeAckAsks(ep, p, update, ie) ==> p.ack
  {
  }

  lemma {:induction false} ArrivingSends(h: Host, k: Packet, ie: InEnv)
    requires HostOk(h) && h.ep.st.Synchronised() && Willing(ie.e1) && Willing(ie.e2) && TooWide(Arriving(h.ep, k, ie))
    ensures exists i :: 0 <= i < |Input(h.ep, k, ie).out| && Input(h.ep, k, ie).out[i].window > MAX_SPACE
  {
    hide Handling, Dispatch, Window, Check, SndAck, TooWide, EpOk;
    var v := Check(h.ep.rcv, h.ep.st, k);
    if v.ok {
      HandlingSends(h.ep, v.p, ie, h.sent, h.closed);
      var r := Dispatch(h.ep, v.p, ie);
      var i :| 0 <= i < |r.out| && r.out[i].window > MAX_SPACE;
      assert Input(h.ep, k, ie).out[i].window > MAX_SPACE;
    } else {
      TooWideParts(!k.rst && ie.m1, h.ep.rcv, h.ep.st, []);
      RefusalSends(h.ep, k, ie.m1);
      var i :| 0 <= i < |SndAck(h.ep, k, ie.m1).out| && SndAck(h.ep, k, ie.m1).out[i].window == Window(h.ep.rcv, h.ep.st);
      assert Input(h.ep, k, ie).out[i].window > MAX_SPACE;
    }
  }

  // ---------------------------------------------------------------- every action

  /** Nothing that the action hands down is refused. */
  predicate WillingAct(a: Action) {
    match a
    case DoConnect(_, e) => Willing(e)
    case Deliver(_, ie) => Willing(ie.e1) && Willing(ie.e2)
    case DoWrite(_, _, e) => Willing(e)
    case TimerExpires(e) => Willing(e)
    case DoShutdown(_, e) => Willing(e)
    case DoDetach(_, e, _) => Willing(e)
    case _ => true
  }

  /** A packet on the wire whose window does not fit. */
  ghost predicate Oversized(h: Host) { exists p :: p in h.wire && p.window > MAX_SPACE }

  lemma {:induction false} TookOversized(h: Host, r: Res, window: int)
    requires Carries(r.out, window) && window > MAX_SPACE
    ensures Oversized(Took(h, r))
  {
    var i :| 0 <= i < |r.out| && r.out[i].window == window;
    assert r.out[i] in Took(h, r).wire;
  }

  lemma {:induction false} QueuedSends(ep: Endpoint, q: Queued, e: Env)
    requires Willing(e) && QueuedAsks(q, e)
    ensures Carries(SendQueued(ep, q, e).out, Window(ep.rcv, ep.st))
  {
    hide Output, Apply, Window, Carries;
    OutputSends(q.s, Send, e);
    ApplySends(ep.(snd := q.s), Output(q.s, Send, e));
  }

  lemma {:induction false} ClosingSends(ep: Endpoint, mem: nat, e: Env)
    requires Willing(e) && TooWide(ClosingCalls(ep, mem, e))
    ensures exists w :: w > MAX_SPACE && Carries(Shutdown(ep, mem, e).out, w)
  {
    hide Queue, Window, Carries, SendQueued, TooWide, QueuedAsks;
    var ep1 := ep.(st := ClosingState(ep.st));
    var q := Queue(ep1, [], Ask(false, true, true), mem);
    TooWideParts(ep1.st != ep.st && QueuedAsks(q, e), ep.rcv, ep1.st, []);
    QueuedSends(ep1, q, e);
    assert Carries(Shutdown(ep, mem, e).out, Window(ep1.rcv, ep1.st));
  }

  lemma {:induction false} EmptyingSends(ep: Endpoint, m: bool)
    requires TooWide(EmptyingCalls(ep, m))
    ensures exists w :: w > MAX_SPACE && Carries(Discard(ep, m).out, w)
  {
    hide Drop, MarkAll, AnnounceWindow, Window, TooWide;
    var ep1 := Emptied(ep);
    TooWideParts(AnnounceWindow(ep1.rcv, ep.st) && m, ep1.rcv, ep.st, []);
    assert Discard(ep, m).out[0].window == Window(ep1.rcv, ep1.st);
    assert Carries(Discard(ep, m).out, Window(ep1.rcv, ep1.st));
  }

  lemma {:induction false} CloseSends(h: Host, wire: set<Packet>, a: Action)
    requires (a.DoShutdown? || a.DoDetach?) && WillingAct(a) && TooWide(Calls(h, wire, a))
    ensures Oversized(Act(h, wire, a))
  {
    hide Shutdown, Discard, ClosingCalls, EmptyingCalls, Carries, TooWide, Oversized;
    NoCalls();
    match a
    case DoShutdown(mem, e) =>
      ClosingSends(h.ep, mem, e);
      var w :| w > MAX_SPACE && Carries(Shutdown(h.ep, mem, e).out, w);
      TookOversized(h, Shutdown(h.ep, mem, e), w);
      NotedOversized(h, Took(h, Shutdown(h.ep, mem, e)), mem);
    case DoDetach(mem, e, m) =>
      var r := Shutdown(h.ep, mem, e);
      TooWideBoth(ClosingCalls(h.ep, mem, e), EmptyingCalls(r.ep, m));
      if TooWide(ClosingCalls(h.ep, mem, e)) { ClosingSends(h.ep, mem, e); } else { EmptyingSends(r.ep, m); }
      var w :| w > MAX_SPACE && (Carries(r.out, w) || Carries(Discard(r.ep, m).out, w));
      CarriesMore(r.out, Discard(r.ep, m).out, w);
      TookOversized(h, Detach(h.ep, mem, e, m), w);
      NotedOversized(h, Took(h, Detach(h.ep, mem, e, m)), mem);
  }

  lemma {:induction false} NotedOversized(h: Host, h': Host, mem: nat)
    ensures Oversized(NoteFin(h, h', mem)) <==> Oversized(h')
  {
    hide FinQueued;
  }

  lemma {:induction false} TooWideBoth(a: seq<Call>, b: seq<Call>)
    ensures TooWide(a + b) ==> TooWide(a) || TooWide(b)
  {
    hide Window;
    if i :| 0 <= i < |a + b| && Window((a + b)[i].r, (a + b)[i].st) > MAX_SPACE {
      if i < |a| { assert a[i] == (a + b)[i]; } else { assert b[i - |a|] == (a + b)[i]; }
    }
  }

  lemma {:induction false} DeliverSends(h: Host, wire: set<Packet>, p: Packet, ie: InEnv)
    requires HostOk(h) && WillingAct(Deliver(p, ie)) && TooWide(Calls(h, wire, Deliver(p, ie)))
    ensures Oversized(Act(h, wire, Deliver(p, ie)))
  {
    hide Input, Arriving, TooWide, HostOk;
    NoCalls();
    ArrivingSends(h, Cut(p), ie);
    var r := Input(h.ep, Cut(p), ie);
    var i :| 0 <= i < |r.out| && r.out[i].window > MAX_SPACE;
    assert Carries(r.out, r.out[i].window);
    TookOversized(h, r, r.out[i].window);
  }

  lemma {:induction false} RestSends(h: Host, wire: set<Packet>, a: Action)
    requires !a.Deliver? && !a.DoShutdown? && !a.DoDetach? && WillingAct(a) && TooWide(Calls(h, wire, a))
    ensures Oversized(Act(h, wire, a))
  {
    hide ReadCall, Readable, AnnounceWindow, Window, Write, QueuedAsks, SendQueued, TimerFires, Apply, TooWide, Oversized, Carries, Record;
    var ep := h.ep;
    NoCalls();
    match a
    case DoWrite(data, mem, e) =>
      var q := Write(ep, data, mem);
      TooWideParts(ep.sock && ep.st.Connected() && QueuedAsks(q, e), ep.rcv, ep.st, []);
      QueuedSends(ep, q, e);
      TookOversized(h, SendQueued(ep, q, e), Window(ep.rcv, ep.st));
      SameWire(Took(h, SendQueued(ep, q, e)), Act(h, wire, a));
    case DoRead(size, m) =>
      var r := ReadCall(ep.rcv, size).r;
      TooWideParts(ep.sock && size > 0 && Readable(ep.rcv) && AnnounceWindow(r, ep.st) && m, r, ep.st, []);
      AckCarries(ep.(rcv := r));
      TookOversized(h, PureAck(ep.(rcv := r), m), Window(r, ep.st));
      SameWire(Took(h, PureAck(ep.(rcv := r), m)), Act(h, wire, a));
    case TimerExpires(e) =>
      var x := TimerFires(ep.snd, e);
      TooWideParts(ep.snd.timer && Loud(x), ep.rcv, ep.st, []);
      TimerSends(ep.snd, e);
      ApplySends(ep, x);
      TookOversized(h, Apply(ep, x), Window(ep.rcv, ep.st));
    case DelayedAck(m) =>
      TooWideParts(ep.delack && !ep.st.TimeWait? && m, ep.rcv, ep.st, []);
      AckCarries(ep);
      TookOversized(h, PureAck(ep, m), Window(ep.rcv, ep.st));
    case _ =>
  }

  lemma {:induction false} TimerSends(s: Snd, e: Env)
    requires Willing(e) && Loud(TimerFires(s, e))
    ensures |TimerFires(s, e).out| > 0
  {
    hide Output;
    OutputSends(s.(timer := false), Timeout, e);
  }

  lemma {:induction false} AckCarries(ep: Endpoint)
    ensures Carries(PureAck(ep, true).out, Window(ep.rcv, ep.st))
  {
    hide Window, Record;
    assert PureAck(ep, true).out[0].window == Window(ep.rcv, ep.st);
  }

  lemma {:induction false} SameWire(h: Host, h': Host)
    requires h'.wire == h.wire
    ensures Oversized(h) ==> Oversized(h')
  {
  }

  /** What is computed too wide goes out too wide. */
  lemma {:induction false} ActSends(h: Host, wire: set<Packet>, a: Action)
    requires HostOk(h) && WillingAct(a) && TooWide(Calls(h, wire, a))
    ensures Oversized(Act(h, wire, a))
  {
    hide Act, Calls, HostOk, TooWide, Oversized;
    if a.Deliver? { DeliverSends(h, wire, a.p, a.ie); }
    else if a.DoShutdown? || a.DoDetach? { CloseSends(h, wire, a); }
    else { RestSends(h, wire, a); }
  }

  // ---------------------------------------------------------------- every run

  lemma {:induction false} ActKeepsWire(h: Host, wire: set<Packet>, a: Action)
    ensures h.wire <= Act(h, wire, a).wire
  {
    hide Input, Connect, SendQueued, Write, ReadCall, Readable, AnnounceRead, Apply, TimerFires, PureAck, Shutdown, Detach, FinQueued;
  }

  lemma {:induction false} WireGrows(s: Sys, run: seq<Event>, k: nat)
    requires k <= |run|
    ensures StateAt(s, run, k).a.wire <= Exec(s, run).a.wire
    decreases |run| - k
  {
    hide Act;
    if k < |run| {
      OneMore(s, run, k);
      var y := StateAt(s, run, k);
      if run[k].atA { ActKeepsWire(y.a, y.b.wire, run[k].act); }
      WireGrows(s, run, k + 1);
    } else {
      assert run[..k] == run;
    }
  }

  lemma {:induction false} StepSends(s: Sys, run: seq<Event>, k: nat)
    requires Fresh(s) && k < |run| && WillingAct(run[k].act) && TooWide(CallsAt(s, run, k))
    ensures Oversized(Exec(s, run).a)
  {
    hide Act, Calls, TooWide, HostOk, Link, Exec;
    NoCalls();
    InvAlways(s, run[..k]);
    OneMore(s, run, k);
    var y := StateAt(s, run, k);
    ActSends(y.a, y.b.wire, run[k].act);
    WireGrows(s, run, k + 1);
    var p :| p in StateAt(s, run, k + 1).a.wire && p.window > MAX_SPACE;
    assert p in Exec(s, run).a.wire;
  }

  /**
   * In a run in which nothing handed down is refused, a window that does not fit its field is ever on the wire
   * if and only if one is ever computed while the counter leaves more room than the field can tell.
   */
  lemma {:induction false} OversizedIffStrained(s: Sys, run: seq<Event>)
    requires Fresh(s) && forall k :: 0 <= k < |run| ==> WillingAct(run[k].act)
    ensures Oversized(Exec(s, run).a) <==> (exists k: nat :: k < |run| && Strained(CallsAt(s, run, k)))
  {
    hide CallsAt, TooWide, Strained, Exec;
    if n: nat :| n < |run| && Strained(CallsAt(s, run, n)) {
      var k := FirstStrained(s, run, n);
      EventFits(s, run, k);
      StepSends(s, run, k);
    } else {
      WindowsFit(s, run);
    }
  }
}
