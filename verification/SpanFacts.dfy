/** When the byte counter of the receive queue is right, over whole runs, and what that means for the window. */
module SpanFacts {
  import opened TcpTypes
  import opened Stream
  import opened TcpSend
  import opened SendFacts
  import opened RecvQueue
  import opened TcpRecv
  import opened ReceiveFacts
  import opened TcpEndpoint
  import opened EndpointFacts
  import opened TcpSystem
  import opened SystemFacts
  import opened RunFacts
  import opened OpenFacts
  import opened UserFacts
  import opened RunTheorems
  import opened WindowFacts
  import opened WindowRuns

  /** The counter is the sequence space between the ends of the queue. */
  predicate Exact(r: Rcv) { r.cur == Span(r.q) && 0 <= r.cur }

  /** The queue and its counter are the same, or both have been flushed. */
  predicate Kept(r: Rcv, r': Rcv) { (r'.q == r.q && r'.cur == r.cur) || (r'.q == [] && r'.cur == 0) }

  lemma {:induction false} KeptExact(r: Rcv, r': Rcv)
    requires Exact(r) && Kept(r, r')
    ensures Exact(r')
  {
  }

  // ---------------------------------------------------------------- actions that do not touch the queue

  lemma {:induction false} ApplyKept(ep: Endpoint, r: SndRes)
    ensures Kept(ep.rcv, Apply(ep, r).ep.rcv)
  {
  }

  lemma {:induction false} SendQueuedKept(ep: Endpoint, q: Queued, e: Env)
    ensures Kept(ep.rcv, SendQueued(ep, q, e).ep.rcv)
  {
    ApplyKept(ep.(snd := q.s), Output(q.s, Send, e));
  }

  lemma {:induction false} ShutdownKept(ep: Endpoint, mem: nat, e: Env)
    ensures Kept(ep.rcv, Shutdown(ep, mem, e).ep.rcv)
  {
    var ep1 := ep.(st := ClosingState(ep.st));
    SendQueuedKept(ep1, Queue(ep1, [], Ask(false, true, true), mem), e);
  }

  lemma {:induction false} ConnectKept(h: Host, rmss: int, e: Env, peer: set<Packet>)
    ensures Kept(h.ep.rcv, Act(h, peer, DoConnect(rmss, e)).ep.rcv)
  {
    hide Output, Apply, Enqueue, Queue;
    var ep1 := h.ep.(snd := h.ep.snd.(wnd := WINDOW_FOR_SYN), rcv := h.ep.rcv.(mss := Max(32, rmss)));
    SendQueuedKept(ep1, Queue(ep1, [], Ask(true, false, false), 1), e);
  }

  lemma {:induction false} WriteKept(h: Host, data: seq<Byte>, mem: nat, e: Env, peer: set<Packet>)
    ensures Kept(h.ep.rcv, Act(h, peer, DoWrite(data, mem, e)).ep.rcv)
  {
    hide Output, Apply, Enqueue, Queue, Write;
    SendQueuedKept(h.ep, Write(h.ep, data, mem), e);
  }

  lemma {:induction false} TimersKept(h: Host, a: Action, peer: set<Packet>)
    requires a.TimerExpires? || a.DelayedAck? || a.DeleteTimer? || a.SetRcvBuf? || a.DoListen? || a.DoShutdown?
    ensures Kept(h.ep.rcv, Act(h, peer, a).ep.rcv)
  {
    hide Output, Apply, Shutdown, TimerFires;
    match a
    case TimerExpires(e) => ApplyKept(h.ep, TimerFires(h.ep.snd, e));
    case DoShutdown(mem, e) => ShutdownKept(h.ep, mem, e);
    case _ =>
  }

  // ---------------------------------------------------------------- reading and closing

  lemma {:induction false} ReadExact(r: Rcv, size: nat, base: int, str: seq<Byte>, closed: bool)
    requires Exact(r) && Agrees(r, base, str, closed)
    ensures Exact(ReadCall(r, size).r)
  {
    ReadCallFollowsStream(r, size, base, str, closed);
    var res := ReadCall(r, size);
    NormalSpan(res.r.q);
    if size > 0 && Readable(r) { ReadKeepsCount(r, size); }
  }

  lemma {:induction false} NormalSpan(q: seq<Seg>)
    requires Normal(q)
    ensures 0 <= Span(q)
  {
    if |q| > 0 { assert q[0].End() <= q[|q| - 1].End(); }
  }

  lemma {:induction false} ReadKeepsCount(r: Rcv, size: nat)
    requires r.cur == Span(r.q) && Normal(r.q) && size > 0 && Readable(r)
    ensures ReadCall(r, size).r.cur == Span(ReadCall(r, size).r.q)
  {
    hide Normal, MarkUsed, CopyFrom, SkipUsed, Span, Drop;
    var (x, k) := SkipUsed(r.q, HighCut(r.q, r.read), r.read);
    var c := CopyFrom(r.q, k, x, size);
    MarkKeepsSpan(r.q, k, c.read);
    DropTracksSpan(MarkUsed(r.q, k, c.read), r.cur, c.read);
  }

  lemma {:induction false} MarkKeepsSpan(q: seq<Seg>, k: nat, read: int)
    requires Normal(q)
    ensures Span(MarkUsed(q, k, read)) == Span(q)
  {
    var q' := MarkUsed(q, k, read);
    assert SameRanges(q, q');
    SameRangesSameSpan(q, q');
  }

  lemma {:induction false} ReadActExact(h: Host, g: Host, size: nat, m: bool)
    requires HostOk(h) && Heard(h, g) && Exact(h.ep.rcv)
    ensures Exact(Act(h, g.wire, DoRead(size, m)).ep.rcv)
  {
    hide ReadCall, Normal, InStream, Readable;
    if h.ep.sock && h.ep.st.Synchronised() && size > 0 && Readable(h.ep.rcv) {
      ReadExact(h.ep.rcv, size, g.isn + 1, Shown(g), FinShown(g));
    }
  }

  lemma {:induction false} DiscardExact(ep: Endpoint, m: bool)
    requires Exact(ep.rcv)
    ensures Exact(Discard(ep, m).ep.rcv)
  {
    var q := MarkAll(ep.rcv.q);
    if |q| > 0 { DropToEmpty(q, ep.rcv.cur, ep.rcv.nxt); }
  }

  lemma {:induction false} DetachExact(h: Host, mem: nat, e: Env, m: bool, peer: set<Packet>)
    requires Exact(h.ep.rcv)
    ensures Exact(Act(h, peer, DoDetach(mem, e, m)).ep.rcv)
  {
    hide Shutdown, Discard, Apply;
    ShutdownKept(h.ep, mem, e);
    KeptExact(h.ep.rcv, Shutdown(h.ep, mem, e).ep.rcv);
    DiscardExact(Shutdown(h.ep, mem, e).ep, m);
  }

  // ---------------------------------------------------------------- arrivals

  /** Taking a segment in keeps the counter right unless it grows both ends. */
  lemma {:induction false} ReceiveExact(r: Rcv, p: Packet)
    requires Exact(r) && Normal(r.q) && !GrowsBothEnds(r.q, Payload(p))
    ensures Exact(Receive(r, p))
  {
    CountTracksSpan(r.q, r.cur, Payload(p));
    InsertKeepsNormal(r.q, Payload(p));
    NormalSpan(Insert(r.q, Payload(p)));
  }

  lemma {:induction false} EmptyReceiveExact(r: Rcv, p: Packet)
    requires Exact(r) && |p.data| == 0
    ensures Exact(Receive(r, p))
  {
    assert Redundant(r.q, Payload(p));
  }

  /** Data that nobody can read is refused before it reaches the queue. */
  lemma {:induction false} UnreadableKept(ep: Endpoint, p: Packet, ie: InEnv)
    requires !ep.sock && |p.data| > 0 && ep.st.Synchronised()
    requires !ep.st.SynRcvd? && !ep.st.Established? && !ep.st.CloseWait?
    ensures Kept(ep.rcv, Dispatch(ep, p, ie).ep.rcv)
  {
    hide TakeAck, TakeData, Receive;
    assert Fatal(ep, p);
  }

  /** A segment whose payload is not taken in leaves the queue alone, or flushes it with the connection. */
  lemma {:induction false} NotTakenKept(ep: Endpoint, p: Packet, ie: InEnv, str: seq<Byte>, closed: bool)
    requires EpOk(ep, str, closed) && ep.st.Synchronised() && !TakesData(ep, p) && (ep.st.TimeWait? ==> Fatal(ep, p))
    ensures Kept(ep.rcv, Dispatch(ep, p, ie).ep.rcv)
  {
    hide TakeAck, TakeData, EpOk;
    TakeAckCarries(ep, p, ep.st.CloseWait?, ie, str, closed);
  }

  /** While the peer's FIN has been consumed no payload is acceptable. */
  lemma {:induction false} NothingAfterFin(h: Host, g: Host, p: Packet)
    requires HostOk(h) && Heard(h, g) && h.ep.st.TimeWait? && Genuine(p, g.isn + 1, Shown(g), FinShown(g)) && !p.syn
    requires p.Len() > 0 ==> h.ep.rcv.nxt <= p.seqno + |p.data|
    ensures |p.data| == 0
  {
  }

  lemma {:induction false} AcceptedExact(h: Host, g: Host, k: Packet, ie: InEnv)
    requires HostOk(h) && Heard(h, g) && OnWire(k, g, h) && Exact(h.ep.rcv)
    requires h.ep.st.Synchronised() && Check(h.ep.rcv, h.ep.st, k).ok
    requires var p := Check(h.ep.rcv, h.ep.st, k).p; TakesData(h.ep, p) ==> !GrowsBothEnds(h.ep.rcv.q, Payload(p))
    ensures Exact(Dispatch(h.ep, Check(h.ep.rcv, h.ep.st, k).p, ie).ep.rcv)
  {
    hide QueueOk, InStream, Dispatch, Check, Normal, GrowsBothEnds, EpOk;
    var p := Check(h.ep.rcv, h.ep.st, k).p;
    if GrowsBothEnds(h.ep.rcv.q, Payload(p)) {
      BothEndsHaveData(h.ep.rcv, p);
      CheckKeepsAck(h.ep.rcv, h.ep.st, k);
      if h.ep.st.TimeWait? && !k.rst {
        AcceptedIsGenuine(h, g, k);
        NothingAfterFin(h, g, p);
      }
      NotTakenKept(h.ep, p, ie, h.sent, h.closed);
      KeptExact(h.ep.rcv, Dispatch(h.ep, p, ie).ep.rcv);
    } else {
      OneEndExact(h, g, k, ie);
    }
  }

  lemma {:induction false} BothEndsHaveData(r: Rcv, p: Packet)
    requires Exact(r) && GrowsBothEnds(r.q, Payload(p))
    ensures |p.data| > 0
  {
  }

  lemma {:induction false} OneEndExact(h: Host, g: Host, k: Packet, ie: InEnv)
    requires HostOk(h) && Heard(h, g) && OnWire(k, g, h) && Exact(h.ep.rcv)
    requires h.ep.st.Synchronised() && Check(h.ep.rcv, h.ep.st, k).ok
    requires !GrowsBothEnds(h.ep.rcv.q, Payload(Check(h.ep.rcv, h.ep.st, k).p))
    ensures Exact(Dispatch(h.ep, Check(h.ep.rcv, h.ep.st, k).p, ie).ep.rcv)
  {
    hide QueueOk, InStream, Dispatch, Receive, Check, Normal, GrowsBothEnds;
    var p := Check(h.ep.rcv, h.ep.st, k).p;
    CheckKeepsAck(h.ep.rcv, h.ep.st, k);
    if !k.rst {
      AcceptedIsGenuine(h, g, k);
      if h.ep.sock || |p.data| == 0 { DataHeard(h, g, p); }
    }
    if !h.ep.sock && |p.data| > 0 {
      UnreadableKept(h.ep, p, ie);
      KeptExact(h.ep.rcv, Dispatch(h.ep, p, ie).ep.rcv);
    } else {
      AcceptedHandled(h, p, ie);
      AfterStep(h, g, p, Dispatch(h.ep, p, ie));
    }
  }

  lemma {:induction false} AfterStep(h: Host, g: Host, p: Packet, r: Res)
    requires Heard(h, g) && h.ep.rcv.sync && !h.ep.st.Closed? && (h.ep.sock || |p.data| == 0) && Exact(h.ep.rcv)
    requires RcvStep(h.ep.rcv, p, r.ep.rcv, r.ep.st) && !GrowsBothEnds(h.ep.rcv.q, Payload(p))
    ensures Exact(r.ep.rcv)
  {
    hide Receive, InStream;
    if SameButWindow(Receive(h.ep.rcv, p), r.ep.rcv) {
      if h.ep.sock { ReceiveExact(h.ep.rcv, p); } else { EmptyReceiveExact(h.ep.rcv, p); }
    }
  }

  lemma {:induction false} SynExact(r: Rcv, p: Packet, mss: int)
    requires r.q == [] && Exact(r)
    ensures Exact(Receive(AtSyn(r, p, mss), p))
  {
    ReceiveExact(AtSyn(r, p, mss), p);
  }

  lemma {:induction false} ListenExact(h: Host, g: Host, p: Packet, ie: InEnv)
    requires HostOk(h) && Heard(h, g) && OnWire(p, g, h) && h.ep.st.Listen? && Exact(h.ep.rcv)
    ensures Exact(InListen(h.ep, p, ie).ep.rcv)
  {
    hide QueueOk, InStream, Receive, TakeData, SendQueued, Queue;
    if !p.rst && p.syn && !p.ack && ie.m3 {
      SynIsGenuine(p, g, h);
      ListenCarries(h.ep, p, ie, g.isn + 1, Shown(g), FinShown(g));
      SynExact(h.ep.rcv, p, Max(32, ie.rmss));
    }
  }

  lemma {:induction false} SynSentExact(h: Host, g: Host, p: Packet, ie: InEnv)
    requires HostOk(h) && Heard(h, g) && OnWire(p, g, h) && h.ep.st.SynSent? && Exact(h.ep.rcv)
    ensures Exact(InSynSent(h.ep, p, ie).ep.rcv)
  {
    hide QueueOk, InStream, Receive, SynArrived;
    if !p.rst && p.syn && (p.ack ==> h.ep.snd.isn < p.ackno <= h.ep.snd.max) {
      SynIsGenuine(p, g, h);
      SynSentCarries(h.ep, p, ie, h.sent, g.isn + 1, Shown(g), FinShown(g));
      SynExact(h.ep.rcv, p, h.ep.rcv.mss);
    }
  }

  /** If a segment arrives, is acceptable and is taken in, it does not reach past both ends of the queue. */
  predicate OneEnd(h: Host, wire: set<Packet>, a: Action) {
    a.Deliver? && a.p in wire ==>
      var v := Check(h.ep.rcv, h.ep.st, Cut(a.p));
      v.ok && TakesData(h.ep, v.p) ==> !GrowsBothEnds(h.ep.rcv.q, Payload(v.p))
  }

  lemma {:induction false} DeliverExact(h: Host, g: Host, p: Packet, ie: InEnv)
    requires HostOk(h) && Link(h, g) && Link(g, h) && Exact(h.ep.rcv) && OnWire(p, g, h)
    requires var v := Check(h.ep.rcv, h.ep.st, p); v.ok && TakesData(h.ep, v.p) ==> !GrowsBothEnds(h.ep.rcv.q, Payload(v.p))
    ensures Exact(Input(h.ep, p, ie).ep.rcv)
  {
    hide QueueOk, InStream, Receive, InListen, InSynSent, Dispatch, SndAck;
    if h.ep.st.Synchronised() {
      if Check(h.ep.rcv, h.ep.st, p).ok {
        AcceptedExact(h, g, p, ie);
      } else {
        SndAckCarries(h.ep, p, ie.m1, h.sent, h.closed, h.ep.snd.una);
      }
    } else {
      OpeningInput(h.ep, p, ie);
      if h.ep.st.Listen? { ListenExact(h, g, p, ie); }
      if h.ep.st.SynSent? { SynSentExact(h, g, p, ie); }
    }
  }

  // ---------------------------------------------------------------- runs

  lemma {:induction false} ActExact(h: Host, g: Host, a: Action)
    requires HostOk(h) && Link(h, g) && Link(g, h) && Exact(h.ep.rcv) && OneEnd(h, g.wire, a)
    ensures Exact(Act(h, g.wire, a).ep.rcv)
  {
    hide Input, ReadCall, Shutdown, Apply, Output, Exact, HostOk;
    match a
    case Deliver(p, ie) =>
      if p in g.wire {
        assert OnWire(p, g, h);
        CutOnWire(p, g, h);
        DeliverExact(h, g, Cut(p), ie);
      }
    case DoRead(size, m) => ReadActExact(h, g, size, m);
    case DoDetach(mem, e, m) => DetachExact(h, mem, e, m, g.wire);
    case DoConnect(rmss, e) =>
      ConnectKept(h, rmss, e, g.wire);
      KeptExact(h.ep.rcv, Act(h, g.wire, a).ep.rcv);
    case DoWrite(data, mem, e) =>
      WriteKept(h, data, mem, e, g.wire);
      KeptExact(h.ep.rcv, Act(h, g.wire, a).ep.rcv);
    case _ =>
      TimersKept(h, a, g.wire);
      KeptExact(h.ep.rcv, Act(h, g.wire, a).ep.rcv);
  }

  /** No segment that host `a` took in during the run grew both ends of its queue. */
  ghost predicate OneEndAlways(s: Sys, run: seq<Event>) {
    forall k :: 0 <= k < |run| && run[k].atA ==> OneEnd(StateAt(s, run, k).a, StateAt(s, run, k).b.wire, run[k].act)
  }

  /** Then the counter is the span of the queue in every state of the run. */
  lemma {:induction false} CounterIsSpan(s: Sys, run: seq<Event>, k: nat)
    requires Fresh(s) && OneEndAlways(s, run) && k <= |run|
    ensures Exact(StateAt(s, run, k).a.ep.rcv)
  {
    hide Act, Inv, OneEnd;
    if k > 0 {
      CounterIsSpan(s, run, k - 1);
      InvAlways(s, run[..k - 1]);
      OneMore(s, run, k - 1);
      SpanStep(StateAt(s, run, k - 1), run[k - 1]);
    }
  }

  lemma {:induction false} SpanStep(y: Sys, e: Event)
    requires Inv(y) && Exact(y.a.ep.rcv) && (e.atA ==> OneEnd(y.a, y.b.wire, e.act))
    ensures Exact(Step(y, e).a.ep.rcv)
  {
    hide Act, HostOk, Link, OneEnd, Exact;
    if e.atA { ActExact(y.a, y.b, e.act); }
  }

  /** And every window that host `a` ever advertised fits its 16-bit field. */
  lemma {:induction false} WindowsFitUnlessBothEndsGrow(s: Sys, run: seq<Event>)
    requires Fresh(s) && OneEndAlways(s, run)
    ensures forall p :: p in Exec(s, run).a.wire ==> 0 <= p.window <= MAX_SPACE
  {
    forall k: nat | k <= |run| ensures 0 <= StateAt(s, run, k).a.ep.rcv.cur {
      CounterIsSpan(s, run, k);
    }
    WindowsFitWhileCounted(s, run);
  }
}
