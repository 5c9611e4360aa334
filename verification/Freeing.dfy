/** What has been read is given back: no used-up segment stays in the receive queue, and the window opens again. */
module Freeing {
  import opened TcpTypes
  import opened Stream
  import opened TcpSend
  import opened RecvQueue
  import opened TcpRecv
  import opened ReceiveFacts
  import opened TcpEndpoint
  import opened EndpointFacts
  import opened TcpSystem
  import opened SystemFacts
  import opened RunFacts
  import opened RunTheorems
  import opened Acceptance
  import opened Transitions
  import opened Acknowledging

  /** Every queued segment holds something that has not been read. */
  predicate Lean(q: seq<Seg>, read: int) { forall i :: 0 <= i < |q| ==> read < q[i].End() }

  // ---------------------------------------------------------------- one read

  /** Dropping stops at the first segment that is not used up. */
  lemma {:induction false} DropsPrefix(q: seq<Seg>, m: nat, cur: int, read: int)
    requires m <= |q| && (forall i :: 0 <= i < m ==> q[i].used && q[i].End() <= read) && (m < |q| ==> !q[m].used)
    ensures var d := Drop(q, cur, read);
      && d.q == q[m..] && d.read == read
      && d.cur == if m == 0 then cur else if m == |q| then 0 else cur - (q[m].start - q[0].start)
    decreases m
  {
    if m > 0 {
      var cur' := if |q| > 1 then cur - (q[1].start - q[0].start) else 0;
      DropsPrefix(q[1..], m - 1, cur', read);
      assert q[1..][m - 1..] == q[m..];
    }
  }

  /** The cut of a queue from which everything up to `y` has been read. */
  predicate CutAt(d: Dropped, q: seq<Seg>, cur: int, y: int) {
    var m := HighCut(q, y);
    && d.q == q[m..] && d.read == y && Lean(d.q, y)
    && d.cur == if m == 0 then cur else if m == |q| then 0 else cur - (q[m].start - q[0].start)
  }

  lemma {:induction false} MarkedPrefix(q: seq<Seg>, m: nat, y: int)
    requires m <= |q| && (forall i :: 0 <= i < m ==> q[i].End() <= y) && (forall i :: m <= i < |q| ==> y < q[i].End())
    requires forall i :: 0 <= i < |q| ==> !q[i].used
    ensures var q' := MarkUsed(q, 0, y);
      && (forall i :: 0 <= i < m ==> q'[i] == q[i].(used := true)) && q'[m..] == q[m..]
  {
  }

  lemma {:induction false} MarkedIsCut(q: seq<Seg>, cur: int, y: int)
    requires Normal(q) && forall i :: 0 <= i < |q| ==> !q[i].used
    ensures CutAt(Drop(MarkUsed(q, 0, y), cur, y), q, cur, y)
  {
    hide Normal, HighCut, MarkUsed, Drop;
    var m, q' := HighCut(q, y), MarkUsed(q, 0, y);
    BeyondCut(q, y);
    MarkedPrefix(q, m, y);
    assert forall i :: 0 <= i < m ==> q'[i].used && q'[i].End() <= y;
    assert m < |q| ==> q'[m..][0] == q[m..][0];
    DropsPrefix(q', m, cur, y);
  }

  /** From a lean queue a read takes exactly the segments that it has read to their end, and leaves the others as they are. */
  lemma {:induction false} ReadFrees(r: Rcv, size: nat, base: int, str: seq<Byte>, closed: bool)
    requires Agrees(r, base, str, closed) && Lean(r.q, r.read)
    ensures var r' := ReadCall(r, size).r; CutAt(Dropped(r'.q, r'.cur, r'.read), r.q, r.cur, r'.read)
  {
    hide CopyFrom, SkipUsed, FromStream, IsEdge, Drop, MarkUsed, Normal;
    ReadCallFollowsStream(r, size, base, str, closed);
    CopyAtHead(r.q, r.read, size, r.DataNxt(), base, str);
    assert HighCut(r.q, r.read) == 0;
    MarkedIsCut(r.q, r.cur, ReadCall(r, size).r.read);
  }

  lemma BeyondCut(q: seq<Seg>, y: int)
    requires Normal(q)
    ensures forall i :: HighCut(q, y) <= i < |q| ==> y < q[i].End()
  {
    var m := HighCut(q, y);
    assert forall i :: m <= i < |q| ==> q[m].End() <= q[i].End();
  }

  // ---------------------------------------------------------------- one segment

  /** The queue and all positions stay, or the queue is flushed. */
  predicate Kept(r: Rcv, r': Rcv) { SameButWindow(r, r') || r'.q == [] }

  lemma ApplyKept(ep: Endpoint, r: SndRes)
    ensures Kept(ep.rcv, Apply(ep, r).ep.rcv)
  {
    hide Window;
  }

  lemma SendQueuedKept(ep: Endpoint, q: Queued, e: Env)
    ensures Kept(ep.rcv, SendQueued(ep, q, e).ep.rcv)
  {
    hide Apply, Output;
    ApplyKept(ep.(snd := q.s), Output(q.s, Send, e));
  }

  lemma PureAckKept(ep: Endpoint, mem: bool)
    ensures SameButWindow(ep.rcv, PureAck(ep, mem).ep.rcv)
  {
    hide Window;
  }

  lemma DataReceived(ep: Endpoint, p: Packet, ie: InEnv)
    ensures SameButWindow(Receive(ep.rcv, p), TakeData(ep, p, ie).ep.rcv)
  {
    hide Receive, AckNow, Window;
  }

  /** The states that take data in. */
  predicate TakesIn(st: State) { st.SynRcvd? || st.Established? || st.FinWait1? || st.FinWait2? }

  /** A segment that the handler does not act on leaves the queue alone or flushes it. */
  lemma {:induction false} UnheededKept(ep: Endpoint, p: Packet, ie: InEnv)
    requires ep.st.Synchronised() && (!Heeds(ep, p) || (!p.ack && TakesIn(ep.st)))
    ensures Kept(ep.rcv, Dispatch(ep, p, ie).ep.rcv)
  {
    hide TakeAck, TakeData, Receive;
  }

  lemma {:induction false} OpenTakes(ep: Endpoint, p: Packet, ie: InEnv, str: seq<Byte>, closed: bool)
    requires EpOk(ep, str, closed) && Heeds(ep, p) && p.ack
    requires TakesIn(ep.st)
    ensures SameButWindow(Receive(ep.rcv, p), Dispatch(ep, p, ie).ep.rcv)
  {
    hide EpOk, TakeAck, TakeData, Receive;
    var update := ep.st.Established? || ep.st.FinWait1?;
    AckKeepsState(ep, p, update, ie, str, closed);
    var r := TakeAck(ep, p, update, ie).ep;
    WindowDoesNotMatter(ep.rcv, r.rcv, p);
    var r1 := if ep.st.SynRcvd? then r.(st := Established, snd := r.snd.(wnd := p.window, wndseq := p.seqno, wndack := p.ackno)) else r;
    DataReceived(r1, p, ie);
  }

  lemma {:induction false} ClosedTakes(ep: Endpoint, p: Packet, ie: InEnv, str: seq<Byte>, closed: bool)
    requires EpOk(ep, str, closed) && Heeds(ep, p)
    requires ep.st.CloseWait? || ep.st.LastAck? || ep.st.Closing? || ep.st.TimeWait?
    ensures var r' := Dispatch(ep, p, ie).ep.rcv; SameButWindow(ep.rcv, r') || (ep.st.TimeWait? && SameButWindow(Receive(ep.rcv, p), r'))
  {
    hide EpOk, TakeAck, TakeData, Receive;
    AckKeepsState(ep, p, ep.st.CloseWait?, ie, str, closed);
    var r := TakeAck(ep, p, false, ie).ep;
    if ep.st.TimeWait? {
      WindowDoesNotMatter(ep.rcv, r.rcv, p);
      DataReceived(r, p, ie);
    }
  }

  /** A synchronised host takes the segment in, or only its acknowledgment, or ends. */
  lemma {:induction false} HandlerTakes(ep: Endpoint, p: Packet, ie: InEnv, str: seq<Byte>, closed: bool)
    requires EpOk(ep, str, closed) && ep.st.Synchronised()
    ensures var r' := Dispatch(ep, p, ie).ep.rcv;
      Kept(ep.rcv, r') || (Heeds(ep, p) && (ep.st.TimeWait? || (TakesIn(ep.st) && p.ack)) && SameButWindow(Receive(ep.rcv, p), r'))
  {
    hide EpOk, Dispatch, Receive, SameButWindow, Heeds;
    if !Heeds(ep, p) || (!p.ack && TakesIn(ep.st)) { UnheededKept(ep, p, ie); }
    else if TakesIn(ep.st) { OpenTakes(ep, p, ie, str, closed); }
    else { ClosedTakes(ep, p, ie, str, closed); }
  }

  /** The peer's FIN stays consumed. */
  lemma {:induction false} FinishedStays(r: Rcv, p: Packet, base: int, str: seq<Byte>, closed: bool)
    requires FinAgrees(r, base, str, closed) && Genuine(p, base, str, closed) && !p.syn && r.Finished()
    requires r.nxt <= Receive(r, p).nxt
    ensures Receive(r, p).Finished()
  {
    hide NextData, Insert, CountAfter;
  }

  /** A segment that is taken in brings something that has not been read, unless it ends with the FIN at the frontier. */
  lemma {:induction false} TakenIsNew(r: Rcv, st: State, k: Packet, base: int, str: seq<Byte>, closed: bool)
    requires Agrees(r, base, str, closed) && !r.Finished() && st.Synchronised() && Check(r, st, k).ok
    requires var p := Check(r, st, k).p; Genuine(p, base, str, closed) && !p.syn && (p.Len() > 0 ==> r.nxt <= p.seqno + |p.data|)
    ensures var p := Check(r, st, k).p; |p.data| > 0 ==> r.read < Payload(p).End() || Receive(r, p).Finished()
  {
    hide Receive, Window;
    var p := Check(r, st, k).p;
    if |p.data| > 0 && Payload(p).End() <= r.read {
      if p.fin { FinConsumed(r, p, base, str, closed); }
    }
  }

  /** A segment that is taken in keeps a lean queue lean, unless the peer's FIN is then consumed. */
  lemma {:induction false} ReceiveLean(r: Rcv, p: Packet, base: int, str: seq<Byte>, closed: bool)
    requires Agrees(r, base, str, closed) && Genuine(p, base, str, closed) && !p.syn && (p.Len() > 0 ==> r.nxt <= p.seqno + |p.data|)
    requires |p.data| > 0 && !r.Finished() ==> r.read < Payload(p).End() || Receive(r, p).Finished()
    requires r.Finished() || Lean(r.q, r.read)
    ensures var r' := Receive(r, p); r'.Finished() || Lean(r'.q, r'.read)
  {
    hide Insert, NextData, CountAfter;
    ReceiveAgrees(r, p, base, str, closed);
    if r.Finished() {
      FinishedStays(r, p, base, str, closed);
    } else if |p.data| == 0 {
      EmptyPacketKeepsFin(r, p, base, str, closed);
    } else {
      InsertKeepsNormal(r.q, Payload(p));
      var r' := Receive(r, p);
      assert forall i :: 0 <= i < |r'.q| ==> r'.q[i] in r'.q;
    }
  }

  lemma ReceiveKeepsRead(r: Rcv, p: Packet)
    ensures Receive(r, p).read == r.read
  {
  }

  /** Before the peer's FIN is consumed the receive queue is lean. */
  predicate LeanHost(h: Host) { h.ep.rcv.Finished() || Lean(h.ep.rcv.q, h.ep.rcv.read) }

  lemma {:induction false} KeptLean(r: Rcv, r': Rcv)
    requires Kept(r, r') && (r.Finished() || Lean(r.q, r.read))
    ensures r'.Finished() || Lean(r'.q, r'.read)
  {
  }

  /** A segment for a host whose connection is set up. */
  lemma {:induction false} AcceptedLean(h: Host, g: Host, k: Packet, ie: InEnv)
    requires HostOk(h) && Heard(h, g) && OnWire(k, g, h) && h.ep.st.Synchronised() && LeanHost(h)
    requires Check(h.ep.rcv, h.ep.st, k).ok
    ensures var r' := Dispatch(h.ep, Check(h.ep.rcv, h.ep.st, k).p, ie).ep.rcv; r'.Finished() || Lean(r'.q, r'.read)
  {
    hide EpOk, Dispatch, Receive, Check, Agrees, FinAgrees, OnWire, Genuine;
    AcceptedIffAcceptable(h.ep.rcv, h.ep.st, k);
    HeaderEdits(h.ep.rcv, h.ep.st, k);
    var p := Check(h.ep.rcv, h.ep.st, k).p;
    HandlerTakes(h.ep, p, ie, h.sent, h.closed);
    var r' := Dispatch(h.ep, p, ie).ep.rcv;
    if Kept(h.ep.rcv, r') {
      KeptLean(h.ep.rcv, r');
    } else {
      AcceptedIsGenuine(h, g, k);
      if h.ep.sock {
        if !h.ep.rcv.Finished() { TakenIsNew(h.ep.rcv, h.ep.st, k, g.isn + 1, Shown(g), FinShown(g)); }
        ReceiveLean(h.ep.rcv, p, g.isn + 1, Shown(g), FinShown(g));
      } else {
        EmptyPacketKeepsFin(h.ep.rcv, p, g.isn + 1, Shown(g), FinShown(g));
        ReceiveKeepsRead(h.ep.rcv, p);
        if h.ep.rcv.Finished() { FinishedStays(h.ep.rcv, p, g.isn + 1, Shown(g), FinShown(g)); }
      }
    }
  }

  /** The data of a SYN is the first to be queued. */
  lemma {:induction false} SynDataLean(ep: Endpoint, p: Packet, ie: InEnv)
    requires ep.rcv.q == [] && p.syn && ep.rcv.read == p.seqno + 1
    ensures var r' := TakeData(ep, p, ie).ep.rcv; Lean(r'.q, r'.read)
  {
    hide TakeData, NextData;
    DataReceived(ep, p, ie);
    assert |p.data| == 0 ==> Redundant([], Payload(p));
  }

  lemma {:induction false} ListenLean(ep: Endpoint, p: Packet, ie: InEnv)
    requires ep.st.Listen? && ep.rcv.q == []
    ensures var r' := Dispatch(ep, p, ie).ep.rcv; Lean(r'.q, r'.read)
  {
    hide TakeData, Queue, SendQueued, Agreed;
    var ep1 := ep.(st := SynRcvd, snd := Agreed(ep.snd.(wnd := WINDOW_FOR_SYN), Max(32, ie.mss)),
                   rcv := ep.rcv.(sync := true, nxt := p.seqno, wnd := p.seqno, read := p.seqno + 1, mss := Max(32, ie.rmss)));
    if p.syn { SynDataLean(ep1, p, ie); }
    var d := TakeData(ep1, p, ie);
    SendQueuedKept(d.ep, Queue(d.ep, [], Ask(true, false, true), 1), ie.e1);
  }

  lemma {:induction false} SynSentLean(ep: Endpoint, p: Packet, ie: InEnv, str: seq<Byte>)
    requires ep.st.SynSent? && EpOk(ep, str, false) && ep.rcv.q == []
    ensures var r' := Dispatch(ep, p, ie).ep.rcv; Lean(r'.q, r'.read)
  {
    hide EpOk, TakeAck, TakeData, PureAck, Agreed;
    var ep1 := ep.(rcv := ep.rcv.(sync := true, nxt := p.seqno, wnd := p.seqno, read := p.seqno + 1));
    SameSend(ep, ep1, str);
    AckKeepsState(ep1, p, false, ie, str, false);
    var a := AfterSynAck(TakeAck(ep1, p, false, ie).ep, p, Max(32, ie.mss));
    if p.syn { SynDataLean(a, p, ie); }
    PureAckKept(TakeData(a, p, ie).ep, ie.m3);
  }

  lemma SameSend(ep: Endpoint, ep': Endpoint, str: seq<Byte>)
    requires EpOk(ep, str, false) && ep'.snd == ep.snd
    ensures EpOk(ep', str, false)
  {
  }

  // ---------------------------------------------------------------- over runs

  lemma {:induction false} DeliveryLean(h: Host, g: Host, k: Packet, ie: InEnv)
    requires HostOk(h) && Link(g, h) && LeanHost(h)
    ensures LeanHost(Act(h, g.wire, Deliver(k, ie)))
  {
    hide EpOk, Dispatch, Check, OnWire, Agrees, FinAgrees, Lean;
    if k in g.wire {
      CutOnWire(k, g, h);
      var p := Cut(k);
      if !h.ep.st.Synchronised() {
        UnsynchronisedTakesAll(h.ep.rcv, h.ep.st, p);
        if h.ep.st.Closed? { ClosedStays(h.ep, p, ie); }
        if h.ep.st.Listen? { ListenLean(h.ep, p, ie); }
        if h.ep.st.SynSent? { SynSentLean(h.ep, p, ie, h.sent); }
      } else if Check(h.ep.rcv, h.ep.st, p).ok {
        AcceptedLean(h, g, p, ie);
      } else {
        RefusalKept(h.ep, p, ie.m1);
        KeptLean(h.ep.rcv, SndAck(h.ep, p, ie.m1).ep.rcv);
      }
    }
  }

  lemma ClosedStays(ep: Endpoint, p: Packet, ie: InEnv)
    requires ep.st.Closed?
    ensures Dispatch(ep, p, ie).ep == ep
  {
  }

  lemma RefusalKept(ep: Endpoint, p: Packet, mem: bool)
    ensures SameButWindow(ep.rcv, SndAck(ep, p, mem).ep.rcv)
  {
    hide Window;
  }

  lemma {:induction false} ReadLean(h: Host, g: Host, size: nat, m: bool)
    requires HostOk(h) && Link(g, h) && LeanHost(h)
    ensures LeanHost(Act(h, g.wire, DoRead(size, m)))
  {
    hide EpOk, ReadCall, Readable, Lean, FinAgrees, Unread, CloseOk;
    if h.ep.sock && h.ep.st.Synchronised() && size > 0 && Readable(h.ep.rcv) {
      ReadCallFollowsStream(h.ep.rcv, size, g.isn + 1, Shown(g), FinShown(g));
      if !h.ep.rcv.Finished() { ReadFrees(h.ep.rcv, size, g.isn + 1, Shown(g), FinShown(g)); }
      PureAckKept(h.ep.(rcv := ReadCall(h.ep.rcv, size).r), m);
    }
  }

  /** Nothing else touches the positions or the queue, save for flushing it. */
  lemma {:induction false} OtherKept(h: Host, wire: set<Packet>, a: Action)
    requires !a.Deliver? && !a.DoRead? && !a.DoDetach?
    ensures var r, r' := h.ep.rcv, Act(h, wire, a).ep.rcv; Kept(r.(max := r'.max, mss := r'.mss), r')
  {
    hide Output, Apply, Queue, SendQueued, TimerFires, PureAck, Window;
    match a
    case DoConnect(rmss, e) =>
      var ep1 := h.ep.(snd := h.ep.snd.(wnd := WINDOW_FOR_SYN), rcv := h.ep.rcv.(mss := Max(32, rmss)));
      SendQueuedKept(ep1, Queue(ep1, [], Ask(true, false, false), 1), e);
    case DoWrite(data, mem, e) => SendQueuedKept(h.ep, Write(h.ep, data, mem), e);
    case TimerExpires(e) => ApplyKept(h.ep, TimerFires(h.ep.snd, e));
    case DelayedAck(m) => PureAckKept(h.ep, m);
    case DoShutdown(mem, e) => ShutdownKept(h.ep, mem, e);
    case _ =>
  }

  lemma {:induction false} ActLean(h: Host, g: Host, a: Action)
    requires HostOk(h) && Link(g, h) && LeanHost(h)
    ensures LeanHost(Act(h, g.wire, a))
  {
    hide HostOk, Link, Act, Lean;
    match a
    case Deliver(k, ie) => DeliveryLean(h, g, k, ie);
    case DoRead(size, m) => ReadLean(h, g, size, m);
    case DoDetach(mem, e, m) => DetachLean(h, g.wire, mem, e, m);
    case _ =>
      var r' := Act(h, g.wire, a).ep.rcv;
      OtherKept(h, g.wire, a);
      KeptLean(h.ep.rcv.(max := r'.max, mss := r'.mss), r');
  }

  lemma DetachLean(h: Host, wire: set<Packet>, mem: nat, e: Env, m: bool)
    requires LeanHost(h)
    ensures LeanHost(Act(h, wire, DoDetach(mem, e, m)))
    ensures var h' := Act(h, wire, DoDetach(mem, e, m)); h' == h || h'.ep.rcv.q == []
  {
    hide Detach, Lean;
    DetachFlushes(h.ep, mem, e, m);
    EmptyIsLean(Detach(h.ep, mem, e, m).ep.rcv);
  }

  lemma EmptyIsLean(r: Rcv)
    requires r.q == []
    ensures Lean(r.q, r.read)
  {
  }

  lemma ShutdownKept(ep: Endpoint, mem: nat, e: Env)
    ensures Kept(ep.rcv, Shutdown(ep, mem, e).ep.rcv)
  {
    hide Queue, SendQueued;
    var ep1 := ep.(st := ClosingState(ep.st));
    SendQueuedKept(ep1, Queue(ep1, [], Ask(false, true, true), mem), e);
  }

  lemma {:induction false} DetachFlushes(ep: Endpoint, mem: nat, e: Env, m: bool)
    ensures Detach(ep, mem, e, m).ep.rcv.q == []
  {
    hide Shutdown, Drop, MarkAll, Window;
    var r := Shutdown(ep, mem, e);
    DropsAllMarked(r.ep.rcv.q, r.ep.rcv.cur, r.ep.rcv.nxt);
  }

  lemma {:induction false} LeanAlways(s: Sys, run: seq<Event>)
    requires Fresh(s)
    ensures var t := Exec(s, run); LeanHost(t.a) && LeanHost(t.b)
    decreases |run|
  {
    hide Act, HostOk, Link;
    if |run| > 0 {
      var t, e := Exec(s, run[..|run| - 1]), run[|run| - 1];
      LeanAlways(s, run[..|run| - 1]);
      InvAlways(s, run[..|run| - 1]);
      if e.atA { ActLean(t.a, t.b, e.act); } else { ActLean(t.b, t.a, e.act); }
    }
  }

  lemma {:induction false} ReadCuts(h: Host, g: Host, size: nat, m: bool)
    requires HostOk(h) && Link(g, h) && LeanHost(h) && h.ep.sock && h.ep.st.Synchronised() && !h.ep.rcv.Finished()
    ensures var r, r' := h.ep.rcv, Act(h, g.wire, DoRead(size, m)).ep.rcv;
      CutAt(Dropped(r'.q, r'.cur, r'.read), r.q, r.cur, r'.read) && r'.read == Min(r.nxt, r.read + size)
  {
    hide EpOk, ReadCall, Readable, Lean, FinAgrees, Unread, CloseOk, CutAt;
    ReadCallFollowsStream(h.ep.rcv, size, g.isn + 1, Shown(g), FinShown(g));
    ReadFrees(h.ep.rcv, size, g.isn + 1, Shown(g), FinShown(g));
    NothingReadable(h.ep.rcv, size);
    PureAckKept(h.ep.(rcv := ReadCall(h.ep.rcv, size).r), m);
  }

  lemma NothingReadable(r: Rcv, size: nat)
    ensures size == 0 || !Readable(r) ==> ReadCall(r, size) == Read([], r)
  {
  }

  /**
   * In every reachable state before the peer's FIN is consumed, a read gives back exactly the segments that it has read to
   * their end; none that was read earlier is still there.
   */
  lemma {:induction false} ReadsGiveBack(s: Sys, run: seq<Event>, t: Sys, atA: bool, size: nat, m: bool)
    requires Fresh(s) && t == Exec(s, run)
    requires var h := Mine(t, atA); h.ep.sock && h.ep.st.Synchronised() && !h.ep.rcv.Finished()
    ensures var r, r' := Mine(t, atA).ep.rcv, Mine(Step(t, Event(atA, DoRead(size, m))), atA).ep.rcv;
      CutAt(Dropped(r'.q, r'.cur, r'.read), r.q, r.cur, r'.read) && r'.read == Min(r.nxt, r.read + size)
    ensures Lean(Mine(t, atA).ep.rcv.q, Mine(t, atA).ep.rcv.read)
  {
    hide Act, HostOk, Link, CutAt;
    InvAlways(s, run);
    LeanAlways(s, run);
    ReadCuts(Mine(t, atA), Mine(t, !atA), size, m);
  }

  /** What lies between the read position and the frontier is in the queue. */
  lemma {:induction false} WaitingIsQueued(h: Host, g: Host)
    requires Link(g, h) && h.ep.rcv.sync && !h.ep.st.Closed? && h.ep.sock && !h.ep.rcv.Finished() && h.ep.rcv.read < h.ep.rcv.nxt
    ensures h.ep.rcv.q != []
  {
    assert Covers(h.ep.rcv.q, h.ep.rcv.read);
  }

  lemma SynchronisedHasSync(h: Host)
    requires HostOk(h) && h.ep.st.Synchronised()
    ensures h.ep.rcv.sync && !h.ep.st.Closed?
  {
  }

  /** Everything in the queue has been read. */
  lemma {:induction false} CutOfAll(d: Dropped, q: seq<Seg>, cur: int, y: int)
    requires CutAt(d, q, cur, y) && q != [] && forall i :: 0 <= i < |q| ==> q[i].End() <= y
    ensures d.q == [] && d.cur == 0
  {
  }

  /**
   * In every reachable state: whoever reads everything, while nothing is queued out of order, gets the whole buffer
   * offered again.
   */
  lemma {:induction false} WindowReopens(s: Sys, run: seq<Event>, t: Sys, atA: bool, size: nat, m: bool)
    requires Fresh(s) && t == Exec(s, run)
    requires var h := Mine(t, atA); var r := h.ep.rcv;
      && h.ep.sock && h.ep.st.Synchronised() && !r.Finished()
      && r.read < r.nxt <= r.read + size && forall i :: 0 <= i < |r.q| ==> r.q[i].End() <= r.nxt
    ensures var h' := Mine(Step(t, Event(atA, DoRead(size, m))), atA).ep;
      h'.rcv.q == [] && h'.rcv.cur == 0 && h'.rcv.max <= Window(h'.rcv, h'.st)
  {
    hide Act, HostOk, Link, CutAt, Window;
    InvAlways(s, run);
    ReadsGiveBack(s, run, t, atA, size, m);
    var h := Mine(t, atA);
    SynchronisedHasSync(h);
    WaitingIsQueued(h, Mine(t, !atA));
    var h' := Mine(Step(t, Event(atA, DoRead(size, m))), atA).ep;
    CutOfAll(Dropped(h'.rcv.q, h'.rcv.cur, h'.rcv.read), h.ep.rcv.q, h.ep.rcv.cur, h'.rcv.read);
    EmptyBufferIsOffered(h'.rcv, h'.st);
  }

  // ---------------------------------------------------------------- the segment that is not given back

  /** The segment takes in bytes that have all been read, because the peer's FIN comes right behind them. */
  predicate Stale(r: Rcv, p: Packet) { |p.data| > 0 && p.fin && FinAt(p) == r.read }

  /** A host takes in such a segment. */
  predicate TakesStale(h: Host, wire: set<Packet>, a: Action) {
    && a.Deliver? && a.p in wire && TakesIn(h.ep.st)
    && var v := Check(h.ep.rcv, h.ep.st, Cut(a.p)); v.ok && Heeds(h.ep, v.p) && v.p.ack && Stale(h.ep.rcv, v.p)
  }

  /** What an accepted segment brings ends beyond the frontier, or at it with a FIN. */
  lemma {:induction false} EndsBeyond(r: Rcv, st: State, k: Packet)
    requires st.Synchronised() && Check(r, st, k).ok && !Check(r, st, k).p.syn && |Check(r, st, k).p.data| > 0
    ensures var p := Check(r, st, k).p; r.nxt < Payload(p).End() || (p.fin && Payload(p).End() == r.nxt)
  {
    hide Window;
  }

  lemma {:induction false} NewIsLean(q: seq<Seg>, s: Seg, read: int)
    requires Normal(q) && Lean(q, read) && read < s.End()
    ensures Lean(Insert(q, s), read)
  {
    hide Insert;
    InsertKeepsNormal(q, s);
    var q' := Insert(q, s);
    assert forall i :: 0 <= i < |q'| ==> q'[i] in q';
  }

  lemma ReadBehindFrontier(r: Rcv, base: int, str: seq<Byte>, closed: bool)
    requires Agrees(r, base, str, closed)
    ensures r.read <= r.nxt && Normal(r.q)
  {
  }

  /** Taking in an acceptable segment of an honest peer leaves a lean queue lean exactly if it is not of this kind. */
  lemma {:induction false} LeanIffNotStale(r: Rcv, st: State, k: Packet, base: int, str: seq<Byte>, closed: bool)
    requires Agrees(r, base, str, closed) && st.Synchronised() && Check(r, st, k).ok && Lean(r.q, r.read)
    requires var p := Check(r, st, k).p; Genuine(p, base, str, closed) && !p.syn && (p.Len() > 0 ==> r.nxt <= p.seqno + |p.data|)
    ensures var p, r' := Check(r, st, k).p, Receive(r, Check(r, st, k).p); Lean(r'.q, r'.read) <==> !Stale(r, p)
  {
    hide Check, NextData, CountAfter, Agrees, Insert, Normal, Lean;
    var p := Check(r, st, k).p;
    var s := Payload(p);
    ReadBehindFrontier(r, base, str, closed);
    if |p.data| == 0 {
      InsertNothing(r.q, s);
    } else {
      EndsBeyond(r, st, k);
      if r.read < s.End() { NewIsLean(r.q, s, r.read); } else { NothingBehindFin(r, base, str, closed); NotLean(s, r.read); }
    }
  }

  lemma InsertNothing(q: seq<Seg>, s: Seg)
    requires |s.data| == 0
    ensures Insert(q, s) == q
  {
    assert Redundant(q, s);
  }

  lemma NotLean(s: Seg, read: int)
    requires s.End() <= read && |s.data| > 0
    ensures !Lean(Insert([], s), read)
  {
    OnlyOne(s);
    assert [s][0] == s;
  }

  lemma OnlyOne(s: Seg)
    requires |s.data| > 0
    ensures Insert([], s) == [s]
  {
    assert !Covers([], s.start);
  }

  /** A lean queue of which the whole stream has been read is empty. */
  lemma {:induction false} NothingBehindFin(r: Rcv, base: int, str: seq<Byte>, closed: bool)
    requires Agrees(r, base, str, closed) && Lean(r.q, r.read) && r.read == base + |str|
    ensures r.q == []
  {
    assert r.q != [] ==> r.read < r.q[0].End();
    assert forall i :: 0 <= i < |r.q| ==> InStream(r.q[i].start, r.q[i].data, base, str) && r.q[i].End() <= base + |str|;
  }

  lemma {:induction false} SameQueue(r: Rcv, r': Rcv)
    requires SameButWindow(r, r')
    ensures Lean(r'.q, r'.read) == Lean(r.q, r.read)
  {
  }

  /** Once the peer's FIN is consumed, no acceptable segment holds data. */
  lemma {:induction false} NoDataAfterFin(r: Rcv, p: Packet, base: int, str: seq<Byte>, closed: bool)
    requires FinAgrees(r, base, str, closed) && Genuine(p, base, str, closed) && !p.syn && (p.Len() > 0 ==> r.nxt <= p.seqno + |p.data|)
    requires r.Finished()
    ensures |p.data| == 0
  {
  }

  lemma {:induction false} AcceptedLeanIff(h: Host, g: Host, k: Packet, ie: InEnv)
    requires HostOk(h) && Heard(h, g) && OnWire(Cut(k), g, h) && h.ep.st.Synchronised() && Lean(h.ep.rcv.q, h.ep.rcv.read) && k in g.wire
    requires Check(h.ep.rcv, h.ep.st, Cut(k)).ok
    ensures var r' := Dispatch(h.ep, Check(h.ep.rcv, h.ep.st, Cut(k)).p, ie).ep.rcv;
      Lean(r'.q, r'.read) <==> !TakesStale(h, g.wire, Deliver(k, ie))
  {
    hide EpOk, Dispatch, Receive, Check, Agrees, FinAgrees, OnWire, Genuine, Lean, Cut, Stale;
    AcceptedIffAcceptable(h.ep.rcv, h.ep.st, Cut(k));
    HeaderEdits(h.ep.rcv, h.ep.st, Cut(k));
    var p := Check(h.ep.rcv, h.ep.st, Cut(k)).p;
    var r, r' := h.ep.rcv, Dispatch(h.ep, p, ie).ep.rcv;
    HandlerTakes(h.ep, p, ie, h.sent, h.closed);
    if TakesStale(h, g.wire, Deliver(k, ie)) { OpenTakes(h.ep, p, ie, h.sent, h.closed); }
    if TakesStale(h, g.wire, Deliver(k, ie)) || !Kept(r, r') {
      SameQueue(Receive(r, p), r');
      AcceptedIsGenuine(h, g, Cut(k));
      if h.ep.sock {
        LeanIffNotStale(r, h.ep.st, Cut(k), g.isn + 1, Shown(g), FinShown(g));
        if r.Finished() { NoDataAfterFin(r, p, g.isn + 1, Shown(g), FinShown(g)); }
        NoDataNoStale(r, p);
      } else {
        NoDataNoStale(r, p);
        EmptyPacketKeepsFin(r, p, g.isn + 1, Shown(g), FinShown(g));
        ReceiveKeepsRead(r, p);
      }
    } else {
      KeptIsLean(r, r');
    }
  }

  lemma NoDataNoStale(r: Rcv, p: Packet)
    ensures |p.data| == 0 ==> !Stale(r, p)
  {
  }

  lemma KeptIsLean(r: Rcv, r': Rcv)
    requires Kept(r, r') && Lean(r.q, r.read)
    ensures Lean(r'.q, r'.read)
  {
  }

  lemma {:induction false} DeliveryLeanIff(h: Host, g: Host, k: Packet, ie: InEnv)
    requires HostOk(h) && Link(g, h) && Lean(h.ep.rcv.q, h.ep.rcv.read)
    ensures var r' := Act(h, g.wire, Deliver(k, ie)).ep.rcv; Lean(r'.q, r'.read) <==> !TakesStale(h, g.wire, Deliver(k, ie))
  {
    hide EpOk, Dispatch, Check, OnWire, Agrees, FinAgrees, Lean, Stale, Heeds;
    if k in g.wire {
      CutOnWire(k, g, h);
      var p := Cut(k);
      if !h.ep.st.Synchronised() {
        UnsynchronisedTakesAll(h.ep.rcv, h.ep.st, p);
        if h.ep.st.Closed? { ClosedStays(h.ep, p, ie); }
        if h.ep.st.Listen? { ListenLean(h.ep, p, ie); }
        if h.ep.st.SynSent? { SynSentLean(h.ep, p, ie, h.sent); }
      } else if Check(h.ep.rcv, h.ep.st, p).ok {
        AcceptedLeanIff(h, g, k, ie);
      } else {
        RefusalKept(h.ep, p, ie.m1);
        KeptIsLean(h.ep.rcv, SndAck(h.ep, p, ie.m1).ep.rcv);
      }
    }
  }

  lemma {:induction false} ReadIsLean(h: Host, g: Host, size: nat, m: bool)
    requires HostOk(h) && Link(g, h) && Lean(h.ep.rcv.q, h.ep.rcv.read)
    ensures var r' := Act(h, g.wire, DoRead(size, m)).ep.rcv; Lean(r'.q, r'.read)
  {
    hide EpOk, ReadCall, Readable, Lean, FinAgrees, Unread, CloseOk;
    if h.ep.sock && h.ep.st.Synchronised() && size > 0 && Readable(h.ep.rcv) {
      ReadFrees(h.ep.rcv, size, g.isn + 1, Shown(g), FinShown(g));
      PureAckKept(h.ep.(rcv := ReadCall(h.ep.rcv, size).r), m);
    }
  }

  /** Of everything that can happen at a host, exactly such a delivery leaves something in the queue that has been read. */
  lemma {:induction false} ActLeanIff(h: Host, g: Host, a: Action)
    requires HostOk(h) && Link(g, h) && Lean(h.ep.rcv.q, h.ep.rcv.read)
    ensures var r' := Act(h, g.wire, a).ep.rcv; Lean(r'.q, r'.read) <==> !TakesStale(h, g.wire, a)
  {
    hide HostOk, Link, Act, Lean;
    match a
    case Deliver(k, ie) => DeliveryLeanIff(h, g, k, ie);
    case DoRead(size, m) => ReadIsLean(h, g, size, m);
    case DoDetach(mem, e, m) =>
      DetachLean(h, g.wire, mem, e, m);
      if Act(h, g.wire, a) != h { EmptyIsLean(Act(h, g.wire, a).ep.rcv); }
    case _ =>
      var r' := Act(h, g.wire, a).ep.rcv;
      OtherKept(h, g.wire, a);
      KeptIsLean(h.ep.rcv.(max := r'.max, mss := r'.mss), r');
  }

  /** After `n` events the host's receive queue is lean. */
  ghost predicate LeanAt(s: Sys, run: seq<Event>, n: nat, atA: bool)
    requires n <= |run|
  {
    var r := Mine(Exec(s, run[..n]), atA).ep.rcv; Lean(r.q, r.read)
  }

  /** The event takes such a segment in at that host. */
  ghost predicate StaleAt(s: Sys, run: seq<Event>, n: nat, atA: bool)
    requires n < |run|
  {
    var t := Exec(s, run[..n]); run[n].atA == atA && TakesStale(Mine(t, atA), Mine(t, !atA).wire, run[n].act)
  }

  lemma {:induction false} LeanStep(s: Sys, run: seq<Event>, n: nat, atA: bool)
    requires Fresh(s) && n < |run| && LeanAt(s, run, n, atA)
    ensures LeanAt(s, run, n + 1, atA) <==> !StaleAt(s, run, n, atA)
  {
    hide Act, HostOk, Link, Lean, TakesStale;
    var t := Exec(s, run[..n]);
    assert run[..n + 1][..n] == run[..n];
    InvAlways(s, run[..n]);
    if run[n].atA == atA { ActLeanIff(Mine(t, atA), Mine(t, !atA), run[n].act); }
  }

  lemma {:induction false} LeanUntil(s: Sys, run: seq<Event>, n: nat, atA: bool)
    requires Fresh(s) && n <= |run| && forall i :: 0 <= i < n ==> !StaleAt(s, run, i, atA)
    ensures LeanAt(s, run, n, atA)
  {
    hide Exec, LeanAt, StaleAt;
    if n == 0 { StartsLean(s, run, atA); } else {
      LeanUntil(s, run, n - 1, atA);
      LeanStep(s, run, n - 1, atA);
    }
  }

  lemma StartsLean(s: Sys, run: seq<Event>, atA: bool)
    requires Fresh(s)
    ensures LeanAt(s, run, 0, atA)
  {
  }

  /**
   * Over a run from fresh hosts a host's receive queue never holds a segment that has been read to its end if and only if
   * the host never takes in bytes it has read with the FIN right behind them.
   */
  lemma {:induction false} LeanIffNeverStale(s: Sys, run: seq<Event>, atA: bool)
    requires Fresh(s)
    ensures (forall n :: 0 <= n <= |run| ==> LeanAt(s, run, n, atA)) <==> (forall n :: 0 <= n < |run| ==> !StaleAt(s, run, n, atA))
  {
    hide LeanAt, StaleAt;
    if forall n :: 0 <= n < |run| ==> !StaleAt(s, run, n, atA) {
      forall n | 0 <= n <= |run| ensures LeanAt(s, run, n, atA) { LeanUntil(s, run, n, atA); }
    } else {
      var n :| 0 <= n < |run| && StaleAt(s, run, n, atA);
      if LeanAt(s, run, n, atA) { LeanStep(s, run, n, atA); }
    }
  }

  /** Such a segment: five bytes that have been read, sent again with the FIN. It stays, and no read takes it. */
  lemma StaleSegmentStays(r: Rcv, k: Packet, size: nat)
    requires r == Rcv(true, 11, 4107, false, 0, 11, [], 0, 4096, 1460)
    requires k == Packet(6, [1, 2, 3, 4, 5], false, true, false, true, 1, 1000)
    ensures Check(r, Established, k) == Verdict(true, k)
    ensures var r' := Receive(r, k);
      r'.Finished() && r'.q == [Seg(6, [1, 2, 3, 4, 5], false)] && !Lean(r'.q, r'.read) && ReadCall(r', size) == Read([], r')
  {
    OnlyOne(Payload(k));
  }
}
