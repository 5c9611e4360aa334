/** Over whole runs: the window of a retransmission is reversed only after one kind of acknowledgment. */
module ReversalRuns {
  import opened TcpTypes
  import opened TcpSend
  import opened SendFacts
  import opened TcpRecv
  import opened TcpEndpoint
  import opened EndpointFacts
  import opened TcpSystem
  import opened SystemFacts
  import opened UserFacts
  import opened RunTheorems
  import opened Reversal

  // ---------------------------------------------------------------- incoming segments

  /** The segment's acknowledgment passes `snd_nxt`, its window does not count, and sending does not catch up. */
  predicate PassesUnseen(ep: Endpoint, p: Packet, e: Env) {
    Heeds(ep, p) && p.ack && (Updates(ep.st) ==> SndWnd(ep.snd, p).Stale?) && Passes(ep.snd, p.ackno, e)
  }

  lemma {:induction false} DataLeavesSnd(ep: Endpoint, p: Packet, ie: InEnv)
    ensures TakeData(ep, p, ie).ep.snd == ep.snd
  {
    hide Receive, AckNow, Record, Window;
  }

  lemma {:induction false} DispatchTurns(ep: Endpoint, p: Packet, ie: InEnv, str: seq<Byte>, closed: bool)
    requires ep.st.Synchronised() && EpOk(ep, str, closed) && !Turned(ep.snd)
    ensures Turned(Dispatch(ep, p, ie).ep.snd) <==> PassesUnseen(ep, p, ie.e1)
  {
    hide TakeAck, TakeData, SndOk, Passes, SndRst;
    TakeAckTurns(ep, p, Updates(ep.st), ie, str, closed);
    var r := TakeAck(ep, p, Updates(ep.st), ie);
    DataLeavesSnd(r.ep, p, ie);
    DataLeavesSnd(r.ep.(st := Established, snd := r.ep.snd.(wnd := p.window, wndseq := p.seqno, wndack := p.ackno)), p, ie);
  }

  lemma {:induction false} SynSentTurns(ep: Endpoint, p: Packet, ie: InEnv, str: seq<Byte>, closed: bool)
    requires ep.st.SynSent? && EpOk(ep, str, closed) && !Turned(ep.snd)
    ensures Turned(Dispatch(ep, p, ie).ep.snd) <==> PassesUnseen(ep, p, ie.e1)
  {
    hide TakeAck, TakeData, SndOk, Passes, SndRst, PureAck;
    if p.syn && !p.rst {
      var ep1 := ep.(rcv := ep.rcv.(sync := true, nxt := p.seqno, wnd := p.seqno, read := p.seqno + 1));
      TakeAckTurns(ep1, p, false, ie, str, closed);
      var r := TakeAck(ep1, p, false, ie);
      var ep2 := AfterSynAck(r.ep, p, Max(32, ie.mss));
      DataLeavesSnd(ep2, p, ie);
      AckLeavesSnd(TakeData(ep2, p, ie).ep, ie.m3);
      PassesInside(ep.snd, p.ackno, ie.e1, str, closed);
    }
  }

  lemma {:induction false} AckLeavesSnd(ep: Endpoint, m: bool)
    ensures PureAck(ep, m).ep.snd == ep.snd
  {
    hide Record, Window;
  }

  lemma {:induction false} PassesInside(s: Snd, ackno: int, e: Env, str: seq<Byte>, closed: bool)
    requires SndOk(s, str, closed)
    ensures Passes(s, ackno, e) ==> s.isn < ackno <= s.max
  {
    hide Stuck, QueueOk;
  }

  // ---------------------------------------------------------------- sending what has been queued

  lemma {:induction false} QueuedSent(ep: Endpoint, q: Queued, e: Env)
    requires !Turned(ep.snd) && (q.ok || q.taken > 0 ==> Shape(q.s) && !Turned(q.s))
    ensures !Turned(SendQueued(ep, q, e).ep.snd)
  {
    hide Output, Apply, Shape;
    if q.ok || q.taken > 0 {
      OtherEvents(q.s, Send, e);
      Applied(ep.(snd := q.s), Output(q.s, Send, e));
    }
  }

  lemma {:induction false} GrownSent(ep: Endpoint, q: Queued, e: Env, str: seq<Byte>, closed: bool)
    requires !Turned(ep.snd) && Grown(ep.snd, q.s, str, closed)
    ensures !Turned(SendQueued(ep, q, e).ep.snd)
  {
    hide SndOk, Shape, SendQueued;
    ShapeOf(q.s, q.s, str, closed);
    QueuedSent(ep, q, e);
  }

  lemma {:induction false} SynSends(ep: Endpoint, ack: bool, e: Env)
    requires EpOk(ep, [], false) && ep.snd.write == ep.snd.isn && !Turned(ep.snd)
    ensures !Turned(SendQueued(ep, Queue(ep, [], Ask(true, false, ack), 1), e).ep.snd)
  {
    hide QueueOk, SendQueued, Enqueue;
    SynKeeps(ep.snd, ack, 1);
    GrownSent(ep, Queue(ep, [], Ask(true, false, ack), 1), e, [], false);
  }

  lemma {:induction false} ListenTurns(ep: Endpoint, p: Packet, ie: InEnv)
    requires ep.st.Listen? && EpOk(ep, [], false) && ep.snd.write == ep.snd.isn && !Turned(ep.snd)
    ensures !Turned(Dispatch(ep, p, ie).ep.snd)
  {
    hide TakeData, SendQueued, Queue, SndRst, QueueOk;
    if !p.rst && p.syn && !p.ack && ie.m3 {
      var ep1 := ep.(st := SynRcvd,
                     snd := Agreed(ep.snd.(wnd := WINDOW_FOR_SYN), Max(32, ie.mss)),
                     rcv := ep.rcv.(sync := true, nxt := p.seqno, wnd := p.seqno, read := p.seqno + 1, mss := Max(32, ie.rmss)));
      WindowFieldsFree(ep.snd, ep1.snd, [], false);
      DataLeavesSnd(ep1, p, ie);
      SynSends(TakeData(ep1, p, ie).ep, true, ie.e1);
    }
  }

  // ---------------------------------------------------------------- one action

  /** The action delivers such a segment. */
  predicate TurnsOn(h: Host, wire: set<Packet>, a: Action) {
    && a.Deliver? && a.p in wire
    && var v := Check(h.ep.rcv, h.ep.st, Cut(a.p)); v.ok && PassesUnseen(h.ep, v.p, a.ie.e1)
  }

  lemma {:induction false} DeliverTurns(h: Host, wire: set<Packet>, p: Packet, ie: InEnv)
    requires HostOk(h) && !Turned(h.ep.snd)
    ensures Turned(Act(h, wire, Deliver(p, ie)).ep.snd) <==> TurnsOn(h, wire, Deliver(p, ie))
  {
    hide Dispatch, Check, PassesUnseen, SndAck, EpOk;
    var v := Check(h.ep.rcv, h.ep.st, Cut(p));
    NotAcceptedLeavesSnd(h.ep, Cut(p), ie.m1);
    DispatchedTurns(h, v.p, ie);
  }

  lemma {:induction false} NotAcceptedLeavesSnd(ep: Endpoint, p: Packet, m: bool)
    ensures SndAck(ep, p, m).ep.snd == ep.snd
  {
    hide Record, Window;
  }

  lemma {:induction false} DispatchedTurns(h: Host, p: Packet, ie: InEnv)
    requires HostOk(h) && !Turned(h.ep.snd)
    ensures Turned(Dispatch(h.ep, p, ie).ep.snd) <==> PassesUnseen(h.ep, p, ie.e1)
  {
    hide EpOk, Passes;
    if h.ep.st.Synchronised() { DispatchTurns(h.ep, p, ie, h.sent, h.closed); }
    else if h.ep.st.SynSent? { SynSentTurns(h.ep, p, ie, h.sent, h.closed); }
    else if h.ep.st.Listen? { ListenTurns(h.ep, p, ie); }
  }

  lemma {:induction false} ConnectTurns(h: Host, wire: set<Packet>, rmss: int, e: Env)
    requires HostOk(h) && !Turned(h.ep.snd)
    ensures !Turned(Act(h, wire, DoConnect(rmss, e)).ep.snd)
  {
    hide SendQueued, Queue, QueueOk;
    if h.ep.st.Closed? && h.ep.sock && h.ep.snd.write == h.isn {
      var ep1 := h.ep.(snd := h.ep.snd.(wnd := WINDOW_FOR_SYN), rcv := h.ep.rcv.(mss := Max(32, rmss)));
      WindowFieldsFree(h.ep.snd, ep1.snd, [], false);
      SynSends(ep1, false, e);
    }
  }

  lemma {:induction false} WriteTurns(h: Host, wire: set<Packet>, data: seq<Byte>, mem: nat, e: Env)
    requires HostOk(h) && !Turned(h.ep.snd)
    ensures !Turned(Act(h, wire, DoWrite(data, mem, e)).ep.snd)
  {
    hide SendQueued, QueueOk, Enqueue;
    if h.ep.sock && h.ep.st.Connected() {
      var n := Min(CanWrite(h.ep.snd, h.ep.st), |data|);
      var q := Write(h.ep, data, mem);
      if n > 0 {
        EnqueueKeeps(h.ep.snd, data[..n], true, mem, h.sent);
      }
      if n > 0 && q.taken > 0 {
        GrownSent(h.ep, q, e, h.sent + data[..n][..q.taken], false);
      } else {
        QueuedSent(h.ep, q, e);
      }
    }
  }

  lemma {:induction false} ShutdownTurns(h: Host, mem: nat, e: Env)
    requires HostOk(h) && !Turned(h.ep.snd)
    ensures !Turned(Shutdown(h.ep, mem, e).ep.snd)
  {
    hide SendQueued, QueueOk, Enqueue;
    if ClosingState(h.ep.st) != h.ep.st {
      var ep1 := h.ep.(st := ClosingState(h.ep.st));
      var q := Queue(ep1, [], Ask(false, true, true), mem);
      FinNeedsMemory(ep1, mem);
      if q.ok {
        FinKeeps(h.ep.snd, mem, h.sent);
        GrownSent(ep1, q, e, h.sent, true);
      } else {
        QueuedSent(ep1, q, e);
      }
    }
  }

  lemma {:induction false} DiscardLeavesSnd(ep: Endpoint, m: bool)
    ensures Discard(ep, m).ep.snd == ep.snd
  {
    hide Drop, Record, Window;
  }

  lemma {:induction false} CloseTurns(h: Host, wire: set<Packet>, a: Action)
    requires HostOk(h) && !Turned(h.ep.snd) && (a.DoShutdown? || a.DoDetach?)
    ensures !Turned(Act(h, wire, a).ep.snd)
  {
    hide Shutdown, Discard, EpOk;
    ShutdownTurns(h, a.mem, a.e);
    if a.DoDetach? { DiscardLeavesSnd(Shutdown(h.ep, a.mem, a.e).ep, a.m); }
  }

  lemma {:induction false} TimerTurns(h: Host, wire: set<Packet>, e: Env)
    requires HostOk(h) && !Turned(h.ep.snd)
    ensures !Turned(Act(h, wire, TimerExpires(e)).ep.snd)
  {
    hide Output, Apply, SndOk, Shape;
    if h.ep.snd.timer && !h.ep.st.Closed? {
      var s := h.ep.snd.(timer := false);
      ShapeOf(h.ep.snd, s, h.sent, h.closed);
      OtherEvents(s, Timeout, e);
      Applied(h.ep, Output(s, Timeout, e));
    }
  }

  lemma {:induction false} RestTurns(h: Host, wire: set<Packet>, a: Action)
    requires !Turned(h.ep.snd)
    requires a.DoListen? || a.DoRead? || a.DelayedAck? || a.DeleteTimer? || a.SetRcvBuf?
    ensures !Turned(Act(h, wire, a).ep.snd)
  {
    hide ReadCall, Readable, Record, Window;
  }

  /** Exactly such a delivery turns the window of the next retransmission round. */
  lemma {:induction false} ActTurns(h: Host, wire: set<Packet>, a: Action)
    requires HostOk(h) && !Turned(h.ep.snd)
    ensures Turned(Act(h, wire, a).ep.snd) <==> TurnsOn(h, wire, a)
  {
    hide Act, HostOk;
    if a.Deliver? { DeliverTurns(h, wire, a.p, a.ie); }
    else if a.DoConnect? { ConnectTurns(h, wire, a.rmss, a.e); }
    else if a.DoWrite? { WriteTurns(h, wire, a.data, a.mem, a.e); }
    else if a.TimerExpires? { TimerTurns(h, wire, a.e); }
    else if a.DoShutdown? || a.DoDetach? { CloseTurns(h, wire, a); }
    else { RestTurns(h, wire, a); }
  }

  // ---------------------------------------------------------------- runs

  /** After the first `i` events the host's window is turned. */
  ghost predicate TurnedAt(s: Sys, run: seq<Event>, atA: bool, i: nat)
    requires i <= |run|
  {
    Turned(Mine(Exec(s, run[..i]), atA).ep.snd)
  }

  /** Event `i` delivers an acknowledgment that turns it. */
  ghost predicate TurnsAt(s: Sys, run: seq<Event>, atA: bool, i: nat)
    requires i < |run|
  {
    var t := Exec(s, run[..i]);
    run[i].atA == atA && TurnsOn(Mine(t, atA), Mine(t, !atA).wire, run[i].act)
  }

  lemma {:induction false} EventTurns(s: Sys, run: seq<Event>, atA: bool, i: nat)
    requires Fresh(s) && i < |run| && !TurnedAt(s, run, atA, i)
    ensures TurnedAt(s, run, atA, i + 1) <==> TurnsAt(s, run, atA, i)
  {
    hide Act, TurnsOn, HostOk;
    var t := Exec(s, run[..i]);
    InvAlways(s, run[..i]);
    assert run[..i + 1][..i] == run[..i];
    assert Exec(s, run[..i + 1]) == Step(t, run[i]);
    if run[i].atA == atA { ActTurns(Mine(t, atA), Mine(t, !atA).wire, run[i].act); }
  }

  lemma {:induction false} FirstTurn(s: Sys, run: seq<Event>, atA: bool, n: nat) returns (i: nat)
    requires Fresh(s) && n <= |run| && TurnedAt(s, run, atA, n)
    ensures i < n && TurnsAt(s, run, atA, i)
    decreases n
  {
    hide TurnsAt, Step;
    assert n > 0;
    i := n - 1;
    if TurnedAt(s, run, atA, i) { i := FirstTurn(s, run, atA, i); } else { EventTurns(s, run, atA, i); }
  }

  /** In a run a host's window is ever turned if and only if such a segment is ever delivered to it. */
  lemma {:induction false} TurnedIffPassedUnseen(s: Sys, run: seq<Event>, atA: bool)
    requires Fresh(s)
    ensures (exists i: nat :: i <= |run| && TurnedAt(s, run, atA, i)) <==> (exists i: nat :: i < |run| && TurnsAt(s, run, atA, i))
  {
    hide TurnedAt, TurnsAt;
    if i: nat :| i <= |run| && TurnedAt(s, run, atA, i) {
      var k := FirstTurn(s, run, atA, i);
    }
    if i: nat :| i < |run| && TurnsAt(s, run, atA, i) {
      if !TurnedAt(s, run, atA, i) { EventTurns(s, run, atA, i); }
    }
  }

  /** Without one, no retransmission of the run copies a negative number of bytes. */
  lemma {:induction false} NoUnderrunUnlessPassed(s: Sys, run: seq<Event>, atA: bool, t: Snd)
    requires Fresh(s) && t == Mine(Exec(s, run), atA).ep.snd
    requires forall i: nat :: i < |run| ==> !TurnsAt(s, run, atA, i)
    requires (t.ostate.Xmit? || t.ostate.Retrans?) && |t.q| > 0 && !Outside(t.q[0], t.una, t.nxt)
    ensures t.una <= t.nxt && CopyCount(t.q[0], t.una, t.nxt) == |Clip(t.q[0], t.una, t.nxt).data|
  {
    hide TurnsAt, Exec;
    assert run[..|run|] == run;
    if t.nxt < t.una { var k := FirstTurn(s, run, atA, |run|); }
    CopyCountIsNegativeWhenReversed(t.q[0], t.una, t.nxt);
  }
}
