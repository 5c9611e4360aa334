/** The congestion window over runs: its floor, what a rest does to it, and when the threshold falls. */
module Congestion {
  import opened TcpTypes
  import opened TcpSend
  import opened SendFacts
  import opened TcpRecv
  import opened TcpEndpoint
  import opened TcpSystem
  import opened Reversal
  import opened Sending
  import opened OutputMeaning

  /** The threshold is never below two segments, the window not below one. */
  predicate Floor(s: Snd) { 0 < s.mss <= s.cwnd && 2 * s.mss <= s.thresh }

  /** The floor stays, and the threshold does not fall. */
  predicate Firm(s: Snd, s': Snd) { (Floor(s) ==> Floor(s')) && s.thresh <= s'.thresh }

  // ---------------------------------------------------------------- the output machine

  lemma {:induction false} DropFirm(s: Snd)
    ensures Firm(s, DropData(s)) && (0 < s.mss ==> s.cwnd <= DropData(s).cwnd)
  {
    DropKeepsRest(s);
    hide SumData, Growth;
  }

  lemma HeadFirm(s: Snd, e: Env)
    ensures Firm(s, SndHead(s, e).s) && !SndHead(s, e).dead
  {
    hide SndHead;
    SndHeadKeeps(s, e);
  }

  lemma SndSegFirm(s: Snd, k: nat, n: nat, w1: int, w2: int, o: Outcome)
    requires k < |s.q|
    ensures Firm(s, SndSeg(s, k, n, w1, w2, o).0.s)
  {
    hide Padded, Appended;
  }

  lemma RetransmitFloor(s: Snd, e: Env)
    requires Floor(s)
    ensures Floor(Retransmit(s, e).s)
  {
    hide SndSeg;
    var s1 := Backed(s.(nretrans := s.nretrans + 1));
    if |s.q| > 0 { SndSegFirm(s1, 0, s1.nretrans, s.una, s.nxt, if e.budget > 0 then Sent else e.failure); }
  }

  lemma ResendFirm(s: Snd, e: Env)
    ensures Firm(s, Resend(s, e).s)
  {
    hide SndSeg;
    if s.dupacks >= DUP_THRESHOLD && s.dupacks - DUP_THRESHOLD < |s.q| {
      var k := s.dupacks - DUP_THRESHOLD;
      SndSegFirm(s, k, if k == 0 then s.nretrans else 0, s.una, s.nxt, if e.budget > 0 then Sent else e.failure);
    }
  }

  lemma TimeoutFloor(s: Snd, e: Env)
    requires Floor(s)
    ensures Floor(Output(s, Timeout, e).s)
  {
    hide SndHead, Retransmit;
    HeadFirm(s.(wndmax := s.wnd), e);
    RetransmitFloor(s, e);
    RetransmitFloor(s.(ostate := Retrans, dupacks := if s.dupacks >= DUP_THRESHOLD then DUP_THRESHOLD - 1 else s.dupacks), e);
  }

  /** Only a timeout lowers the threshold. */
  lemma OutputFirm(s: Snd, ev: OEvent, e: Env)
    requires !ev.Timeout?
    ensures Firm(s, Output(s, ev, e).s)
  {
    hide SndHead, Resend, DropData;
    DropFirm(s);
    HeadFirm(s, e);
    HeadFirm(SlowStart(s), e);
    HeadFirm(SlowStart(DropData(s)), e);
    ResendFirm(s, e);
  }

  /**
   * After a rest, and once a retransmission is through, sending starts with one segment: what goes out ends within one
   * segment of the last acknowledgment, and the threshold remembers the window there was.
   */
  lemma {:induction false} RestartsSmall(s: Snd, ev: OEvent, e: Env, str: seq<Byte>, closed: bool)
    requires Before(s, ev, str, closed) && Pushes(s, ev) && s.una <= s.nxt && |s.q| <= e.budget
    requires s.ostate.Retrans? || (s.ostate.Idle? && e.rested)
    ensures var r, was := Output(s, ev, e).s, if s.ostate.Retrans? then DropData(s).cwnd else s.cwnd;
      && r.cwnd == r.mss == s.mss && r.nxt <= Max(s.nxt, s.wndack + s.mss)
      && r.thresh == Max(s.thresh, was) && was >= s.cwnd
  {
    hide QueueOk, SndHead, DropData, RunsFrom, StopsAt;
    assert 0 < s.mss;
    PushSendsAll(s, ev, e, str, closed);
    DropFirm(s);
    DropKeepsRest(s);
    SndHeadKeeps(SlowStart(s), e);
    SndHeadKeeps(SlowStart(DropData(s)), e);
  }

  /** How many queued segments an acknowledgment up to `x` covers whole. */
  function Covered(q: seq<OutSeg>, x: int): nat {
    if |q| == 0 then 0 else (if q[0].End() <= x then 1 else 0) + Covered(q[1..], x)
  }

  lemma {:induction false} CoveredIsPrefix(q: seq<OutSeg>, write: int, x: int)
    requires Chain(q, write) && forall i :: 0 <= i < |q| ==> q[i].Len() > 0
    ensures Covered(q, x) == FirstPast(q, x)
  {
    if |q| > 0 { CoveredIsPrefix(q[1..], write, x); }
  }

  lemma {:induction false} DropCounts(s: Snd, str: seq<Byte>, closed: bool)
    requires QueueOk(s.q, s.isn, s.write, str, closed)
    ensures var d, n := DropData(s), Covered(s.q, s.una); d.nretrans == (if n > 0 then 0 else s.nretrans) && d.cwnd == Opened(s, n)
  {
    hide Opened, SumData;
    CoveredIsPrefix(s.q, s.write, s.una);
  }

  /**
   * Each acknowledged segment opens the congestion window, and one is enough to give all tries back; once everything
   * that was sent again is acknowledged, the window is small instead.
   */
  lemma {:induction false} AcksOpen(s: Snd, e: Env, str: seq<Byte>, closed: bool)
    requires Before(s, AckRcvd, str, closed) && !s.ostate.Idle?
    ensures var r, n := Output(s, AckRcvd, e).s, Covered(s.q, s.una);
      && r.nretrans == (if n > 0 then 0 else s.nretrans)
      && r.cwnd == (if Pushes(s, AckRcvd) then s.mss else Opened(s, n))
  {
    hide QueueOk, Counted, SndHead, Opened, DropData, Covered;
    DropCounts(s, str, closed);
    DropKeepsRest(s);
    SndHeadKeeps(SlowStart(DropData(s)), e);
  }

  // ---------------------------------------------------------------- one action

  lemma ApplyFirm(ep: Endpoint, ev: OEvent, e: Env)
    requires !ev.Timeout?
    ensures Firm(ep.snd, Apply(ep, Output(ep.snd, ev, e)).ep.snd)
  {
    hide Output, Window, Record;
    OutputFirm(ep.snd, ev, e);
  }

  lemma {:induction false} AckFirm(ep: Endpoint, p: Packet, update: bool, ie: InEnv)
    ensures Firm(ep.snd, TakeAck(ep, p, update, ie).ep.snd)
  {
    hide Output, Apply, Window, Record;
    var u := if update then SndWnd(ep.snd, p) else Stale;
    var ep1 := if p.ack && u.Update? then ep.(snd := u.s) else ep;
    var s1, s2 := ep1.snd.(una := p.ackno), ep1.snd.(dupacks := ep1.snd.dupacks + 1);
    ApplyFirm(ep1.(snd := s1), AckRcvd, ie.e1);
    ApplyFirm(ep1.(snd := s2), DupAck, ie.e1);
    ApplyIgnores(ep1, s1, Output(s1, AckRcvd, ie.e1));
    ApplyIgnores(ep1, s2, Output(s2, DupAck, ie.e1));
    var r := AckNumber(ep1, p, ep.snd.wnd, ie);
    if p.ack && u.Update? { ApplyFirm(r.ep, u.ev, ie.e2); }
  }

  lemma ApplyIgnores(ep: Endpoint, s: Snd, r: SndRes)
    ensures Apply(ep, r) == Apply(ep.(snd := s), r)
  {
  }

  /** Incoming data does not touch the send side. */
  lemma DataSparesSender(ep: Endpoint, p: Packet, ie: InEnv)
    ensures TakeData(ep, p, ie).ep.snd == ep.snd
  {
  }

  lemma {:induction false} QueueFirm(s: Snd, data: seq<Byte>, a: Ask, first: bool, mem: nat)
    requires s.mss > MAX_RETRY
    ensures Firm(s, Enqueue(s, data, a, first, mem).s)
    decreases |data|
  {
    if CanCombine(s, a) || mem > 0 {
      var n := Taken(s, data, a);
      if n < |data| {
        QueueFirm(Extend(s, data, a, first), data[n..], a, false, if CanCombine(s, a) then mem else mem - 1);
      }
    }
  }

  lemma SendQueuedFirm(ep: Endpoint, data: seq<Byte>, a: Ask, mem: nat, e: Env)
    ensures Firm(ep.snd, SendQueued(ep, Queue(ep, data, a, mem), e).ep.snd)
  {
    hide Output, Enqueue, Apply;
    if ep.snd.mss > MAX_RETRY { QueueFirm(ep.snd, data, a, true, mem); }
    var q := Queue(ep, data, a, mem);
    ApplyFirm(ep.(snd := q.s), Send, e);
  }

  lemma WriteFirm(ep: Endpoint, data: seq<Byte>, mem: nat, e: Env)
    ensures Firm(ep.snd, SendQueued(ep, Write(ep, data, mem), e).ep.snd)
  {
    hide Output, Queue, Apply, CanWrite;
    var n := Min(CanWrite(ep.snd, ep.st), |data|);
    if n > 0 { SendQueuedFirm(ep, data[..n], Ask(false, false, false), mem, e); }
  }

  lemma ListenFirm(ep: Endpoint, p: Packet, ie: InEnv)
    ensures Firm(ep.snd, InListen(ep, p, ie).ep.snd)
  {
    hide TakeData, Queue, SendQueued;
    var ep1 := ep.(st := SynRcvd, snd := Agreed(ep.snd.(wnd := WINDOW_FOR_SYN), Max(32, ie.mss)),
                   rcv := ep.rcv.(sync := true, nxt := p.seqno, wnd := p.seqno, read := p.seqno + 1, mss := Max(32, ie.rmss)));
    DataSparesSender(ep1, p, ie);
    SendQueuedFirm(TakeData(ep1, p, ie).ep, [], Ask(true, false, true), 1, ie.e1);
  }

  lemma SynSentFirm(ep: Endpoint, p: Packet, ie: InEnv)
    ensures Firm(ep.snd, InSynSent(ep, p, ie).ep.snd)
  {
    hide TakeAck, TakeData, PureAck;
    var ep1 := ep.(rcv := ep.rcv.(sync := true, nxt := p.seqno, wnd := p.seqno, read := p.seqno + 1));
    AckFirm(ep1, p, false, ie);
    var a := AfterSynAck(TakeAck(ep1, p, false, ie).ep, p, Max(32, ie.mss));
    DataSparesSender(a, p, ie);
    PureAckSparesSender(TakeData(a, p, ie).ep, ie.m3);
  }

  lemma PureAckSparesSender(ep: Endpoint, mem: bool)
    ensures PureAck(ep, mem).ep.snd == ep.snd
  {
  }

  lemma {:induction false} HandlerFirm(ep: Endpoint, p: Packet, ie: InEnv)
    ensures Firm(ep.snd, Dispatch(ep, p, ie).ep.snd)
  {
    hide Dispatch, InListen, InSynSent;
    DispatchOpens(ep, p, ie);
    if ep.st.Listen? { ListenFirm(ep, p, ie); }
    else if ep.st.SynSent? { SynSentFirm(ep, p, ie); }
    else if ep.st.SynRcvd? || ep.st.Established? || ep.st.FinWait1? || ep.st.FinWait2? { OpenFirm(ep, p, ie); }
    else { ClosedFirm(ep, p, ie); }
  }

  lemma DispatchOpens(ep: Endpoint, p: Packet, ie: InEnv)
    ensures ep.st.Listen? ==> Dispatch(ep, p, ie) == InListen(ep, p, ie)
    ensures ep.st.SynSent? ==> Dispatch(ep, p, ie) == InSynSent(ep, p, ie)
  {
    hide InListen, InSynSent;
  }

  lemma {:induction false} OpenFirm(ep: Endpoint, p: Packet, ie: InEnv)
    requires ep.st.SynRcvd? || ep.st.Established? || ep.st.FinWait1? || ep.st.FinWait2?
    ensures Firm(ep.snd, Dispatch(ep, p, ie).ep.snd)
  {
    hide TakeAck, TakeData;
    var update := ep.st.Established? || ep.st.FinWait1?;
    AckFirm(ep, p, update, ie);
    var r := TakeAck(ep, p, update, ie).ep;
    var r1 := r.(st := Established, snd := r.snd.(wnd := p.window, wndseq := p.seqno, wndack := p.ackno));
    DataSparesSender(if ep.st.SynRcvd? then r1 else r, p, ie);
  }

  lemma {:induction false} ClosedFirm(ep: Endpoint, p: Packet, ie: InEnv)
    requires ep.st.Closed? || ep.st.CloseWait? || ep.st.LastAck? || ep.st.Closing? || ep.st.TimeWait?
    ensures Firm(ep.snd, Dispatch(ep, p, ie).ep.snd)
  {
    hide TakeAck, TakeData;
    AckFirm(ep, p, ep.st.CloseWait?, ie);
    DataSparesSender(TakeAck(ep, p, false, ie).ep, p, ie);
  }

  lemma TimerFloor(ep: Endpoint, e: Env)
    requires Floor(ep.snd)
    ensures Floor(Apply(ep, TimerFires(ep.snd, e)).ep.snd)
  {
    hide Output, Window, Record;
    TimeoutFloor(ep.snd.(timer := false), e);
  }

  lemma ShutdownFirm(ep: Endpoint, mem: nat, e: Env)
    ensures Firm(ep.snd, Shutdown(ep, mem, e).ep.snd)
  {
    hide Queue, SendQueued;
    SendQueuedFirm(ep.(st := ClosingState(ep.st)), [], Ask(false, true, true), mem, e);
  }

  lemma DetachFirm(ep: Endpoint, mem: nat, e: Env, m: bool)
    ensures Firm(ep.snd, Detach(ep, mem, e, m).ep.snd)
  {
    hide Shutdown, Window, Record, Drop, MarkAll;
    ShutdownFirm(ep, mem, e);
  }

  /** Every action keeps the floor; only an expiring timer lowers the threshold. */
  lemma {:induction false} ActFirm(h: Host, wire: set<Packet>, a: Action)
    ensures Floor(h.ep.snd) ==> Floor(Act(h, wire, a).ep.snd)
    ensures !a.TimerExpires? ==> h.ep.snd.thresh <= Act(h, wire, a).ep.snd.thresh
  {
    hide Dispatch, Apply, TimerFires, Detach, Shutdown, PureAck, Write, Queue, SendQueued, Window, Record, Check, ReadCall, Readable;
    match a
    case Deliver(p, ie) => HandlerFirm(h.ep, Check(h.ep.rcv, h.ep.st, Cut(p)).p, ie);
    case DoConnect(rmss, e) =>
      var ep1 := h.ep.(snd := h.ep.snd.(wnd := WINDOW_FOR_SYN), rcv := h.ep.rcv.(mss := Max(32, rmss)));
      SendQueuedFirm(ep1, [], Ask(true, false, false), 1, e);
    case DoWrite(data, mem, e) => WriteFirm(h.ep, data, mem, e);
    case TimerExpires(e) => if Floor(h.ep.snd) { TimerFloor(h.ep, e); }
    case DoShutdown(mem, e) => ShutdownFirm(h.ep, mem, e);
    case DoDetach(mem, e, m) => DetachFirm(h.ep, mem, e, m);
    case DelayedAck(m) => PureAckSparesSender(h.ep, m);
    case DoRead(size, m) => PureAckSparesSender(h.ep.(rcv := ReadCall(h.ep.rcv, size).r), m);
    case _ =>
  }

  /** In every reachable state the congestion window is at least one segment and the threshold at least two. */
  lemma {:induction false} FloorAlways(s: Sys, run: seq<Event>)
    requires Fresh(s)
    ensures var t := Exec(s, run); Floor(t.a.ep.snd) && Floor(t.b.ep.snd)
    decreases |run|
  {
    hide Act, Floor;
    if |run| == 0 {
      FreshFloor(s.a);
      FreshFloor(s.b);
    } else {
      var t, e := Exec(s, run[..|run| - 1]), run[|run| - 1];
      FloorAlways(s, run[..|run| - 1]);
      if e.atA { ActFirm(t.a, t.b.wire, e.act); } else { ActFirm(t.b, t.a.wire, e.act); }
    }
  }

  lemma FreshFloor(h: Host)
    requires FreshHost(h)
    ensures Floor(h.ep.snd)
  {
  }
}
