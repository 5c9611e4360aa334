/** What holds in every state that two hosts and the network between them can reach. */
module RunTheorems {
  import opened TcpTypes
  import opened Stream
  import opened SendFacts
  import opened TcpRecv
  import opened TcpEndpoint
  import opened TcpSystem
  import opened SystemFacts
  import opened RunFacts
  import opened UserFacts

  // ---------------------------------------------------------------- every action, possible or not

  lemma {:induction false} OpenActs(h: Host, g: Host, a: Action)
    requires HostOk(h) && Heard(h, g) && h.ep.snd.una <= Front(g, h.isn) && (a.DoConnect? || a.DoListen?)
    ensures Safe(h, Act(h, g.wire, a), g)
  {
    LittleSafe(h, h, g);
    if h.ep.st.Closed? && h.ep.sock && h.ep.snd.write == h.isn {
      match a
      case DoConnect(rmss, e) => ConnectSafe(h, g, rmss, e);
      case DoListen => LittleSafe(h, h.(ep := h.ep.(st := Listen)), g);
    }
  }

  lemma {:induction false} DeliverActs(h: Host, g: Host, p: Packet, ie: InEnv)
    requires HostOk(h) && Link(h, g) && Link(g, h)
    ensures Safe(h, Act(h, g.wire, Deliver(p, ie)), g)
  {
    LittleSafe(h, h, g);
    if p in g.wire {
      assert OnWire(p, g, h);
      CutOnWire(p, g, h);
      DeliverSafe(h, g, Cut(p), ie);
    }
  }

  lemma {:induction false} DataActs(h: Host, g: Host, a: Action)
    requires HostOk(h) && Heard(h, g) && h.ep.snd.una <= Front(g, h.isn) && (a.DoWrite? || a.DoRead?)
    ensures Safe(h, Act(h, g.wire, a), g)
  {
    LittleSafe(h, h, g);
    match a
    case DoWrite(data, mem, e) => if h.ep.sock && h.ep.st.Connected() { WriteSafe(h, g, data, mem, e); }
    case DoRead(size, m) =>
      if h.ep.sock && h.ep.st.Synchronised() && size > 0 && Readable(h.ep.rcv) { ReadSafe(h, g, size, m); }
  }

  lemma {:induction false} TimerActs(h: Host, g: Host, a: Action)
    requires HostOk(h) && Heard(h, g) && h.ep.snd.una <= Front(g, h.isn) && (a.TimerExpires? || a.DelayedAck? || a.DeleteTimer?)
    ensures Safe(h, Act(h, g.wire, a), g)
  {
    LittleSafe(h, h, g);
    match a
    case TimerExpires(e) => if h.ep.snd.timer && !h.ep.st.Closed? { TimerSafe(h, g, e); }
    case DelayedAck(m) => DelayedAckSafe(h, g, m);
    case DeleteTimer =>
      if h.ep.st.FinWait2? || h.ep.st.TimeWait? { LittleSafe(h, h.(ep := h.ep.(st := Closed)), g); }
  }

  /** An acknowledgment is delayed only by a synchronised host. */
  lemma {:induction false} DelayedAckSafe(h: Host, g: Host, m: bool)
    requires HostOk(h) && Heard(h, g) && h.ep.snd.una <= Front(g, h.isn)
    ensures Safe(h, Act(h, g.wire, DelayedAck(m)), g)
  {
    LittleSafe(h, h, g);
    if h.ep.delack && h.ep.st.Synchronised() { PureAckSafe(h, g, m); }
  }

  lemma {:induction false} CloseActs(h: Host, g: Host, a: Action)
    requires HostOk(h) && Heard(h, g) && h.ep.snd.una <= Front(g, h.isn) && (a.DoShutdown? || a.DoDetach? || a.SetRcvBuf?)
    ensures Safe(h, Act(h, g.wire, a), g)
  {
    LittleSafe(h, h, g);
    match a
    case DoShutdown(mem, e) => if h.ep.sock { ShutdownSafe(h, g, mem, e); }
    case DoDetach(mem, e, m) =>
      if h.ep.sock {
        if h.ep.st.Synchronised() { DetachSafe(h, g, mem, e, m); } else { DetachEarlySafe(h, g, mem, e, m); }
      }
    case SetRcvBuf(bytes) => BufferSafe(h, g, Max(4096, Min(MAX_SPACE, bytes)));
  }

  lemma {:induction false} ActSafe(h: Host, g: Host, a: Action)
    requires HostOk(h) && Link(h, g) && Link(g, h)
    ensures Safe(h, Act(h, g.wire, a), g)
  {
    if a.DoConnect? || a.DoListen? { OpenActs(h, g, a); }
    else if a.Deliver? { DeliverActs(h, g, a.p, a.ie); }
    else if a.DoWrite? || a.DoRead? { DataActs(h, g, a); }
    else if a.TimerExpires? || a.DelayedAck? || a.DeleteTimer? { TimerActs(h, g, a); }
    else { CloseActs(h, g, a); }
  }

  lemma {:induction false} HalfStep(h: Host, g: Host, a: Action)
    requires HostOk(h) && HostOk(g) && Link(h, g) && Link(g, h)
    ensures var h' := Act(h, g.wire, a); HostOk(h') && Link(h', g) && Link(g, h')
  {
    ActSafe(h, g, a);
    SenderHalf(h, Act(h, g.wire, a), g);
    ReceiverHalf(g, h, Act(h, g.wire, a));
  }

  lemma {:induction false} FreshInv(s: Sys)
    requires Fresh(s)
    ensures Inv(s)
  {
  }

  /** The invariant holds in every state that any run can reach. */
  lemma {:induction false} InvAlways(s: Sys, run: seq<Event>)
    requires Fresh(s)
    ensures Inv(Exec(s, run))
  {
    if |run| == 0 {
      FreshInv(s);
    } else {
      InvAlways(s, run[..|run| - 1]);
      InvStep(Exec(s, run[..|run| - 1]), run[|run| - 1]);
    }
  }

  lemma {:induction false} InvStep(t: Sys, e: Event)
    requires Inv(t)
    ensures Inv(Step(t, e))
  {
    if e.atA { HalfStep(t.a, t.b, e.act); } else { HalfStep(t.b, t.a, e.act); }
  }

  /** End-to-end safety: what a user has read is a prefix of what the other user has written. */
  lemma {:induction false} ReadIsPrefixOfWritten(s: Sys, run: seq<Event>)
    requires Fresh(s)
    ensures var t := Exec(s, run); t.b.got <= t.a.sent && t.a.got <= t.b.sent
  {
    InvAlways(s, run);
  }

  /** What one end believes about the other: acknowledged, received, sent and written numbers are in order. */
  ghost predicate InOrder(p: Host, q: Host) {
    && p.ep.snd.una <= p.ep.snd.max <= p.ep.snd.write <= p.isn + 1 + |p.sent| + Bit(p.closed)
    && (q.ep.rcv.sync ==> p.ep.snd.una <= q.ep.rcv.nxt <= p.ep.snd.max)
    && (!q.ep.rcv.sync ==> p.ep.snd.una == p.isn)
  }

  /** Nothing is acknowledged before it is received and nothing is received before it is sent. */
  lemma {:induction false} NumbersStayInOrder(s: Sys, run: seq<Event>)
    requires Fresh(s)
    ensures var t := Exec(s, run); InOrder(t.a, t.b) && InOrder(t.b, t.a)
  {
    InvAlways(s, run);
    var t := Exec(s, run);
    LinkInOrder(t.a, t.b);
    LinkInOrder(t.b, t.a);
  }

  lemma {:induction false} LinkInOrder(p: Host, q: Host)
    requires HostOk(p) && Link(p, q)
    ensures InOrder(p, q)
  {
  }

  /** A packet that is not stream content, such as a probe, is rejected whenever it arrives. */
  lemma {:induction false} ProbesAreNeverAccepted(s: Sys, run: seq<Event>, t: Sys, k: Packet)
    requires Fresh(s) && t == Exec(s, run)
    requires k in t.a.wire && !k.rst && t.b.ep.st.Synchronised() && !Genuine(k, t.a.isn + 1, t.a.sent, t.a.closed)
    ensures !Check(t.b.ep.rcv, t.b.ep.st, k).ok
  {
    InvAlways(s, run);
    StrangeInInv(t, k);
  }

  lemma {:induction false} StrangeInInv(t: Sys, k: Packet)
    requires Inv(t)
    requires k in t.a.wire && !k.rst && t.b.ep.st.Synchronised() && !Genuine(k, t.a.isn + 1, t.a.sent, t.a.closed)
    ensures !Check(t.b.ep.rcv, t.b.ep.st, k).ok
  {
    var p, q := t.a, t.b;
    StrangeIsRejected(k, p, q);
  }

  lemma {:induction false} StrangeIsRejected(k: Packet, p: Host, q: Host)
    requires Link(p, q) && HostOk(q) && k in p.wire
    requires !k.rst && q.ep.st.Synchronised() && !Genuine(k, p.isn + 1, p.sent, p.closed)
    ensures !Check(q.ep.rcv, q.ep.st, k).ok
  {
    assert OnWire(k, p, q);
    if Genuine(k, p.isn + 1, Shown(p), FinShown(p)) { ShownIsSent(k, p); }
    ProbeIsRejected(q.ep.rcv, q.ep.st, k);
  }

  lemma {:induction false} ShownIsSent(k: Packet, h: Host)
    requires Genuine(k, h.isn + 1, Shown(h), FinShown(h))
    ensures Genuine(k, h.isn + 1, h.sent, h.closed)
  {
    if |k.data| > 0 {
      var o := k.seqno + Bit(k.syn) - h.isn - 1;
      assert Shown(h)[o..o + |k.data|] == h.sent[o..o + |k.data|];
    }
  }

  /** In every reachable state of a live connection the retransmission queue is in order and no timer is lost. */
  lemma {:induction false} QueueAndTimerAlways(s: Sys, run: seq<Event>)
    requires Fresh(s)
    ensures var t := Exec(s, run);
      && (!t.a.ep.st.Closed? ==> SndOk(t.a.ep.snd, t.a.sent, t.a.closed) && TimerOk(t.a.ep.snd))
      && (!t.b.ep.st.Closed? ==> SndOk(t.b.ep.snd, t.b.sent, t.b.closed) && TimerOk(t.b.ep.snd))
  {
    InvAlways(s, run);
  }

  /** What the closing states of `h` imply about both streams, given that its FIN found a segment. */
  ghost predicate ClosingMeans(h: Host, g: Host) {
    var st := h.ep.st;
    && (st.CloseWait? || st.LastAck? || st.Closing? || st.TimeWait? ==>
         g.closed && h.ep.rcv.nxt == g.isn + 2 + |g.sent|)
    && (st.FinWait1? || st.FinWait2? || st.Closing? || st.LastAck? || st.TimeWait? ==>
         h.closed && h.ep.snd.write == h.isn + 2 + |h.sent|)
    && (st.FinWait2? || st.TimeWait? ==>
         h.ep.snd.una == h.isn + 2 + |h.sent| && g.ep.rcv.sync && g.ep.rcv.Finished())
  }

  /** The closing states mean what section 3.5 of RFC 793 says, whenever no FIN was lost for want of a segment. */
  lemma {:induction false} ClosingMeansWhatItSays(s: Sys, run: seq<Event>)
    requires Fresh(s)
    ensures var t := Exec(s, run);
      (!t.a.finLost ==> ClosingMeans(t.a, t.b)) && (!t.b.finLost ==> ClosingMeans(t.b, t.a))
  {
    InvAlways(s, run);
    var t := Exec(s, run);
    if !t.a.finLost { ClosingFromInv(t.a, t.b); }
    if !t.b.finLost { ClosingFromInv(t.b, t.a); }
  }

  lemma {:induction false} ClosingFromInv(h: Host, g: Host)
    requires HostOk(h) && HostOk(g) && Link(h, g) && Link(g, h) && !h.finLost
    ensures ClosingMeans(h, g)
  {
    if h.ep.rcv.sync && h.ep.rcv.Finished() { PeerFinConsumed(h, g); }
    if h.closed && h.ep.snd.write <= h.ep.snd.una { OwnFinAcked(h, g); }
  }

  lemma {:induction false} PeerFinConsumed(h: Host, g: Host)
    requires Heard(h, g) && HostOk(g) && h.ep.rcv.sync && h.ep.rcv.Finished()
    ensures g.closed && h.ep.rcv.nxt == g.isn + 2 + |g.sent|
  {
  }

  lemma {:induction false} OwnFinAcked(h: Host, g: Host)
    requires HostOk(h) && Heard(g, h) && h.ep.snd.una <= Front(g, h.isn) && h.closed && h.ep.snd.write <= h.ep.snd.una
    ensures h.ep.snd.una == h.isn + 2 + |h.sent| && g.ep.rcv.sync && g.ep.rcv.Finished()
  {
  }
}
