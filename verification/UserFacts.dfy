/** The user's calls and the timers keep the invariant; the theorems about every run. */
module UserFacts {
  import opened TcpTypes
  import opened Stream
  import opened TcpSend
  import opened SendFacts
  import opened RecvQueue
  import opened TcpRecv
  import opened ReceiveFacts
  import opened TcpEndpoint
  import opened EndpointFacts
  import opened TcpSystem
  import opened SystemFacts
  import opened RunFacts
  import opened OpenFacts

  /** A step that sends nothing and leaves the send side alone. */
  lemma {:induction false} LittleSafe(h: Host, h': Host, g: Host)
    requires HostOk(h) && Heard(h, g) && h.ep.snd.una <= Front(g, h.isn)
    requires h' == h.(ep := h'.ep, got := h'.got) && h'.ep.snd == h.ep.snd && HostOk(h') && Heard(h', g)
    requires h'.ep.rcv.nxt == h.ep.rcv.nxt && h'.ep.rcv.sync == h.ep.rcv.sync
    ensures Safe(h, h', g)
  {
  }

  // ---------------------------------------------------------------- opening

  lemma {:induction false} ConnectSafe(h: Host, g: Host, rmss: int, e: Env)
    requires HostOk(h) && Heard(h, g) && h.ep.snd.una <= Front(g, h.isn)
    requires h.ep.st.Closed? && h.ep.sock && h.ep.snd.write == h.isn
    ensures Safe(h, Act(h, g.wire, DoConnect(rmss, e)), g)
  {
    hide QueueOk, InStream;
    var ep1 := h.ep.(snd := h.ep.snd.(wnd := WINDOW_FOR_SYN), rcv := h.ep.rcv.(mss := Max(32, rmss)));
    WindowFieldsFree(h.ep.snd, ep1.snd, [], false);
    UnopenedIsEmpty(h.ep.snd);
    QueueSynCarries(ep1, false, e);
    var q := Queue(ep1, [], Ask(true, false, false), 1);
    assert q.s.q == [OutSeg(h.isn, true, [], false, false, h.ep.snd.mss - MAX_RETRY)];
    FirstSyn(q.s, e);
    var r := SendQueued(ep1, q, e);
    assert r.ep.snd == Output(q.s, Send, e).s && r.ep.rcv == ep1.rcv;
    assert forall i :: 0 <= i < |r.out| ==> !r.out[i].ack;
    ConnectedSafe(h, g, r);
  }

  lemma {:induction false} ConnectedSafe(h: Host, g: Host, r: Res)
    requires HostOk(h) && Heard(h, g) && h.ep.snd.una == h.isn && h.ep.snd.una <= Front(g, h.isn) && h.ep.snd.write == h.isn && h.ep.sock
    requires EpOk(r.ep, [], false) && SynWait(r.ep.snd) && r.ep.snd.isn == h.isn && r.ep.snd.write == h.isn + 1
    requires h.ep.snd.max <= r.ep.snd.max && r.ep.rcv == h.ep.rcv.(mss := r.ep.rcv.mss) && r.ep.sock && !r.ep.delack
    requires AllOut(r.out, r.ep, [], false) && NoAcks(r.out)
    ensures Safe(h, Took(h, r.(ep := r.ep.(st := SynSent))), g)
  {
    var h' := Took(h, r.(ep := r.ep.(st := SynSent)));
    AllOutLater(r.out, r.ep, h'.ep, [], false);
    TookSends(h, h', g, r.out);
  }

  // ---------------------------------------------------------------- writing and closing

  /** More has been queued, and perhaps the state relabelled. */
  lemma {:induction false} GrownSafe(h: Host, g: Host, h': Host, out: seq<Packet>)
    requires HostOk(h) && Heard(h, g) && h.ep.st.Synchronised() && h.ep.snd.una <= Front(g, h.isn) && !h.closed
    requires h'.isn == h.isn && h'.got == h.got && h'.wire == h.wire + set i | 0 <= i < |out| :: out[i]
    requires h.sent <= h'.sent && EpOk(h'.ep, h'.sent, h'.closed) && CloseOk(h')
    requires h'.ep.snd.isn == h.isn < h'.ep.snd.write && h'.ep.snd.una == h.ep.snd.una && h.ep.snd.max <= h'.ep.snd.max
    requires h'.ep.st.Synchronised() && h'.ep.sock == h.ep.sock && SameButWindow(h.ep.rcv, h'.ep.rcv)
    requires AllOut(out, h'.ep, h'.sent, h'.closed)
    requires !h.ep.sock ==> h'.ep.st == h.ep.st
    ensures Safe(h, h', g)
  {
    FollowsHeard(h, h', h.ep.rcv, g);
    TookSends(h, h', g, out);
  }

  lemma {:induction false} WriteSafe(h: Host, g: Host, data: seq<Byte>, mem: nat, e: Env)
    requires HostOk(h) && Heard(h, g) && h.ep.snd.una <= Front(g, h.isn) && h.ep.sock && h.ep.st.Connected()
    ensures Safe(h, Act(h, g.wire, DoWrite(data, mem, e)), g)
  {
    hide QueueOk, InStream, Genuine, Output, Enqueue;
    var n := Min(CanWrite(h.ep.snd, h.ep.st), |data|);
    var q := Write(h.ep, data, mem);
    if n > 0 {
      EnqueueKeeps(h.ep.snd, data[..n], true, mem, h.sent);
      assert data[..n][..q.taken] == data[..q.taken];
    }
    if n > 0 && q.taken > 0 {
      SendQueuedCarries(h.ep, q, e, h.sent + data[..q.taken], false);
      var r := SendQueued(h.ep, q, e);
      GrownSafe(h, g, Took(h, r).(sent := h.sent + data[..q.taken]), r.out);
    } else {
      StayCarries(h.ep, [], h.sent, h.closed, h.ep.snd.una);
      CarriedSafe(h, g, Res(h.ep, []));
      assert h.sent + data[..0] == h.sent;
    }
  }

  /** The half close, whether or not the FIN finds a segment. */
  lemma {:induction false} ShutdownSafe(h: Host, g: Host, mem: nat, e: Env)
    requires HostOk(h) && Heard(h, g) && h.ep.snd.una <= Front(g, h.isn) && h.ep.sock
    ensures Safe(h, NoteFin(h, Took(h, Shutdown(h.ep, mem, e)), mem), g)
    ensures Shutdown(h.ep, mem, e).ep.st == ClosingState(h.ep.st)
  {
    var r := Shutdown(h.ep, mem, e);
    if ClosingState(h.ep.st) == h.ep.st {
      OnlyResetSafe(h, g, Packet(0, [], false, false, true, false, 0, 0), true, []);
    } else if FinQueued(h, mem) {
      FinSafe(h, g, mem, e);
    } else {
      var h' := Took(h, r).(finLost := true);
      FinNeedsMemory(h.ep, mem);
      GrownSafe(h, g, h', []);
    }
  }

  lemma {:induction false} FinNeedsMemory(ep: Endpoint, mem: nat)
    requires ep.snd.mss > MAX_RETRY
    ensures Queue(ep, [], Ask(false, true, true), mem).ok <==> CanCombine(ep.snd, Ask(false, true, true)) || mem > 0
    ensures Queue(ep, [], Ask(false, true, true), mem).taken == 0
  {
  }

  lemma {:induction false} FinSafe(h: Host, g: Host, mem: nat, e: Env)
    requires HostOk(h) && Heard(h, g) && h.ep.snd.una <= Front(g, h.isn) && h.ep.sock
    requires ClosingState(h.ep.st) != h.ep.st && FinQueued(h, mem)
    ensures Safe(h, Took(h, Shutdown(h.ep, mem, e)).(closed := true), g)
    ensures Shutdown(h.ep, mem, e).ep.st == ClosingState(h.ep.st)
  {
    hide QueueOk, InStream;
    var ep1 := h.ep.(st := ClosingState(h.ep.st));
    var q := Queue(ep1, [], Ask(false, true, true), mem);
    FinNeedsMemory(ep1, mem);
    FinKeeps(h.ep.snd, mem, h.sent);
    SendQueuedCarries(ep1, q, e, h.sent, true);
    var r := SendQueued(ep1, q, e);
    GrownSafe(h, g, Took(h, r).(closed := true), r.out);
  }

  /** Two safe steps make one. */
  lemma {:induction false} SafeTwice(h: Host, h1: Host, h2: Host, g: Host)
    requires Safe(h, h1, g) && Safe(h1, h2, g)
    ensures Safe(h, h2, g)
  {
    forall k | k in h2.wire ensures k in h.wire || OnWire(k, h2, g) {
      if k in h1.wire && k !in h.wire { WireLater(k, h1, h2, g); }
    }
  }

  lemma {:induction false} TookTwice(h: Host, a: Res, b: Res)
    ensures Took(Took(h, a), b) == Took(h, After(a, b))
  {
    var sa, sb := set i | 0 <= i < |a.out| :: a.out[i], set i | 0 <= i < |b.out| :: b.out[i];
    var sc := set i | 0 <= i < |a.out + b.out| :: (a.out + b.out)[i];
    forall k ensures k in sc <==> k in sa || k in sb {
      if k in sa { var i :| 0 <= i < |a.out| && k == a.out[i]; assert (a.out + b.out)[i] == k; }
      if k in sb { var i :| 0 <= i < |b.out| && k == b.out[i]; assert (a.out + b.out)[i + |a.out|] == k; }
    }
  }

  /** Throwing the unread data away and letting go of the socket. */
  lemma {:induction false} LetGoSafe(h: Host, g: Host, q: seq<Seg>, cur: int, read: int)
    requires HostOk(h) && Heard(h, g) && h.ep.snd.una <= Front(g, h.isn) && h.ep.st.Synchronised()
    requires !h.ep.st.SynRcvd? && !h.ep.st.Established? && !h.ep.st.CloseWait?
    ensures Safe(h, Took(h, Res(h.ep.(sock := false, rcv := h.ep.rcv.(q := q, cur := cur, read := read)), [])), g)
  {
    hide QueueOk, InStream, Genuine;
    TookSends(h, Took(h, Res(h.ep.(sock := false, rcv := h.ep.rcv.(q := q, cur := cur, read := read)), [])), g, []);
  }

  lemma {:induction false} PureAckSafe(h: Host, g: Host, m: bool)
    requires HostOk(h) && Heard(h, g) && h.ep.snd.una <= Front(g, h.isn) && h.ep.st.Synchronised()
    ensures Safe(h, Took(h, PureAck(h.ep, m)), g)
  {
    PureAckCarries(h.ep, m, h.sent, h.closed, h.ep.snd.una);
    CarriedSafe(h, g, PureAck(h.ep, m));
  }

  lemma {:induction false} DetachSafe(h: Host, g: Host, mem: nat, e: Env, m: bool)
    requires HostOk(h) && Heard(h, g) && h.ep.snd.una <= Front(g, h.isn) && h.ep.sock && h.ep.st.Synchronised()
    ensures Safe(h, NoteFin(h, Took(h, Detach(h.ep, mem, e, m)), mem), g)
  {
    hide QueueOk, InStream;
    var r := Shutdown(h.ep, mem, e);
    var h1 := NoteFin(h, Took(h, r), mem);
    ShutdownSafe(h, g, mem, e);
    DiscardSafe(h1, g, m);
    SafeTwice(h, h1, Took(h1, Discard(h1.ep, m)), g);
    TookTwice(h, r, Discard(r.ep, m));
  }

  lemma {:induction false} DiscardSafe(h: Host, g: Host, m: bool)
    requires HostOk(h) && Heard(h, g) && h.ep.snd.una <= Front(g, h.isn) && h.ep.st.Synchronised()
    requires !h.ep.st.SynRcvd? && !h.ep.st.Established? && !h.ep.st.CloseWait?
    ensures Safe(h, Took(h, Discard(h.ep, m)), g)
  {
    var d := Drop(MarkAll(h.ep.rcv.q), h.ep.rcv.cur, h.ep.rcv.nxt);
    var ep1 := h.ep.(sock := false, rcv := h.ep.rcv.(q := d.q, cur := d.cur, read := d.read));
    LetGoSafe(h, g, d.q, d.cur, d.read);
    var h2 := Took(h, Res(ep1, []));
    FinalAckSafe(h2, g, m, Discard(h.ep, m));
    SafeTwice(h, h2, Took(h2, Discard(h.ep, m)), g);
    TookTwice(h, Res(ep1, []), Discard(h.ep, m));
    assert [] + Discard(h.ep, m).out == Discard(h.ep, m).out;
  }

  lemma {:induction false} FinalAckSafe(h: Host, g: Host, m: bool, f: Res)
    requires HostOk(h) && Heard(h, g) && h.ep.snd.una <= Front(g, h.isn) && h.ep.st.Synchronised()
    requires f == PureAck(h.ep, m) || f == Res(h.ep, [])
    ensures Safe(h, Took(h, f), g)
  {
    PureAckSafe(h, g, m);
    StayCarries(h.ep, [], h.sent, h.closed, h.ep.snd.una);
    CarriedSafe(h, g, Res(h.ep, []));
  }

  // ---------------------------------------------------------------- reading

  lemma {:induction false} ReadSafe(h: Host, g: Host, size: nat, m: bool)
    requires HostOk(h) && Heard(h, g) && h.ep.snd.una <= Front(g, h.isn)
    requires h.ep.sock && h.ep.st.Synchronised() && size > 0 && Readable(h.ep.rcv)
    ensures Safe(h, Act(h, g.wire, DoRead(size, m)), g)
  {
    hide QueueOk, InStream, ReadCall, Normal, IsEdge;
    var res := ReadCall(h.ep.rcv, size);
    ReadCallFollowsStream(h.ep.rcv, size, g.isn + 1, Shown(g), FinShown(g));
    var h1 := h.(ep := h.ep.(rcv := res.r), got := h.got + res.bytes);
    GotMore(h, g, h1, res);
    ReadThenAck(h, g, h1, m);
    assert Took(h1, AnnounceRead(h1.ep, m)) == Took(h, AnnounceRead(h1.ep, m)).(got := h.got + res.bytes);
  }

  lemma {:induction false} ReadThenAck(h: Host, g: Host, h1: Host, m: bool)
    requires HostOk(h) && Heard(h, g) && Safe(h, h1, g) && h1.ep.st.Synchronised() && h1.ep.snd == h.ep.snd
    requires h.ep.snd.una <= Front(g, h.isn) && h1.isn == h.isn
    ensures Safe(h, Took(h1, AnnounceRead(h1.ep, m)), g)
  {
    var f := AnnounceRead(h1.ep, m);
    FinalAckSafe(h1, g, m, f);
    SafeTwice(h, h1, Took(h1, f), g);
  }

  lemma {:induction false} GotMore(h: Host, g: Host, h1: Host, res: Read)
    requires HostOk(h) && Heard(h, g) && h.ep.sock && h.ep.st.Synchronised() && h.ep.snd.una <= Front(g, h.isn)
    requires h1 == h.(ep := h.ep.(rcv := res.r), got := h.got + res.bytes)
    requires var base, str := g.isn + 1, Shown(g);
      && h.ep.rcv.read <= res.r.read <= base + |str| && res.bytes == str[h.ep.rcv.read - base..res.r.read - base]
      && Agrees(res.r, base, str, FinShown(g))
      && res.r == h.ep.rcv.(q := res.r.q, cur := res.r.cur, read := res.r.read)
    ensures Safe(h, h1, g)
  {
    assert h1.got == Shown(g)[..|h1.got|];
    LittleSafe(h, h1, g);
  }

  // ---------------------------------------------------------------- timers

  lemma {:induction false} TimerSafe(h: Host, g: Host, e: Env)
    requires HostOk(h) && Heard(h, g) && h.ep.snd.una <= Front(g, h.isn) && h.ep.snd.timer && !h.ep.st.Closed?
    ensures Safe(h, Took(h, Apply(h.ep, TimerFires(h.ep.snd, e))), g)
  {
    hide InStream;
    var s := h.ep.snd.(timer := false);
    var r := TimerFires(h.ep.snd, e);
    TimerFine(h, e);
    if h.ep.st.SynSent? { SynRetransmitted(h.ep.snd, e); }
    if r.dead {
      GiveUpSafe(h, g, s, r);
    } else {
      ApplyCarries(h.ep, s, r, h.sent, h.closed, h.ep.snd.una);
      if h.ep.st.SynSent? {
        StampKeepsNoAcks(r.out, h.ep.rcv.nxt, Window(h.ep.rcv, h.ep.st));
        WaitingSafe(h, g, Apply(h.ep, r));
      } else {
        CarriedSafe(h, g, Apply(h.ep, r));
      }
    }
  }

  lemma {:induction false} StampKeepsNoAcks(out: seq<Packet>, ackno: int, window: int)
    requires NoAcks(out)
    ensures NoAcks(Stamp(out, ackno, window))
  {
  }

  lemma {:induction false} TimerFine(h: Host, e: Env)
    requires HostOk(h) && h.ep.snd.timer && !h.ep.st.Closed?
    ensures Fine(h.ep.snd.(timer := false), TimerFires(h.ep.snd, e), h.sent, h.closed)
    ensures h.isn < h.ep.snd.write && (h.ep.st.SynSent? || h.ep.st.Synchronised())
    ensures Pointers(TimerFires(h.ep.snd, e).s)
  {
    hide QueueOk, InStream, Genuine, Output;
    var s := h.ep.snd.(timer := false);
    if h.ep.snd.write == h.isn { UnopenedIsEmpty(h.ep.snd); }
    OutputFine(s, Timeout, e, h.sent, h.closed);
    TimeoutPointers(s, e, h.sent, h.closed);
  }

  lemma {:induction false} TimeoutPointers(s: Snd, e: Env, str: seq<Byte>, closed: bool)
    requires Before(s, Timeout, str, closed)
    ensures Pointers(Output(s, Timeout, e).s)
  {
    hide QueueOk, InStream, Genuine, SndHead;
    OutputFine(s, Timeout, e, str, closed);
    if s.ostate.Persist? && s.wnd > 0 {
      SndHeadMoves(s.(wndmax := s.wnd), e, str, closed);
    }
  }

  lemma {:induction false} GiveUpSafe(h: Host, g: Host, s: Snd, r: SndRes)
    requires HostOk(h) && Heard(h, g) && h.ep.snd.una <= Front(g, h.isn) && h.isn < h.ep.snd.write
    requires s == h.ep.snd.(timer := false) && Fine(s, r, h.sent, h.closed) && r.dead && Pointers(r.s)
    requires !h.ep.rcv.sync ==> NoAcks(r.out)
    ensures Safe(h, Took(h, Apply(h.ep, r)), g)
  {
    hide QueueOk, InStream;
    var f := Apply(h.ep, r);
    StampedOut(s, r, f.ep, h.ep.rcv.nxt, Window(h.ep.rcv, h.ep.st), h.sent, h.closed);
    TookSends(h, Took(h, f), g, f.out);
  }

  lemma {:induction false} WaitingSafe(h: Host, g: Host, r: Res)
    requires HostOk(h) && Heard(h, g) && h.ep.snd.una <= Front(g, h.isn) && h.ep.st.SynSent?
    requires Carried(h.ep, r, h.sent, h.closed, h.ep.snd.una) && r.ep.rcv == h.ep.rcv && SynWait(r.ep.snd) && NoAcks(r.out)
    requires !r.ep.delack
    ensures Safe(h, Took(h, r), g)
  {
    TookSends(h, Took(h, r), g, r.out);
  }

  // ---------------------------------------------------------------- every action, every run

  lemma {:induction false} BufferSafe(h: Host, g: Host, max: int)
    requires HostOk(h) && Heard(h, g) && h.ep.snd.una <= Front(g, h.isn)
    ensures Safe(h, h.(ep := h.ep.(rcv := h.ep.rcv.(max := max))), g)
  {
    LittleSafe(h, h.(ep := h.ep.(rcv := h.ep.rcv.(max := max))), g);
  }

  lemma {:induction false} DeliverSafe(h: Host, g: Host, p: Packet, ie: InEnv)
    requires HostOk(h) && Link(h, g) && Link(g, h) && OnWire(p, g, h) && (h.ep.sock || h.ep.st.Closed? || h.ep.st.Synchronised())
    ensures Safe(h, Took(h, Input(h.ep, p, ie)), g)
  {
    hide QueueOk, InStream;
    if h.ep.st.Synchronised() {
      DeliverSynced(h, g, p, ie);
    } else {
      OpeningInput(h.ep, p, ie);
      match h.ep.st
      case Listen => DeliverListen(h, g, p, ie);
      case SynSent => DeliverSynSent(h, g, p, ie);
      case Closed => OnlyResetSafe(h, g, p, ie.m1, SndRst(p, ie.m1));
    }
  }

  /** Before the peer's SYN every segment passes the acceptance test unchanged. */
  lemma {:induction false} OpeningInput(ep: Endpoint, p: Packet, ie: InEnv)
    requires !ep.st.Synchronised()
    ensures ep.st.Closed? ==> Input(ep, p, ie) == Res(ep, SndRst(p, ie.m1))
    ensures ep.st.Listen? ==> Input(ep, p, ie) == InListen(ep, p, ie)
    ensures ep.st.SynSent? ==> Input(ep, p, ie) == InSynSent(ep, p, ie)
  {
  }

  lemma {:induction false} DetachEarlySafe(h: Host, g: Host, mem: nat, e: Env, m: bool)
    requires HostOk(h) && Heard(h, g) && h.ep.snd.una <= Front(g, h.isn) && !h.ep.st.Synchronised()
    ensures Safe(h, Took(h, Detach(h.ep, mem, e, m)), g)
  {
    var h1 := Took(h, Res(Reset(h.ep), []));
    ResetSafe(h, g);
    LittleSafe(h1, h1.(ep := h1.ep.(sock := false)), g);
    SafeTwice(h, h1, h1.(ep := h1.ep.(sock := false)), g);
  }
}
