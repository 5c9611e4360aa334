/** The control block as the program runs it: every handler updates the block in place. */
module ControlBlock {
  import opened TcpTypes
  import opened TcpSend
  import opened RecvQueue
  import opened TcpRecv
  import opened TcpEndpoint
  import opened SendSide
  import opened ReceiveSide

  class Tcb {
    const snd: OutQueue
    const rcv: RecvSide
    var st: State
    var sock: bool
    var delack: bool

    ghost function View(): Endpoint
      reads this, snd, rcv, rcv.queue
    {
      Endpoint(st, snd.View(), rcv.View(), sock, delack)
    }

    constructor (s: Snd, max: int, mss: int)
      ensures fresh(snd) && fresh(rcv) && fresh(rcv.queue)
      ensures View() == Endpoint(Closed, s, Rcv(false, 0, 0, false, 0, 0, [], 0, max, mss), true, false)
    {
      snd := new OutQueue(s);
      rcv := new RecvSide(max, mss);
      st, sock, delack := Closed, true, false;
    }

    // -------------------------------------------------------------- sending

    method GiveUp()
      modifies this, snd, rcv, rcv.queue
      ensures View() == Reset(old(View()))
    {
      st, delack := Closed, false;
      snd.Flush();
      rcv.Flush();
    }

    /** Feeds the output machine; what it sends acknowledges and advertises. */
    method Transmit(ev: OEvent, e: Env) returns (out: seq<Packet>)
      modifies this, snd, rcv, rcv.queue
      ensures Res(View(), out) == Apply(old(View()), Output(old(snd.View()), ev, e))
    {
      var raw, wrote, dead := snd.Step(ev, e);
      var ackno := rcv.rcvNxt;
      var window := rcv.RcvWnd(st, wrote);
      out := Stamp(raw, ackno, window);
      if wrote {
        delack := false;
      }
      if dead {
        GiveUp();
      }
    }

    method Acknowledge(mem: bool) returns (out: seq<Packet>)
      modifies this, rcv
      ensures Res(View(), out) == PureAck(old(View()), mem)
    {
      if !mem {
        return [];
      }
      var window := rcv.RcvWnd(st, true);
      delack := false;
      return [Packet(snd.nxt, [], false, false, false, true, rcv.rcvNxt, window)];
    }

    /** Answers an unacceptable segment. */
    method Answer(p: Packet, mem: bool) returns (out: seq<Packet>)
      modifies this, rcv
      ensures Res(View(), out) == SndAck(old(View()), p, mem)
    {
      if p.rst || !mem {
        return [];
      }
      var last := snd.wndack + snd.wnd - (if snd.wnd > 0 then 1 else 0);
      var window := rcv.RcvWnd(st, true);
      delack := false;
      return [Packet(if snd.nxt <= last then snd.nxt else last, [], false, false, false, true, rcv.rcvNxt, window)];
    }

    /** Queues data or flags and starts the machine; nothing happens if not even one segment can be had. */
    method Enqueue(data: seq<Byte>, a: Ask, mem: nat, e: Env) returns (out: seq<Packet>, taken: nat)
      modifies this, snd, rcv, rcv.queue
      ensures var q := Queue(old(View()), data, a, mem);
        taken == q.taken && Res(View(), out) == SendQueued(old(View()), q, e)
    {
      if snd.mss <= MAX_RETRY {
        return [], 0;
      }
      ghost var was := View();
      var ok;
      taken, ok := snd.Append(data, a, mem);
      ghost var q := Queue(was, data, a, mem);
      assert Queued(snd.View(), taken, ok) == q;
      if ok || taken > 0 {
        out := Transmit(Send, e);
      } else {
        NothingQueued(was.snd, data, a, true, mem);
        out := [];
      }
    }

    // -------------------------------------------------------------- incoming acknowledgments and data

    method TakeAckNumber(p: Packet, oldWnd: int, ie: InEnv) returns (out: seq<Packet>)
      modifies this, snd, rcv, rcv.queue
      ensures Res(View(), out) == AckNumber(old(View()), p, oldWnd, ie)
    {
      if p.ackno > snd.max {
        if st == SynRcvd {
          out := SndRst(p, ie.m1);
        } else {
          out := Answer(p, ie.m1);
        }
      } else if snd.una < p.ackno {
        out := NewlyAcked(p.ackno, ie.e1);
      } else if p.ackno == snd.una && oldWnd == p.window && p.Len() == 0 {
        out := AckedAgain(ie.e1);
      } else {
        out := [];
      }
    }

    method NewlyAcked(ackno: int, e: Env) returns (out: seq<Packet>)
      modifies this, snd, rcv, rcv.queue
      ensures var ep := old(View());
        var r := Apply(ep, Output(ep.snd.(una := ackno), AckRcvd, e));
        View() == r.ep.(snd := r.ep.snd.(dupacks := 0)) && out == r.out
    {
      ghost var ep := View();
      snd.una := ackno;
      assert snd.View() == ep.snd.(una := ackno);
      SameReceiver(ep, View(), Output(snd.View(), AckRcvd, e));
      out := Transmit(AckRcvd, e);
      snd.dupacks := 0;
    }

    method AckedAgain(e: Env) returns (out: seq<Packet>)
      modifies this, snd, rcv, rcv.queue
      ensures var ep := old(View());
        Res(View(), out) == Apply(ep, Output(ep.snd.(dupacks := ep.snd.dupacks + 1), DupAck, e))
    {
      ghost var ep := View();
      snd.dupacks := snd.dupacks + 1;
      assert snd.View() == ep.snd.(dupacks := ep.snd.dupacks + 1);
      SameReceiver(ep, View(), Output(snd.View(), DupAck, e));
      out := Transmit(DupAck, e);
    }

    /** An acknowledgment: the peer's window, the number, then the window event. */
    method HandleAck(p: Packet, update: bool, ie: InEnv) returns (out: seq<Packet>)
      modifies this, snd, rcv, rcv.queue
      ensures Res(View(), out) == TakeAck(old(View()), p, update, ie)
    {
      if !p.ack {
        return [];
      }
      var oldWnd, current, ev := snd.wnd, false, WndClose;
      if update {
        current, ev := snd.UpdateWindow(p);
      }
      out := TakeAckNumber(p, oldWnd, ie);
      if current {
        var more := Transmit(ev, ie.e2);
        out := out + more;
      }
    }

    /** Data and FIN; the acknowledgment may be delayed. */
    method HandleData(p: Packet, ie: InEnv) returns (out: seq<Packet>)
      requires Normal(rcv.queue.segs)
      modifies this, rcv, rcv.queue
      ensures Res(View(), out) == TakeData(old(View()), p, ie)
    {
      var ackNow := rcv.RcvData(p);
      out := [];
      if |p.data| > 0 || p.fin {
        if st == Established && !ackNow && !delack {
          delack := true;
        } else {
          out := Acknowledge(ie.m2);
        }
      }
    }

    predicate Finished()
      reads rcv
    {
      rcv.finSeen && rcv.seqFin < rcv.rcvNxt
    }

    predicate AllAcked()
      reads snd
    {
      snd.write <= snd.una
    }

    method StartTimeWait()
      modifies this, snd
      ensures View() == EnterTimeWait(old(View()))
    {
      st, delack := TimeWait, false;
      snd.timer := false;
    }

    method Abort(p: Packet, mem: bool) returns (out: seq<Packet>)
      modifies this, snd, rcv, rcv.queue
      ensures Res(View(), out) == Res(Reset(old(View())), SndRst(p, mem))
    {
      out := SndRst(p, mem);
      GiveUp();
    }

    // -------------------------------------------------------------- the input state machine

    method WhenListen(p: Packet, ie: InEnv) returns (out: seq<Packet>)
      requires Normal(rcv.queue.segs)
      modifies this, snd, rcv, rcv.queue
      ensures Res(View(), out) == InListen(old(View()), p, ie)
    {
      if p.rst || !p.syn {
        return [];
      }
      if p.ack {
        return SndRst(p, ie.m1);
      }
      if !ie.m3 {
        return [];
      }
      ghost var was := View();
      OpenPassively(p.seqno, Max(32, ie.mss), Max(32, ie.rmss));
      PassiveOpenIs(was, p, ie, View());
      out := AnswerSyn(p, ie);
    }

    method AnswerSyn(p: Packet, ie: InEnv) returns (out: seq<Packet>)
      requires Normal(rcv.queue.segs)
      modifies this, snd, rcv, rcv.queue
      ensures var r := TakeData(old(View()), p, ie);
        Res(View(), out) == After(r, SendQueued(r.ep, Queue(r.ep, [], Ask(true, false, true), 1), ie.e1))
    {
      out := HandleData(p, ie);
      var more, taken := Enqueue([], Ask(true, false, true), 1, ie.e1);
      out := out + more;
    }

    method OpenPassively(seqno: int, mss: int, rmss: int)
      modifies this, snd, rcv
      ensures var ep := old(View());
        View() == ep.(st := SynRcvd, snd := Agreed(ep.snd.(wnd := WINDOW_FOR_SYN), mss),
                      rcv := ep.rcv.(sync := true, nxt := seqno, wnd := seqno, read := seqno + 1, mss := rmss))
    {
      st := SynRcvd;
      snd.FirstWindow(WINDOW_FOR_SYN, snd.wndseq, snd.wndack);
      snd.SetMss(mss);
      rcv.Synchronise(seqno, rmss);
    }

    method WhenSynSent(p: Packet, ie: InEnv) returns (out: seq<Packet>)
      requires Normal(rcv.queue.segs)
      modifies this, snd, rcv, rcv.queue
      ensures Res(View(), out) == InSynSent(old(View()), p, ie)
    {
      if p.ack && (p.ackno <= snd.isn || p.ackno > snd.max) {
        return SndRst(p, ie.m1);
      }
      if p.rst {
        if p.ack {
          GiveUp();
        }
        return [];
      }
      if !p.syn {
        return [];
      }
      out := PeersSyn(p, ie);
    }

    method PeersSyn(p: Packet, ie: InEnv) returns (out: seq<Packet>)
      requires Normal(rcv.queue.segs)
      modifies this, snd, rcv, rcv.queue
      ensures Res(View(), out) == SynArrived(old(View()), p, ie)
    {
      hide TakeAck, TakeData, PureAck;
      rcv.Synchronise(p.seqno, rcv.rcvMss);
      ghost var ep1 := View();
      out := HandleAck(p, false, ie);
      QueueOrNothing(ep1, p, false, ie);
      SynAcked(p, Max(32, ie.mss));
      var data := HandleData(p, ie);
      var last := Acknowledge(ie.m3);
      out := out + data + last;
    }

    method SynAcked(p: Packet, mss: int)
      modifies this, snd
      ensures View() == AfterSynAck(old(View()), p, mss)
    {
      if snd.una > snd.isn {
        st := Established;
        snd.FirstWindow(p.window, p.seqno, p.ackno);
      } else {
        st := SynRcvd;
      }
      snd.SetMss(mss);
    }

    /** Acknowledgment, then data, as most states do. */
    method AckThenData(p: Packet, update: bool, ie: InEnv) returns (out: seq<Packet>)
      requires Normal(rcv.queue.segs)
      modifies this, snd, rcv, rcv.queue
      ensures var r := TakeAck(old(View()), p, update, ie);
        var d := TakeData(r.ep, p, ie);
        View() == d.ep && out == r.out + d.out
    {
      ghost var was := View();
      out := HandleAck(p, update, ie);
      QueueOrNothing(was, p, update, ie);
      var more := HandleData(p, ie);
      out := out + more;
    }

    method WhenSynRcvd(p: Packet, ie: InEnv) returns (out: seq<Packet>)
      requires Normal(rcv.queue.segs)
      modifies this, snd, rcv, rcv.queue
      ensures Res(View(), out) == InSynRcvd(old(View()), p, ie)
    {
      if p.rst {
        GiveUp();
        return [];
      }
      if p.syn {
        out := Abort(p, ie.m1);
        return;
      }
      if !p.ack {
        return [];
      }
      ghost var was := View();
      out := HandleAck(p, false, ie);
      QueueOrNothing(was, p, false, ie);
      st := Established;
      snd.FirstWindow(p.window, p.seqno, p.ackno);
      var more := HandleData(p, ie);
      out := out + more;
      CloseIfFinished();
    }

    method CloseIfFinished()
      modifies `st
      ensures var ep := old(View()); View() == if ep.rcv.Finished() then ep.(st := CloseWait) else ep
    {
      if Finished() {
        st := CloseWait;
      }
    }

    method WhenEstablished(p: Packet, ie: InEnv) returns (out: seq<Packet>)
      requires Normal(rcv.queue.segs)
      modifies this, snd, rcv, rcv.queue
      ensures Res(View(), out) == InEstablished(old(View()), p, ie)
    {
      if p.rst {
        GiveUp();
        return [];
      }
      if p.syn {
        out := Abort(p, ie.m1);
        return;
      }
      if !p.ack {
        return [];
      }
      out := AckThenData(p, true, ie);
      CloseIfFinished();
    }

    method WhenFinWait1(p: Packet, ie: InEnv) returns (out: seq<Packet>)
      requires Normal(rcv.queue.segs)
      modifies this, snd, rcv, rcv.queue
      ensures Res(View(), out) == InFinWait1(old(View()), p, ie)
    {
      if p.rst || p.syn || (!sock && |p.data| > 0) {
        out := Abort(p, ie.m1);
        return;
      }
      if !p.ack {
        return [];
      }
      out := AckThenData(p, true, ie);
      if Finished() {
        if AllAcked() {
          StartTimeWait();
        } else {
          st := Closing;
        }
      } else if AllAcked() {
        st := FinWait2;
      }
    }

    method WhenFinWait2(p: Packet, ie: InEnv) returns (out: seq<Packet>)
      requires Normal(rcv.queue.segs)
      modifies this, snd, rcv, rcv.queue
      ensures Res(View(), out) == InFinWait2(old(View()), p, ie)
    {
      if p.rst || p.syn || (!sock && |p.data| > 0) {
        out := Abort(p, ie.m1);
        return;
      }
      if !p.ack {
        return [];
      }
      out := AckThenData(p, false, ie);
      if Finished() {
        StartTimeWait();
      }
    }

    method WhenClosing(p: Packet, ie: InEnv) returns (out: seq<Packet>)
      requires st == CloseWait || st == LastAck || st == Closing
      modifies this, snd, rcv, rcv.queue
      ensures Res(View(), out) == Dispatch(old(View()), p, ie)
    {
      var was := st;
      if p.rst || p.syn || (was != CloseWait && !sock && |p.data| > 0) {
        out := Abort(p, ie.m1);
        return;
      }
      out := HandleAck(p, was == CloseWait, ie);
      if was != CloseWait && AllAcked() {
        if was == LastAck {
          st := Closed;
        } else {
          StartTimeWait();
        }
      }
    }

    method WhenTimeWait(p: Packet, ie: InEnv) returns (out: seq<Packet>)
      requires Normal(rcv.queue.segs)
      modifies this, snd, rcv, rcv.queue
      ensures Res(View(), out) == InTimeWait(old(View()), p, ie)
    {
      if p.rst || p.syn || (!sock && |p.data| > 0) {
        st := Closed;
        return SndRst(p, ie.m1);
      }
      out := AckThenData(p, false, ie);
      StartTimeWait();
    }

    /** A segment for this connection: acceptance test, then the state's handler. */
    method Handle(p: Packet, ie: InEnv) returns (out: seq<Packet>)
      requires Normal(rcv.queue.segs)
      modifies this, snd, rcv, rcv.queue
      ensures Res(View(), out) == Input(old(View()), p, ie)
    {
      var ok, p1 := Acceptable(p);
      if !ok {
        out := Answer(p, ie.m1);
        return;
      }
      match st
      case Closed => out := SndRst(p1, ie.m1);
      case Listen => out := WhenListen(p1, ie);
      case SynSent => out := WhenSynSent(p1, ie);
      case SynRcvd => out := WhenSynRcvd(p1, ie);
      case Established => out := WhenEstablished(p1, ie);
      case FinWait1 => out := WhenFinWait1(p1, ie);
      case FinWait2 => out := WhenFinWait2(p1, ie);
      case TimeWait => out := WhenTimeWait(p1, ie);
      case _ => out := WhenClosing(p1, ie);
    }

    // -------------------------------------------------------------- calls from above

    /** Half close: the state changes first, then the FIN is queued. */
    method ShutDown(mem: nat, e: Env) returns (out: seq<Packet>)
      modifies this, snd, rcv, rcv.queue
      ensures Res(View(), out) == Shutdown(old(View()), mem, e)
    {
      match st {
        case SynRcvd => st := FinWait1;
        case Established => st := FinWait1;
        case CloseWait => st := LastAck;
        case _ => return [];
      }
      var taken;
      out, taken := Enqueue([], Ask(false, true, true), mem, e);
    }

    /** Full close: FIN if there is a connection, then all unread data goes. */
    method Close(mem: nat, e: Env, m: bool) returns (out: seq<Packet>)
      modifies this, snd, rcv, rcv.queue
      ensures Res(View(), out) == Detach(old(View()), mem, e, m)
    {
      if !st.Synchronised() {
        GiveUp();
        sock := false;
        return [];
      }
      out := ShutDown(mem, e);
      var more := ThrowAway(m);
      out := out + more;
    }

    /** Marks everything received as read and drops it. */
    method ThrowAway(m: bool) returns (out: seq<Packet>)
      modifies this, rcv, rcv.queue
      ensures Res(View(), out) == Discard(old(View()), m)
    {
      sock := false;
      rcv.queue.segs := MarkAll(rcv.queue.segs);
      rcv.seqRead := rcv.rcvNxt;
      rcv.DropSegs();
      out := Announce(m);
    }

    /** A window update if the window opened by two segments or half the buffer. */
    method Announce(m: bool) returns (out: seq<Packet>)
      modifies this, rcv
      ensures Res(View(), out) == AnnounceRead(old(View()), m)
    {
      var win := rcv.RcvWnd(st, false);
      win := win - (rcv.rcvWnd - rcv.rcvNxt);
      if win >= 2 * rcv.rcvMss || 2 * win >= rcv.maxdatalen {
        out := Acknowledge(m);
      } else {
        out := [];
      }
    }

    /** One read; if nothing is readable nothing happens, and a blocking caller would sleep. */
    method Read(size: nat, m: bool) returns (bytes: seq<Byte>, out: seq<Packet>)
      requires Normal(rcv.queue.segs)
      modifies this, rcv, rcv.queue
      ensures var ep := old(View());
        var res := ReadCall(ep.rcv, size);
        if size == 0 || !Readable(ep.rcv) then bytes == [] && out == [] && View() == ep
        else bytes == res.bytes && Res(View(), out) == AnnounceRead(ep.(rcv := res.r), m)
    {
      ghost var ep, res := View(), ReadCall(rcv.View(), size);
      bytes, out := [], [];
      var x, b := rcv.FindRead();
      if size > 0 && b < |rcv.queue.segs| && rcv.queue.segs[b].start <= x {
        bytes := rcv.Recv(size);
        assert View() == ep.(rcv := res.r);
        out := Announce(m);
      }
    }

    /** Active open of a fresh block. */
    method OpenActively(rmss: int, e: Env) returns (out: seq<Packet>)
      modifies this, snd, rcv, rcv.queue
      ensures var ep := old(View());
        Res(View(), out) ==
          if !ep.st.Closed? || !ep.sock || ep.snd.write != ep.snd.isn then Res(ep, [])
          else Connect(ep.(snd := ep.snd.(wnd := WINDOW_FOR_SYN), rcv := ep.rcv.(mss := Max(32, rmss))), e)
    {
      if st != Closed || !sock || snd.write != snd.isn {
        return [];
      }
      snd.FirstWindow(WINDOW_FOR_SYN, snd.wndseq, snd.wndack);
      rcv.rcvMss := Max(32, rmss);
      var taken;
      out, taken := Enqueue([], Ask(true, false, false), 1, e);
      st := SynSent;
    }

    /** Passive open of a fresh block. */
    method StartListening()
      modifies `st
      ensures var ep := old(View());
        View() == if !ep.st.Closed? || !ep.sock || ep.snd.write != ep.snd.isn then ep else ep.(st := Listen)
    {
      if st == Closed && sock && snd.write == snd.isn {
        st := Listen;
      }
    }

    /** The output timer goes off: retransmission, probe or giving up. */
    method TimerGoesOff(e: Env) returns (out: seq<Packet>)
      modifies this, snd, rcv, rcv.queue
      ensures var ep := old(View());
        Res(View(), out) == if !ep.snd.timer || ep.st.Closed? then Res(ep, []) else Apply(ep, TimerFires(ep.snd, e))
    {
      if !snd.timer || st == Closed {
        return [];
      }
      ghost var ep := View();
      snd.timer := false;
      assert snd.View() == ep.snd.(timer := false);
      SameReceiver(ep, View(), TimerFires(ep.snd, e));
      out := Transmit(Timeout, e);
    }

    /** The delayed acknowledgment is due. */
    method DelayedAckDue(m: bool) returns (out: seq<Packet>)
      modifies this, rcv
      ensures var ep := old(View());
        Res(View(), out) == if !ep.delack || ep.st.Closed? || ep.st.TimeWait? then Res(ep, []) else PureAck(ep, m)
    {
      if !delack || st == Closed || st == TimeWait {
        return [];
      }
      out := Acknowledge(m);
    }

    /** The last timer of a connection goes off. */
    method DeleteDue()
      modifies `st
      ensures var ep := old(View()); View() == if ep.st.FinWait2? || ep.st.TimeWait? then ep.(st := Closed) else ep
    {
      if st == FinWait2 || st == TimeWait {
        st := Closed;
      }
    }

    /** The user asks for another receive buffer; it must hold what is queued. */
    method SetReceiveBuffer(bytes: int)
      modifies rcv
      ensures var ep, max := old(View()), Max(4096, Min(MAX_SPACE, bytes));
        View() == if max < ep.rcv.cur then ep else ep.(rcv := ep.rcv.(max := max))
    {
      var max := Max(4096, Min(MAX_SPACE, bytes));
      if rcv.queue.curdatalen <= max {
        rcv.maxdatalen := max;
      }
    }

    /** One round of the write call: what fits is queued. */
    method WriteSome(data: seq<Byte>, mem: nat, e: Env) returns (taken: nat, out: seq<Packet>)
      modifies this, snd, rcv, rcv.queue
      ensures var q := Write(old(View()), data, mem); taken == q.taken && Res(View(), out) == SendQueued(old(View()), q, e)
    {
      var n := Room();
      if n > |data| {
        n := |data|;
      }
      if n <= 0 {
        return 0, [];
      }
      out, taken := Enqueue(data[..n], Ask(false, false, false), mem, e);
    }

    method Room() returns (space: int)
      ensures space == CanWrite(snd.View(), st)
    {
      if st != Established && st != CloseWait {
        return 0;
      }
      space := snd.maxcur - snd.cur;
      if (space < snd.mss && 2 * snd.mss <= snd.maxcur) || space < 0 {
        space := 0;
      }
    }

    /** The acceptance test, which edits the header: a SYN left of the window and a FIN right of it go. */
    method Acceptable(p: Packet) returns (ok: bool, p1: Packet)
      modifies rcv
      ensures Verdict(ok, p1) == Check(rcv.View(), st, p) && rcv.View() == old(rcv.View())
    {
      p1 := p;
      if !st.Synchronised() {
        return true, p;
      }
      var window := rcv.RcvWnd(st, false);
      var len := p.Len();
      if window <= 0 {
        return len == 0 && p.seqno == rcv.rcvNxt, p;
      }
      var last := if len > 0 then p.seqno + len - 1 else p.seqno;
      ok := rcv.rcvNxt <= last && p.seqno < rcv.rcvNxt + window;
      if p.syn && p.seqno < rcv.rcvNxt {
        p1 := p1.(syn := false, seqno := p.seqno + 1);
      }
      if p1.fin && last >= rcv.rcvNxt + window {
        p1 := p1.(fin := false);
      }
    }
  }

  lemma {:induction false} PassiveOpenIs(ep: Endpoint, p: Packet, ie: InEnv, ep1: Endpoint)
    requires p.syn && !p.rst && !p.ack && ie.m3
    requires ep1 == ep.(st := SynRcvd, snd := Agreed(ep.snd.(wnd := WINDOW_FOR_SYN), Max(32, ie.mss)),
                        rcv := ep.rcv.(sync := true, nxt := p.seqno, wnd := p.seqno, read := p.seqno + 1, mss := Max(32, ie.rmss)))
    ensures var r := TakeData(ep1, p, ie);
      InListen(ep, p, ie) == After(r, SendQueued(r.ep, Queue(r.ep, [], Ask(true, false, true), 1), ie.e1))
  {
  }

  /** The result of an output event does not depend on the send side it replaces. */
  lemma {:induction false} SameReceiver(ep: Endpoint, ep': Endpoint, r: SndRes)
    requires ep' == ep.(snd := ep'.snd)
    ensures Apply(ep', r) == Apply(ep, r)
  {
  }

  lemma {:induction false} NothingQueued(s: Snd, data: seq<Byte>, a: Ask, first: bool, mem: nat)
    requires s.mss > MAX_RETRY
    ensures var q := TcpSend.Enqueue(s, data, a, first, mem); !q.ok && q.taken == 0 ==> q.s == s
    decreases |data|
  {
    if CanCombine(s, a) || mem > 0 {
      var n := Taken(s, data, a);
      var s1 := Extend(s, data, a, first);
      if n < |data| {
        assert n > 0;
      }
    }
  }

  lemma {:induction false} ApplyKeepsQueue(ep: Endpoint, r: SndRes)
    ensures var q := Apply(ep, r).ep.rcv.q; q == ep.rcv.q || q == []
  {
  }

  lemma {:induction false} NumberKeepsQueue(ep: Endpoint, p: Packet, oldWnd: int, ie: InEnv)
    ensures var q := AckNumber(ep, p, oldWnd, ie).ep.rcv.q; q == ep.rcv.q || q == []
  {
    ApplyKeepsQueue(ep, Output(ep.snd.(una := p.ackno), AckRcvd, ie.e1));
    ApplyKeepsQueue(ep, Output(ep.snd.(dupacks := ep.snd.dupacks + 1), DupAck, ie.e1));
  }

  /** Handling an acknowledgment leaves the receive queue as it is, or flushes it with the connection. */
  lemma {:induction false} QueueOrNothing(ep: Endpoint, p: Packet, update: bool, ie: InEnv)
    requires Normal(ep.rcv.q)
    ensures Normal(TakeAck(ep, p, update, ie).ep.rcv.q)
  {
    if p.ack {
      var u := if update then SndWnd(ep.snd, p) else Stale;
      var ep1 := if u.Update? then ep.(snd := u.s) else ep;
      var r := AckNumber(ep1, p, ep.snd.wnd, ie);
      NumberKeepsQueue(ep1, p, ep.snd.wnd, ie);
      if u.Update? { ApplyKeepsQueue(r.ep, Output(r.ep.snd, u.ev, ie.e2)); }
    }
  }
}
