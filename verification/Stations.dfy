/**
 * Two running control blocks and the network between them. A run of the blocks is a run of the connection
 * model, so everything proved about every run holds of the program that updates its blocks in place.
 */
module Stations {
  import opened TcpTypes
  import opened TcpSend
  import opened RecvQueue
  import opened TcpRecv
  import opened ReceiveFacts
  import opened TcpEndpoint
  import opened TcpSystem
  import opened SystemFacts
  import opened SpanFacts
  import opened RunTheorems
  import opened ControlBlock
  import opened EndpointFacts

  /** A control block, the packets it has sent, and the history of its user's calls. */
  class Station {
    const tcb: Tcb
    const isn: int
    var wire: set<Packet>
    ghost var sent: seq<Byte>
    ghost var got: seq<Byte>
    ghost var closed: bool
    ghost var finLost: bool

    ghost function Objects(): set<object> { {this, tcb, tcb.snd, tcb.rcv, tcb.rcv.queue} }

    /** The host of the connection model that this block is. */
    ghost function View(): Host
      reads Objects()
    {
      Host(tcb.View(), isn, wire, sent, got, closed, finLost)
    }

    ghost predicate Valid()
      reads Objects()
    {
      Normal(tcb.rcv.queue.segs)
    }

    constructor (isn: int, max: int, maxcur: nat)
      requires 0 < max <= MAX_SPACE
      ensures fresh(Objects()) && Valid() && FreshHost(View())
    {
      this.isn := isn;
      tcb := new Tcb(Snd(isn, isn, isn, isn, isn, 0, 0, isn, 0, DEFAULT_MSS, [], 0, maxcur, Idle, false, 0, 0, DEFAULT_MSS, FIRST_THRESH), max, DEFAULT_MSS);
      wire, sent, got, closed, finLost := {}, [], [], false, false;
    }

    /** What the block sends goes onto the wire. */
    method Emit(out: seq<Packet>)
      modifies `wire
      ensures wire == old(wire) + set i | 0 <= i < |out| :: out[i]
    {
      wire := wire + set i | 0 <= i < |out| :: out[i];
    }

    /** Everything that can happen at this host. */
    method Do(a: Action, peer: set<Packet>)
      requires Valid() && tcb.snd.isn == isn
      modifies Objects()
      ensures Valid() && View() == Act(old(View()), peer, a)
    {
      ghost var h := View();
      if a.DoConnect? || a.DoListen? {
        Open(a, peer);
      } else if a.Deliver? {
        Receive(a.p, a.ie, peer);
      } else if a.DoWrite? {
        Write(a.data, a.mem, a.e, peer);
      } else if a.DoRead? {
        Read(a.size, a.m, peer);
      } else if a.DoShutdown? {
        HalfClose(a.mem, a.e, peer);
      } else if a.DoDetach? {
        Close(a.mem, a.e, a.m, peer);
      } else if a.TimerExpires? || a.DelayedAck? {
        Tick(a, peer);
      } else {
        Settle(a, peer);
      }
      StaysNormal(h, peer, a);
    }

    method Open(a: Action, ghost peer: set<Packet>)
      requires tcb.snd.isn == isn && (a.DoConnect? || a.DoListen?)
      modifies Objects()
      ensures View() == Act(old(View()), peer, a)
    {
      if a.DoListen? {
        tcb.StartListening();
      } else {
        var out := tcb.OpenActively(a.rmss, a.e);
        Emit(out);
      }
    }

    method Receive(p: Packet, ie: InEnv, peer: set<Packet>)
      requires Valid()
      modifies Objects()
      ensures View() == Act(old(View()), peer, Deliver(p, ie))
    {
      if p in peer {
        var out := tcb.Handle(Cut(p), ie);
        Emit(out);
      }
    }

    method Write(data: seq<Byte>, mem: nat, e: Env, ghost peer: set<Packet>)
      modifies Objects()
      ensures View() == Act(old(View()), peer, DoWrite(data, mem, e))
    {
      if tcb.sock && tcb.st.Connected() {
        var taken, out := tcb.WriteSome(data, mem, e);
        Emit(out);
        sent := sent + data[..Min(taken, |data|)];
      }
    }

    method Read(size: nat, m: bool, ghost peer: set<Packet>)
      requires Valid()
      modifies Objects()
      ensures View() == Act(old(View()), peer, DoRead(size, m))
    {
      hide ReadCall, Readable, AnnounceRead;
      if tcb.sock && tcb.st.Synchronised() {
        var bytes, out := tcb.Read(size, m);
        Emit(out);
        got := got + bytes;
      }
    }

    method HalfClose(mem: nat, e: Env, ghost peer: set<Packet>)
      modifies Objects()
      ensures View() == Act(old(View()), peer, DoShutdown(mem, e))
    {
      hide Shutdown, FinQueued;
      if tcb.sock {
        ghost var h := View();
        var out := tcb.ShutDown(mem, e);
        Emit(out);
        Note(h, mem);
      }
    }

    method Close(mem: nat, e: Env, m: bool, ghost peer: set<Packet>)
      modifies Objects()
      ensures View() == Act(old(View()), peer, DoDetach(mem, e, m))
    {
      hide Detach, FinQueued;
      if tcb.sock {
        ghost var h := View();
        var out := tcb.Close(mem, e, m);
        Emit(out);
        Note(h, mem);
      }
    }

    /** Remembers what became of the FIN. */
    ghost method Note(h: Host, mem: nat)
      modifies `closed, `finLost
      ensures View() == NoteFin(h, old(View()), mem)
    {
      if ClosingState(h.ep.st) != h.ep.st {
        closed, finLost := closed || FinQueued(h, mem), finLost || !FinQueued(h, mem);
      }
    }

    method Tick(a: Action, ghost peer: set<Packet>)
      requires a.TimerExpires? || a.DelayedAck?
      modifies Objects()
      ensures View() == Act(old(View()), peer, a)
    {
      hide Output, Apply, PureAck, TimerFires;
      var out;
      if a.TimerExpires? {
        out := tcb.TimerGoesOff(a.e);
      } else {
        out := tcb.DelayedAckDue(a.m);
      }
      Emit(out);
    }

    method Settle(a: Action, ghost peer: set<Packet>)
      requires a.DeleteTimer? || a.SetRcvBuf?
      modifies Objects()
      ensures View() == Act(old(View()), peer, a)
    {
      if a.DeleteTimer? {
        tcb.DeleteDue();
      } else {
        tcb.SetReceiveBuffer(a.bytes);
      }
    }
  }

  // ---------------------------------------------------------------- the receive queue stays in order

  lemma {:induction false} DataKeepsNormal(ep: Endpoint, p: Packet, ie: InEnv)
    requires Normal(ep.rcv.q)
    ensures Normal(TakeData(ep, p, ie).ep.rcv.q)
  {
    hide AckNow, NextData, Window, Normal, Insert, CountAfter;
    InsertKeepsNormal(ep.rcv.q, Payload(p));
  }

  lemma {:induction false} AckKeepsNormal(ep: Endpoint, p: Packet, update: bool, ie: InEnv)
    requires Normal(ep.rcv.q)
    ensures var r := TakeAck(ep, p, update, ie);
      && Normal(r.ep.rcv.q) && Normal(TakeData(r.ep, p, ie).ep.rcv.q)
      && Normal(TakeData(r.ep.(st := Established, snd := r.ep.snd.(wnd := p.window, wndseq := p.seqno, wndack := p.ackno)), p, ie).ep.rcv.q)
  {
    hide TakeAck, TakeData;
    QueueOrNothing(ep, p, update, ie);
    var r := TakeAck(ep, p, update, ie);
    DataKeepsNormal(r.ep, p, ie);
    DataKeepsNormal(r.ep.(st := Established, snd := r.ep.snd.(wnd := p.window, wndseq := p.seqno, wndack := p.ackno)), p, ie);
  }

  lemma {:induction false} SyncedKeepsNormal(ep: Endpoint, p: Packet, ie: InEnv)
    requires Normal(ep.rcv.q) && ep.st.Synchronised()
    ensures Normal(Dispatch(ep, p, ie).ep.rcv.q)
  {
    hide TakeAck, TakeData, SndRst;
    AckKeepsNormal(ep, p, ep.st.Established? || ep.st.FinWait1? || ep.st.CloseWait?, ie);
  }

  lemma {:induction false} OpeningKeepsNormal(ep: Endpoint, p: Packet, ie: InEnv)
    requires Normal(ep.rcv.q) && !ep.st.Synchronised()
    ensures Normal(Dispatch(ep, p, ie).ep.rcv.q)
  {
    hide TakeAck, TakeData, SndRst, SendQueued, Queue, Window;
    if ep.st.SynSent? {
      var ep1 := ep.(rcv := ep.rcv.(sync := true, nxt := p.seqno, wnd := p.seqno, read := p.seqno + 1));
      AckKeepsNormal(ep1, p, false, ie);
      DataKeepsNormal(AfterSynAck(TakeAck(ep1, p, false, ie).ep, p, Max(32, ie.mss)), p, ie);
    } else if ep.st.Listen? {
      var ep1 := ep.(st := SynRcvd,
                     snd := Agreed(ep.snd.(wnd := WINDOW_FOR_SYN), Max(32, ie.mss)),
                     rcv := ep.rcv.(sync := true, nxt := p.seqno, wnd := p.seqno, read := p.seqno + 1, mss := Max(32, ie.rmss)));
      DataKeepsNormal(ep1, p, ie);
      var r := TakeData(ep1, p, ie);
      SendQueuedKept(r.ep, Queue(r.ep, [], Ask(true, false, true), 1), ie.e1);
    }
  }

  lemma {:induction false} ReadKeepsNormal(r: Rcv, size: nat)
    requires Normal(r.q)
    ensures Normal(ReadCall(r, size).r.q)
  {
    hide CopyFrom, SkipUsed;
    if size > 0 && Readable(r) {
      var (x, k) := SkipUsed(r.q, HighCut(r.q, r.read), r.read);
      var c := CopyFrom(r.q, k, x, size);
      SameRangesSameSpan(r.q, MarkUsed(r.q, k, c.read));
      DropKeepsNormal(MarkUsed(r.q, k, c.read), r.cur, c.read);
    }
  }

  lemma {:induction false} DropKeepsNormal(q: seq<Seg>, cur: int, read: int)
    requires Normal(q)
    ensures Normal(Drop(q, cur, read).q)
  {
    if |q| > 0 && q[0].used {
      SuffixNormal(q, 1);
      DropKeepsNormal(q[1..], if |q| > 1 then cur - (q[1].start - q[0].start) else 0, Max(read, q[0].End()));
    }
  }

  lemma {:induction false} DetachKeepsNormal(h: Host, mem: nat, e: Env, m: bool, peer: set<Packet>)
    requires Normal(h.ep.rcv.q)
    ensures Normal(Act(h, peer, DoDetach(mem, e, m)).ep.rcv.q)
  {
    hide Shutdown, Discard;
    ShutdownKept(h.ep, mem, e);
    DiscardKeepsNormal(Shutdown(h.ep, mem, e).ep, m);
  }

  lemma {:induction false} DiscardKeepsNormal(ep: Endpoint, m: bool)
    requires Normal(ep.rcv.q)
    ensures Normal(Discard(ep, m).ep.rcv.q)
  {
    hide Drop, Window, AnnounceWindow;
    SameRangesSameSpan(ep.rcv.q, MarkAll(ep.rcv.q));
    DropKeepsNormal(MarkAll(ep.rcv.q), ep.rcv.cur, ep.rcv.nxt);
  }

  lemma {:induction false} StaysNormal(h: Host, peer: set<Packet>, a: Action)
    requires Normal(h.ep.rcv.q)
    ensures Normal(Act(h, peer, a).ep.rcv.q)
  {
    hide Act, Dispatch;
    match a
    case DoConnect(rmss, e) => ConnectKept(h, rmss, e, peer);
    case DoWrite(data, mem, e) => WriteKept(h, data, mem, e, peer);
    case Deliver(p, ie) => ArrivalKeepsNormal(h, peer, p, ie);
    case DoRead(size, m) => ReadActKeepsNormal(h, peer, size, m);
    case DoDetach(mem, e, m) => DetachKeepsNormal(h, mem, e, m, peer);
    case _ => TimersKept(h, a, peer);
  }

  lemma {:induction false} ArrivalKeepsNormal(h: Host, peer: set<Packet>, p: Packet, ie: InEnv)
    requires Normal(h.ep.rcv.q)
    ensures Normal(Act(h, peer, Deliver(p, ie)).ep.rcv.q)
  {
    hide Dispatch, Window, Check;
    var v := Check(h.ep.rcv, h.ep.st, Cut(p));
    if h.ep.st.Synchronised() { SyncedKeepsNormal(h.ep, v.p, ie); } else { OpeningKeepsNormal(h.ep, v.p, ie); }
  }

  lemma {:induction false} ReadActKeepsNormal(h: Host, peer: set<Packet>, size: nat, m: bool)
    requires Normal(h.ep.rcv.q)
    ensures Normal(Act(h, peer, DoRead(size, m)).ep.rcv.q)
  {
    hide ReadCall, Window, Readable;
    ReadKeepsNormal(h.ep.rcv, size);
  }

  // ---------------------------------------------------------------- two of them

  lemma {:induction false} OwnNumbers(t: Sys)
    requires Inv(t)
    ensures t.a.ep.snd.isn == t.a.isn && t.b.ep.snd.isn == t.b.isn
  {
    hide Link, EpOk;
  }

  lemma {:induction false} ReadIsWritten(t: Sys)
    requires Inv(t)
    ensures t.b.got <= t.a.sent && t.a.got <= t.b.sent
  {
    hide HostOk;
  }

  class Pair {
    const a: Station
    const b: Station

    ghost function View(): Sys
      reads a.Objects(), b.Objects()
    {
      Sys(a.View(), b.View())
    }

    /** The invariant of every run, and blocks that share nothing. */
    ghost predicate Valid()
      reads a.Objects(), b.Objects()
    {
      a.Objects() !! b.Objects() && a.Valid() && b.Valid() && Inv(View())
    }

    constructor (isnA: int, isnB: int, max: int, maxcur: nat)
      requires 0 < max <= MAX_SPACE
      ensures Valid() && Fresh(View())
    {
      hide Inv;
      a := new Station(isnA, max, maxcur);
      b := new Station(isnB, max, maxcur);
      new;
      FreshInv(View());
    }

    method Happen(e: Event)
      requires Valid()
      modifies a.Objects(), b.Objects()
      ensures Valid() && View() == Step(old(View()), e)
    {
      hide Act, Inv;
      InvStep(View(), e);
      OwnNumbers(View());
      if e.atA {
        a.Do(e.act, b.wire);
      } else {
        b.Do(e.act, a.wire);
      }
    }

    /** A run of the blocks is a run of the model; what each user has read the other has written. */
    method Play(run: seq<Event>)
      requires Valid()
      modifies a.Objects(), b.Objects()
      ensures Valid() && View() == Exec(old(View()), run)
      ensures b.got <= a.sent && a.got <= b.sent
    {
      hide Step, Inv;
      var i := 0;
      while i < |run|
        invariant i <= |run| && Valid()
        invariant View() == Exec(old(View()), run[..i])
      {
        Happen(run[i]);
        assert run[..i + 1][..i] == run[..i];
        i := i + 1;
      }
      assert run[..|run|] == run;
      ReadIsWritten(View());
    }
  }
}
