/**
 * Two hosts, one connection and a network that loses, duplicates, delays and reorders: every packet ever
 * sent stays on the wire and may be delivered at any time, any number of times.
 */
module TcpSystem {
  import opened TcpTypes
  import opened TcpSend
  import opened TcpRecv
  import opened TcpEndpoint

  /**
   * A host with its history: `sent` and `got` are the bytes its user wrote and read, `closed` says that its
   * FIN has been queued, `finLost` that no segment could be allocated for it.
   */
  datatype Host = Host(
    ep: Endpoint, isn: int, wire: set<Packet>, sent: seq<Byte>, got: seq<Byte>, closed: bool, finLost: bool)

  /** Everything that can happen at a host; an action that is not possible leaves the host alone. */
  datatype Action =
    | DoConnect(rmss: int, e: Env)
    | DoListen
    | Deliver(p: Packet, ie: InEnv)
    | DoWrite(data: seq<Byte>, mem: nat, e: Env)
    | DoRead(size: nat, m: bool)
    | TimerExpires(e: Env)
    | DelayedAck(m: bool)
    | DoShutdown(mem: nat, e: Env)
    | DoDetach(mem: nat, e: Env, m: bool)
    | DeleteTimer
    | SetRcvBuf(bytes: int)

  /** A packet on the wire keeps the window that was computed; its field holds the low 16 bits. */
  function Cut(p: Packet): Packet { p.(window := p.window % (MAX_SPACE + 1)) }

  function Took(h: Host, r: Res): Host {
    h.(ep := r.ep, wire := h.wire + set i | 0 <= i < |r.out| :: r.out[i])
  }

  /** The FIN of a closing call gets a place in the queue. */
  predicate FinQueued(h: Host, mem: nat) {
    Queue(h.ep.(st := ClosingState(h.ep.st)), [], Ask(false, true, true), mem).ok
  }

  /** History of a closing call. */
  function NoteFin(h: Host, h': Host, mem: nat): Host {
    if ClosingState(h.ep.st) == h.ep.st then h'
    else if FinQueued(h, mem) then h'.(closed := true)
    else h'.(finLost := true)
  }

  ghost function Act(h: Host, peerWire: set<Packet>, a: Action): Host {
    match a
    case DoConnect(rmss, e) =>
      if !h.ep.st.Closed? || !h.ep.sock || h.ep.snd.write != h.isn then h else
      Took(h, Connect(h.ep.(snd := h.ep.snd.(wnd := WINDOW_FOR_SYN), rcv := h.ep.rcv.(mss := Max(32, rmss))), e))
    case DoListen =>
      if !h.ep.st.Closed? || !h.ep.sock || h.ep.snd.write != h.isn then h else h.(ep := h.ep.(st := Listen))
    case Deliver(p, ie) => if p !in peerWire then h else Took(h, Input(h.ep, Cut(p), ie))
    case DoWrite(data, mem, e) =>
      if !h.ep.sock || !h.ep.st.Connected() then h else
      var q := Write(h.ep, data, mem);
      Took(h, SendQueued(h.ep, q, e)).(sent := h.sent + data[..Min(q.taken, |data|)])
    case DoRead(size, m) =>
      if !h.ep.sock || !h.ep.st.Synchronised() || size == 0 || !Readable(h.ep.rcv) then h else
      var res := ReadCall(h.ep.rcv, size);
      Took(h, AnnounceRead(h.ep.(rcv := res.r), m)).(got := h.got + res.bytes)
    case TimerExpires(e) =>
      if !h.ep.snd.timer || h.ep.st.Closed? then h else Took(h, Apply(h.ep, TimerFires(h.ep.snd, e)))
    case DelayedAck(m) =>
      if !h.ep.delack || h.ep.st.Closed? || h.ep.st.TimeWait? then h else Took(h, PureAck(h.ep, m))
    case DoShutdown(mem, e) =>
      if !h.ep.sock then h else NoteFin(h, Took(h, Shutdown(h.ep, mem, e)), mem)
    case DoDetach(mem, e, m) =>
      if !h.ep.sock then h else
      if !h.ep.st.Synchronised() then Took(h, Detach(h.ep, mem, e, m))
      else NoteFin(h, Took(h, Detach(h.ep, mem, e, m)), mem)
    case DeleteTimer =>
      if h.ep.st.FinWait2? || h.ep.st.TimeWait? then h.(ep := h.ep.(st := Closed)) else h
    case SetRcvBuf(bytes) =>
      var max := Max(4096, Min(MAX_SPACE, bytes));
      if max < h.ep.rcv.cur then h else h.(ep := h.ep.(rcv := h.ep.rcv.(max := max)))
  }

  datatype Sys = Sys(a: Host, b: Host)

  datatype Event = Event(atA: bool, act: Action)

  /** One of the two hosts. */
  function Mine(t: Sys, atA: bool): Host { if atA then t.a else t.b }

  ghost function Step(s: Sys, e: Event): Sys {
    if e.atA then s.(a := Act(s.a, s.b.wire, e.act)) else s.(b := Act(s.b, s.a.wire, e.act))
  }

  /** The state after a run of events. */
  ghost function Exec(s: Sys, run: seq<Event>): Sys {
    if |run| == 0 then s else Step(Exec(s, run[..|run| - 1]), run[|run| - 1])
  }

  lemma {:induction false} ExecThen(s: Sys, a: seq<Event>, b: seq<Event>)
    ensures Exec(s, a + b) == Exec(Exec(s, a), b)
    decreases |b|
  {
    hide Step;
    if |b| == 0 {
      assert a + b == a;
    } else {
      assert (a + b)[..|a + b| - 1] == a + b[..|b| - 1];
      ExecThen(s, a, b[..|b| - 1]);
    }
  }

  lemma ExecTwo(s: Sys, e: Event, f: Event)
    ensures Exec(s, [e]) == Step(s, e)
    ensures Exec(s, [e, f]) == Step(Step(s, e), f)
  {
    hide Step;
    assert [e][..0] == [] && [e, f][..1] == [e];
  }

  lemma ExecThree(s: Sys, e: Event, f: Event, g: Event)
    ensures Exec(s, [e, f, g]) == Step(Step(Step(s, e), f), g)
  {
    hide Step;
    ExecTwo(s, e, f);
    assert [e, f, g][..2] == [e, f];
  }

  predicate FreshSnd(s: Snd, isn: int) {
    && s == Snd(isn, isn, isn, isn, isn, s.wnd, s.wndseq, isn, 0, DEFAULT_MSS, [], 0, s.maxcur, Idle, false, 0, 0, DEFAULT_MSS, FIRST_THRESH)
    && s.maxcur >= 0
  }

  predicate FreshRcv(r: Rcv) {
    && r == Rcv(false, r.nxt, r.wnd, false, r.seqFin, r.read, [], 0, r.max, DEFAULT_MSS)
    && 0 < r.max <= MAX_SPACE
  }

  predicate FreshHost(h: Host) {
    && h.wire == {} && h.sent == [] && h.got == [] && !h.closed && !h.finLost
    && h.ep.st.Closed? && h.ep.sock && !h.ep.delack && FreshSnd(h.ep.snd, h.isn) && FreshRcv(h.ep.rcv)
  }

  predicate Fresh(s: Sys) { FreshHost(s.a) && FreshHost(s.b) }
}
