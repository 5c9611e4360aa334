/** One end of a connection: the input state machine, the user's calls and the timers. */
module TcpEndpoint {
  import opened TcpTypes
  import opened TcpSend
  import opened RecvQueue
  import opened TcpRecv

  /** A control block; `sock` says that a user still holds the socket, `delack` that an acknowledgment is delayed. */
  datatype Endpoint = Endpoint(st: State, snd: Snd, rcv: Rcv, sock: bool, delack: bool)

  /** New state and the packets put on the wire. */
  datatype Res = Res(ep: Endpoint, out: seq<Packet>)

  /** Outside choices for one incoming segment: two output events, three allocations, two segment sizes. */
  datatype InEnv = InEnv(e1: Env, e2: Env, m1: bool, m2: bool, m3: bool, mss: int, rmss: int)

  function After(a: Res, b: Res): Res { Res(b.ep, a.out + b.out) }

  // ---------------------------------------------------------------- output

  function Stamp(out: seq<Packet>, ackno: int, window: int): (r: seq<Packet>)
    ensures |r| == |out|
  {
    seq(|out|, i requires 0 <= i < |out| => out[i].(ackno := ackno, window := window))
  }

  /** Gives the connection up: timers off, queues flushed. */
  function Reset(ep: Endpoint): Endpoint {
    ep.(st := Closed, delack := false,
        snd := ep.snd.(ostate := Idle, timer := false, q := [], cur := 0),
        rcv := ep.rcv.(q := [], cur := 0))
  }

  /** Takes over the result of an output event; every segment sent acknowledges and advertises. */
  function Apply(ep: Endpoint, r: SndRes): Res {
    var ep1 := ep.(snd := r.s,
                   rcv := if r.wrote then Record(ep.rcv, ep.st) else ep.rcv,
                   delack := ep.delack && !r.wrote);
    Res(if r.dead then Reset(ep1) else ep1, Stamp(r.out, ep.rcv.nxt, Window(ep.rcv, ep.st)))
  }

  /** A segment that only acknowledges. */
  function PureAck(ep: Endpoint, mem: bool): Res {
    if !mem then Res(ep, []) else
    Res(ep.(rcv := Record(ep.rcv, ep.st), delack := false),
        [Packet(ep.snd.nxt, [], false, false, false, true, ep.rcv.nxt, Window(ep.rcv, ep.st))])
  }

  /** The answer to an unacceptable segment. */
  function SndAck(ep: Endpoint, p: Packet, mem: bool): Res {
    if p.rst || !mem then Res(ep, []) else
    var last := ep.snd.wndack + ep.snd.wnd - (if ep.snd.wnd > 0 then 1 else 0);
    Res(ep.(rcv := Record(ep.rcv, ep.st), delack := false),
        [Packet(Min(ep.snd.nxt, last), [], false, false, false, true, ep.rcv.nxt, Window(ep.rcv, ep.st))])
  }

  function SndRst(p: Packet, mem: bool): seq<Packet> {
    if p.rst || !mem then []
    else [Packet(if p.ack then p.ackno else 0, [], false, false, true, !p.ack, p.seqno + p.Len(), 0)]
  }

  /** Queues data or flags and runs the output machine; a segment size of at least 16 is the caller's invariant. */
  function Queue(ep: Endpoint, data: seq<Byte>, a: Ask, mem: nat): Queued {
    if ep.snd.mss <= MAX_RETRY then Queued(ep.snd, 0, false) else Enqueue(ep.snd, data, a, true, mem)
  }

  function SendQueued(ep: Endpoint, q: Queued, e: Env): Res {
    if !q.ok && q.taken == 0 then Res(ep, []) else Apply(ep.(snd := q.s), Output(q.s, Send, e))
  }

  // ---------------------------------------------------------------- incoming acknowledgments and data

  /** The acknowledgment number's effect, before any window event. */
  function AckNumber(ep: Endpoint, p: Packet, oldWnd: int, ie: InEnv): Res {
    var s := ep.snd;
    if p.ackno > s.max then
      if ep.st.SynRcvd? then Res(ep, SndRst(p, ie.m1)) else SndAck(ep, p, ie.m1)
    else if s.una < p.ackno then
      var r := Apply(ep, Output(s.(una := p.ackno), AckRcvd, ie.e1));
      r.(ep := r.ep.(snd := r.ep.snd.(dupacks := 0)))
    else if p.ackno == s.una && oldWnd == p.window && p.Len() == 0 then
      Apply(ep, Output(s.(dupacks := s.dupacks + 1), DupAck, ie.e1))
    else Res(ep, [])
  }

  function TakeAck(ep: Endpoint, p: Packet, update: bool, ie: InEnv): Res {
    if !p.ack then Res(ep, []) else
    var u := if update then SndWnd(ep.snd, p) else Stale;
    var ep1 := if u.Update? then ep.(snd := u.s) else ep;
    var r := AckNumber(ep1, p, ep.snd.wnd, ie);
    if u.Update? then After(r, Apply(r.ep, Output(r.ep.snd, u.ev, ie.e2))) else r
  }

  ghost function TakeData(ep: Endpoint, p: Packet, ie: InEnv): Res {
    var ep1 := ep.(rcv := Receive(ep.rcv, p));
    if |p.data| == 0 && !p.fin then Res(ep1, [])
    else if ep.st.Established? && !AckNow(ep.rcv, p) && !ep.delack then Res(ep1.(delack := true), [])
    else PureAck(ep1, ie.m2)
  }

  // ---------------------------------------------------------------- the input state machine

  const WINDOW_FOR_SYN := DEFAULT_MSS

  /** Passive open: the connection is set up and answers with SYN and ACK. */
  ghost function InListen(ep: Endpoint, p: Packet, ie: InEnv): Res {
    if p.rst || !p.syn then Res(ep, [])
    else if p.ack then Res(ep, SndRst(p, ie.m1))
    else if !ie.m3 then Res(ep, [])
    else
      var ep1 := ep.(st := SynRcvd,
                     snd := Agreed(ep.snd.(wnd := WINDOW_FOR_SYN), Max(32, ie.mss)),
                     rcv := ep.rcv.(sync := true, nxt := p.seqno, wnd := p.seqno, read := p.seqno + 1, mss := Max(32, ie.rmss)));
      var r := TakeData(ep1, p, ie);
      After(r, SendQueued(r.ep, Queue(r.ep, [], Ask(true, false, true), 1), ie.e1))
  }

  /** After the peer's SYN we are established if our own SYN has been acknowledged. */
  function AfterSynAck(ep: Endpoint, p: Packet, mss: int): Endpoint {
    if ep.snd.una > ep.snd.isn then
      ep.(st := Established, snd := Agreed(ep.snd.(wnd := p.window, wndseq := p.seqno, wndack := p.ackno), mss))
    else ep.(st := SynRcvd, snd := Agreed(ep.snd, mss))
  }

  /** The peer's SYN in answer to ours, or crossing it. */
  ghost function SynArrived(ep: Endpoint, p: Packet, ie: InEnv): Res {
    var ep1 := ep.(rcv := ep.rcv.(sync := true, nxt := p.seqno, wnd := p.seqno, read := p.seqno + 1));
    var r := TakeAck(ep1, p, false, ie);
    var d := TakeData(AfterSynAck(r.ep, p, Max(32, ie.mss)), p, ie);
    After(After(r, d), PureAck(d.ep, ie.m3))
  }

  ghost function InSynSent(ep: Endpoint, p: Packet, ie: InEnv): Res {
    if p.ack && (p.ackno <= ep.snd.isn || p.ackno > ep.snd.max) then Res(ep, SndRst(p, ie.m1))
    else if p.rst then Res(if p.ack then Reset(ep) else ep, [])
    else if !p.syn then Res(ep, [])
    else SynArrived(ep, p, ie)
  }

  ghost function InSynRcvd(ep: Endpoint, p: Packet, ie: InEnv): Res {
    if p.rst then Res(Reset(ep), [])
    else if p.syn then Res(Reset(ep), SndRst(p, ie.m1))
    else if !p.ack then Res(ep, [])
    else
      var r := TakeAck(ep, p, false, ie);
      var d := TakeData(r.ep.(st := Established, snd := r.ep.snd.(wnd := p.window, wndseq := p.seqno, wndack := p.ackno)), p, ie);
      After(r, Res(if d.ep.rcv.Finished() then d.ep.(st := CloseWait) else d.ep, d.out))
  }

  ghost function InEstablished(ep: Endpoint, p: Packet, ie: InEnv): Res {
    if p.rst then Res(Reset(ep), [])
    else if p.syn then Res(Reset(ep), SndRst(p, ie.m1))
    else if !p.ack then Res(ep, [])
    else
      var r := TakeAck(ep, p, true, ie);
      var d := TakeData(r.ep, p, ie);
      After(r, Res(if d.ep.rcv.Finished() then d.ep.(st := CloseWait) else d.ep, d.out))
  }

  /** Segments that kill a closing connection: resets, SYNs, and data nobody can read. */
  predicate Fatal(ep: Endpoint, p: Packet) { p.rst || p.syn || (!ep.sock && |p.data| > 0) }

  ghost function InFinWait1(ep: Endpoint, p: Packet, ie: InEnv): Res {
    if Fatal(ep, p) then Res(Reset(ep), SndRst(p, ie.m1))
    else if !p.ack then Res(ep, [])
    else
      var r := TakeAck(ep, p, true, ie);
      var d := TakeData(r.ep, p, ie);
      var acked := d.ep.snd.write <= d.ep.snd.una;
      After(r, Res(
        if d.ep.rcv.Finished() then (if acked then EnterTimeWait(d.ep) else d.ep.(st := Closing))
        else if acked then d.ep.(st := FinWait2) else d.ep, d.out))
  }

  /** Entering the last state stops the output timer. */
  function EnterTimeWait(ep: Endpoint): Endpoint {
    ep.(st := TimeWait, snd := ep.snd.(timer := false), delack := false)
  }

  ghost function InFinWait2(ep: Endpoint, p: Packet, ie: InEnv): Res {
    if Fatal(ep, p) then Res(Reset(ep), SndRst(p, ie.m1))
    else if !p.ack then Res(ep, [])
    else
      var r := TakeAck(ep, p, false, ie);
      var d := TakeData(r.ep, p, ie);
      After(r, Res(if d.ep.rcv.Finished() then EnterTimeWait(d.ep) else d.ep, d.out))
  }

  function InCloseWait(ep: Endpoint, p: Packet, ie: InEnv): Res {
    if p.rst || p.syn then Res(Reset(ep), SndRst(p, ie.m1)) else TakeAck(ep, p, true, ie)
  }

  function InLastAck(ep: Endpoint, p: Packet, ie: InEnv): Res {
    if Fatal(ep, p) then Res(Reset(ep), SndRst(p, ie.m1))
    else
      var r := TakeAck(ep, p, false, ie);
      if r.ep.snd.write <= r.ep.snd.una then r.(ep := r.ep.(st := Closed)) else r
  }

  function InClosing(ep: Endpoint, p: Packet, ie: InEnv): Res {
    if Fatal(ep, p) then Res(Reset(ep), SndRst(p, ie.m1))
    else
      var r := TakeAck(ep, p, false, ie);
      if r.ep.snd.write <= r.ep.snd.una then r.(ep := EnterTimeWait(r.ep)) else r
  }

  ghost function InTimeWait(ep: Endpoint, p: Packet, ie: InEnv): Res {
    if Fatal(ep, p) then Res(ep.(st := Closed), SndRst(p, ie.m1))
    else
      var r := TakeAck(ep, p, false, ie);
      var d := TakeData(r.ep, p, ie);
      After(r, Res(EnterTimeWait(d.ep), d.out))
  }

  /** The state's handler. */
  ghost function Dispatch(ep: Endpoint, p: Packet, ie: InEnv): Res {
    match ep.st
    case Closed => Res(ep, SndRst(p, ie.m1))
    case Listen => InListen(ep, p, ie)
    case SynSent => InSynSent(ep, p, ie)
    case SynRcvd => InSynRcvd(ep, p, ie)
    case Established => InEstablished(ep, p, ie)
    case FinWait1 => InFinWait1(ep, p, ie)
    case FinWait2 => InFinWait2(ep, p, ie)
    case CloseWait => InCloseWait(ep, p, ie)
    case LastAck => InLastAck(ep, p, ie)
    case Closing => InClosing(ep, p, ie)
    case TimeWait => InTimeWait(ep, p, ie)
  }

  /** A segment for this connection: acceptance test, then the state's handler. */
  ghost function Input(ep: Endpoint, p: Packet, ie: InEnv): Res {
    var v := Check(ep.rcv, ep.st, p);
    if v.ok then Dispatch(ep, v.p, ie) else SndAck(ep, p, ie.m1)
  }

  // ---------------------------------------------------------------- calls from above

  /** Active open. */
  function Connect(ep: Endpoint, e: Env): Res {
    var r := SendQueued(ep, Queue(ep, [], Ask(true, false, false), 1), e);
    r.(ep := r.ep.(st := SynSent))
  }

  /** One round of the write call: what fits is queued. */
  function Write(ep: Endpoint, data: seq<Byte>, mem: nat): Queued {
    var n := Min(CanWrite(ep.snd, ep.st), |data|);
    if n <= 0 then Queued(ep.snd, 0, false) else Queue(ep, data[..n], Ask(false, false, false), mem)
  }

  /** The state after the user closes the sending direction. */
  function ClosingState(st: State): State {
    match st
    case SynRcvd => FinWait1
    case Established => FinWait1
    case CloseWait => LastAck
    case _ => st
  }

  /** Half close: the state changes first, then the FIN is queued, if a segment can be had. */
  function Shutdown(ep: Endpoint, mem: nat, e: Env): Res {
    if ClosingState(ep.st) == ep.st then Res(ep, []) else
    var ep1 := ep.(st := ClosingState(ep.st));
    SendQueued(ep1, Queue(ep1, [], Ask(false, true, true), mem), e)
  }

  /** Full close: unread data is thrown away and the socket goes. */
  function Detach(ep: Endpoint, mem: nat, e: Env, m: bool): Res {
    if !ep.st.Synchronised() then Res(Reset(ep).(sock := false), []) else
    var r := Shutdown(ep, mem, e);
    After(r, Discard(r.ep, m))
  }

  /** Throws unread data away, with a window update if that opens the window enough. */
  function Discard(ep: Endpoint, m: bool): Res {
    var d := Drop(MarkAll(ep.rcv.q), ep.rcv.cur, ep.rcv.nxt);
    var ep1 := ep.(sock := false, rcv := ep.rcv.(q := d.q, cur := d.cur, read := d.read));
    if AnnounceWindow(ep1.rcv, ep1.st) then PureAck(ep1, m) else Res(ep1, [])
  }

  function MarkAll(q: seq<Seg>): seq<Seg> { seq(|q|, i requires 0 <= i < |q| => q[i].(used := true)) }

  /** What happens after a successful read: a window update if the window opened enough. */
  function AnnounceRead(ep: Endpoint, m: bool): Res {
    if AnnounceWindow(ep.rcv, ep.st) then PureAck(ep, m) else Res(ep, [])
  }
}
