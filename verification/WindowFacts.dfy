/** The receive window over whole runs: its right edge never moves left and every advertised size fits. */
module WindowFacts {
  import opened TcpTypes
  import opened TcpSend
  import opened RecvQueue
  import opened TcpRecv
  import opened TcpEndpoint
  import opened TcpSystem
  import opened Stream
  import opened SendFacts
  import opened ReceiveFacts
  import opened EndpointFacts
  import opened SystemFacts
  import opened RunFacts
  import opened OpenFacts
  import opened UserFacts
  import opened RunTheorems

  /** The buffer has a legal size. */
  predicate Roomy(r: Rcv) { 0 < r.max <= MAX_SPACE && r.mss > 0 }

  /** The counter does not leave more room than a window field can tell; a counter that is not negative never does. */
  predicate Ample(r: Rcv) { r.max - r.cur <= MAX_SPACE }

  /** Nothing larger than a window field can hold is still promised. */
  predicate Tidy(w: bool, ep: Endpoint) {
    w ==> Roomy(ep.rcv) && (ep.st.Synchronised() ==> ep.rcv.wnd - ep.rcv.nxt <= MAX_SPACE)
  }

  predicate Fit(w: bool, out: seq<Packet>) {
    w ==> forall i :: 0 <= i < |out| ==> 0 <= out[i].window <= MAX_SPACE
  }

  /**
   * A step that does not move the recorded edge left and, if `w`, advertises only what fits; the edge never
   * needs the counter to be right, the sizes do.
   */
  predicate Wide(w: bool, ep: Endpoint, r: Res) {
    Fit(w, r.out) && Tidy(w, r.ep) && (!ep.st.Listen? && !ep.st.SynSent? ==> ep.rcv.wnd <= r.ep.rcv.wnd)
  }

  /** A window fits its field exactly if the counter leaves no more room than that. */
  lemma {:induction false} WindowFits(r: Rcv, st: State)
    requires Roomy(r) && (st.Synchronised() ==> r.wnd - r.nxt <= MAX_SPACE)
    ensures 0 <= Window(r, st)
    ensures Window(r, st) <= MAX_SPACE <==> Ample(r)
  {
  }

  lemma {:induction false} RecordWide(r: Rcv, st: State)
    requires Roomy(r) && Ample(r) && (st.Synchronised() ==> r.wnd - r.nxt <= MAX_SPACE)
    ensures var r' := Record(r, st);
      && Roomy(r') && r'.nxt == r.nxt && r'.cur == r.cur
      && (st.Synchronised() ==> r.wnd <= r'.wnd && r'.wnd - r'.nxt <= MAX_SPACE)
  {
    WindowFits(r, st);
  }

  // ---------------------------------------------------------------- when a window is computed for a packet

  /** A segment is handed down, or a probe sent. */
  predicate Loud(r: SndRes) { r.wrote || |r.out| > 0 }

  predicate AckNumberAsks(ep: Endpoint, p: Packet, oldWnd: int, ie: InEnv) {
    var s := ep.snd;
    if p.ackno > s.max then !ep.st.SynRcvd? && !p.rst && ie.m1
    else if s.una < p.ackno then Loud(Output(s.(una := p.ackno), AckRcvd, ie.e1))
    else p.ackno == s.una && oldWnd == p.window && p.Len() == 0 && Loud(Output(s.(dupacks := s.dupacks + 1), DupAck, ie.e1))
  }

  predicate TakeAckAsks(ep: Endpoint, p: Packet, update: bool, ie: InEnv) {
    p.ack &&
    var u := if update then SndWnd(ep.snd, p) else Stale;
    var ep1 := if u.Update? then ep.(snd := u.s) else ep;
    || AckNumberAsks(ep1, p, ep.snd.wnd, ie)
    || (u.Update? && Loud(Output(AckNumber(ep1, p, ep.snd.wnd, ie).ep.snd, u.ev, ie.e2)))
  }

  ghost predicate TakeDataAsks(ep: Endpoint, p: Packet, ie: InEnv) {
    (|p.data| > 0 || p.fin) && !(ep.st.Established? && !AckNow(ep.rcv, p) && !ep.delack) && ie.m2
  }

  // ---------------------------------------------------------------- one output or one acknowledgment

  lemma {:induction false} ApplyWide(w: bool, ep: Endpoint, r: SndRes)
    requires Tidy(w, ep) && (w && Loud(r) ==> Ample(ep.rcv))
    ensures Wide(w, ep, Apply(ep, r))
    ensures !r.dead ==> Apply(ep, r).ep.st == ep.st && SameButWindow(ep.rcv, Apply(ep, r).ep.rcv)
  {
    if w && Loud(r) {
      WindowFits(ep.rcv, ep.st);
      RecordWide(ep.rcv, ep.st);
    }
  }

  lemma {:induction false} AckWide(w: bool, ep: Endpoint, p: Packet, mem: bool)
    requires Tidy(w, ep) && (w && mem && !p.rst ==> Ample(ep.rcv))
    ensures (!p.rst ==> Wide(w, ep, PureAck(ep, mem))) && Wide(w, ep, SndAck(ep, p, mem))
    ensures PureAck(ep, mem).ep.st == ep.st == SndAck(ep, p, mem).ep.st
  {
    if w && mem && !p.rst {
      WindowFits(ep.rcv, ep.st);
      RecordWide(ep.rcv, ep.st);
    }
  }

  lemma {:induction false} WideAfter(w: bool, ep: Endpoint, a: Res, b: Res)
    requires Wide(w, ep, a) && Wide(w, a.ep, b) && (!ep.st.Listen? && !ep.st.SynSent? ==> !a.ep.st.Listen? && !a.ep.st.SynSent?)
    ensures Wide(w, ep, After(a, b))
  {
    if w {
      forall i | 0 <= i < |a.out + b.out| ensures 0 <= (a.out + b.out)[i].window <= MAX_SPACE {
        assert (a.out + b.out)[i] == if i < |a.out| then a.out[i] else b.out[i - |a.out|];
      }
    }
  }

  lemma {:induction false} AckNumberWide(w: bool, ep: Endpoint, p: Packet, oldWnd: int, ie: InEnv)
    requires Tidy(w, ep) && (w && AckNumberAsks(ep, p, oldWnd, ie) ==> Ample(ep.rcv))
    ensures Wide(w, ep, AckNumber(ep, p, oldWnd, ie))
  {
    hide Output;
    if p.ackno > ep.snd.max {
      if ep.st.SynRcvd? { ResetWide(w, ep, p, ie.m1, SndRst(p, ie.m1)); } else { AckWide(w, ep, p, ie.m1); }
    } else if ep.snd.una < p.ackno {
      NewAckWide(w, ep, p, oldWnd, ie);
    } else if p.ackno == ep.snd.una && oldWnd == p.window && p.Len() == 0 {
      var r := Output(ep.snd.(dupacks := ep.snd.dupacks + 1), DupAck, ie.e1);
      ApplyWide(w, ep, r);
      assert AckNumber(ep, p, oldWnd, ie) == Apply(ep, r);
    } else {
      assert AckNumber(ep, p, oldWnd, ie) == Res(ep, []);
    }
  }

  lemma {:induction false} NewAckWide(w: bool, ep: Endpoint, p: Packet, oldWnd: int, ie: InEnv)
    requires Tidy(w, ep) && ep.snd.una < p.ackno <= ep.snd.max && (w && AckNumberAsks(ep, p, oldWnd, ie) ==> Ample(ep.rcv))
    ensures Wide(w, ep, AckNumber(ep, p, oldWnd, ie))
  {
    var r := Apply(ep, Output(ep.snd.(una := p.ackno), AckRcvd, ie.e1));
    ApplyWide(w, ep, Output(ep.snd.(una := p.ackno), AckRcvd, ie.e1));
    assert AckNumber(ep, p, oldWnd, ie) == r.(ep := r.ep.(snd := r.ep.snd.(dupacks := 0)));
  }

  /** Acknowledgment processing; it never gives the connection up. */
  lemma {:induction false} TakeAckWide(w: bool, ep: Endpoint, p: Packet, update: bool, ie: InEnv)
    requires Tidy(w, ep) && ep.st.Synchronised() && TakeAck(ep, p, update, ie).ep.st == ep.st
    requires w && TakeAckAsks(ep, p, update, ie) ==> Ample(ep.rcv)
    ensures Wide(w, ep, TakeAck(ep, p, update, ie))
  {
    if p.ack {
      var u := if update then SndWnd(ep.snd, p) else Stale;
      var ep1 := if u.Update? then ep.(snd := u.s) else ep;
      AckNumberWide(w, ep1, p, ep.snd.wnd, ie);
      var r := AckNumber(ep1, p, ep.snd.wnd, ie);
      if u.Update? {
        var f := Apply(r.ep, Output(r.ep.snd, u.ev, ie.e2));
        assert r.ep.st.Synchronised();
        NumberKeepsCounter(ep1, p, ep.snd.wnd, ie);
        ApplyWide(w, r.ep, Output(r.ep.snd, u.ev, ie.e2));
        WideAfter(w, ep1, r, f);
      }
    }
  }

  /** The counter changes only when the connection is given up. */
  lemma {:induction false} NumberKeepsCounter(ep: Endpoint, p: Packet, oldWnd: int, ie: InEnv)
    requires AckNumber(ep, p, oldWnd, ie).ep.st == ep.st && !ep.st.Closed?
    ensures SameButWindow(ep.rcv, AckNumber(ep, p, oldWnd, ie).ep.rcv)
  {
    hide Output, Window, Stamp;
  }

  lemma {:induction false} TakeDataWide(w: bool, ep: Endpoint, p: Packet, ie: InEnv)
    requires Tidy(w, ep) && ep.rcv.nxt <= Receive(ep.rcv, p).nxt && (w && TakeDataAsks(ep, p, ie) ==> Ample(Receive(ep.rcv, p)))
    ensures Wide(w, ep, TakeData(ep, p, ie))
  {
    hide Receive, AckNow;
    ReceiveKeepsSize(ep.rcv, p);
    if TakeDataAsks(ep, p, ie) { AckWide(w, ep.(rcv := Receive(ep.rcv, p)), p.(rst := false), ie.m2); }
  }

  lemma {:induction false} ReceiveKeepsSize(r: Rcv, p: Packet)
    ensures var r' := Receive(r, p); r'.max == r.max && r'.mss == r.mss && r'.wnd == r.wnd
  {
  }

  // ---------------------------------------------------------------- a packet at a synchronised host

  /** The same step ending in another state. */
  lemma {:induction false} WideRelabelled(w: bool, ep: Endpoint, r: Res, ep': Endpoint)
    requires Wide(w, ep, r) && ep'.rcv == r.ep.rcv && (ep'.st.Synchronised() ==> r.ep.st.Synchronised())
    ensures Wide(w, ep, Res(ep', r.out))
  {
  }

  lemma {:induction false} ResetWide(w: bool, ep: Endpoint, p: Packet, m: bool, out: seq<Packet>)
    requires Tidy(w, ep) && (out == [] || out == SndRst(p, m))
    ensures Wide(w, ep, Res(Reset(ep), out)) && Wide(w, ep, Res(ep.(st := Closed), out)) && Wide(w, ep, Res(ep, out))
  {
  }

  /** No window is computed for a packet while the counter leaves too much room: not before the payload, not after. */
  ghost predicate CalmFor(ep: Endpoint, p: Packet, update: bool, ie: InEnv) {
    && (TakeAckAsks(ep, p, update, ie) ==> Ample(ep.rcv))
    && (TakeDataAsks(Afterwards(ep, p, update, ie), p, ie) ==> Ample(Receive(ep.rcv, p)))
  }

  /** The block as it takes the payload: a host that waits for the acknowledgment of its SYN is established by then. */
  function Afterwards(ep: Endpoint, p: Packet, update: bool, ie: InEnv): Endpoint {
    var r := TakeAck(ep, p, update, ie).ep;
    if ep.st.SynRcvd? then r.(st := Established, snd := r.snd.(wnd := p.window, wndseq := p.seqno, wndack := p.ackno)) else r
  }

  /** The state's handler looks at payload or FIN. */
  predicate LooksAtData(ep: Endpoint, p: Packet) { TakesData(ep, p) || (ep.st.TimeWait? && !Fatal(ep, p)) }

  ghost predicate Calm(ep: Endpoint, p: Packet, ie: InEnv) {
    && (Heeds(ep, p) && TakeAckAsks(ep, p, Updates(ep.st), ie) ==> Ample(ep.rcv))
    && (LooksAtData(ep, p) && TakeDataAsks(Afterwards(ep, p, Updates(ep.st), ie), p, ie) ==> Ample(Receive(ep.rcv, p)))
  }

  lemma {:induction false} AckThenDataWide(w: bool, ep: Endpoint, p: Packet, update: bool, ie: InEnv, str: seq<Byte>, closed: bool)
    requires EpOk(ep, str, closed) && Tidy(w, ep) && ep.st.Synchronised() && !ep.st.SynRcvd?
    requires ep.rcv.nxt <= Receive(ep.rcv, p).nxt && (w ==> CalmFor(ep, p, update, ie))
    ensures Wide(w, ep, AckThenData(ep, p, update, ie)) && AckThenData(ep, p, update, ie).ep.st == ep.st
  {
    hide TakeAck, TakeData, Receive, QueueOk;
    TakeAckCarries(ep, p, update, ie, str, closed);
    var r := TakeAck(ep, p, update, ie);
    TakeAckWide(w, ep, p, update, ie);
    WindowDoesNotMatter(ep.rcv, r.ep.rcv, p);
    TakeDataWide(w, r.ep, p, ie);
    DataKeepsState(r.ep, p, ie);
    WideAfter(w, ep, r, TakeData(r.ep, p, ie));
  }

  lemma {:induction false} DataKeepsState(ep: Endpoint, p: Packet, ie: InEnv)
    ensures TakeData(ep, p, ie).ep.st == ep.st
  {
    hide Receive, AckNow;
  }

  /** The packet and its effect are fit for the handler: the frontier does not move back, the counter leaves no excess. */
  ghost predicate Fair(w: bool, ep: Endpoint, p: Packet, ie: InEnv, str: seq<Byte>, closed: bool) {
    && EpOk(ep, str, closed) && Tidy(w, ep) && ep.st.Synchronised() && (!p.rst ==> !p.syn)
    && (!p.rst && (ep.sock || |p.data| == 0) ==> ep.rcv.nxt <= Receive(ep.rcv, p).nxt)
    && (w ==> Calm(ep, p, ie))
  }

  lemma {:induction false} SynRcvdWide(w: bool, ep: Endpoint, p: Packet, ie: InEnv, str: seq<Byte>, closed: bool)
    requires Fair(w, ep, p, ie, str, closed) && ep.st.SynRcvd? && ep.sock && !p.rst && p.ack
    ensures Wide(w, ep, InSynRcvd(ep, p, ie))
  {
    TakeAckCarries(ep, p, false, ie, str, closed);
    var r := TakeAck(ep, p, false, ie);
    TakeAckWide(w, ep, p, false, ie);
    var ep1 := r.ep.(st := Established, snd := r.ep.snd.(wnd := p.window, wndseq := p.seqno, wndack := p.ackno));
    WideRelabelled(w, ep, r, ep1);
    WindowDoesNotMatter(ep.rcv, ep1.rcv, p);
    TakeDataWide(w, ep1, p, ie);
    var d := TakeData(ep1, p, ie);
    assert d.ep.st.Established?;
    var d1 := Res(if d.ep.rcv.Finished() then d.ep.(st := CloseWait) else d.ep, d.out);
    WideRelabelled(w, ep1, d, d1.ep);
    WideAfter(w, ep, Res(ep1, r.out), d1);
    assert InSynRcvd(ep, p, ie) == After(r, d1);
  }

  /** States that take payload. */
  lemma {:induction false} DataStatesWide(w: bool, ep: Endpoint, p: Packet, ie: InEnv, str: seq<Byte>, closed: bool)
    requires Fair(w, ep, p, ie, str, closed) && !p.rst && (ep.sock || |p.data| == 0)
    requires (ep.st.Established? && p.ack) || ((ep.st.FinWait1? || ep.st.FinWait2?) && p.ack) || ep.st.TimeWait?
    ensures Wide(w, ep, Dispatch(ep, p, ie))
  {
    var update := ep.st.Established? || ep.st.FinWait1?;
    AckThenDataWide(w, ep, p, update, ie, str, closed);
    DataStatesShape(ep, p, ie);
    WideRelabelled(w, ep, AckThenData(ep, p, update, ie), Dispatch(ep, p, ie).ep);
  }

  /** These handlers are the acknowledgment, the payload and a change of state. */
  lemma {:induction false} DataStatesShape(ep: Endpoint, p: Packet, ie: InEnv)
    requires !p.rst && !p.syn && (ep.sock || |p.data| == 0)
    requires (ep.st.Established? && p.ack) || ((ep.st.FinWait1? || ep.st.FinWait2?) && p.ack) || ep.st.TimeWait?
    ensures var r := AckThenData(ep, p, ep.st.Established? || ep.st.FinWait1?, ie);
      Dispatch(ep, p, ie).out == r.out && Dispatch(ep, p, ie).ep.rcv == r.ep.rcv
  {
    hide TakeAck, TakeData, Receive;
  }

  /** States that only look at the acknowledgment. */
  lemma {:induction false} AckStatesWide(w: bool, ep: Endpoint, p: Packet, ie: InEnv, str: seq<Byte>, closed: bool)
    requires Fair(w, ep, p, ie, str, closed) && !p.rst && (ep.sock || |p.data| == 0)
    requires ep.st.CloseWait? || ep.st.LastAck? || ep.st.Closing?
    ensures Wide(w, ep, Dispatch(ep, p, ie))
  {
    hide QueueOk, InStream;
    TakeAckCarries(ep, p, ep.st.CloseWait?, ie, str, closed);
    TakeAckWide(w, ep, p, ep.st.CloseWait?, ie);
    WideRelabelled(w, ep, TakeAck(ep, p, ep.st.CloseWait?, ie), Dispatch(ep, p, ie).ep);
  }

  lemma {:induction false} DispatchWide(w: bool, ep: Endpoint, p: Packet, ie: InEnv, str: seq<Byte>, closed: bool)
    requires Fair(w, ep, p, ie, str, closed)
    requires !ep.sock ==> !ep.st.SynRcvd? && !ep.st.Established? && !ep.st.CloseWait?
    ensures Wide(w, ep, Dispatch(ep, p, ie))
  {
    ResetWide(w, ep, p, ie.m1, []);
    ResetWide(w, ep, p, ie.m1, SndRst(p, ie.m1));
    if !p.rst && (ep.sock || |p.data| == 0) {
      if ep.st.CloseWait? || ep.st.LastAck? || ep.st.Closing? {
        AckStatesWide(w, ep, p, ie, str, closed);
      } else if p.ack && ep.st.SynRcvd? {
        SynRcvdWide(w, ep, p, ie, str, closed);
      } else if p.ack || ep.st.TimeWait? {
        DataStatesWide(w, ep, p, ie, str, closed);
      }
    }
  }

  // ---------------------------------------------------------------- every action

  /** A window computed for a packet: the receive variables and the state it is computed from. */
  datatype Call = Call(r: Rcv, st: State)

  function One(b: bool, r: Rcv, st: State): seq<Call> { if b then [Call(r, st)] else [] }

  /** At most one before the payload is taken in and one after. */
  ghost function Arriving(ep: Endpoint, p: Packet, ie: InEnv): seq<Call> {
    if !Check(ep.rcv, ep.st, p).ok then One(!p.rst && ie.m1, ep.rcv, ep.st)
    else Handling(ep, Check(ep.rcv, ep.st, p).p, ie)
  }

  ghost function Handling(ep: Endpoint, p: Packet, ie: InEnv): seq<Call> {
    var later := Afterwards(ep, p, Updates(ep.st), ie);
    One(Heeds(ep, p) && TakeAckAsks(ep, p, Updates(ep.st), ie), ep.rcv, ep.st)
    + One(LooksAtData(ep, p) && TakeDataAsks(later, p, ie), Receive(later.rcv, p), later.st)
  }

  function QueuedAsks(q: Queued, e: Env): bool { (q.ok || q.taken > 0) && Loud(Output(q.s, Send, e)) }

  function ClosingCalls(ep: Endpoint, mem: nat, e: Env): seq<Call> {
    var ep1 := ep.(st := ClosingState(ep.st));
    One(ep1.st != ep.st && QueuedAsks(Queue(ep1, [], Ask(false, true, true), mem), e), ep.rcv, ep1.st)
  }

  /** The block after its unread data has been thrown away. */
  function Emptied(ep: Endpoint): Endpoint {
    var d := Drop(MarkAll(ep.rcv.q), ep.rcv.cur, ep.rcv.nxt);
    ep.(sock := false, rcv := ep.rcv.(q := d.q, cur := d.cur, read := d.read))
  }

  function EmptyingCalls(ep: Endpoint, m: bool): seq<Call> {
    One(AnnounceWindow(Emptied(ep).rcv, ep.st) && m, Emptied(ep).rcv, ep.st)
  }

  /** The windows that an action of a synchronised host computes for packets. */
  ghost function Calls(h: Host, wire: set<Packet>, a: Action): seq<Call> {
    var ep := h.ep;
    if !ep.st.Synchronised() then [] else
    match a
    case Deliver(p, ie) => if p in wire then Arriving(ep, Cut(p), ie) else []
    case DoWrite(data, mem, e) => One(ep.sock && ep.st.Connected() && QueuedAsks(Write(ep, data, mem), e), ep.rcv, ep.st)
    case DoRead(size, m) =>
      var r := ReadCall(ep.rcv, size).r;
      One(ep.sock && size > 0 && Readable(ep.rcv) && AnnounceWindow(r, ep.st) && m, r, ep.st)
    case TimerExpires(e) => One(ep.snd.timer && Loud(TimerFires(ep.snd, e)), ep.rcv, ep.st)
    case DelayedAck(m) => One(ep.delack && !ep.st.TimeWait? && m, ep.rcv, ep.st)
    case DoShutdown(mem, e) => if ep.sock then ClosingCalls(ep, mem, e) else []
    case DoDetach(mem, e, m) => if ep.sock then ClosingCalls(ep, mem, e) + EmptyingCalls(Shutdown(ep, mem, e).ep, m) else []
    case _ => []
  }

  /** Some window is computed while the counter leaves more room than a window can tell. */
  ghost predicate Strained(calls: seq<Call>) { exists i :: 0 <= i < |calls| && !Ample(calls[i].r) }

  lemma {:induction false} StrainedParts(b: bool, r: Rcv, st: State, more: seq<Call>)
    ensures Strained(One(b, r, st) + more) <==> (b && !Ample(r)) || Strained(more)
    ensures Strained(One(b, r, st)) <==> b && !Ample(r)
  {
    var one := One(b, r, st);
    if b { assert one[0] == Call(r, st) && (one + more)[0] == one[0]; }
    if i :| 0 <= i < |more| && !Ample(more[i].r) { assert (one + more)[|one| + i] == more[i]; }
  }

  /** Taking a segment in never lowers the counter below zero. */
  lemma {:induction false} ReceiveKeepsCounter(r: Rcv, p: Packet)
    requires 0 <= r.cur
    ensures 0 <= Receive(r, p).cur
  {
  }

  predicate HostWide(w: bool, h: Host) {
    Tidy(w, h.ep) && (w ==> forall k :: k in h.wire ==> 0 <= k.window <= MAX_SPACE)
  }

  /** What an action does to the window, seen at the host. */
  predicate WideStep(w: bool, h: Host, h': Host) {
    HostWide(w, h') && (!h.ep.st.Listen? && !h.ep.st.SynSent? ==> h.ep.rcv.wnd <= h'.ep.rcv.wnd)
  }

  lemma {:induction false} TookWide(w: bool, h: Host, r: Res)
    requires HostWide(w, h) && Wide(w, h.ep, r)
    ensures WideStep(w, h, Took(h, r))
  {
  }

  /** Not strained means calm. */
  lemma {:induction false} CalmUnlessStrained(ep: Endpoint, p: Packet, ie: InEnv, str: seq<Byte>, closed: bool)
    requires EpOk(ep, str, closed) && !Strained(Handling(ep, p, ie))
    ensures Calm(ep, p, ie)
  {
    hide TakeAck, TakeAckAsks, TakeDataAsks, Heeds, LooksAtData, Receive, EpOk, Strained, Ample;
    var later := Afterwards(ep, p, Updates(ep.st), ie);
    var more := One(LooksAtData(ep, p) && TakeDataAsks(later, p, ie), Receive(later.rcv, p), later.st);
    StrainedParts(Heeds(ep, p) && TakeAckAsks(ep, p, Updates(ep.st), ie), ep.rcv, ep.st, more);
    StrainedParts(LooksAtData(ep, p) && TakeDataAsks(later, p, ie), Receive(later.rcv, p), later.st, []);
    TakeAckCarries(ep, p, Updates(ep.st), ie, str, closed);
    WindowDoesNotMatter(ep.rcv, later.rcv, p);
    SameRoom(Receive(ep.rcv, p), Receive(later.rcv, p));
  }

  lemma {:induction false} SameRoom(r: Rcv, r': Rcv)
    requires SameButWindow(r, r')
    ensures Ample(r) <==> Ample(r')
  {
  }

  lemma {:induction false} DeliverSyncedWide(w: bool, h: Host, g: Host, k: Packet, ie: InEnv)
    requires HostOk(h) && Heard(h, g) && OnWire(k, g, h) && HostWide(w, h) && h.ep.st.Synchronised()
    requires w ==> !Strained(Arriving(h.ep, k, ie))
    ensures WideStep(w, h, Took(h, Input(h.ep, k, ie)))
  {
    hide QueueOk, InStream, Dispatch, Receive, Handling;
    if Check(h.ep.rcv, h.ep.st, k).ok {
      var p := Check(h.ep.rcv, h.ep.st, k).p;
      CheckKeepsAck(h.ep.rcv, h.ep.st, k);
      if w { CalmUnlessStrained(h.ep, p, ie, h.sent, h.closed); }
      if !k.rst {
        AcceptedIsGenuine(h, g, k);
        if h.ep.sock || |p.data| == 0 { DataHeard(h, g, p); }
      }
      DispatchWide(w, h.ep, p, ie, h.sent, h.closed);
      TookWide(w, h, Dispatch(h.ep, p, ie));
    } else {
      StrainedParts(!k.rst && ie.m1, h.ep.rcv, h.ep.st, []);
      AckWide(w, h.ep, k, ie.m1);
      TookWide(w, h, SndAck(h.ep, k, ie.m1));
    }
  }

  lemma {:induction false} ListenWide(w: bool, h: Host, g: Host, p: Packet, ie: InEnv)
    requires HostOk(h) && Heard(h, g) && OnWire(p, g, h) && HostWide(w, h) && h.ep.st.Listen?
    ensures WideStep(w, h, Took(h, InListen(h.ep, p, ie)))
  {
    hide QueueOk, InStream, Output, Enqueue, Receive;
    var ep := h.ep;
    if p.rst || !p.syn || p.ack || !ie.m3 {
      ResetWide(w, ep, p, ie.m1, InListen(ep, p, ie).out);
    } else {
      SynIsGenuine(p, g, h);
      var ep1 := ep.(st := SynRcvd, snd := Agreed(ep.snd.(wnd := WINDOW_FOR_SYN), Max(32, ie.mss)), rcv := AtSyn(ep.rcv, p, Max(32, ie.rmss)));
      SynHeard(ep.rcv, p, Max(32, ie.rmss), g.isn + 1, Shown(g), FinShown(g));
      ReceiveKeepsCounter(ep1.rcv, p);
      ReceiveKeepsSize(ep1.rcv, p);
      TakeDataWide(w, ep1, p, ie);
      var d := TakeData(ep1, p, ie);
      var q := Queue(d.ep, [], Ask(true, false, true), 1);
      SendQueuedWide(w, d.ep, q, ie.e1);
      WideAfter(w, ep1, d, SendQueued(d.ep, q, ie.e1));
    }
    TookWide(w, h, InListen(ep, p, ie));
  }

  lemma {:induction false} SynSentWide(w: bool, h: Host, g: Host, p: Packet, ie: InEnv)
    requires HostOk(h) && Heard(h, g) && OnWire(p, g, h) && HostWide(w, h) && h.ep.st.SynSent?
    ensures WideStep(w, h, Took(h, InSynSent(h.ep, p, ie)))
  {
    hide QueueOk, InStream, SynArrived;
    var ep := h.ep;
    if !p.rst && p.syn && (p.ack ==> ep.snd.isn < p.ackno <= ep.snd.max) {
      SynIsGenuine(p, g, h);
      SynArrivedWide(w, ep, p, ie, h.sent, g.isn + 1, Shown(g), FinShown(g));
    } else {
      ResetWide(w, ep, p, ie.m1, []);
      ResetWide(w, ep, p, ie.m1, SndRst(p, ie.m1));
    }
    TookWide(w, h, InSynSent(ep, p, ie));
  }

  lemma {:induction false} SynArrivedWide(w: bool, ep: Endpoint, p: Packet, ie: InEnv, sent: seq<Byte>, base: int, str: seq<Byte>, closed: bool)
    requires EpOk(ep, sent, false) && Tidy(w, ep) && ep.st.SynSent? && p.syn
    requires ep.rcv.cur == 0 && ep.rcv.q == [] && !ep.rcv.finSeen && Genuine(p, base, str, closed)
    ensures Wide(w, ep, SynArrived(ep, p, ie))
  {
    hide QueueOk, InStream, Receive, TakeAck, TakeData, Output;
    var ep1 := ep.(rcv := AtSyn(ep.rcv, p, ep.rcv.mss));
    SynHeard(ep.rcv, p, ep.rcv.mss, base, str, closed);
    ReceiveKeepsCounter(ep1.rcv, p);
    TakeAckCarries(ep1, p, false, ie, sent, false);
    AckBeforeSyncWide(w, ep1, p, ie);
    var r := TakeAck(ep1, p, false, ie);
    var ep3 := AfterSynAck(r.ep, p, Max(32, ie.mss));
    DataAndAckWide(w, ep3, p, ie);
    var d := TakeData(ep3, p, ie);
    var f := PureAck(d.ep, ie.m3);
    assert SynArrived(ep, p, ie) == After(After(r, d), f);
    FitAll(w, r.out, d.out, f.out);
  }

  lemma {:induction false} FitAll(w: bool, a: seq<Packet>, b: seq<Packet>, c: seq<Packet>)
    requires Fit(w, a) && Fit(w, b) && Fit(w, c)
    ensures Fit(w, a + b + c)
  {
  }

  lemma {:induction false} DataAndAckWide(w: bool, ep: Endpoint, p: Packet, ie: InEnv)
    requires Tidy(w, ep) && ep.rcv.nxt <= Receive(ep.rcv, p).nxt && (w ==> 0 <= Receive(ep.rcv, p).cur)
    ensures var d := TakeData(ep, p, ie);
      var f := PureAck(d.ep, ie.m3); Fit(w, d.out) && Fit(w, f.out) && Tidy(w, f.ep)
  {
    hide Receive, AckNow;
    ReceiveKeepsSize(ep.rcv, p);
    TakeDataWide(w, ep, p, ie);
    AckWide(w, TakeData(ep, p, ie).ep, p.(rst := false), ie.m3);
  }

  lemma {:induction false} AckBeforeSyncWide(w: bool, ep: Endpoint, p: Packet, ie: InEnv)
    requires Tidy(w, ep) && ep.st.SynSent? && TakeAck(ep, p, false, ie).ep.st == ep.st && ep.rcv.cur == 0
    ensures var r := TakeAck(ep, p, false, ie); Fit(w, r.out) && r.ep.rcv == ep.rcv
  {
    AckNumberWide(w, ep, p, ep.snd.wnd, ie);
    AckNumberBeforeSync(ep, p, ie);
  }

  /** Before synchronisation no window is recorded. */
  lemma {:induction false} AckNumberBeforeSync(ep: Endpoint, p: Packet, ie: InEnv)
    requires ep.st.SynSent? && TakeAck(ep, p, false, ie).ep.st == ep.st
    ensures TakeAck(ep, p, false, ie).ep.rcv == ep.rcv
  {
  }

  /** Queued data going out. */
  lemma {:induction false} SendQueuedWide(w: bool, ep: Endpoint, q: Queued, e: Env)
    requires Tidy(w, ep) && (w && QueuedAsks(q, e) ==> Ample(ep.rcv))
    ensures Wide(w, ep, SendQueued(ep, q, e))
  {
    hide Output;
    if q.ok || q.taken > 0 { ApplyWide(w, ep.(snd := q.s), Output(q.s, Send, e)); }
  }

  lemma {:induction false} ShutdownWide(w: bool, ep: Endpoint, mem: nat, e: Env)
    requires Tidy(w, ep) && (w ==> !Strained(ClosingCalls(ep, mem, e)))
    ensures Wide(w, ep, Shutdown(ep, mem, e))
  {
    hide Output, Queue;
    var ep1 := ep.(st := ClosingState(ep.st));
    StrainedParts(ep1.st != ep.st && QueuedAsks(Queue(ep1, [], Ask(false, true, true), mem), e), ep.rcv, ep1.st, []);
    if ep1.st != ep.st { SendQueuedWide(w, ep1, Queue(ep1, [], Ask(false, true, true), mem), e); }
  }

  /** Dropping everything leaves an empty queue and a counter of nought. */
  lemma {:induction false} DropToEmpty(q: seq<Seg>, cur: int, read: int)
    requires |q| > 0 && forall i :: 0 <= i < |q| ==> q[i].used
    ensures Drop(q, cur, read).q == [] && Drop(q, cur, read).cur == 0
    decreases |q|
  {
    if |q| > 1 {
      DropToEmpty(q[1..], cur - (q[1].start - q[0].start), Max(read, q[0].End()));
    }
  }

  lemma {:induction false} DiscardWide(w: bool, ep: Endpoint, m: bool)
    requires Tidy(w, ep) && (w ==> !Strained(EmptyingCalls(ep, m)))
    ensures Wide(w, ep, Discard(ep, m))
  {
    hide Drop, MarkAll, AnnounceWindow;
    var ep1 := Emptied(ep);
    StrainedParts(AnnounceWindow(ep1.rcv, ep.st) && m, ep1.rcv, ep.st, []);
    if AnnounceWindow(ep1.rcv, ep1.st) {
      AckWide(w, ep1, Packet(0, [], false, false, false, false, 0, 0), m);
    }
  }

  lemma {:induction false} DetachWide(w: bool, ep: Endpoint, mem: nat, e: Env, m: bool)
    requires Tidy(w, ep) && (ep.st.Synchronised() ==> Shutdown(ep, mem, e).ep.st.Synchronised())
    requires w && ep.st.Synchronised() ==> !Strained(ClosingCalls(ep, mem, e) + EmptyingCalls(Shutdown(ep, mem, e).ep, m))
    ensures Wide(w, ep, Detach(ep, mem, e, m))
  {
    hide Shutdown, Discard, Strained, ClosingCalls, EmptyingCalls;
    if ep.st.Synchronised() {
      StrainedBoth(ClosingCalls(ep, mem, e), EmptyingCalls(Shutdown(ep, mem, e).ep, m));
      ShutdownWide(w, ep, mem, e);
      DiscardWide(w, Shutdown(ep, mem, e).ep, m);
      WideAfter(w, ep, Shutdown(ep, mem, e), Discard(Shutdown(ep, mem, e).ep, m));
    }
  }

  lemma {:induction false} StrainedBoth(a: seq<Call>, b: seq<Call>)
    ensures Strained(a + b) <==> Strained(a) || Strained(b)
  {
    if i :| 0 <= i < |a| && !Ample(a[i].r) { assert (a + b)[i] == a[i]; }
    if i :| 0 <= i < |b| && !Ample(b[i].r) { assert (a + b)[|a| + i] == b[i]; }
  }

  lemma {:induction false} WriteWide(w: bool, h: Host, g: Host, data: seq<Byte>, mem: nat, e: Env)
    requires HostOk(h) && HostWide(w, h) && (w ==> !Strained(Calls(h, g.wire, DoWrite(data, mem, e))))
    ensures WideStep(w, h, Act(h, g.wire, DoWrite(data, mem, e)))
  {
    hide Output, Write, QueueOk;
    if h.ep.sock && h.ep.st.Connected() {
      var q := Write(h.ep, data, mem);
      StrainedParts(h.ep.sock && h.ep.st.Connected() && QueuedAsks(q, e), h.ep.rcv, h.ep.st, []);
      SendQueuedWide(w, h.ep, q, e);
      TookWide(w, h, SendQueued(h.ep, q, e));
    }
  }

  lemma {:induction false} OpenWide(w: bool, h: Host, g: Host, a: Action)
    requires HostOk(h) && Heard(h, g) && HostWide(w, h) && (a.DoConnect? || a.DoListen?)
    ensures WideStep(w, h, Act(h, g.wire, a))
  {
    hide Output, Queue, QueueOk;
    if a.DoConnect? && h.ep.st.Closed? && h.ep.sock && h.ep.snd.write == h.isn {
      var ep1 := h.ep.(snd := h.ep.snd.(wnd := WINDOW_FOR_SYN), rcv := h.ep.rcv.(mss := Max(32, a.rmss)));
      SendQueuedWide(w, ep1, Queue(ep1, [], Ask(true, false, false), 1), a.e);
      TookWide(w, h, Connect(ep1, a.e));
    }
  }

  lemma {:induction false} CloseWide(w: bool, h: Host, g: Host, a: Action)
    requires HostOk(h) && Heard(h, g) && HostWide(w, h) && h.ep.snd.una <= Front(g, h.isn) && (a.DoShutdown? || a.DoDetach?)
    requires w ==> !Strained(Calls(h, g.wire, a))
    ensures WideStep(w, h, Act(h, g.wire, a))
  {
    hide QueueOk, Shutdown, ClosingCalls, EmptyingCalls, Strained, Discard;
    match a
    case DoShutdown(mem, e) =>
      if h.ep.sock {
        NoCloseNoCalls(h.ep, mem, e);
        ShutdownWide(w, h.ep, mem, e);
        TookWide(w, h, Shutdown(h.ep, mem, e));
      }
    case DoDetach(mem, e, m) => DetachHostWide(w, h, g, mem, e, m);
  }

  lemma {:induction false} NoCloseNoCalls(ep: Endpoint, mem: nat, e: Env)
    ensures !ep.st.Synchronised() ==> !Strained(ClosingCalls(ep, mem, e))
  {
  }

  lemma {:induction false} DetachHostWide(w: bool, h: Host, g: Host, mem: nat, e: Env, m: bool)
    requires HostOk(h) && Heard(h, g) && HostWide(w, h) && h.ep.snd.una <= Front(g, h.isn)
    requires w ==> !Strained(Calls(h, g.wire, DoDetach(mem, e, m)))
    ensures WideStep(w, h, Act(h, g.wire, DoDetach(mem, e, m)))
  {
    hide QueueOk, InStream, Output, Shutdown, Discard, Queue, ClosingCalls, EmptyingCalls, Strained;
    if h.ep.sock {
      if h.ep.st.Synchronised() { ShutdownSafe(h, g, mem, e); }
      DetachWide(w, h.ep, mem, e, m);
      TookWide(w, h, Detach(h.ep, mem, e, m));
    }
  }

  lemma {:induction false} TimersWide(w: bool, h: Host, g: Host, a: Action)
    requires HostOk(h) && Heard(h, g) && HostWide(w, h) && (a.TimerExpires? || a.DelayedAck? || a.DeleteTimer? || a.SetRcvBuf?)
    requires w ==> !Strained(Calls(h, g.wire, a))
    ensures WideStep(w, h, Act(h, g.wire, a))
  {
    hide QueueOk, TimerFires;
    match a
    case TimerExpires(e) =>
      if h.ep.snd.timer && !h.ep.st.Closed? {
        StrainedParts(h.ep.snd.timer && Loud(TimerFires(h.ep.snd, e)), h.ep.rcv, h.ep.st, []);
        ApplyWide(w, h.ep, TimerFires(h.ep.snd, e));
        TookWide(w, h, Apply(h.ep, TimerFires(h.ep.snd, e)));
      }
    case DelayedAck(m) =>
      if h.ep.delack && !h.ep.st.Closed? && !h.ep.st.TimeWait? {
        StrainedParts(h.ep.delack && !h.ep.st.TimeWait? && m, h.ep.rcv, h.ep.st, []);
        AckWide(w, h.ep, Packet(0, [], false, false, false, false, 0, 0), m);
        TookWide(w, h, PureAck(h.ep, m));
      }
    case DeleteTimer =>
    case SetRcvBuf(bytes) =>
  }

  lemma {:induction false} DeliverWide(w: bool, h: Host, g: Host, p: Packet, ie: InEnv)
    requires HostOk(h) && Heard(h, g) && Link(g, h) && HostWide(w, h) && (w ==> !Strained(Calls(h, g.wire, Deliver(p, ie))))
    ensures WideStep(w, h, Act(h, g.wire, Deliver(p, ie)))
  {
    hide QueueOk, InStream, Arriving, Strained, Check;
    if p in g.wire {
      var k := Cut(p);
      assert OnWire(p, g, h);
      CutOnWire(p, g, h);
      if h.ep.st.Synchronised() {
        DeliverSyncedWide(w, h, g, k, ie);
      } else {
        OpeningInput(h.ep, k, ie);
        OpeningWide(w, h, g, k, ie);
      }
    }
  }

  lemma {:induction false} OpeningWide(w: bool, h: Host, g: Host, k: Packet, ie: InEnv)
    requires HostOk(h) && Heard(h, g) && OnWire(k, g, h) && HostWide(w, h) && !h.ep.st.Synchronised()
    ensures WideStep(w, h, Took(h, Dispatch(h.ep, k, ie)))
  {
    hide QueueOk, InStream, InListen, InSynSent;
    if h.ep.st.Listen? {
      ListenWide(w, h, g, k, ie);
    } else if h.ep.st.SynSent? {
      SynSentWide(w, h, g, k, ie);
    } else {
      ResetWide(w, h.ep, k, ie.m1, SndRst(k, ie.m1));
      TookWide(w, h, Res(h.ep, SndRst(k, ie.m1)));
    }
  }

  lemma {:induction false} ReadWide(w: bool, h: Host, g: Host, size: nat, m: bool)
    requires HostOk(h) && Heard(h, g) && HostWide(w, h) && (w ==> !Strained(Calls(h, g.wire, DoRead(size, m))))
    ensures WideStep(w, h, Act(h, g.wire, DoRead(size, m)))
  {
    hide QueueOk, InStream, Normal, IsEdge, CopyFrom, Drop, MarkUsed, SkipUsed, AnnounceWindow;
    if h.ep.sock && h.ep.st.Synchronised() && size > 0 && Readable(h.ep.rcv) {
      var ep1 := h.ep.(rcv := ReadCall(h.ep.rcv, size).r);
      StrainedParts(h.ep.sock && size > 0 && Readable(h.ep.rcv) && AnnounceWindow(ep1.rcv, h.ep.st) && m, ep1.rcv, h.ep.st, []);
      assert Tidy(w, ep1);
      if AnnounceWindow(ep1.rcv, ep1.st) { AckWide(w, ep1, Packet(0, [], false, false, false, false, 0, 0), m); }
      var f := AnnounceRead(ep1, m);
      assert Wide(w, h.ep, f);
      TookWide(w, h, f);
    }
  }

  lemma {:induction false} ActWide(w: bool, h: Host, g: Host, a: Action)
    requires HostOk(h) && Link(h, g) && Link(g, h) && HostWide(w, h) && (w ==> !Strained(Calls(h, g.wire, a)))
    ensures WideStep(w, h, Act(h, g.wire, a))
  {
    hide Act, Calls, Strained, HostOk, HostWide, WideStep;
    if a.Deliver? { DeliverWide(w, h, g, a.p, a.ie); }
    else if a.DoRead? { ReadWide(w, h, g, a.size, a.m); }
    else if a.TimerExpires? || a.DelayedAck? || a.DeleteTimer? || a.SetRcvBuf? { TimersWide(w, h, g, a); }
    else if a.DoShutdown? || a.DoDetach? { CloseWide(w, h, g, a); }
    else if a.DoWrite? { WriteWide(w, h, g, a.data, a.mem, a.e); }
    else { OpenWide(w, h, g, a); }
  }

  // ---------------------------------------------------------------- every run

  /** The state after the first `k` events. */
  ghost function StateAt(s: Sys, run: seq<Event>, k: nat): Sys
    requires k <= |run|
  {
    Exec(s, run[..k])
  }

  lemma {:induction false} OneMore(s: Sys, run: seq<Event>, k: nat)
    requires k < |run|
    ensures StateAt(s, run, k + 1) == Step(StateAt(s, run, k), run[k])
  {
    assert run[..k + 1][..k] == run[..k];
  }

  /** From the moment a host has seen its peer's SYN, no interleaving moves its recorded right window edge left. */
  lemma {:induction false} EdgeNeverMovesLeft(s: Sys, before: seq<Event>, y: Sys, after: seq<Event>)
    requires Fresh(s) && y == Exec(s, before) && y.a.ep.rcv.sync
    ensures y.a.ep.rcv.wnd <= Exec(y, after).a.ep.rcv.wnd
  {
    InvAlways(s, before);
    EdgeFromHere(y, after);
  }

  lemma {:induction false} EdgeFromHere(y: Sys, run: seq<Event>)
    requires Inv(y) && y.a.ep.rcv.sync
    ensures var z := Exec(y, run); Inv(z) && z.a.ep.rcv.sync && y.a.ep.rcv.wnd <= z.a.ep.rcv.wnd
  {
    if |run| > 0 {
      EdgeFromHere(y, run[..|run| - 1]);
      var z := Exec(y, run[..|run| - 1]);
      EdgeStep(z, run[|run| - 1]);
      InvStep(z, run[|run| - 1]);
    }
  }

  lemma {:induction false} EdgeStep(y: Sys, e: Event)
    requires Inv(y) && y.a.ep.rcv.sync
    ensures Step(y, e).a.ep.rcv.sync && y.a.ep.rcv.wnd <= Step(y, e).a.ep.rcv.wnd
  {
    if e.atA { EdgeAct(y.a, y.b, e.act); }
  }

  lemma {:induction false} EdgeAct(h: Host, g: Host, a: Action)
    requires HostOk(h) && Link(h, g) && Link(g, h) && h.ep.rcv.sync
    ensures var h' := Act(h, g.wire, a); h'.ep.rcv.sync && h.ep.rcv.wnd <= h'.ep.rcv.wnd
  {
    ActSafe(h, g, a);
    ActWide(false, h, g, a);
  }
}
