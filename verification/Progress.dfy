/** Getting on: from a reachable state in which data is waiting, a few events make the reading user get more. */
module Progress {
  import opened TcpTypes
  import opened Stream
  import opened TcpSend
  import opened SendFacts
  import opened Sending
  import opened RecvQueue
  import opened TcpRecv
  import opened ReceiveFacts
  import opened TcpEndpoint
  import opened EndpointFacts
  import opened TcpSystem
  import opened SystemFacts
  import opened RunFacts
  import opened RunTheorems
  import Acceptance

  // ---------------------------------------------------------------- reading

  /** A user is there and the connection has not been given up. */
  predicate Open(h: Host) { h.ep.sock && h.ep.st.Synchronised() }

  /** If anything lies in sequence beyond the read position, a read returns it. */
  lemma {:induction false} ReadGets(h: Host, g: Host, size: nat, m: bool)
    requires HostOk(h) && Heard(h, g) && Open(h) && h.ep.rcv.read < h.ep.rcv.DataNxt() && size > 0
    ensures |h.got| < |Act(h, g.wire, DoRead(size, m)).got|
  {
    hide QueueOk, InStream, ReadCall, Normal, IsEdge, AnnounceRead;
    var r := h.ep.rcv;
    ReadCallFollowsStream(r, size, g.isn + 1, Shown(g), FinShown(g));
    if !Readable(r) { NothingToRead(r, size); }
  }

  lemma {:induction false} NothingToRead(r: Rcv, size: nat)
    requires !Readable(r)
    ensures ReadCall(r, size).r == r
  {
  }

  // ---------------------------------------------------------------- receiving

  /** The packet carries the byte at number `x`. */
  predicate Brings(k: Packet, x: int) {
    !k.rst && !k.syn && k.ack && k.seqno <= x < k.seqno + |k.data|
  }

  lemma {:induction false} NotFinishedYet(r: Rcv, p: Packet, base: int, str: seq<Byte>, closed: bool)
    requires FinAgrees(r, base, str, closed) && Genuine(p, base, str, closed) && Brings(p, r.nxt)
    ensures !r.Finished() && base <= r.nxt <= base + |str| && InStream(p.seqno, p.data, base, str)
  {
  }

  /** Taking in the byte at the frontier moves the frontier. */
  lemma {:induction false} FrontierMoves(r: Rcv, p: Packet, base: int, str: seq<Byte>, closed: bool)
    requires Agrees(r, base, str, closed) && Genuine(p, base, str, closed) && Brings(p, r.nxt)
    ensures Agrees(Receive(r, p), base, str, closed)
    ensures r.read < Receive(r, p).DataNxt() && r.nxt <= Receive(r, p).nxt
  {
    NotFinishedYet(r, p, base, str, closed);
    hide InStream, Normal, Insert, Receive;
    ReceiveAgrees(r, p, base, str, closed);
    DataKeepsUnread(r, p, base, str);
    FinAfterData(r, p, base, str, closed);
    FrontierIsFirstHole(r, p, r.read);
    InsertCoversUnion(r.q, Payload(p), r.nxt);
  }

  /** An open host takes such a packet in, whatever its state. */
  lemma {:induction false} TakenIn(h: Host, g: Host, p: Packet, ie: InEnv)
    requires HostOk(h) && Heard(h, g) && Open(h) && Genuine(p, g.isn + 1, Shown(g), FinShown(g)) && Brings(p, h.ep.rcv.nxt)
    ensures var ep := Dispatch(h.ep, p, ie).ep;
      SameButWindow(Receive(h.ep.rcv, p), ep.rcv) && ep.st.Synchronised() && ep.sock
  {
    NotFinishedYet(h.ep.rcv, p, g.isn + 1, Shown(g), FinShown(g));
    FrontierMoves(h.ep.rcv, p, g.isn + 1, Shown(g), FinShown(g));
    if h.ep.st.SynRcvd? {
      SynRcvdTakesIn(h.ep, p, ie, h.sent, h.closed);
    } else {
      DataTakenIn(h.ep, p, ie, h.sent, h.closed);
    }
  }

  lemma {:induction false} DataTakenIn(ep: Endpoint, p: Packet, ie: InEnv, str: seq<Byte>, closed: bool)
    requires EpOk(ep, str, closed) && ep.rcv.nxt <= Receive(ep.rcv, p).nxt && p.ack && !p.rst && !p.syn && ep.sock
    requires ep.st.Established? || ep.st.FinWait1? || ep.st.FinWait2?
    ensures var ep' := Dispatch(ep, p, ie).ep;
      SameButWindow(Receive(ep.rcv, p), ep'.rcv) && ep'.st.Synchronised() && ep'.sock
  {
    hide QueueOk, Receive, TakeAck, TakeData, EpOk;
    AckThenDataCarries(ep, p, !ep.st.FinWait2?, ie, str, closed);
  }

  lemma {:induction false} SynRcvdTakesIn(ep: Endpoint, p: Packet, ie: InEnv, str: seq<Byte>, closed: bool)
    requires EpOk(ep, str, closed) && ep.rcv.nxt <= Receive(ep.rcv, p).nxt && p.ack && !p.rst && !p.syn && ep.sock && ep.st.SynRcvd?
    ensures var ep' := Dispatch(ep, p, ie).ep;
      SameButWindow(Receive(ep.rcv, p), ep'.rcv) && ep'.st.Synchronised() && ep'.sock
  {
    hide QueueOk, Receive, TakeAck;
    TakeAckCarries(ep, p, false, ie, str, closed);
    var r := TakeAck(ep, p, false, ie);
    var ep1 := r.ep.(st := Established, snd := r.ep.snd.(wnd := p.window, wndseq := p.seqno, wndack := p.ackno));
    WindowFieldsFree(r.ep.snd, ep1.snd, str, closed);
    WindowDoesNotMatter(ep.rcv, r.ep.rcv, p);
    TakeDataCarries(ep1, p, ie, str, closed, p.ackno);
  }

  /** Delivering the byte at the frontier, then reading. */
  lemma {:induction false} DeliveryHelps(h: Host, g: Host, k: Packet, ie: InEnv, size: nat, m: bool)
    requires HostOk(h) && HostOk(g) && Link(h, g) && Link(g, h) && Open(h) && size > 0
    requires k in g.wire && Brings(k, h.ep.rcv.nxt) && Window(h.ep.rcv, h.ep.st) > 0
    ensures |h.got| < |Act(Act(h, g.wire, Deliver(k, ie)), g.wire, DoRead(size, m)).got|
  {
    hide QueueOk, InStream, Dispatch, Act, Window;
    var h1 := Act(h, g.wire, Deliver(k, ie));
    HalfStep(h, g, Deliver(k, ie));
    Delivered(h, g, k, ie);
    ReadGets(h1, g, size, m);
  }

  lemma {:induction false} Delivered(h: Host, g: Host, k: Packet, ie: InEnv)
    requires HostOk(h) && Heard(h, g) && Link(g, h) && Open(h)
    requires k in g.wire && Brings(k, h.ep.rcv.nxt) && Window(h.ep.rcv, h.ep.st) > 0
    ensures var h1 := Act(h, g.wire, Deliver(k, ie));
      Open(h1) && h1.got == h.got && h1.ep.rcv.read < h1.ep.rcv.DataNxt()
  {
    hide QueueOk, InStream, Dispatch, Window;
    assert OnWire(k, g, h);
    CutOnWire(k, g, h);
    Acceptable(h.ep.rcv, h.ep.st, Cut(k));
    AcceptedIsGenuine(h, g, Cut(k));
    var p := Check(h.ep.rcv, h.ep.st, Cut(k)).p;
    FrontierMoves(h.ep.rcv, p, g.isn + 1, Shown(g), FinShown(g));
    TakenIn(h, g, p, ie);
  }

  lemma {:induction false} Acceptable(r: Rcv, st: State, k: Packet)
    requires st.Synchronised() && Window(r, st) > 0 && Brings(k, r.nxt)
    ensures Check(r, st, k).ok && Brings(Check(r, st, k).p, r.nxt)
  {
    hide Window;
  }

  // ---------------------------------------------------------------- retransmitting

  /** The byte at number `x` has been sent in the first queued segment, the SYN is through and there are tries left. */
  predicate CanResend(s: Snd, x: int) {
    && (s.ostate.Xmit? || s.ostate.Retrans?) && CanRetrans(s) && s.nretrans < MAX_RETRY
    && s.isn < s.q[0].start && s.una <= x < Min(s.nxt, s.q[0].DataEnd())
  }

  lemma {:induction false} ResendBrings(s: Snd, x: int, e: Env, str: seq<Byte>, closed: bool) returns (p: Packet)
    requires SndOk(s, str, closed) && CanResend(s, x) && e.budget > 0
    ensures TimerFires(s, e).out == [p] && !TimerFires(s, e).dead && Brings(p, x)
  {
    hide QueueOk, SndSeg, Padded;
    var d := if s.ostate.Xmit? && s.dupacks >= DUP_THRESHOLD then DUP_THRESHOLD - 1 else s.dupacks;
    var s1 := s.(timer := false, ostate := Retrans, dupacks := d);
    assert TimerFires(s, e) == Retransmit(s1, e);
    var n := s.nretrans + 1;
    var s2 := Backed(s1.(nretrans := n));
    PaddedBrings(s2, n, x, str, closed);
    p := Padded(s2, 0, n, s.una, s.nxt);
    HandedDown(s2, n);
  }

  lemma {:induction false} HandedDown(s: Snd, n: nat)
    requires |s.q| > 0 && !Outside(s.q[0], s.una, s.nxt) && s.una <= s.nxt
    ensures var r := SndSeg(s, 0, n, s.una, s.nxt, Sent).0; r.out == [Padded(s, 0, n, s.una, s.nxt)] && !r.dead
  {
    hide Padded, Appended;
  }

  lemma {:induction false} PaddedBrings(s: Snd, n: nat, x: int, str: seq<Byte>, closed: bool)
    requires QueueOk(s.q, s.isn, s.write, str, closed) && HeadAtUna(s) && |s.q| > 0 && s.una < s.nxt
    requires s.isn < s.q[0].start && s.una <= x < Min(s.nxt, s.q[0].DataEnd())
    ensures !Outside(s.q[0], s.una, s.nxt) && Brings(Padded(s, 0, n, s.una, s.nxt), x)
  {
    hide InStream;
    assert SegOk(s.q[0], s.isn, str, closed);
  }

  // ---------------------------------------------------------------- sending for the first time

  /** The byte at number `x` is queued and unsent, everything before it is acknowledged, and the window is open. */
  predicate CanStart(s: Snd, x: int, e: Env) {
    && s.ostate.Persist? && s.wnd > 0 && |s.q| > 0 && s.una == s.nxt == x < s.q[0].DataEnd() && s.isn < s.q[0].start
    && x < Reach(s, e) && (s.q[0].End() <= Reach(s, e) || 2 * (Reach(s, e) - x) > s.wnd)
  }

  lemma {:induction false} StartBrings(s: Snd, x: int, e: Env, str: seq<Byte>, closed: bool)
    requires SndOk(s, str, closed) && CanStart(s, x, e) && e.budget > 0
    ensures var r := TimerFires(s, e); |r.out| > 0 && Brings(r.out[0], x)
  {
    hide QueueOk, SndHead, Clip, Brings;
    var s1 := s.(timer := false, wndmax := s.wnd);
    HeadBrings(s1, x, e, str, closed);
  }

  lemma {:induction false} HeadBrings(s: Snd, x: int, e: Env, str: seq<Byte>, closed: bool)
    requires SndOk(s, str, closed) && CanStart(s, x, e) && e.budget > 0 && s.wndmax == s.wnd
    ensures var r := SndHead(s, e); |r.out| > 0 && Brings(r.out[0], x)
  {
    hide QueueOk, Clip, Brings, SendLimit;
    WriteBeyond(s, x, str, closed);
    FirstPiece(s, x, Reach(s, e), str, closed);
    var (r, ok) := SendOne(s, 0, Reach(s, e), Sent);
    assert FirstPast(s.q, s.nxt) == 0;
    assert SndHead(s, e).out == (Then(r, SendFrom(r.s, 1, Reach(s, e), e.budget - 1, e.failure))).out;
  }

  lemma {:induction false} WriteBeyond(s: Snd, x: int, str: seq<Byte>, closed: bool)
    requires SndOk(s, str, closed) && |s.q| > 0 && x < s.q[0].DataEnd()
    ensures x < s.write
  {
    ChainOrder(s.q, s.write, 0);
  }

  lemma {:induction false} FirstPiece(s: Snd, x: int, w: int, str: seq<Byte>, closed: bool)
    requires QueueOk(s.q, s.isn, s.write, str, closed) && HeadAtUna(s) && |s.q| > 0
    requires s.una == s.nxt == x < s.q[0].DataEnd() && s.isn < s.q[0].start && x < w
    ensures var (r, ok) := SendOne(s, 0, w, Sent); ok && |r.out| == 1 && Brings(r.out[0], x)
  {
    hide InStream;
    assert SegOk(s.q[0], s.isn, str, closed);
  }

  // ---------------------------------------------------------------- probing a closed window

  /** What a host answers to a segment that it does not accept. */
  function Reply(ep: Endpoint): Packet {
    var last := ep.snd.wndack + ep.snd.wnd - (if ep.snd.wnd > 0 then 1 else 0);
    Packet(Min(ep.snd.nxt, last), [], false, false, false, true, ep.rcv.nxt, Window(ep.rcv, ep.st))
  }

  /** The probe that the timer sends while the window is closed. */
  function ProbeOf(ep: Endpoint, e: Env): Packet {
    Packet(ep.snd.una - 2, [e.bogus], false, false, false, true, ep.rcv.nxt, Window(ep.rcv, ep.st))
  }

  lemma {:induction false} ProbeGoesOut(h: Host, wire: set<Packet>, e: Env)
    requires h.ep.snd.ostate.Persist? && h.ep.snd.wnd == 0 && h.ep.snd.timer && !h.ep.st.Closed? && e.budget > 0 && !e.silent
    ensures var h' := Act(h, wire, TimerExpires(e)); ProbeOf(h.ep, e) in h'.wire && h'.ep == h.ep && h'.got == h.got
  {
    hide Window, Record;
    var r := Apply(h.ep, TimerFires(h.ep.snd, e));
    assert r.ep == h.ep && r.out == [ProbeOf(h.ep, e)];
    assert r.out[0] in Took(h, r).wire;
  }

  lemma {:induction false} ProbeAnswered(h: Host, g: Host, p: Packet, ie: InEnv)
    requires Open(h) && p in g.wire && !p.rst && !p.syn && !p.fin && |p.data| == 1 && p.seqno + 2 <= h.ep.rcv.nxt && ie.m1
    ensures var h' := Act(h, g.wire, Deliver(p, ie));
      Reply(h.ep) in h'.wire && h'.got == h.got && h'.ep == h.ep.(rcv := Record(h.ep.rcv, h.ep.st), delack := false)
  {
    hide Window, Record, Check, Dispatch;
    ProbeIsRejected(h.ep.rcv, h.ep.st, Cut(p));
    var r := SndAck(h.ep, Cut(p), true);
    assert r.out == [Reply(h.ep)];
    assert r.out[0] in Took(h, r).wire;
  }

  /** The reply `k` is acceptable, its window counts and is open, and lets the byte at number `x` out. */
  predicate OpensFor(ep: Endpoint, k: Packet, x: int, e: Env) {
    var u := SndWnd(ep.snd, k);
    && Updates(ep.st) && Check(ep.rcv, ep.st, k) == Verdict(true, k) && k.ackno == x && k.window > 0
    && u.Update? && u.ev.WndOpen? && CanOpen(u.s, x, e)
  }

  /** The byte at number `x` is queued and unsent, and the windows that are open now reach it. */
  predicate CanOpen(s: Snd, x: int, e: Env) {
    && s.ostate.Persist? && |s.q| > 0 && s.una == s.nxt == x < s.q[0].DataEnd() && s.isn < s.q[0].start
    && x < Reach(s, e) && (s.q[0].End() <= Reach(s, e) || 2 * (Reach(s, e) - x) > s.wndmax)
  }

  lemma {:induction false} OpenBrings(s: Snd, x: int, e: Env, str: seq<Byte>, closed: bool)
    requires SndOk(s, str, closed) && CanOpen(s, x, e) && e.budget > 0
    ensures var r := Output(s, WndOpen, e); |r.out| > 0 && Brings(r.out[0], x)
  {
    hide QueueOk, Clip, Brings, SendLimit;
    WriteBeyond(s, x, str, closed);
    FirstPiece(s, x, Reach(s, e), str, closed);
    var (r, ok) := SendOne(s, 0, Reach(s, e), Sent);
    assert FirstPast(s.q, s.nxt) == 0;
    assert SndHead(s, e).out == (Then(r, SendFrom(r.s, 1, Reach(s, e), e.budget - 1, e.failure))).out;
  }

  /** A packet that carries the byte goes out with the window event of the reply. */
  lemma {:induction false} ReplyOpens(ep: Endpoint, k: Packet, x: int, ie: InEnv, str: seq<Byte>, closed: bool)
    requires EpOk(ep, str, closed) && ep.snd.wnd == 0 && k.ack && k.data == [] && !k.syn && !k.fin && !k.rst
    requires OpensFor(ep, k, x, ie.e2) && ie.e2.budget > 0
    ensures var out := TakeAck(ep, k, true, ie).out; |out| > 0 && Brings(out[0], x)
  {
    hide QueueOk, Output, Check, Brings, Window, CanOpen, Record;
    var u := SndWnd(ep.snd, k);
    SndWndKeeps(ep.snd, k, str, closed);
    OpenBrings(u.s, x, ie.e2, str, closed);
    OpenAtUna(u.s, x, ie.e2);
    assert AckNumber(ep.(snd := u.s), k, 0, ie) == Res(ep.(snd := u.s), []);
    var r := Output(u.s, u.ev, ie.e2);
    assert TakeAck(ep, k, true, ie).out == Apply(ep.(snd := u.s), r).out;
    StampedBrings(r.out[0], x, ep.rcv.nxt, Window(ep.rcv, ep.st));
  }

  lemma {:induction false} OpenAtUna(s: Snd, x: int, e: Env)
    requires CanOpen(s, x, e)
    ensures s.una == x && |s.q| > 0
  {
  }

  lemma {:induction false} StampedBrings(p: Packet, x: int, ackno: int, window: int)
    requires Brings(p, x)
    ensures Brings(p.(ackno := ackno, window := window), x)
  {
  }

  lemma {:induction false} ReplyTaken(h: Host, g: Host, k: Packet, x: int, ie: InEnv) returns (d: Packet)
    requires HostOk(h) && k in g.wire && k.ack && k.data == [] && !k.syn && !k.fin && !k.rst
    requires h.ep.snd.wnd == 0 && h.ep.sock && OpensFor(h.ep, Cut(k), x, ie.e2) && ie.e2.budget > 0
    ensures d in Act(h, g.wire, Deliver(k, ie)).wire && Brings(d, x)
  {
    hide QueueOk, TakeAck, TakeData, Check, Brings, SndWnd, CanOpen;
    var p := Cut(k);
    ReplyOpens(h.ep, p, x, ie, h.sent, h.closed);
    var a := TakeAck(h.ep, p, true, ie);
    d := a.out[0];
    Acceptance.HandlerSpeaks(h.ep, p, ie);
    var r := Input(h.ep, p, ie);
    assert r.out[0] == d;
    assert d in Took(h, r).wire;
  }

  // ---------------------------------------------------------------- getting on

  /**
   * Something is waiting for the user of `b`: unread data, a packet with the next byte on the wire, the next byte
   * in what the timer of `a` would send, again or for the first time, or in what the answer to its probe would let
   * out. For all but the first `b` must offer a window.
   */
  ghost predicate Waiting(t: Sys, e: Env, ie: InEnv) {
    var r := t.b.ep.rcv;
    && Open(t.b)
    && (|| r.read < r.DataNxt()
        || (Window(r, t.b.ep.st) > 0 && exists k :: k in t.a.wire && Brings(k, r.nxt))
        || (Window(r, t.b.ep.st) > 0 && !t.a.ep.st.Closed? && CanSend(t.a.ep.snd, r.nxt, e))
        || CanProbe(t, e, ie))
  }

  /** `a` waits for a window; the answer of `b` to its probe would open it. */
  predicate CanProbe(t: Sys, e: Env, ie: InEnv) {
    var a, b := t.a.ep, t.b.ep;
    && a.snd.ostate.Persist? && a.snd.wnd == 0 && a.sock && !e.silent && ie.m1 && ie.e2.budget > 0
    && Window(b.rcv, b.st) > 0 && OpensFor(a, Cut(Reply(b)), b.rcv.nxt, ie.e2)
  }

  /** After timer, answer and reply the byte is on the wire, and `b` is as before. */
  lemma {:induction false} ProbeHelps(t: Sys, e: Env, ie: InEnv) returns (d: Packet, t3: Sys)
    requires Inv(t) && Open(t.b) && CanProbe(t, e, ie) && e.budget > 0
    ensures t3 == Step(Step(Step(t, Event(true, TimerExpires(e))), Event(false, Deliver(ProbeOf(t.a.ep, e), ie))), Event(true, Deliver(Reply(t.b.ep), ie)))
    ensures d in t3.a.wire && Brings(d, t3.b.ep.rcv.nxt) && Open(t3.b) && t3.b.got == t.b.got
    ensures Window(t3.b.ep.rcv, t3.b.ep.st) > 0
  {
    hide Act, QueueOk, Link, Brings, OpensFor;
    var p, k := ProbeOf(t.a.ep, e), Reply(t.b.ep);
    OpensAtUna(t.a.ep, Cut(k), t.b.ep.rcv.nxt, ie.e2);
    ProbeGoesOut(t.a, t.b.wire, e);
    var t1 := Step(t, Event(true, TimerExpires(e)));
    ProbeAnswered(t1.b, t1.a, p, ie);
    var t2 := Step(t1, Event(false, Deliver(p, ie)));
    InvStep(t, Event(true, TimerExpires(e)));
    InvStep(t1, Event(false, Deliver(p, ie)));
    d := ReplyTaken(t2.a, t2.b, k, t.b.ep.rcv.nxt, ie);
    t3 := Step(t2, Event(true, Deliver(k, ie)));
  }

  lemma {:induction false} OpensAtUna(ep: Endpoint, k: Packet, x: int, e: Env)
    requires OpensFor(ep, k, x, e)
    ensures ep.snd.una == x && |ep.snd.q| > 0 && Updates(ep.st)
  {
  }

  predicate CanSend(s: Snd, x: int, e: Env) { CanResend(s, x) || CanStart(s, x, e) }

  lemma {:induction false} TimerHelps(t: Sys, e: Env) returns (k: Packet)
    requires Inv(t) && !t.a.ep.st.Closed? && CanSend(t.a.ep.snd, t.b.ep.rcv.nxt, e) && e.budget > 0
    ensures var t1 := Step(t, Event(true, TimerExpires(e))); k in t1.a.wire && Brings(k, t.b.ep.rcv.nxt) && t1.b == t.b
  {
    hide QueueOk, Link, TimerFires, CanStart;
    var h := t.a;
    if CanResend(h.ep.snd, t.b.ep.rcv.nxt) {
      var p := ResendBrings(h.ep.snd, t.b.ep.rcv.nxt, e, h.sent, h.closed);
    } else {
      StartBrings(h.ep.snd, t.b.ep.rcv.nxt, e, h.sent, h.closed);
      StartHasQueue(h.ep.snd, t.b.ep.rcv.nxt, e);
    }
    var r := Apply(h.ep, TimerFires(h.ep.snd, e));
    k := r.out[0];
    assert k in Took(h, r).wire;
  }

  lemma {:induction false} StartHasQueue(s: Snd, x: int, e: Env)
    requires CanStart(s, x, e)
    ensures |s.q| > 0
  {
  }

  lemma {:induction false} DeliverThenRead(t: Sys, k: Packet, ie: InEnv, size: nat, m: bool)
    requires Inv(t) && Open(t.b) && k in t.a.wire && Brings(k, t.b.ep.rcv.nxt) && Window(t.b.ep.rcv, t.b.ep.st) > 0 && size > 0
    ensures |t.b.got| < |Exec(t, [Event(false, Deliver(k, ie)), Event(false, DoRead(size, m))]).b.got|
  {
    hide HostOk, Link, Act, Window;
    DeliveryHelps(t.b, t.a, k, ie, size, m);
    ExecTwo(t, Event(false, Deliver(k, ie)), Event(false, DoRead(size, m)));
  }

  /** From every reachable state in which something is waiting, at most five events make the user get more. */
  lemma {:induction false} SomethingArrives(s: Sys, run: seq<Event>, t: Sys, e: Env, ie: InEnv, size: nat, m: bool) returns (more: seq<Event>)
    requires Fresh(s) && t == Exec(s, run) && Waiting(t, e, ie) && e.budget > 0 && size > 0
    ensures |more| <= 5 && |t.b.got| < |Exec(t, more).b.got|
  {
    hide Exec, Step, Inv, Window, CanSend, CanProbe, Brings;
    InvAlways(s, run);
    var r := t.b.ep.rcv;
    if r.read < r.DataNxt() {
      more := [Event(false, DoRead(size, m))];
      ReadNow(t, size, m);
    } else if CanProbe(t, e, ie) {
      more := ProbeThenRead(t, e, ie, size, m);
    } else if k :| k in t.a.wire && Brings(k, r.nxt) {
      more := [Event(false, Deliver(k, ie)), Event(false, DoRead(size, m))];
      DeliverThenRead(t, k, ie, size, m);
    } else {
      var tick := Event(true, TimerExpires(e));
      var k := TimerHelps(t, e);
      InvStep(t, tick);
      more := [tick, Event(false, Deliver(k, ie)), Event(false, DoRead(size, m))];
      DeliverThenRead(Step(t, tick), k, ie, size, m);
      ExecTwo(Step(t, tick), more[1], more[2]);
      ExecThree(t, tick, more[1], more[2]);
    }
  }

  lemma {:induction false} ProbeThenRead(t: Sys, e: Env, ie: InEnv, size: nat, m: bool) returns (more: seq<Event>)
    requires Inv(t) && Open(t.b) && CanProbe(t, e, ie) && e.budget > 0 && size > 0
    ensures |more| == 5 && |t.b.got| < |Exec(t, more).b.got|
  {
    hide Exec, Step, Inv, Window, CanProbe, Brings;
    var d, t3 := ProbeHelps(t, e, ie);
    var e1, e2, e3 := Event(true, TimerExpires(e)), Event(false, Deliver(ProbeOf(t.a.ep, e), ie)), Event(true, Deliver(Reply(t.b.ep), ie));
    InvStep(t, e1);
    InvStep(Step(t, e1), e2);
    InvStep(Step(Step(t, e1), e2), e3);
    DeliverThenRead(t3, d, ie, size, m);
    ExecThree(t, e1, e2, e3);
    ExecThen(t, [e1, e2, e3], [Event(false, Deliver(d, ie)), Event(false, DoRead(size, m))]);
    more := [e1, e2, e3] + [Event(false, Deliver(d, ie)), Event(false, DoRead(size, m))];
  }

  lemma {:induction false} ReadNow(t: Sys, size: nat, m: bool)
    requires Inv(t) && Open(t.b) && t.b.ep.rcv.read < t.b.ep.rcv.DataNxt() && size > 0
    ensures |t.b.got| < |Exec(t, [Event(false, DoRead(size, m))]).b.got|
  {
    hide HostOk, Act;
    ReadGets(t.b, t.a, size, m);
    ExecTwo(t, Event(false, DoRead(size, m)), Event(false, DoRead(size, m)));
  }
}
