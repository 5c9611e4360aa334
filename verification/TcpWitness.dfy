/**
 * One connection, step by step, in which nothing fails and two things go wrong. Both interfaces allow segments
 * of 32 bytes, both users have set TCP_NODELAY, and all buffers have their default size until `a` asks for the
 * largest. Host `b` connects and writes 10 and then 34 bytes, of which its congestion window lets 32 out; its
 * timer goes off until the retransmission of the second segment, padded with the next six bytes, passes
 * everything sent so far.
 */
module TcpWitness {
  import opened TcpTypes
  import opened RecvQueue
  import opened TcpRecv
  import opened TcpSend
  import opened TcpEndpoint

  function Zeros(n: nat): (z: seq<Byte>)
    ensures |z| == n
  {
    seq(n, i => 0)
  }

  /** A part of zeros. */
  lemma ZerosCut(n: nat, i: nat, j: nat)
    requires i <= j <= n
    ensures Zeros(n)[i..j] == Zeros(j - i)
  {
  }

  // ---------------------------------------------------------------- segments and packets

  /** The size of a fresh buffer, and the largest. */
  const DEFAULT := 64240
  const LARGEST := MAX_SPACE

  function SynSeg(ack: bool, room: int): OutSeg { OutSeg(0, true, [], false, ack, room) }
  function FinSeg(at: int): OutSeg { OutSeg(at, false, [], true, true, 0) }
  function Text(at: int, n: nat): OutSeg { OutSeg(at, false, Zeros(n), false, true, 17) }

  function Data(at: int, n: nat, ackno: int, window: int): Packet {
    Packet(at, Zeros(n), false, false, false, true, ackno, window)
  }
  function Ack(at: int, ackno: int, window: int): Packet {
    Packet(at, [], false, false, false, true, ackno, window)
  }
  function Syn(ack: bool, ackno: int, window: int): Packet {
    Packet(0, [], true, false, false, ack, ackno, window)
  }
  function Fin(at: int, ackno: int, window: int): Packet {
    Packet(at, [], false, true, false, true, ackno, window)
  }

  // ---------------------------------------------------------------- surroundings

  /** Nagle's rule is off, memory suffices, and the connection is never at rest for long. */
  const GOOD := Env(false, false, 9, NoMemory, false, 0)

  const GOOD_IN := InEnv(GOOD, GOOD, true, true, true, 32, 32)

  // ---------------------------------------------------------------- states

  /** What varies on the send side: numbers, queue and machine. */
  function Out(una: int, nxt: int, max: int, write: int, q: seq<OutSeg>, cur: int, o: OState, n: nat): Snd {
    Snd(0, una, nxt, max, write, 0, 0, 0, 0, 32, q, cur, DEFAULT, o, !o.Idle?, n, 0, 32, FIRST_THRESH)
  }

  /** The window the peer offered last. */
  function Offered(s: Snd, wnd: int, seqno: int, ackno: int, most: int): Snd {
    s.(wnd := wnd, wndseq := seqno, wndack := ackno, wndmax := most)
  }

  /** What varies on the receive side. */
  function In(nxt: int, edge: int, read: int, q: seq<Seg>, cur: int, max: int): Rcv {
    Rcv(true, nxt, edge, false, 0, read, q, cur, max, 32)
  }

  function Unsync(mss: int): Rcv { Rcv(false, 0, 0, false, 0, 0, [], 0, DEFAULT, mss) }

  function FreshSnd(): Snd { Out(0, 0, 0, 0, [], 0, Idle, 0).(mss := DEFAULT_MSS, cwnd := DEFAULT_MSS) }

  function FreshSide(): Endpoint { Endpoint(Closed, FreshSnd(), Unsync(DEFAULT_MSS), true, false) }

  function Up(st: State, s: Snd, r: Rcv): Endpoint { Endpoint(st, s, r, true, false) }

  // ---------------------------------------------------------------- the connecting, sending side

  function Asked(): Endpoint {
    var s := Out(0, 1, 1, 1, [SynSeg(false, 1445)], 0, Xmit, 0).(mss := DEFAULT_MSS, cwnd := DEFAULT_MSS);
    Up(SynSent, Offered(s, 1460, 0, 0, 0), Unsync(32))
  }

  function Quietly(): Rcv { In(1, 1 + DEFAULT, 1, [], 0, DEFAULT) }

  function Answered(): Endpoint { Up(Established, Offered(Out(1, 1, 1, 1, [], 0, Idle, 0), DEFAULT, 0, 1, 0), Quietly()) }

  function WroteTen(): Endpoint {
    Up(Established, Offered(Out(1, 11, 11, 11, [Text(1, 10)], 10, Xmit, 0), DEFAULT, 0, 1, 0), Quietly())
  }

  /** The second write goes out as a whole segment and a cut one. */
  function WroteAll(o: OState, n: nat, thresh: int): Endpoint {
    var s := Out(1, 33, 33, 45, [Text(1, 10), Text(11, 17), Text(28, 17)], 44, o, n);
    Up(Established, Offered(s, DEFAULT, 0, 1, 0).(thresh := thresh), Quietly())
  }

  /** The first ten bytes are acknowledged; `n` further retransmissions halve the threshold each time. */
  function HeardTen(max: int, n: nat, cwnd: int, thresh: int): Snd {
    Offered(Out(11, 33, max, 45, [Text(11, 17), Text(28, 17)], 34, Retrans, n), LARGEST, 1, 11, LARGEST).(cwnd := cwnd, thresh := thresh)
  }

  function Retried(n: nat, thresh: int): Endpoint {
    Up(Established, HeardTen(if n >= 6 then 34 else 33, n, 32, thresh), Quietly())
  }

  /** The acknowledgment of the padding lets the rest out. */
  function WentOn(): Endpoint {
    var s := Offered(Out(34, 45, 45, 45, [Text(28, 17)], 17, Xmit, 0), LARGEST - 6, 1, 34, LARGEST).(thresh := 501);
    Up(Established, s, Quietly())
  }

  function HeardFin(): Rcv { In(2, 2 + DEFAULT, 1, [], 0, DEFAULT).(finSeen := true, seqFin := 1) }

  function Waits(): Endpoint { Up(CloseWait, HeardTen(34, 6, 32, 501), HeardFin()) }

  function LastOf(una: int, q: seq<OutSeg>, cur: int, o: OState, n: nat): Endpoint {
    Up(LastAck, Offered(Out(una, 33, 34, 46, q, cur, o, n), LARGEST, 1, 11, LARGEST).(thresh := 501), HeardFin())
  }

  function Ends(): Endpoint { LastOf(11, [Text(11, 17), Text(28, 17), FinSeg(45)], 34, Retrans, 6) }

  /** In LAST-ACK the same acknowledgment opens no window: its left edge has passed `snd_nxt`. */
  function Reversed(): Endpoint { LastOf(34, [Text(28, 17), FinSeg(45)], 17, Xmit, 0) }

  // ---------------------------------------------------------------- the listening, receiving side

  function Listens(): Endpoint { FreshSide().(st := Listen) }

  function Hears(): Endpoint {
    Up(SynRcvd, Offered(Out(0, 1, 1, 1, [SynSeg(true, 17)], 0, Xmit, 0), 1460, 0, 0, 0), In(1, 1 + DEFAULT, 1, [], 0, DEFAULT))
  }

  /** Nothing of its own to send; the window of its peer came with segment `seqno`. */
  function Idles(seqno: int, most: int): Snd { Offered(Out(1, 1, 1, 1, [], 0, Idle, 0), DEFAULT, seqno, 1, most).(cwnd := 64) }

  function TookTen(max: int): Endpoint {
    Up(Established, Idles(1, 0), In(11, 1 + DEFAULT, 1, [Seg(1, Zeros(10), false)], 10, max)).(delack := true)
  }

  /** The right edge after ten bytes have been read from a buffer of the largest size. */
  const EDGE := 11 + LARGEST

  function ReadTen(): Endpoint { Up(Established, Idles(1, 0), In(11, EDGE, 11, [], 0, LARGEST)) }

  function Gap(edge: int): Rcv { In(11, edge, 11, [Seg(28, Zeros(5), false)], 5, LARGEST) }

  /** The padded segment has grown the queue at both ends: 23 bytes, counted as 6. */
  function Swallowed(edge: int): Rcv { In(34, edge, 11, [Seg(11, Zeros(23), false)], 6, LARGEST) }

  function Holds(edge: int): Rcv {
    In(45, edge, 11, [Seg(11, Zeros(23), false), Seg(33, Zeros(12), false)], 17, LARGEST)
  }

  /** Reading the first segment takes 22 off a counter of 17. */
  function ReadOn(edge: int): Endpoint {
    Up(Established, Idles(33, DEFAULT), In(45, edge, 34, [Seg(33, Zeros(12), false)], -5, LARGEST))
  }

  function Shut(seqno: int, most: int): Snd {
    Offered(Out(1, 2, 2, 2, [FinSeg(1)], 0, Xmit, 0), DEFAULT, seqno, 1, most).(cwnd := 64)
  }

  // ---------------------------------------------------------------- opening

  lemma SynQueues(s: Snd, ack: bool)
    requires s.q == [] && s.mss > MAX_RETRY
    ensures Enqueue(s, [], Ask(true, false, ack), true, 1) ==
      Queued(s.(q := [OutSeg(s.write, true, [], false, ack, s.mss - MAX_RETRY)], cur := 0, write := s.write + 1), 0, true)
  {
  }

  lemma SynGoesOut(s: Snd, ack: bool, room: int)
    requires s == Offered(Out(0, 0, 0, 1, [SynSeg(ack, room)], 0, Idle, 0), 1460, 0, 0, 0).(mss := s.mss, cwnd := s.mss) && s.mss >= 32
    ensures Output(s, Send, GOOD) == SndRes(s.(nxt := 1, max := 1, ostate := Xmit, timer := true), [Syn(ack, 0, 0)], true, false)
  {
    var w := Min(1460, s.mss);
    var t := s.(nxt := 1, max := 1);
    assert SendOne(s, 0, w, Sent) == (SndRes(t, [Syn(ack, 0, 0)], true, false), true);
    assert SendFrom(t, 1, w, 8, NoMemory) == Quiet(t);
    assert FirstPast(s.q, 0) == 0;
  }

  /** A first SYN is queued and goes out. */
  lemma FirstSynSent(ep: Endpoint, ack: bool)
    requires ep.snd == Offered(Out(0, 0, 0, 0, [], 0, Idle, 0), 1460, 0, 0, 0).(mss := ep.snd.mss, cwnd := ep.snd.mss) && ep.snd.mss >= 32
    ensures SendQueued(ep, Queue(ep, [], Ask(true, false, ack), 1), GOOD) == Res(
      ep.(snd := ep.snd.(nxt := 1, max := 1, write := 1, q := [SynSeg(ack, ep.snd.mss - MAX_RETRY)], ostate := Xmit, timer := true),
          rcv := Record(ep.rcv, ep.st), delack := false),
      [Syn(ack, ep.rcv.nxt, Window(ep.rcv, ep.st))])
  {
    hide Output, Enqueue, Window, Record;
    SynQueues(ep.snd, ack);
    SynGoesOut(ep.snd.(q := [SynSeg(ack, ep.snd.mss - MAX_RETRY)], write := 1), ack, ep.snd.mss - MAX_RETRY);
    assert Stamp([Syn(ack, 0, 0)], ep.rcv.nxt, Window(ep.rcv, ep.st)) == [Syn(ack, ep.rcv.nxt, Window(ep.rcv, ep.st))];
  }

  lemma ConnectStep()
    ensures Connect(FreshSide().(snd := FreshSnd().(wnd := WINDOW_FOR_SYN), rcv := Unsync(32)), GOOD)
      == Res(Asked(), [Syn(false, 0, DEFAULT)])
  {
    hide SendQueued, Queue;
    FirstSynSent(FreshSide().(snd := FreshSnd().(wnd := WINDOW_FOR_SYN), rcv := Unsync(32)), false);
  }

  lemma NoPayload(r: Rcv, p: Packet)
    requires p.data == []
    ensures Redundant(r.q, Payload(p)) && NextData(r, p) == r.nxt + Bit(p.syn)
  {
  }

  /** A segment without data or FIN only moves the frontier past its SYN. */
  lemma NothingNew(ep: Endpoint, p: Packet, ie: InEnv)
    requires p.data == [] && !p.fin && !ep.rcv.finSeen
    ensures TakeData(ep, p, ie) == Res(ep.(rcv := ep.rcv.(nxt := ep.rcv.nxt + Bit(p.syn))), [])
  {
    NoPayload(ep.rcv, p);
  }

  lemma SynStep()
    ensures Input(Listens(), Syn(false, 0, DEFAULT), GOOD_IN) == Res(Hears(), [Syn(true, 1, DEFAULT)])
  {
    hide SendQueued, Queue, TakeData;
    var r := Up(SynRcvd, Offered(Out(0, 0, 0, 0, [], 0, Idle, 0), 1460, 0, 0, 0), In(1, 0, 1, [], 0, DEFAULT));
    NothingNew(r.(rcv := In(0, 0, 1, [], 0, DEFAULT)), Syn(false, 0, DEFAULT), GOOD_IN);
    FirstSynSent(r, true);
  }

  /** Everything is acknowledged: the machine comes to rest. */
  lemma AllAcked(s: Snd)
    requires |s.q| == 1 && s.q[0].data == [] && s.q[0].End() <= s.una && s.write <= s.una && (s.ostate.Xmit? || s.ostate.Persist?)
    ensures Output(s, AckRcvd, GOOD) == Quiet(s.(q := [], cur := 0, nretrans := 0, cwnd := Opened(s, 1), timer := false, ostate := Idle))
  {
    hide Opened;
    assert s.q[1..] == [];
    assert FirstPast(s.q, s.una) == 1;
    assert DropData(s) == s.(q := [], cur := 0, nretrans := 0, cwnd := Opened(s, 1));
  }

  lemma SynAcknowledged(ep: Endpoint)
    requires ep == Asked().(rcv := In(0, 0, 1, [], 0, DEFAULT))
    ensures TakeAck(ep, Syn(true, 1, DEFAULT), false, GOOD_IN)
      == Res(ep.(snd := Offered(Out(1, 1, 1, 1, [], 0, Idle, 0), 1460, 0, 0, 0).(mss := DEFAULT_MSS, cwnd := 2920)), [])
  {
    hide Output;
    AllAcked(ep.snd.(una := 1));
    assert Stamp([], 0, DEFAULT) == [];
  }

  lemma SynAckStep()
    ensures Input(Asked(), Syn(true, 1, DEFAULT), GOOD_IN) == Res(Answered(), [Ack(1, 1, DEFAULT)])
  {
    hide TakeAck, TakeData;
    var p := Syn(true, 1, DEFAULT);
    var ep1 := Asked().(rcv := In(0, 0, 1, [], 0, DEFAULT));
    SynAcknowledged(ep1);
    var d := Answered().(rcv := In(1, 0, 1, [], 0, DEFAULT));
    NothingNew(d.(rcv := ep1.rcv), p, GOOD_IN);
    assert PureAck(d, true) == Res(Answered(), [Ack(1, 1, DEFAULT)]);
  }

  // ---------------------------------------------------------------- writing

  lemma TenStep()
    ensures var q := Write(Answered(), Zeros(10), 1);
      q.taken == 10 && SendQueued(Answered(), q, GOOD) == Res(WroteTen(), [Data(1, 10, 1, DEFAULT)])
  {
    var s := Answered().snd;
    ZerosCut(10, 0, 10);
    assert Zeros(10)[..10] == Zeros(10);
    var s1 := s.(q := [Text(1, 10)], cur := 10, write := 11);
    assert Enqueue(s, Zeros(10), Ask(false, false, false), true, 1) == Queued(s1, 10, true);
    TenGoOut(s1);
    assert Stamp([Data(1, 10, 0, 0)], 1, DEFAULT) == [Data(1, 10, 1, DEFAULT)];
  }

  lemma TenGoOut(s: Snd)
    requires s == Answered().snd.(q := [Text(1, 10)], cur := 10, write := 11)
    ensures Output(s, Send, GOOD) == SndRes(WroteTen().snd, [Data(1, 10, 0, 0)], true, false)
  {
    ZerosCut(10, 0, 10);
    var t := s.(nxt := 11, max := 11);
    assert Clip(Text(1, 10), 1, 33) == Data(1, 10, 0, 0);
    assert SendOne(s, 0, 33, Sent) == (SndRes(t, [Data(1, 10, 0, 0)], true, false), true);
    assert SendFrom(t, 1, 33, 8, NoMemory) == Quiet(t);
    assert FirstPast(s.q, 1) == 0;
    assert SndHead(s, GOOD) == SndRes(t, [Data(1, 10, 0, 0)], true, false);
  }

  /** The queue with everything written. */
  function Queue44(): Snd {
    WroteTen().snd.(q := [Text(1, 10), Text(11, 17), Text(28, 17)], cur := 44, write := 45)
  }

  lemma Queues(s: Snd)
    requires s == WroteTen().snd
    ensures Enqueue(s, Zeros(34), Ask(false, false, false), true, 2) == Queued(Queue44(), 34, true)
  {
    var a := Ask(false, false, false);
    ZerosCut(34, 0, 17);
    ZerosCut(34, 17, 34);
    ZerosCut(17, 0, 17);
    var s1 := s.(q := [Text(1, 10), Text(11, 17)], cur := 27, write := 28);
    assert Extend(s, Zeros(34), a, true) == s1;
    assert Extend(s1, Zeros(17), a, false) == Queue44();
    assert Enqueue(s1, Zeros(17), a, false, 1) == Queued(Queue44(), 17, true);
    assert Zeros(34)[17..] == Zeros(17);
  }

  lemma CutGoesOut(s: Snd)
    requires s == Queue44()
    ensures Output(s, Send, GOOD) == SndRes(WroteAll(Xmit, 0, FIRST_THRESH).snd, [Data(11, 17, 0, 0), Data(28, 5, 0, 0)], true, false)
  {
    ZerosCut(17, 0, 17);
    ZerosCut(17, 0, 5);
    var s1 := s.(nxt := 28, max := 28);
    var s2 := s.(nxt := 33, max := 33);
    assert Clip(Text(11, 17), 11, 33) == Data(11, 17, 0, 0);
    assert Clip(Text(28, 17), 28, 33) == Data(28, 5, 0, 0);
    assert SendOne(s, 1, 33, Sent) == (SndRes(s1, [Data(11, 17, 0, 0)], true, false), true);
    assert SendOne(s1, 2, 33, Sent) == (SndRes(s2, [Data(28, 5, 0, 0)], true, false), true);
    assert SendFrom(s2, 3, 33, 7, NoMemory) == Quiet(s2);
    assert SendFrom(s1, 2, 33, 8, NoMemory) == SndRes(s2, [Data(28, 5, 0, 0)], true, false);
    assert FirstPast(s.q, 11) == 1 by {
      assert s.q[1..] == [Text(11, 17), Text(28, 17)];
      assert FirstPast(s.q[1..], 11) == 0;
    }
    assert SndHead(s, GOOD) == SndRes(s2, [Data(11, 17, 0, 0), Data(28, 5, 0, 0)], true, false);
  }

  lemma MoreStep()
    ensures var q := Write(WroteTen(), Zeros(34), 2);
      && q.taken == 34
      && SendQueued(WroteTen(), q, GOOD) == Res(WroteAll(Xmit, 0, FIRST_THRESH), [Data(11, 17, 1, DEFAULT), Data(28, 5, 1, DEFAULT)])
  {
    hide Output, Enqueue;
    Queues(WroteTen().snd);
    CutGoesOut(Queue44());
    assert Zeros(34)[..34] == Zeros(34);
    assert Stamp([Data(11, 17, 0, 0), Data(28, 5, 0, 0)], 1, DEFAULT) == [Data(11, 17, 1, DEFAULT), Data(28, 5, 1, DEFAULT)];
  }

  // ---------------------------------------------------------------- retransmissions

  /** The first segment, padded with `n` bytes of the second. */
  lemma PaddingGoesOut(s: Snd, n: nat, k: nat, at: int)
    requires |s.q| >= 2 && s.q[0] == Text(at, k) && s.q[1] == Text(at + k, 17) && 0 < n <= 15 && 0 < k
    requires s.una == at && at + k <= s.nxt && at + k + n <= s.wndack + s.wnd
    ensures SndSeg(s, 0, n, s.una, s.nxt, Sent)
      == (SndRes(s.(max := Max(s.max, at + k + n)), [Data(at, k + n, 0, 0)], true, false), true)
  {
    ZerosCut(k, 0, k);
    ZerosCut(17, 0, n);
    assert Clip(s.q[0], s.una, s.nxt) == Data(at, k, 0, 0);
    assert Appended(s, 0, n, s.una, s.nxt) == n;
    assert Zeros(k) + Zeros(n) == Zeros(k + n);
  }

  lemma FirstTimerStep()
    ensures Apply(WroteAll(Xmit, 0, FIRST_THRESH), TimerFires(WroteAll(Xmit, 0, FIRST_THRESH).snd, GOOD))
      == Res(WroteAll(Retrans, 1, 32120), [Data(1, 11, 1, DEFAULT)])
  {
    hide SndSeg;
    PaddingGoesOut(WroteAll(Retrans, 1, 32120).snd.(timer := false), 1, 10, 1);
    assert Stamp([Data(1, 11, 0, 0)], 1, DEFAULT) == [Data(1, 11, 1, DEFAULT)];
  }

  /** A further timeout; `cwnd` is 64 after the acknowledgment and 32 after a timeout. */
  lemma TimerStep(n: nat, cwnd: int, thresh: int)
    requires n < 6 && 32 <= cwnd <= thresh && 128 <= thresh <= LARGEST
    ensures var ep := Up(Established, HeardTen(33, n, cwnd, thresh), Quietly());
      Apply(ep, TimerFires(ep.snd, GOOD)) == Res(Retried(n + 1, thresh / 2), [Data(11, 18 + n, 1, DEFAULT)])
  {
    hide SndSeg;
    PaddingGoesOut(HeardTen(33, n + 1, 32, thresh / 2).(timer := false), n + 1, 17, 11);
    assert Stamp([Data(11, 18 + n, 0, 0)], 1, DEFAULT) == [Data(11, 18 + n, 1, DEFAULT)];
  }

  // ---------------------------------------------------------------- the first ten bytes arrive

  lemma TenTaken(r: Rcv, p: Packet)
    requires r == In(1, 1 + DEFAULT, 1, [], 0, DEFAULT) && p == Data(1, 10, 1, DEFAULT)
    ensures Receive(r, p) == TookTen(DEFAULT).rcv && !AckNow(r, p)
  {
    var g := Payload(p);
    FirstSegment(g, 0);
    assert Walk([g], 1, 11) == 11;
    assert Walk([g], 0, 1) == 11;
  }

  lemma OwnSynAcked()
    ensures TakeAck(Hears(), Data(1, 10, 1, DEFAULT), false, GOOD_IN)
      == Res(Hears().(snd := Offered(Out(1, 1, 1, 1, [], 0, Idle, 0), 1460, 0, 0, 0).(cwnd := 64)), [])
  {
    hide Output;
    AllAcked(Hears().snd.(una := 1));
    assert Stamp([], 1, DEFAULT) == [];
  }

  lemma TenArriveStep()
    ensures Input(Hears(), Data(1, 10, 1, DEFAULT), GOOD_IN) == Res(TookTen(DEFAULT), [])
  {
    hide TakeAck, Receive, AckNow;
    OwnSynAcked();
    TenTaken(Hears().rcv, Data(1, 10, 1, DEFAULT));
  }

  lemma ReadTenStep()
    ensures Readable(TookTen(LARGEST).rcv)
    ensures AnnounceRead(TookTen(LARGEST).(rcv := ReadCall(TookTen(LARGEST).rcv, 10).r), true) == Res(ReadTen(), [Ack(1, 11, LARGEST)])
  {
    var r := TookTen(LARGEST).rcv;
    var a := r.q[0];
    assert HighCut(r.q, 1) == 0;
    assert SkipUsed(r.q, 0, 1) == (1, 0);
    assert CopyFrom(r.q, 1, 11, 0).read == 11;
    assert CopyFrom(r.q, 0, 1, 10).read == 11;
    assert MarkUsed(r.q, 0, 11) == [a.(used := true)];
    assert Drop([a.(used := true)], 10, 11) == Dropped([], 0, 11) by { assert [a.(used := true)][1..] == []; }
    assert ReadCall(r, 10).r == ReadTen().rcv.(wnd := 1 + DEFAULT);
  }

  // ---------------------------------------------------------------- acknowledgments of the data

  /** One whole segment is acknowledged and others stay. */
  lemma OneDropped(s: Snd, b: OutSeg, rest: seq<OutSeg>)
    requires s.q == [b] + rest && |rest| > 0 && b.End() <= s.una < rest[0].End()
    ensures DropData(s) == s.(q := rest, cur := s.cur - |b.data|, nretrans := 0, cwnd := Opened(s, 1))
  {
    hide Opened;
    assert s.q[1..] == rest;
    assert FirstPast(rest, s.una) == 0;
    assert FirstPast(s.q, s.una) == 1;
    assert s.q[..1] == [b];
    assert SumData([b]) == |b.data| by { assert [b][1..] == []; }
  }

  lemma ElevenTaken(ep: Endpoint, p: Packet)
    requires ep == WroteAll(Retrans, 1, 32120) && p == Ack(1, 11, LARGEST)
    ensures TakeAck(ep, p, true, GOOD_IN) == Res(ep.(snd := HeardTen(33, 0, 64, 32120)), [])
  {
    var s1 := Offered(ep.snd, LARGEST, 1, 11, LARGEST);
    assert SndWnd(ep.snd, p) == Update(s1, WndOpen);
    ElevenDropped(s1.(una := 11));
    hide Output;
    StillQuiet(HeardTen(33, 0, 64, 32120));
    assert Stamp([], 1, DEFAULT) == [];
  }

  lemma ElevenDropped(s: Snd)
    requires s == Offered(WroteAll(Retrans, 1, 32120).snd, LARGEST, 1, 11, LARGEST).(una := 11)
    ensures Output(s, AckRcvd, GOOD) == Quiet(HeardTen(33, 0, 64, 32120))
  {
    hide DropData;
    OneDropped(s, Text(1, 10), [Text(11, 17), Text(28, 17)]);
  }

  /** A machine that retransmits does not send more because the window opens. */
  lemma StillQuiet(s: Snd)
    requires s.ostate.Retrans?
    ensures Output(s, WndOpen, GOOD) == Quiet(s)
  {
  }

  lemma ElevenStep()
    ensures Input(WroteAll(Retrans, 1, 32120), Ack(1, 11, LARGEST), GOOD_IN)
      == Res(Up(Established, HeardTen(33, 0, 64, 32120), Quietly()), [])
  {
    hide TakeAck, TakeData;
    ElevenTaken(WroteAll(Retrans, 1, 32120), Ack(1, 11, LARGEST));
    NothingNew(Up(Established, HeardTen(33, 0, 64, 32120), Quietly()), Ack(1, 11, LARGEST), GOOD_IN);
  }

  // ---------------------------------------------------------------- the cut and the padded segment arrive

  lemma CutTaken(r: Rcv, p: Packet)
    requires r == ReadTen().rcv && p == Data(28, 5, 1, DEFAULT)
    ensures Receive(r, p) == Gap(EDGE) && AckNow(r, p)
  {
    var g := Payload(p);
    FirstSegment(g, 0);
    assert Walk([g], 0, 11) == 11;
  }

  /** Both ends of the queue grow, but only the right one is counted. */
  lemma PaddingTaken(r: Rcv, p: Packet)
    requires r == Gap(EDGE) && p == Data(11, 23, 1, DEFAULT)
    ensures GrowsBothEnds(r.q, Payload(p))
    ensures Receive(r, p) == Swallowed(EDGE) && !AckNow(r, p)
  {
    var g := Payload(p);
    HoleMeansNew(r.q, g, 0, 11);
    assert HighCut(r.q, 34) == 1 by { assert r.q[1..] == []; }
    assert Insert(r.q, g) == [g];
    assert Walk([g], 1, 34) == 34;
    assert Walk([g], 0, 11) == 34;
  }

  /** Data that must be acknowledged at once. */
  lemma AcknowledgedAtOnce(ep: Endpoint, p: Packet, r: Rcv)
    requires (ep.st.Established? ==> AckNow(ep.rcv, p) || ep.delack) && p.data != [] && Receive(ep.rcv, p) == r
    ensures TakeData(ep, p, GOOD_IN) ==
      Res(ep.(rcv := Record(r, ep.st), delack := false), [Ack(ep.snd.nxt, r.nxt, Window(r, ep.st))])
  {
    hide Receive, Record, Window, AckNow;
  }

  /** A data segment offers its window to an idle machine. */
  lemma IdleOffered(ep: Endpoint, p: Packet, seqno: int, most: int)
    requires ep.st.Established? && ep.snd == Idles(seqno, most) && p.ack && p.ackno == 1 && p.window == DEFAULT && seqno <= p.seqno && p.Len() > 0
    requires most <= DEFAULT && Window(ep.rcv, ep.st) >= 0
    ensures TakeAck(ep, p, true, GOOD_IN) == Res(ep.(snd := Idles(p.seqno, DEFAULT)), [])
  {
    hide Window;
    assert SndWnd(ep.snd, p) == Update(Idles(p.seqno, DEFAULT), WndOpen);
    assert Stamp([], ep.rcv.nxt, Window(ep.rcv, ep.st)) == [];
  }

  /** Acknowledgment and data together, in the states that look at both. */
  lemma Together(ep: Endpoint, p: Packet, a: Res, d: Res)
    requires (ep.st.Established? || (ep.st.FinWait1? && d.ep.snd.una < d.ep.snd.write)) && ep.sock
    requires Check(ep.rcv, ep.st, p) == Verdict(true, p) && p.ack && !p.rst && !p.syn
    requires TakeAck(ep, p, true, GOOD_IN) == a && TakeData(a.ep, p, GOOD_IN) == d && !d.ep.rcv.finSeen
    ensures Input(ep, p, GOOD_IN) == Res(d.ep, a.out + d.out)
  {
    hide TakeAck, TakeData, Check;
  }

  lemma CutStep()
    ensures Input(ReadTen(), Data(28, 5, 1, DEFAULT), GOOD_IN) == Res(Up(Established, Idles(28, DEFAULT), Gap(EDGE)), [Ack(1, 11, LARGEST)])
  {
    hide TakeAck, TakeData, Receive, AckNow, Input;
    var p := Data(28, 5, 1, DEFAULT);
    IdleOffered(ReadTen(), p, 1, 0);
    CutTaken(ReadTen().rcv, p);
    AcknowledgedAtOnce(ReadTen().(snd := Idles(28, DEFAULT)), p, Gap(EDGE));
    Together(ReadTen(), p, Res(ReadTen().(snd := Idles(28, DEFAULT)), []), Res(Up(Established, Idles(28, DEFAULT), Gap(EDGE)), [Ack(1, 11, LARGEST)]));
  }

  lemma PaddingStep()
    ensures Input(Up(Established, Idles(28, DEFAULT), Gap(EDGE)), Data(11, 23, 1, DEFAULT), GOOD_IN)
      == Res(Up(Established, Idles(28, DEFAULT), Swallowed(EDGE)).(delack := true), [])
  {
    hide Receive, AckNow, Output;
    var ep, p := Up(Established, Idles(28, DEFAULT), Gap(EDGE)), Data(11, 23, 1, DEFAULT);
    assert TakeAck(ep, p, true, GOOD_IN) == Res(ep, []);
    PaddingTaken(ep.rcv, p);
  }

  /** The right edge after the delayed acknowledgment. */
  const EDGE2 := 34 + LARGEST - 6

  lemma DelayedAckStep()
    ensures PureAck(Up(Established, Idles(28, DEFAULT), Swallowed(EDGE)).(delack := true), true)
      == Res(Up(Established, Idles(28, DEFAULT), Swallowed(EDGE2)), [Ack(1, 34, LARGEST - 6)])
  {
  }

  // ---------------------------------------------------------------- established: the rest goes out, a read, an old segment

  lemma RestGoesOut(s: Snd)
    requires s == Offered(HeardTen(34, 6, 32, 501), LARGEST - 6, 1, 34, LARGEST).(una := 34)
    ensures Output(s, AckRcvd, GOOD) == SndRes(WentOn().snd, [Data(33, 12, 0, 0)], true, false)
  {
    OneDropped(s, Text(11, 17), [Text(28, 17)]);
    var d := SlowStart(DropData(s));
    ZerosCut(17, 5, 17);
    var d1 := d.(nxt := 45, max := 45);
    assert Clip(Text(28, 17), 33, 66) == Data(33, 12, 0, 0);
    assert SendOne(d, 0, 66, Sent) == (SndRes(d1, [Data(33, 12, 0, 0)], true, false), true);
    assert SendFrom(d1, 1, 66, 8, NoMemory) == Quiet(d1);
    assert FirstPast(d.q, 33) == 0;
    assert SndHead(d, GOOD) == SndRes(d1, [Data(33, 12, 0, 0)], true, false);
  }

  lemma RestTaken(ep: Endpoint, p: Packet)
    requires ep == Retried(6, 501) && p == Ack(1, 34, LARGEST - 6)
    ensures TakeAck(ep, p, true, GOOD_IN) == Res(ep.(snd := WentOn().snd), [Data(33, 12, 1, DEFAULT)])
  {
    var s1 := Offered(ep.snd, LARGEST - 6, 1, 34, LARGEST);
    assert SndWnd(ep.snd, p) == Update(s1, WndOpen);
    hide Output;
    RestGoesOut(s1.(una := 34));
    assert Stamp([Data(33, 12, 0, 0)], 1, DEFAULT) == [Data(33, 12, 1, DEFAULT)];
    NothingMore(WentOn().snd);
    assert Stamp([], 1, DEFAULT) == [];
  }

  lemma NothingMore(s: Snd)
    requires s == WentOn().snd
    ensures Output(s, WndOpen, GOOD) == Quiet(s)
  {
  }

  lemma AckStep()
    ensures Input(Retried(6, 501), Ack(1, 34, LARGEST - 6), GOOD_IN) == Res(WentOn(), [Data(33, 12, 1, DEFAULT)])
  {
    hide TakeAck, TakeData;
    RestTaken(Retried(6, 501), Ack(1, 34, LARGEST - 6));
    NothingNew(WentOn(), Ack(1, 34, LARGEST - 6), GOOD_IN);
  }

  lemma TailTaken(r: Rcv, p: Packet)
    requires r == Swallowed(EDGE2) && p == Data(33, 12, 1, DEFAULT)
    ensures Receive(r, p) == Holds(EDGE2) && AckNow(r, p)
  {
    var g := Payload(p);
    HoleMeansNew(r.q, g, 1, 34);
    assert r.q[1..] == [];
    assert LowCut(r.q, 33) == 1 && HighCut(r.q, 45) == 1;
    var q1 := [r.q[0], g];
    assert Insert(r.q, g) == q1;
    assert Walk(q1, 2, 45) == 45;
    assert Walk(q1, 1, 34) == 45;
  }

  lemma TailStep()
    ensures Input(Up(Established, Idles(28, DEFAULT), Swallowed(EDGE2)), Data(33, 12, 1, DEFAULT), GOOD_IN)
      == Res(Up(Established, Idles(33, DEFAULT), Holds(EDGE2)), [Ack(1, 45, LARGEST - 17)])
  {
    hide TakeAck, TakeData, Receive, AckNow;
    var ep, p := Up(Established, Idles(28, DEFAULT), Swallowed(EDGE2)), Data(33, 12, 1, DEFAULT);
    IdleOffered(ep, p, 28, DEFAULT);
    TailTaken(ep.rcv, p);
    AcknowledgedAtOnce(ep.(snd := Idles(33, DEFAULT)), p, Holds(EDGE2));
  }

  lemma ReadStep()
    ensures var ep := Up(Established, Idles(33, DEFAULT), Holds(EDGE2));
      Readable(ep.rcv) && AnnounceRead(ep.(rcv := ReadCall(ep.rcv, 23).r), true) == Res(ReadOn(EDGE2), [])
  {
    var r := Holds(EDGE2);
    var a, b := r.q[0], r.q[1];
    assert HighCut(r.q, 11) == 0;
    assert SkipUsed(r.q, 0, 11) == (11, 0);
    assert CopyFrom(r.q, 1, 34, 0).read == 34;
    assert CopyFrom(r.q, 0, 11, 23).read == 34;
    assert MarkUsed(r.q, 0, 34) == [a.(used := true), b];
    assert Drop([a.(used := true), b], 17, 34) == Dropped([b], -5, 34) by {
      assert [a.(used := true), b][1..] == [b];
    }
    assert ReadCall(r, 23).r == ReadOn(EDGE2).rcv;
  }

  lemma OldStep()
    ensures Input(ReadOn(EDGE2), Data(11, 17, 1, DEFAULT), GOOD_IN) == Res(ReadOn(50 + LARGEST), [Ack(1, 45, LARGEST + 5)])
  {
  }

  // ---------------------------------------------------------------- or both close first

  lemma FinJoins(s: Snd)
    requires s.mss == 32 && (|s.q| > 0 ==> s.q[|s.q| - 1].start < s.max) && (|s.q| == 0 ==> s.cur == 0)
    ensures Enqueue(s, [], Ask(false, true, true), true, 1) ==
      Queued(s.(q := s.q + [FinSeg(s.write)], write := s.write + 1), 0, true)
  {
    var t := s.(q := s.q + [OutSeg(s.write, false, [], false, true, 17)]);
    assert Extend(s, [], Ask(false, true, true), true) == t;
    assert t.q[|s.q| := FinSeg(s.write)] == s.q + [FinSeg(s.write)];
  }

  lemma ShutStep()
    ensures Shutdown(ReadTen(), 1, GOOD) == Res(Up(FinWait1, Shut(1, 0), ReadTen().rcv), [Fin(1, 11, LARGEST)])
  {
    var s := ReadTen().snd;
    FinJoins(s);
    var s1 := s.(q := [FinSeg(1)], write := 2);
    assert s.q + [FinSeg(1)] == s1.q;
    var t := s1.(nxt := 2, max := 2);
    assert SendOne(s1, 0, 65, Sent) == (SndRes(t, [Fin(1, 0, 0)], true, false), true);
    assert SendFrom(t, 1, 65, 8, NoMemory) == Quiet(t);
    assert FirstPast(s1.q, 1) == 0;
    assert SndHead(s1, GOOD) == SndRes(t, [Fin(1, 0, 0)], true, false);
    assert Stamp([Fin(1, 0, 0)], 11, LARGEST) == [Fin(1, 11, LARGEST)];
  }

  lemma FinTaken(ep: Endpoint, p: Packet)
    requires ep == Retried(6, 501) && p == Fin(1, 11, LARGEST)
    ensures TakeData(ep, p, GOOD_IN) == Res(ep.(rcv := HeardFin()), [Ack(33, 2, DEFAULT)])
  {
    NoPayload(ep.rcv, p);
    assert Receive(ep.rcv, p) == HeardFin().(wnd := 1 + DEFAULT);
  }

  lemma FinOffers(ep: Endpoint, p: Packet)
    requires ep == Retried(6, 501) && p == Fin(1, 11, LARGEST)
    ensures TakeAck(ep, p, true, GOOD_IN) == Res(ep, [])
  {
    assert SndWnd(ep.snd, p) == Update(ep.snd, WndOpen);
    assert Stamp([], 1, DEFAULT) == [];
  }

  lemma FinStep()
    ensures Input(Retried(6, 501), Fin(1, 11, LARGEST), GOOD_IN) == Res(Waits(), [Ack(33, 2, DEFAULT)])
  {
    hide TakeAck, TakeData;
    FinOffers(Retried(6, 501), Fin(1, 11, LARGEST));
    FinTaken(Retried(6, 501), Fin(1, 11, LARGEST));
  }

  lemma LastStep()
    ensures Shutdown(Waits(), 1, GOOD) == Res(Ends(), [])
  {
    FinJoins(Waits().snd);
    assert Waits().snd.q + [FinSeg(45)] == Ends().snd.q;
    assert Stamp([], 2, DEFAULT) == [];
  }

  lemma CutWhenShutStep()
    ensures Input(Up(FinWait1, Shut(1, 0), ReadTen().rcv), Data(28, 5, 1, DEFAULT), GOOD_IN)
      == Res(Up(FinWait1, Shut(28, DEFAULT), Gap(EDGE)), [Ack(2, 11, LARGEST)])
  {
    hide TakeAck, TakeData, Receive, Input;
    var ep, p := Up(FinWait1, Shut(1, 0), ReadTen().rcv), Data(28, 5, 1, DEFAULT);
    ShutOffered(ep, p);
    CutTaken(ep.rcv, p);
    AcknowledgedAtOnce(ep.(snd := Shut(28, DEFAULT)), p, Gap(EDGE));
    Together(ep, p, Res(ep.(snd := Shut(28, DEFAULT)), []), Res(Up(FinWait1, Shut(28, DEFAULT), Gap(EDGE)), [Ack(2, 11, LARGEST)]));
  }

  lemma ShutOffered(ep: Endpoint, p: Packet)
    requires ep == Up(FinWait1, Shut(1, 0), ReadTen().rcv) && p == Data(28, 5, 1, DEFAULT)
    ensures TakeAck(ep, p, true, GOOD_IN) == Res(ep.(snd := Shut(28, DEFAULT)), [])
  {
    assert SndWnd(ep.snd, p) == Update(Shut(28, DEFAULT), WndOpen);
    assert Output(Shut(28, DEFAULT), WndOpen, GOOD) == Quiet(Shut(28, DEFAULT));
    assert Stamp([], 11, LARGEST) == [];
  }

  lemma PaddingWhenShutStep()
    ensures Input(Up(FinWait1, Shut(28, DEFAULT), Gap(EDGE)), Data(11, 23, 1, DEFAULT), GOOD_IN)
      == Res(Up(FinWait1, Shut(28, DEFAULT), Swallowed(EDGE2)), [Ack(2, 34, LARGEST - 6)])
  {
    hide TakeData, Receive, Output;
    var ep, p := Up(FinWait1, Shut(28, DEFAULT), Gap(EDGE)), Data(11, 23, 1, DEFAULT);
    assert TakeAck(ep, p, true, GOOD_IN) == Res(ep, []);
    PaddingTaken(ep.rcv, p);
    AcknowledgedAtOnce(ep, p, Swallowed(EDGE));
  }

  /** The window is not taken over, so one segment does not reach the end of the next: nothing is sent. */
  lemma StuckStep()
    ensures Input(Ends(), Ack(2, 34, LARGEST - 6), GOOD_IN) == Res(Reversed(), [])
  {
    var s := Ends().snd.(una := 34);
    OneDropped(s, Text(11, 17), [Text(28, 17), FinSeg(45)]);
    var d := SlowStart(DropData(s));
    assert FirstPast(d.q, 33) == 0;
    assert SndHead(d, GOOD) == Quiet(d);
    assert Output(s, AckRcvd, GOOD) == Quiet(Reversed().snd);
    assert Stamp([], 2, DEFAULT) == [];
  }
}
