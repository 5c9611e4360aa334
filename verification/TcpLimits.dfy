/** Runs of two fresh hosts after which the code does less than one would expect; nothing fails in them. */
module TcpLimits {
  import opened TcpTypes
  import opened RecvQueue
  import opened TcpRecv
  import opened TcpSend
  import opened TcpEndpoint
  import opened TcpSystem
  import opened TcpWitness

  // ---------------------------------------------------------------- the run

  function Start(): (s: Sys)
    ensures Fresh(s)
  {
    var h := Host(FreshSide(), 0, {}, [], [], false, false);
    Sys(h, h)
  }

  function AtA(a: Action): Event { Event(true, a) }
  function AtB(a: Action): Event { Event(false, a) }
  function AGot(p: Packet): Event { AtA(Deliver(p, GOOD_IN)) }
  function BGot(p: Packet): Event { AtB(Deliver(p, GOOD_IN)) }
  function Tick(): Event { AtB(TimerExpires(GOOD)) }

  /** `b` connects to `a`. */
  function Opens(): seq<Event> {
    [AtB(DoConnect(32, GOOD)), AtA(DoListen), AGot(Syn(false, 0, DEFAULT)), BGot(Syn(true, 1, DEFAULT))]
  }

  /** `b` writes twice, and its timer goes off. */
  function Writes(): seq<Event> {
    [AtB(DoWrite(Zeros(10), 1, GOOD)), AtB(DoWrite(Zeros(34), 2, GOOD)), Tick()]
  }

  /** The first write reaches `a`, whose user asks for a larger buffer and reads. */
  function ReadsTen(): seq<Event> { [AGot(Data(1, 10, 1, DEFAULT)), AtA(SetRcvBuf(LARGEST)), AtA(DoRead(10, true))] }

  /** The acknowledgment reaches `b` while it retransmits; then six more timeouts. */
  function Retries(): seq<Event> { [BGot(Ack(1, 11, LARGEST)), Tick(), Tick(), Tick(), Tick(), Tick(), Tick()] }

  function Shared(): seq<Event> { Opens() + Writes() + ReadsTen() + Retries() }

  /** The cut segment arrives first, then the padded one, then the delayed acknowledgment is due. */
  function Arrives(): seq<Event> { [AGot(Data(28, 5, 1, DEFAULT)), AGot(Data(11, 23, 1, DEFAULT)), AtA(DelayedAck(true))] }

  /** The acknowledgment and the rest arrive, the user reads 23 bytes, and an old segment arrives late. */
  function Overflows(): seq<Event> {
    [BGot(Ack(1, 34, LARGEST - 6)), AGot(Data(33, 12, 1, DEFAULT)), AtA(DoRead(23, true)), AGot(Data(11, 17, 1, DEFAULT))]
  }

  /** Or both users close, `b` after it has seen the FIN of `a`, before all this arrives. */
  function Closes(): seq<Event> { [AtA(DoShutdown(1, GOOD)), BGot(Fin(1, 11, LARGEST)), AtB(DoShutdown(1, GOOD))] }

  function ArrivesLate(): seq<Event> {
    [AGot(Data(28, 5, 1, DEFAULT)), AGot(Data(11, 23, 1, DEFAULT)), BGot(Ack(2, 34, LARGEST - 6))]
  }

  // ---------------------------------------------------------------- following it

  function Elems(out: seq<Packet>): set<Packet> { set p | p in out }

  /** The hosts' control blocks, and packets that each of them has sent. */
  ghost predicate At(t: Sys, x: Endpoint, xs: set<Packet>, y: Endpoint, ys: set<Packet>) {
    t.a.ep == x && xs <= t.a.wire && t.b.ep == y && ys <= t.b.wire
  }

  lemma OnA(t: Sys, a: Action, r: Res, x: Endpoint, xs: set<Packet>, y: Endpoint, ys: set<Packet>)
    requires At(t, x, xs, y, ys)
    requires var h := Act(t.a, t.b.wire, a); h.ep == Took(t.a, r).ep && h.wire == Took(t.a, r).wire
    ensures At(Step(t, AtA(a)), r.ep, xs + Elems(r.out), y, ys)
  {
    hide Act;
  }

  lemma OnB(t: Sys, a: Action, r: Res, x: Endpoint, xs: set<Packet>, y: Endpoint, ys: set<Packet>)
    requires At(t, x, xs, y, ys)
    requires var h := Act(t.b, t.a.wire, a); h.ep == Took(t.b, r).ep && h.wire == Took(t.b, r).wire
    ensures At(Step(t, AtB(a)), x, xs, r.ep, ys + Elems(r.out))
  {
    hide Act;
  }

  lemma AGets(t: Sys, p: Packet, r: Res, x: Endpoint, xs: set<Packet>, y: Endpoint, ys: set<Packet>)
    requires At(t, x, xs, y, ys) && p in ys && 0 <= p.window <= MAX_SPACE && Input(x, p, GOOD_IN) == r
    ensures At(Step(t, AGot(p)), r.ep, xs + Elems(r.out), y, ys)
  {
    hide Input;
    OnA(t, Deliver(p, GOOD_IN), r, x, xs, y, ys);
  }

  lemma BGets(t: Sys, p: Packet, r: Res, x: Endpoint, xs: set<Packet>, y: Endpoint, ys: set<Packet>)
    requires At(t, x, xs, y, ys) && p in xs && 0 <= p.window <= MAX_SPACE && Input(y, p, GOOD_IN) == r
    ensures At(Step(t, BGot(p)), x, xs, r.ep, ys + Elems(r.out))
  {
    hide Input;
    OnB(t, Deliver(p, GOOD_IN), r, x, xs, y, ys);
  }

  /** Knowing less about the wires. */
  lemma Forget(t: Sys, x: Endpoint, xs: set<Packet>, xs': set<Packet>, y: Endpoint, ys: set<Packet>, ys': set<Packet>)
    requires At(t, x, xs, y, ys) && xs' <= xs && ys' <= ys
    ensures At(t, x, xs', y, ys')
  {
  }

  lemma Begun()
    ensures At(Step(Step(Start(), Opens()[0]), Opens()[1]), Listens(), {}, Asked(), {Syn(false, 0, DEFAULT)})
  {
    hide Connect, Asked;
    var s := Start();
    ConnectStep();
    var r := Res(Asked(), [Syn(false, 0, DEFAULT)]);
    OnB(s, DoConnect(32, GOOD), r, FreshSide(), {}, FreshSide(), {});
    assert Elems(r.out) == {Syn(false, 0, DEFAULT)};
    OnA(Step(s, Opens()[0]), DoListen, Res(Listens(), []), FreshSide(), {}, Asked(), {Syn(false, 0, DEFAULT)});
  }

  lemma Opened()
    ensures At(Exec(Start(), Opens()), Hears(), {}, Answered(), {})
  {
    hide Input, Step, At, Asked, Hears, Listens, Answered;
    var s, run := Start(), Opens();
    Begun();
    var s2 := Step(Step(s, run[0]), run[1]);
    SynStep();
    AGets(s2, Syn(false, 0, DEFAULT), Res(Hears(), [Syn(true, 1, DEFAULT)]), Listens(), {}, Asked(), {Syn(false, 0, DEFAULT)});
    SynAckStep();
    BGets(Step(s2, run[2]), Syn(true, 1, DEFAULT), Res(Answered(), [Ack(1, 1, DEFAULT)]),
          Hears(), {} + Elems([Syn(true, 1, DEFAULT)]), Asked(), {Syn(false, 0, DEFAULT)});
    ExecTwo(s, run[0], run[1]);
    ExecTwo(s2, run[2], run[3]);
    ExecThen(s, run[..2], run[2..]);
    assert run[..2] == [run[0], run[1]] && run[2..] == [run[2], run[3]] && run == run[..2] + run[2..];
    Forget(Exec(s, run), Hears(), {} + Elems([Syn(true, 1, DEFAULT)]), {}, Answered(), {Syn(false, 0, DEFAULT)} + Elems([Ack(1, 1, DEFAULT)]), {});
  }

  /** What `b` has sent after writing. */
  function Written(): set<Packet> { {Data(1, 10, 1, DEFAULT), Data(11, 17, 1, DEFAULT), Data(28, 5, 1, DEFAULT)} }

  lemma HasWritten(t: Sys)
    requires At(t, Hears(), {}, Answered(), {})
    ensures At(Exec(t, Writes()), Hears(), {}, WroteAll(Retrans, 1, 32120), Written())
  {
    hide Apply, TimerFires, Write, SendQueued, Hears;
    var run := Writes();
    var w1, w2 := [Data(1, 10, 1, DEFAULT)], [Data(11, 17, 1, DEFAULT), Data(28, 5, 1, DEFAULT)];
    TenStep();
    OnB(t, run[0].act, Res(WroteTen(), w1), Hears(), {}, Answered(), {});
    var t1 := Step(t, run[0]);
    MoreStep();
    OnB(t1, run[1].act, Res(WroteAll(Xmit, 0, FIRST_THRESH), w2), Hears(), {}, WroteTen(), {} + Elems(w1));
    var t2 := Step(t1, run[1]);
    FirstTimerStep();
    OnB(t2, run[2].act, Res(WroteAll(Retrans, 1, 32120), [Data(1, 11, 1, DEFAULT)]), Hears(), {}, WroteAll(Xmit, 0, FIRST_THRESH), {} + Elems(w1) + Elems(w2));
    ExecThree(t, run[0], run[1], run[2]);
  }

  lemma HasReadTen(t: Sys)
    requires At(t, Hears(), {}, WroteAll(Retrans, 1, 32120), Written())
    ensures At(Exec(t, ReadsTen()), ReadTen(), {Ack(1, 11, LARGEST)}, WroteAll(Retrans, 1, 32120), Written())
  {
    hide Input, ReadCall, AnnounceRead, Readable, WroteAll;
    var run, y := ReadsTen(), WroteAll(Retrans, 1, 32120);
    TenArriveStep();
    AGets(t, Data(1, 10, 1, DEFAULT), Res(TookTen(DEFAULT), []), Hears(), {}, y, Written());
    var t1 := Step(t, run[0]);
    OnA(t1, run[1].act, Res(TookTen(LARGEST), []), TookTen(DEFAULT), {}, y, Written());
    var t2 := Step(t1, run[1]);
    ReadTenStep();
    OnA(t2, run[2].act, Res(ReadTen(), [Ack(1, 11, LARGEST)]), TookTen(LARGEST), {}, y, Written());
    ExecThree(t, run[0], run[1], run[2]);
  }

  /** One more timeout of `b`. */
  lemma Ticked(t: Sys, n: nat, cwnd: int, thresh: int, x: Endpoint, xs: set<Packet>, ys: set<Packet>)
    requires n < 6 && 32 <= cwnd <= thresh && 128 <= thresh <= LARGEST
    requires At(t, x, xs, Up(Established, HeardTen(33, n, cwnd, thresh), Quietly()), ys)
    ensures At(Step(t, Tick()), x, xs, Retried(n + 1, thresh / 2), ys + Elems([Data(11, 18 + n, 1, DEFAULT)]))
  {
    hide Apply, TimerFires;
    TimerStep(n, cwnd, thresh);
    OnB(t, TimerExpires(GOOD), Res(Retried(n + 1, thresh / 2), [Data(11, 18 + n, 1, DEFAULT)]),
        x, xs, Up(Established, HeardTen(33, n, cwnd, thresh), Quietly()), ys);
  }

  lemma Retry(t: Sys, n: nat, cwnd: int, thresh: int, x: Endpoint)
    requires n < 6 && 32 <= cwnd <= thresh && 128 <= thresh <= LARGEST
    requires At(t, x, {}, Up(Established, HeardTen(33, n, cwnd, thresh), Quietly()), Written())
    ensures At(Step(t, Tick()), x, {}, Retried(n + 1, thresh / 2), Written() + {Data(11, 18 + n, 1, DEFAULT)})
    ensures At(Step(t, Tick()), x, {}, Retried(n + 1, thresh / 2), Written())
  {
    hide Step, Written;
    Ticked(t, n, cwnd, thresh, x, {}, Written());
    assert Elems([Data(11, 18 + n, 1, DEFAULT)]) == {Data(11, 18 + n, 1, DEFAULT)};
  }

  lemma HasRetried(t: Sys)
    requires At(t, ReadTen(), {Ack(1, 11, LARGEST)}, WroteAll(Retrans, 1, 32120), Written())
    ensures At(Exec(t, Retries()), ReadTen(), {}, Retried(6, 501), Written() + {Data(11, 23, 1, DEFAULT)})
  {
    hide Input, Step, Written, ReadTen, WroteAll;
    var run := Retries();
    ElevenStep();
    var p, y := Ack(1, 11, LARGEST), Up(Established, HeardTen(33, 0, 64, 32120), Quietly());
    BGets(t, p, Res(y, []), ReadTen(), {p}, WroteAll(Retrans, 1, 32120), Written());
    var t0 := Step(t, run[0]);
    Forget(t0, ReadTen(), {p}, {}, y, Written() + Elems([]), Written());
    var t1, t2, t3 := Step(t0, Tick()), Step(Step(t0, Tick()), Tick()), Step(Step(Step(t0, Tick()), Tick()), Tick());
    Retry(t0, 0, 64, 32120, ReadTen());
    Retry(t1, 1, 32, 16060, ReadTen());
    Retry(t2, 2, 32, 8030, ReadTen());
    Retry(t3, 3, 32, 4015, ReadTen());
    Retry(Step(t3, Tick()), 4, 32, 2007, ReadTen());
    Retry(Step(Step(t3, Tick()), Tick()), 5, 32, 1003, ReadTen());
    SevenEvents(t, run, t3);
  }

  lemma SevenEvents(t: Sys, run: seq<Event>, t3: Sys)
    requires run == Retries() && t3 == Step(Step(Step(Step(t, run[0]), Tick()), Tick()), Tick())
    ensures Exec(t, run) == Step(Step(Step(t3, Tick()), Tick()), Tick())
  {
    hide Step;
    ExecTwo(t, run[0], Tick());
    ExecTwo(Step(Step(t, run[0]), Tick()), Tick(), Tick());
    ExecThen(t, [run[0], Tick()], [Tick(), Tick()]);
    ExecThree(t3, Tick(), Tick(), Tick());
    ExecThen(t, [run[0], Tick()] + [Tick(), Tick()], [Tick(), Tick(), Tick()]);
    assert run == [run[0], Tick()] + [Tick(), Tick()] + [Tick(), Tick(), Tick()];
  }

  lemma SharedPart()
    ensures At(Exec(Start(), Shared()), ReadTen(), {}, Retried(6, 501), Written() + {Data(11, 23, 1, DEFAULT)})
  {
    hide At, Exec, Opens, Writes, ReadsTen, Retries;
    Opened();
    HasWritten(Exec(Start(), Opens()));
    ExecThen(Start(), Opens(), Writes());
    HasReadTen(Exec(Start(), Opens() + Writes()));
    ExecThen(Start(), Opens() + Writes(), ReadsTen());
    HasRetried(Exec(Start(), Opens() + Writes() + ReadsTen()));
    ExecThen(Start(), Opens() + Writes() + ReadsTen(), Retries());
  }

  /** What `b` has sent by then. */
  function Sent(): set<Packet> { Written() + {Data(11, 23, 1, DEFAULT)} }

  // ---------------------------------------------------------------- the counter and the window

  lemma HasArrived(t: Sys)
    requires At(t, ReadTen(), {}, Retried(6, 501), Sent())
    ensures At(Step(t, Arrives()[0]), Up(Established, Idles(28, DEFAULT), Gap(EDGE)), {}, Retried(6, 501), Sent())
    ensures At(Exec(t, Arrives()), Up(Established, Idles(28, DEFAULT), Swallowed(EDGE2)), {Ack(1, 34, LARGEST - 6)}, Retried(6, 501), Sent())
  {
    hide Input, PureAck, ReadTen, Retried;
    var run, x1 := Arrives(), Up(Established, Idles(28, DEFAULT), Gap(EDGE));
    CutStep();
    AGets(t, Data(28, 5, 1, DEFAULT), Res(x1, [Ack(1, 11, LARGEST)]), ReadTen(), {}, Retried(6, 501), Sent());
    var t1, xs := Step(t, run[0]), {} + Elems([Ack(1, 11, LARGEST)]);
    PaddingStep();
    var x2 := Up(Established, Idles(28, DEFAULT), Swallowed(EDGE)).(delack := true);
    AGets(t1, Data(11, 23, 1, DEFAULT), Res(x2, []), x1, xs, Retried(6, 501), Sent());
    var t2 := Step(t1, run[1]);
    DelayedAckStep();
    OnA(t2, run[2].act, Res(Up(Established, Idles(28, DEFAULT), Swallowed(EDGE2)), [Ack(1, 34, LARGEST - 6)]), x2, xs + Elems([]), Retried(6, 501), Sent());
    ExecThree(t, run[0], run[1], run[2]);
  }

  lemma HasOverflowed(t: Sys)
    requires At(t, Up(Established, Idles(28, DEFAULT), Swallowed(EDGE2)), {Ack(1, 34, LARGEST - 6)}, Retried(6, 501), Sent())
    ensures At(Exec(t, Overflows()), ReadOn(50 + LARGEST), {Ack(1, 45, LARGEST + 5)}, WentOn(), {})
  {
    hide Input, Step, WentOn, Sent, Retried;
    var run, p := Overflows(), Ack(1, 34, LARGEST - 6);
    var x := Up(Established, Idles(28, DEFAULT), Swallowed(EDGE2));
    AckStep();
    BGets(t, p, Res(WentOn(), [Data(33, 12, 1, DEFAULT)]), x, {p}, Retried(6, 501), Sent());
    var t1, ys := Step(t, run[0]), Sent() + Elems([Data(33, 12, 1, DEFAULT)]);
    TailStep();
    var x1, xs := Up(Established, Idles(33, DEFAULT), Holds(EDGE2)), {p} + Elems([Ack(1, 45, LARGEST - 17)]);
    AGets(t1, Data(33, 12, 1, DEFAULT), Res(x1, [Ack(1, 45, LARGEST - 17)]), x, {p}, WentOn(), ys);
    var t2 := Step(t1, run[1]);
    SentHolds();
    ReadThenOld(t2, x1, xs, ys);
    ExecTwo(t, run[0], run[1]);
    ExecTwo(t2, run[2], run[3]);
    ExecThen(t, run[..2], run[2..]);
    assert run[..2] == [run[0], run[1]] && run[2..] == [run[2], run[3]] && run == run[..2] + run[2..];
  }

  lemma SentHolds()
    ensures Data(11, 17, 1, DEFAULT) in Sent()
  {
  }

  lemma ReadThenOld(t: Sys, x: Endpoint, xs: set<Packet>, ys: set<Packet>)
    requires x == Up(Established, Idles(33, DEFAULT), Holds(EDGE2)) && At(t, x, xs, WentOn(), ys) && Data(11, 17, 1, DEFAULT) in ys
    ensures At(Step(Step(t, AtA(DoRead(23, true))), AGot(Data(11, 17, 1, DEFAULT))), ReadOn(50 + LARGEST), {Ack(1, 45, LARGEST + 5)}, WentOn(), {})
  {
    hide Input, ReadCall, AnnounceRead, Readable, WentOn;
    ReadStep();
    OnA(t, DoRead(23, true), Res(ReadOn(EDGE2), []), x, xs, WentOn(), ys);
    var t1 := Step(t, AtA(DoRead(23, true)));
    OldStep();
    AGets(t1, Data(11, 17, 1, DEFAULT), Res(ReadOn(50 + LARGEST), [Ack(1, 45, LARGEST + 5)]), ReadOn(EDGE2), xs + Elems([]), WentOn(), ys);
  }

  /**
   * The sender cut a segment and padded an earlier one. The padded one reaches past both ends of the queue
   * that the cut one opened, so 23 queued bytes are counted as 6.
   */
  lemma {:induction false} BothEndsLoseCount(t: Sys, p: Packet, u: Sys)
    requires t == Step(Exec(Start(), Shared()), Arrives()[0])
    requires p == Data(11, 23, 1, DEFAULT) && u == Exec(Start(), Shared() + Arrives())
    ensures p in t.b.wire && Check(t.a.ep.rcv, t.a.ep.st, p).ok && GrowsBothEnds(t.a.ep.rcv.q, Payload(p))
    ensures Span(t.a.ep.rcv.q) == t.a.ep.rcv.cur == 5
    ensures Span(u.a.ep.rcv.q) == 23 && u.a.ep.rcv.cur == 6
  {
    hide Exec, Step, Shared;
    SharedPart();
    HasArrived(Exec(Start(), Shared()));
    ExecThen(Start(), Shared(), Arrives());
  }

  /** A read then takes more off the counter than it holds, and `a` advertises a window that does not fit its field. */
  lemma {:induction false} WindowCanOverflow(t: Sys)
    requires t == Exec(Start(), Shared() + Arrives() + Overflows())
    ensures t.a.ep.rcv.cur == -5
    ensures exists p :: p in t.a.wire && p.window == MAX_SPACE + 5 && Cut(p).window == 4
  {
    hide Exec, Shared, Arrives, Overflows, At;
    SharedPart();
    HasArrived(Exec(Start(), Shared()));
    ExecThen(Start(), Shared(), Arrives());
    HasOverflowed(Exec(Start(), Shared() + Arrives()));
    ExecThen(Start(), Shared() + Arrives(), Overflows());
    TooLarge(t);
  }

  lemma TooLarge(t: Sys)
    requires At(t, ReadOn(50 + LARGEST), {Ack(1, 45, LARGEST + 5)}, WentOn(), {})
    ensures t.a.ep.rcv.cur == -5
    ensures exists p :: p in t.a.wire && p.window == MAX_SPACE + 5 && Cut(p).window == 4
  {
    var p := Ack(1, 45, LARGEST + 5);
    assert p in t.a.wire && Cut(p).window == 4;
  }

  // ---------------------------------------------------------------- the reversed window

  lemma HasClosed(t: Sys)
    requires At(t, ReadTen(), {}, Retried(6, 501), Sent())
    ensures At(Exec(t, Closes()), Up(FinWait1, Shut(1, 0), ReadTen().rcv), {}, Ends(), Sent())
  {
    hide Input, Shutdown, FinQueued, Sent;
    var run, x := Closes(), Up(FinWait1, Shut(1, 0), ReadTen().rcv);
    ShutStep();
    OnA(t, run[0].act, Res(x, [Fin(1, 11, LARGEST)]), ReadTen(), {}, Retried(6, 501), Sent());
    var t1, xs := Step(t, run[0]), {} + Elems([Fin(1, 11, LARGEST)]);
    FinStep();
    BGets(t1, Fin(1, 11, LARGEST), Res(Waits(), [Ack(33, 2, DEFAULT)]), x, xs, Retried(6, 501), Sent());
    var t2 := Step(t1, run[1]);
    LastStep();
    OnB(t2, run[2].act, Res(Ends(), []), x, xs, Waits(), Sent() + Elems([Ack(33, 2, DEFAULT)]));
    ExecThree(t, run[0], run[1], run[2]);
  }

  lemma HasArrivedLate(t: Sys)
    requires At(t, Up(FinWait1, Shut(1, 0), ReadTen().rcv), {}, Ends(), Sent())
    ensures Exec(t, ArrivesLate()).b.ep == Reversed()
  {
    hide Input, Shut, Ends, Reversed;
    var run, x := ArrivesLate(), Up(FinWait1, Shut(1, 0), ReadTen().rcv);
    CutWhenShutStep();
    var x1, xs := Up(FinWait1, Shut(28, DEFAULT), Gap(EDGE)), {} + Elems([Ack(2, 11, LARGEST)]);
    AGets(t, Data(28, 5, 1, DEFAULT), Res(x1, [Ack(2, 11, LARGEST)]), x, {}, Ends(), Sent());
    var t1 := Step(t, run[0]);
    PaddingWhenShutStep();
    var x2, p := Up(FinWait1, Shut(28, DEFAULT), Swallowed(EDGE2)), Ack(2, 34, LARGEST - 6);
    AGets(t1, Data(11, 23, 1, DEFAULT), Res(x2, [p]), x1, xs, Ends(), Sent());
    var t2 := Step(t1, run[1]);
    StuckStep();
    BGets(t2, p, Res(Reversed(), []), x2, xs + Elems([p]), Ends(), Sent());
    ExecThree(t, run[0], run[1], run[2]);
  }

  /** In LAST-ACK the acknowledgment of the padding leaves `b` with a timer and a reversed window. */
  lemma {:induction false} RetransmissionCanUnderrun(t: Sys)
    requires t == Exec(Start(), Shared() + Closes() + ArrivesLate())
    ensures var s := t.b.ep.snd;
      && s.ostate.Xmit? && s.timer && s.nxt < s.una && |s.q| > 0
      && !Outside(s.q[0], s.una, s.nxt) && CopyCount(s.q[0], s.una, s.nxt) == -1
  {
    hide Exec, Shared, Closes, ArrivesLate, At;
    SharedPart();
    HasClosed(Exec(Start(), Shared()));
    ExecThen(Start(), Shared(), Closes());
    HasArrivedLate(Exec(Start(), Shared() + Closes()));
    ExecThen(Start(), Shared() + Closes(), ArrivesLate());
  }
}
