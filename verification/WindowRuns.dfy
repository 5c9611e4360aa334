/** Exactly when every window that a host computes for a packet fits its 16-bit field, over whole runs. */
module WindowRuns {
  import opened TcpTypes
  import opened Stream
  import opened TcpSend
  import opened SendFacts
  import opened TcpRecv
  import opened TcpEndpoint
  import opened EndpointFacts
  import opened TcpSystem
  import opened SystemFacts
  import opened RunFacts
  import opened UserFacts
  import opened RunTheorems
  import opened WindowFacts

  /** Some window does not fit. */
  ghost predicate TooWide(calls: seq<Call>) {
    exists i :: 0 <= i < |calls| && Window(calls[i].r, calls[i].st) > MAX_SPACE
  }

  lemma {:induction false} TooWideParts(b: bool, r: Rcv, st: State, more: seq<Call>)
    ensures TooWide(One(b, r, st) + more) <==> (b && Window(r, st) > MAX_SPACE) || TooWide(more)
    ensures TooWide(One(b, r, st)) <==> b && Window(r, st) > MAX_SPACE
  {
    hide Window;
    var one := One(b, r, st);
    if b { assert one[0] == Call(r, st) && (one + more)[0] == one[0]; }
    if i :| 0 <= i < |more| && Window(more[i].r, more[i].st) > MAX_SPACE { assert (one + more)[|one| + i] == more[i]; }
  }

  /** One call from a block without an excessive promise. */
  lemma {:induction false} OneCall(b: bool, r: Rcv, st: State)
    requires b ==> Roomy(r) && (st.Synchronised() ==> r.wnd - r.nxt <= MAX_SPACE)
    ensures TooWide(One(b, r, st)) <==> Strained(One(b, r, st))
  {
    hide TooWide, Strained, Window;
    TooWideParts(b, r, st, []);
    StrainedParts(b, r, st, []);
    if b { WindowFits(r, st); }
  }

  /** Two calls, the second from a block in order if the first was in order. */
  lemma {:induction false} TwoCalls(b: bool, r: Rcv, st: State, c: bool, r': Rcv, st': State)
    requires b ==> Roomy(r) && (st.Synchronised() ==> r.wnd - r.nxt <= MAX_SPACE)
    requires c && (b ==> Ample(r)) ==> Roomy(r') && (st'.Synchronised() ==> r'.wnd - r'.nxt <= MAX_SPACE)
    ensures TooWide(One(b, r, st) + One(c, r', st')) <==> Strained(One(b, r, st) + One(c, r', st'))
  {
    hide TooWide, Strained, Window;
    TooWideParts(b, r, st, One(c, r', st'));
    StrainedParts(b, r, st, One(c, r', st'));
    if b { WindowFits(r, st); }
    if b ==> Ample(r) { OneCall(c, r', st'); }
  }

  // ---------------------------------------------------------------- arrivals

  lemma {:induction false} HandlingFits(ep: Endpoint, p: Packet, ie: InEnv, str: seq<Byte>, closed: bool)
    requires EpOk(ep, str, closed) && Tidy(true, ep) && ep.st.Synchronised()
    requires LooksAtData(ep, p) ==> ep.rcv.nxt <= Receive(ep.rcv, p).nxt
    ensures TooWide(Handling(ep, p, ie)) <==> Strained(Handling(ep, p, ie))
  {
    hide TakeAck, TakeAckAsks, TakeDataAsks, Heeds, LooksAtData, Receive, EpOk, Ample, TooWide, Strained, Window;
    var later := Afterwards(ep, p, Updates(ep.st), ie);
    var b := Heeds(ep, p) && TakeAckAsks(ep, p, Updates(ep.st), ie);
    TakeAckCarries(ep, p, Updates(ep.st), ie, str, closed);
    WindowDoesNotMatter(ep.rcv, later.rcv, p);
    ReceiveKeepsSize(ep.rcv, p);
    ReceiveKeepsSize(later.rcv, p);
    var c := LooksAtData(ep, p) && TakeDataAsks(later, p, ie);
    if c && (b ==> Ample(ep.rcv)) {
      DataLooksAtAck(ep, p);
      TakeAckWide(true, ep, p, Updates(ep.st), ie);
    }
    TwoCalls(b, ep.rcv, ep.st, c, Receive(later.rcv, p), later.st);
  }

  lemma {:induction false} DataLooksAtAck(ep: Endpoint, p: Packet)
    ensures LooksAtData(ep, p) ==> Heeds(ep, p)
  {
  }

  lemma {:induction false} ArrivingFits(h: Host, g: Host, k: Packet, ie: InEnv)
    requires HostOk(h) && Heard(h, g) && OnWire(k, g, h) && Tidy(true, h.ep) && h.ep.st.Synchronised()
    ensures TooWide(Arriving(h.ep, k, ie)) <==> Strained(Arriving(h.ep, k, ie))
  {
    hide Handling, TooWide, Strained, InStream, QueueOk, Receive, Window;
    if Check(h.ep.rcv, h.ep.st, k).ok {
      var p := Check(h.ep.rcv, h.ep.st, k).p;
      CheckKeepsAck(h.ep.rcv, h.ep.st, k);
      if LooksAtData(h.ep, p) {
        AcceptedIsGenuine(h, g, k);
        DataHeard(h, g, p);
      }
      HandlingFits(h.ep, p, ie, h.sent, h.closed);
    } else {
      OneCall(!k.rst && ie.m1, h.ep.rcv, h.ep.st);
    }
  }

  // ---------------------------------------------------------------- every action

  lemma {:induction false} ClosingFits(ep: Endpoint, mem: nat, e: Env)
    requires Tidy(true, ep) && ep.st.Synchronised()
    ensures TooWide(ClosingCalls(ep, mem, e)) <==> Strained(ClosingCalls(ep, mem, e))
  {
    hide TooWide, Strained, Queue, QueuedAsks;
    var ep1 := ep.(st := ClosingState(ep.st));
    OneCall(ep1.st != ep.st && QueuedAsks(Queue(ep1, [], Ask(false, true, true), mem), e), ep.rcv, ep1.st);
  }

  lemma {:induction false} DetachFits(h: Host, g: Host, mem: nat, e: Env, m: bool)
    requires HostOk(h) && Heard(h, g) && h.ep.snd.una <= Front(g, h.isn) && Tidy(true, h.ep) && h.ep.st.Synchronised() && h.ep.sock
    ensures var calls := ClosingCalls(h.ep, mem, e) + EmptyingCalls(Shutdown(h.ep, mem, e).ep, m); TooWide(calls) <==> Strained(calls)
  {
    hide QueueOk, InStream, Queue, QueuedAsks, Shutdown, Drop, MarkAll, AnnounceWindow, TooWide, Strained, Ample;
    var ep := h.ep;
    var ep1, r := ep.(st := ClosingState(ep.st)), Shutdown(ep, mem, e).ep;
    var b := ep1.st != ep.st && QueuedAsks(Queue(ep1, [], Ask(false, true, true), mem), e);
    ShutdownSafe(h, g, mem, e);
    if b ==> Ample(ep.rcv) {
      StrainedParts(b, ep.rcv, ep1.st, []);
      ShutdownWide(true, ep, mem, e);
    }
    TwoCalls(b, ep.rcv, ep1.st, AnnounceWindow(Emptied(r).rcv, r.st) && m, Emptied(r).rcv, r.st);
  }

  /** An action computes a window that does not fit if and only if it computes one while the counter leaves too much room. */
  lemma {:induction false} CallsFit(h: Host, g: Host, a: Action)
    requires HostOk(h) && Link(h, g) && Link(g, h) && HostWide(true, h)
    ensures TooWide(Calls(h, g.wire, a)) <==> Strained(Calls(h, g.wire, a))
  {
    hide QueueOk, InStream, TooWide, Strained, Arriving, ClosingCalls, EmptyingCalls, Shutdown, Write, QueuedAsks, TimerFires, AnnounceWindow,
      CopyFrom, Drop, MarkUsed, SkipUsed, Ample, Readable;
    var ep := h.ep;
    NoCalls();
    if ep.st.Synchronised() {
      match a
      case Deliver(p, ie) =>
        if p in g.wire {
          assert OnWire(p, g, h);
          CutOnWire(p, g, h);
          ArrivingFits(h, g, Cut(p), ie);
        }
      case DoWrite(data, mem, e) => OneCall(ep.sock && ep.st.Connected() && QueuedAsks(Write(ep, data, mem), e), ep.rcv, ep.st);
      case DoRead(size, m) =>
        var r := ReadCall(ep.rcv, size).r;
        OneCall(ep.sock && size > 0 && Readable(ep.rcv) && AnnounceWindow(r, ep.st) && m, r, ep.st);
      case TimerExpires(e) => OneCall(ep.snd.timer && Loud(TimerFires(ep.snd, e)), ep.rcv, ep.st);
      case DelayedAck(m) => OneCall(ep.delack && !ep.st.TimeWait? && m, ep.rcv, ep.st);
      case DoShutdown(mem, e) => ClosingFits(ep, mem, e);
      case DoDetach(mem, e, m) => if ep.sock { DetachFits(h, g, mem, e, m); }
      case _ =>
    }
  }

  lemma {:induction false} NoCalls()
    ensures !TooWide([]) && !Strained([])
  {
  }

  // ---------------------------------------------------------------- every run

  /** The windows that event `k` makes host `a` compute. */
  ghost function CallsAt(s: Sys, run: seq<Event>, k: nat): seq<Call>
    requires k < |run|
  {
    if run[k].atA then Calls(StateAt(s, run, k).a, StateAt(s, run, k).b.wire, run[k].act) else []
  }

  lemma {:induction false} WideUntil(s: Sys, run: seq<Event>, k: nat)
    requires Fresh(s) && k <= |run| && forall i: nat :: i < k ==> !Strained(CallsAt(s, run, i))
    ensures HostWide(true, StateAt(s, run, k).a)
  {
    hide Act, Calls, Strained, Inv;
    if k > 0 {
      WideUntil(s, run, k - 1);
      InvAlways(s, run[..k - 1]);
      OneMore(s, run, k - 1);
      WideStepAt(StateAt(s, run, k - 1), run[k - 1]);
      assert !Strained(CallsAt(s, run, k - 1));
    }
  }

  lemma {:induction false} WideStepAt(y: Sys, e: Event)
    requires Inv(y) && HostWide(true, y.a)
    ensures (e.atA ==> !Strained(Calls(y.a, y.b.wire, e.act))) ==> HostWide(true, Step(y, e).a)
  {
    hide Act, Calls, Strained, HostOk, Link;
    if e.atA && !Strained(Calls(y.a, y.b.wire, e.act)) { ActWide(true, y.a, y.b, e.act); }
  }

  lemma {:induction false} EventFits(s: Sys, run: seq<Event>, k: nat)
    requires Fresh(s) && k < |run| && forall i: nat :: i < k ==> !Strained(CallsAt(s, run, i))
    ensures TooWide(CallsAt(s, run, k)) <==> Strained(CallsAt(s, run, k))
  {
    hide Calls, TooWide, Strained, HostOk, Link, Exec;
    NoCalls();
    WideUntil(s, run, k);
    InvAlways(s, run[..k]);
    if run[k].atA { CallsFit(StateAt(s, run, k).a, StateAt(s, run, k).b, run[k].act); }
  }

  lemma {:induction false} FirstStrained(s: Sys, run: seq<Event>, n: nat) returns (k: nat)
    requires n < |run| && Strained(CallsAt(s, run, n))
    ensures k <= n && Strained(CallsAt(s, run, k)) && forall i: nat :: i < k ==> !Strained(CallsAt(s, run, i))
    decreases n
  {
    hide CallsAt, Strained;
    if i: nat :| i < n && Strained(CallsAt(s, run, i)) { k := FirstStrained(s, run, i); } else { k := n; }
  }

  /**
   * A host ever computes a window for a packet that does not fit its field if and only if it ever computes one
   * while its counter leaves more room than the field can tell.
   */
  lemma {:induction false} TooWideIffStrained(s: Sys, run: seq<Event>)
    requires Fresh(s)
    ensures (exists k: nat :: k < |run| && TooWide(CallsAt(s, run, k))) <==> (exists k: nat :: k < |run| && Strained(CallsAt(s, run, k)))
  {
    hide CallsAt, TooWide, Strained;
    if n: nat :| n < |run| && Strained(CallsAt(s, run, n)) {
      var k := FirstStrained(s, run, n);
      EventFits(s, run, k);
    } else if k: nat :| k < |run| && TooWide(CallsAt(s, run, k)) {
      EventFits(s, run, k);
    }
  }

  /** If it never does, everything it has ever sent carries its window whole. */
  lemma {:induction false} WindowsFit(s: Sys, run: seq<Event>)
    requires Fresh(s) && forall k: nat :: k < |run| ==> !Strained(CallsAt(s, run, k))
    ensures forall p :: p in Exec(s, run).a.wire ==> 0 <= p.window <= MAX_SPACE && Cut(p) == p
  {
    hide Calls, Strained, Exec;
    WideUntil(s, run, |run|);
    assert run[..|run|] == run;
  }

  // ---------------------------------------------------------------- a counter that is not negative

  lemma {:induction false} NotNegative(b: bool, r: Rcv, st: State)
    requires b ==> Roomy(r) && 0 <= r.cur
    ensures !Strained(One(b, r, st))
  {
    hide Strained;
    StrainedParts(b, r, st, []);
  }

  lemma {:induction false} HandlingCounted(ep: Endpoint, p: Packet, ie: InEnv, str: seq<Byte>, closed: bool)
    requires EpOk(ep, str, closed) && Roomy(ep.rcv) && 0 <= ep.rcv.cur
    ensures !Strained(Handling(ep, p, ie))
  {
    hide TakeAck, TakeAckAsks, TakeDataAsks, Heeds, LooksAtData, Receive, EpOk, Strained, Window;
    var later := Afterwards(ep, p, Updates(ep.st), ie);
    TakeAckCarries(ep, p, Updates(ep.st), ie, str, closed);
    ReceiveKeepsSize(later.rcv, p);
    ReceiveKeepsCounter(later.rcv, p);
    var b, c := Heeds(ep, p) && TakeAckAsks(ep, p, Updates(ep.st), ie), LooksAtData(ep, p) && TakeDataAsks(later, p, ie);
    NotNegative(b, ep.rcv, ep.st);
    NotNegative(c, Receive(later.rcv, p), later.st);
    StrainedBoth(One(b, ep.rcv, ep.st), One(c, Receive(later.rcv, p), later.st));
  }

  lemma {:induction false} EmptyingCounted(ep: Endpoint, m: bool)
    requires Roomy(ep.rcv) && 0 <= ep.rcv.cur
    ensures !Strained(EmptyingCalls(ep, m))
  {
    hide AnnounceWindow, Strained;
    var q := MarkAll(ep.rcv.q);
    if |q| > 0 { DropToEmpty(q, ep.rcv.cur, ep.rcv.nxt); }
    NotNegative(AnnounceWindow(Emptied(ep).rcv, ep.st) && m, Emptied(ep).rcv, ep.st);
  }

  lemma {:induction false} ClosingCounted(ep: Endpoint, mem: nat, e: Env)
    requires Roomy(ep.rcv) && 0 <= ep.rcv.cur
    ensures !Strained(ClosingCalls(ep, mem, e)) && Roomy(Shutdown(ep, mem, e).ep.rcv) && 0 <= Shutdown(ep, mem, e).ep.rcv.cur
  {
    hide Output, Queue, Strained;
    var ep1 := ep.(st := ClosingState(ep.st));
    NotNegative(ep1.st != ep.st && QueuedAsks(Queue(ep1, [], Ask(false, true, true), mem), e), ep.rcv, ep1.st);
  }

  /** With a counter that is not negative before and after, no window is computed amiss. */
  lemma {:induction false} CountedCalls(h: Host, g: Host, a: Action)
    requires HostOk(h) && HostWide(true, h) && 0 <= h.ep.rcv.cur && 0 <= Act(h, g.wire, a).ep.rcv.cur
    ensures !Strained(Calls(h, g.wire, a))
  {
    hide QueueOk, Strained, Handling, Check, ClosingCalls, EmptyingCalls, Shutdown, Write, QueuedAsks, TimerFires, AnnounceWindow,
      CopyFrom, Drop, MarkUsed, SkipUsed, Readable, Input;
    var ep := h.ep;
    NoCalls();
    if ep.st.Synchronised() {
      match a
      case Deliver(p, ie) =>
        var k := Cut(p);
        NotNegative(!k.rst && ie.m1, ep.rcv, ep.st);
        HandlingCounted(ep, Check(ep.rcv, ep.st, k).p, ie, h.sent, h.closed);
      case DoWrite(data, mem, e) => NotNegative(ep.sock && ep.st.Connected() && QueuedAsks(Write(ep, data, mem), e), ep.rcv, ep.st);
      case DoRead(size, m) =>
        var r := ReadCall(ep.rcv, size).r;
        NotNegative(ep.sock && size > 0 && Readable(ep.rcv) && AnnounceWindow(r, ep.st) && m, r, ep.st);
      case TimerExpires(e) => NotNegative(ep.snd.timer && Loud(TimerFires(ep.snd, e)), ep.rcv, ep.st);
      case DelayedAck(m) => NotNegative(ep.delack && !ep.st.TimeWait? && m, ep.rcv, ep.st);
      case DoShutdown(mem, e) => ClosingCounted(ep, mem, e);
      case DoDetach(mem, e, m) =>
        ClosingCounted(ep, mem, e);
        EmptyingCounted(Shutdown(ep, mem, e).ep, m);
        StrainedBoth(ClosingCalls(ep, mem, e), EmptyingCalls(Shutdown(ep, mem, e).ep, m));
      case _ =>
    }
  }

  lemma {:induction false} CountedUntil(s: Sys, run: seq<Event>, k: nat)
    requires Fresh(s) && k <= |run| && forall i :: 0 <= i <= |run| ==> 0 <= StateAt(s, run, i).a.ep.rcv.cur
    ensures forall i: nat :: i < k ==> !Strained(CallsAt(s, run, i))
  {
    hide Act, Calls, Strained, HostOk, Link;
    if k > 0 {
      CountedUntil(s, run, k - 1);
      WideUntil(s, run, k - 1);
      InvAlways(s, run[..k - 1]);
      OneMore(s, run, k - 1);
      var y := StateAt(s, run, k - 1);
      assert 0 <= StateAt(s, run, k).a.ep.rcv.cur && 0 <= y.a.ep.rcv.cur;
      NoCalls();
      if run[k - 1].atA { CountedCalls(y.a, y.b, run[k - 1].act); }
    }
  }

  /** While the byte counter is not negative every advertised window fits its field. */
  lemma {:induction false} WindowsFitWhileCounted(s: Sys, run: seq<Event>)
    requires Fresh(s) && forall k :: 0 <= k <= |run| ==> 0 <= StateAt(s, run, k).a.ep.rcv.cur
    ensures forall p :: p in Exec(s, run).a.wire ==> 0 <= p.window <= MAX_SPACE && Cut(p) == p
  {
    hide Exec, Strained, CallsAt;
    CountedUntil(s, run, |run|);
    WindowsFit(s, run);
  }
}
