/** Over whole runs: what duplicate acknowledgments, writes and closing calls put on the wire. */
module OutputRuns {
  import opened TcpTypes
  import opened TcpSend
  import opened SendFacts
  import opened TcpRecv
  import opened TcpEndpoint
  import opened EndpointFacts
  import opened TcpSystem
  import opened SystemFacts
  import opened Stream
  import opened UserFacts
  import opened RunTheorems
  import opened Acceptance
  import opened Sending
  import opened OutputMeaning

  // ---------------------------------------------------------------- duplicate acknowledgments

  /** The send variables when the acknowledgment number is looked at: the segment's window may count before that. */
  function WindowTaken(ep: Endpoint, p: Packet): Snd {
    if Updates(ep.st) && SndWnd(ep.snd, p).Update? then SndWnd(ep.snd, p).s else ep.snd
  }

  /** `p` acknowledges nothing new, brings no other window, and lets the machine send segment `j` again. */
  predicate Repeats(ep: Endpoint, p: Packet, j: nat) {
    var s := WindowTaken(ep, p);
    && p.Len() == 0 && p.ack && !p.rst && p.seqno == ep.rcv.nxt && p.ackno == s.una && p.window == ep.snd.wnd
    && s.ostate.Retrans? && s.wnd > 0 && s.una < s.nxt && PointsAt(s.(dupacks := s.dupacks + 1), j)
  }

  /** The packet holds segment `b` from the oldest unacknowledged number on. */
  predicate HoldsAgain(d: Packet, b: OutSeg, una: int) {
    d.seqno == Max(una, b.start) && b.End() <= d.seqno + d.Len()
  }

  lemma {:induction false} RepeatSends(ep: Endpoint, p: Packet, j: nat, ie: InEnv, str: seq<Byte>, closed: bool)
    requires EpOk(ep, str, closed) && Repeats(ep, p, j) && ie.e1.budget > 0
    ensures j < |ep.snd.q|
    ensures var out := TakeAck(ep, p, Updates(ep.st), ie).out; |out| > 0 && HoldsAgain(out[0], ep.snd.q[j], ep.snd.una)
  {
    hide QueueOk, Counted, Output;
    if Updates(ep.st) && SndWnd(ep.snd, p).Update? { SndWndKeeps(ep.snd, p, str, closed); }
    var s := WindowTaken(ep, p);
    var s1 := s.(dupacks := s.dupacks + 1);
    WindowFieldsFree(s, s1, str, closed);
    DuplicateResends(s1, j, ie.e1, str, closed);
    var r := AckNumber(ep.(snd := s), p, ep.snd.wnd, ie);
    assert r == Apply(ep.(snd := s), Output(s1, DupAck, ie.e1));
  }

  lemma {:induction false} RepeatDelivered(h: Host, g: Host, k: Packet, j: nat, ie: InEnv) returns (d: Packet)
    requires HostOk(h) && h.ep.st.Synchronised() && k in g.wire && Repeats(h.ep, Cut(k), j) && ie.e1.budget > 0
    ensures j < |h.ep.snd.q|
    ensures d in Act(h, g.wire, Deliver(k, ie)).wire && HoldsAgain(d, h.ep.snd.q[j], h.ep.snd.una)
  {
    hide EpOk, TakeAck, Dispatch, Check, Window;
    var p := Cut(k);
    RepeatSends(h.ep, p, j, ie, h.sent, h.closed);
    AcceptedIffAcceptable(h.ep.rcv, h.ep.st, p);
    HeaderEdits(h.ep.rcv, h.ep.st, p);
    HandlerSpeaks(h.ep, p, ie);
    d := TakeAck(h.ep, p, Updates(h.ep.st), ie).out[0];
    var r := Input(h.ep, p, ie);
    assert r.out[0] == d;
    assert d in Took(h, r).wire;
  }

  /** In every reachable state: from the third duplicate on, each puts one more of the segments under way on the wire. */
  lemma {:induction false} DuplicatesResend(s: Sys, run: seq<Event>, t: Sys, atA: bool, k: Packet, j: nat, ie: InEnv) returns (d: Packet)
    requires Fresh(s) && t == Exec(s, run) && ie.e1.budget > 0
    requires var h := Mine(t, atA); h.ep.st.Synchronised() && k in Mine(t, !atA).wire && Repeats(h.ep, Cut(k), j)
    ensures var h := Mine(t, atA);
      j < |h.ep.snd.q| && d in Mine(Step(t, Event(atA, Deliver(k, ie))), atA).wire && HoldsAgain(d, h.ep.snd.q[j], h.ep.snd.una)
  {
    hide Act, HostOk, Link, Repeats;
    InvAlways(s, run);
    d := RepeatDelivered(Mine(t, atA), Mine(t, !atA), k, j, ie);
  }

  // ---------------------------------------------------------------- writing and closing

  lemma {:induction false} StampRuns(out: seq<Packet>, ackno: int, window: int, x: int, y: int)
    requires RunsFrom(out, x, y)
    ensures RunsFrom(Stamp(out, ackno, window), x, y)
  {
    if |out| > 0 {
      StampRuns(out[1..], ackno, window, x + out[0].Len(), y);
      assert Stamp(out, ackno, window)[1..] == Stamp(out[1..], ackno, window);
    }
  }

  /** Idle or sending, and nothing acknowledged beyond what counts as sent. */
  predicate ReadyToSend(s: Snd) { (s.ostate.Idle? || s.ostate.Xmit?) && s.una <= s.nxt }

  /** What is queued goes out at once, as far as the windows let it. */
  lemma {:induction false} QueuedGoesOut(ep: Endpoint, q: Queued, e: Env, str: seq<Byte>, closed: bool)
    requires TimerOk(ep.snd) && Grown(ep.snd, q.s, str, closed) && (q.ok || q.taken > 0) && ep.snd.nxt <= ep.snd.max <= ep.snd.write
    requires ReadyToSend(ep.snd) && |q.s.q| <= e.budget
    ensures var r := SendQueued(ep, q, e);
      Greedy(Ready(q.s, Send, e), Reach(Ready(q.s, Send, e), e), r.out, r.ep.snd.nxt)
  {
    hide QueueOk, Counted, RunsFrom, StopsAt, Reach, Window;
    assert Before(q.s, Send, str, closed);
    PushSendsAll(q.s, Send, e, str, closed);
    GivesUpIff(q.s, Send, e, str, closed);
    var o := Output(q.s, Send, e);
    StampRuns(o.out, ep.rcv.nxt, Window(ep.rcv, ep.st), q.s.nxt, o.s.nxt);
  }

  /** What a sending call leaves: every number before `x` that was not sent is on the wire, and `x` is as far as it goes. */
  ghost predicate SentUpTo(wire: set<Packet>, s: Snd, e: Env, x: int) {
    (forall y :: s.nxt <= y < x ==> OnWireNow(wire, y)) && StopsAt(s, Reach(s, e), x)
  }

  ghost predicate OnWireNow(wire: set<Packet>, y: int) { exists d :: d in wire && Occupied(d, y) }

  lemma {:induction false} RunIsOnWire(h: Host, r: Res, s: Snd, e: Env)
    requires Greedy(s, Reach(s, e), r.out, r.ep.snd.nxt)
    ensures SentUpTo(Took(h, r).wire, s, e, r.ep.snd.nxt)
  {
    hide StopsAt, Reach;
    var h' := Took(h, r);
    forall x | s.nxt <= x < r.ep.snd.nxt ensures OnWireNow(h'.wire, x) {
      RunCovers(r.out, s.nxt, r.ep.snd.nxt, x);
      var i :| 0 <= i < |r.out| && Occupied(r.out[i], x);
      assert r.out[i] in h'.wire;
    }
  }

  lemma {:induction false} WriteGoesOut(h: Host, g: Host, data: seq<Byte>, mem: nat, e: Env)
    requires HostOk(h) && h.ep.sock && h.ep.st.Connected() && ReadyToSend(h.ep.snd)
    requires var q := Write(h.ep, data, mem); q.taken > 0 && |q.s.q| <= e.budget
    ensures var h' := Act(h, g.wire, DoWrite(data, mem, e));
      SentUpTo(h'.wire, Ready(Write(h.ep, data, mem).s, Send, e), e, h'.ep.snd.nxt)
  {
    hide QueueOk, Counted, InStream, Enqueue, Greedy, SentUpTo, Reach;
    var n := Min(CanWrite(h.ep.snd, h.ep.st), |data|);
    var q := Write(h.ep, data, mem);
    EnqueueKeeps(h.ep.snd, data[..n], true, mem, h.sent);
    QueuedGoesOut(h.ep, q, e, h.sent + data[..n][..q.taken], false);
    RunIsOnWire(h, SendQueued(h.ep, q, e), Ready(q.s, Send, e), e);
  }

  /** In every reachable state: a write puts on the wire everything that the windows allow, in order and without a gap. */
  lemma {:induction false} WritesGoOut(s: Sys, run: seq<Event>, t: Sys, atA: bool, data: seq<Byte>, mem: nat, e: Env)
    requires Fresh(s) && t == Exec(s, run)
    requires var h := Mine(t, atA);
      var q := Write(h.ep, data, mem);
      h.ep.sock && h.ep.st.Connected() && ReadyToSend(h.ep.snd) && q.taken > 0 && |q.s.q| <= e.budget
    ensures var h := Mine(t, atA);
      var h' := Mine(Step(t, Event(atA, DoWrite(data, mem, e))), atA);
      SentUpTo(h'.wire, Ready(Write(h.ep, data, mem).s, Send, e), e, h'.ep.snd.nxt)
  {
    hide Act, HostOk, Link, SentUpTo, Write;
    InvAlways(s, run);
    WriteGoesOut(Mine(t, atA), Mine(t, !atA), data, mem, e);
  }

  lemma {:induction false} FinGoesOut(h: Host, g: Host, mem: nat, e: Env)
    requires HostOk(h) && h.ep.sock && ClosingState(h.ep.st) != h.ep.st && FinQueued(h, mem) && ReadyToSend(h.ep.snd)
    requires |h.ep.snd.q| < e.budget
    ensures var q := Queue(h.ep.(st := ClosingState(h.ep.st)), [], Ask(false, true, true), mem);
      var h' := Act(h, g.wire, DoShutdown(mem, e));
      SentUpTo(h'.wire, Ready(q.s, Send, e), e, h'.ep.snd.nxt)
  {
    hide QueueOk, InStream, Greedy, SentUpTo, Reach;
    var ep1 := h.ep.(st := ClosingState(h.ep.st));
    var q := Queue(ep1, [], Ask(false, true, true), mem);
    FinNeedsMemory(ep1, mem);
    FinKeeps(h.ep.snd, mem, h.sent);
    FinUnfolds(h.ep.snd, mem);
    QueuedGoesOut(ep1, q, e, h.sent, true);
    RunIsOnWire(h, SendQueued(ep1, q, e), Ready(q.s, Send, e), e);
  }

  /** In every reachable state: a half close puts the FIN on the wire, if the windows let it out. */
  lemma {:induction false} FinsGoOut(s: Sys, run: seq<Event>, t: Sys, atA: bool, mem: nat, e: Env)
    requires Fresh(s) && t == Exec(s, run)
    requires var h := Mine(t, atA);
      h.ep.sock && ClosingState(h.ep.st) != h.ep.st && FinQueued(h, mem) && ReadyToSend(h.ep.snd) && |h.ep.snd.q| < e.budget
    ensures var h := Mine(t, atA);
      var q := Queue(h.ep.(st := ClosingState(h.ep.st)), [], Ask(false, true, true), mem);
      var h' := Mine(Step(t, Event(atA, DoShutdown(mem, e))), atA);
      SentUpTo(h'.wire, Ready(q.s, Send, e), e, h'.ep.snd.nxt)
  {
    hide Act, HostOk, Link, SentUpTo, Queue, FinQueued;
    InvAlways(s, run);
    FinGoesOut(Mine(t, atA), Mine(t, !atA), mem, e);
  }
}
