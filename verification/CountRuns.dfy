/** Exactly when the byte counter of the receive queue is right in every state of a run. */
module CountRuns {
  import opened TcpTypes
  import opened Stream
  import opened SendFacts
  import opened RecvQueue
  import opened TcpRecv
  import opened TcpEndpoint
  import opened EndpointFacts
  import opened TcpSystem
  import opened SystemFacts
  import opened RunFacts
  import opened RunTheorems
  import opened WindowFacts
  import opened SpanFacts
  import opened Progress

  /** Taking in a segment over both ends leaves the counter short. */
  lemma {:induction false} ReceiveLoses(r: Rcv, p: Packet)
    requires Exact(r) && Normal(r.q) && GrowsBothEnds(r.q, Payload(p))
    ensures !Exact(Receive(r, p))
  {
    CountTracksSpan(r.q, r.cur, Payload(p));
  }

  lemma {:induction false} TakenLoses(h: Host, g: Host, p: Packet, ie: InEnv)
    requires HostOk(h) && Heard(h, g) && Exact(h.ep.rcv) && GrowsBothEnds(h.ep.rcv.q, Payload(p)) && TakesData(h.ep, p)
    requires Genuine(p, g.isn + 1, Shown(g), FinShown(g)) && !p.syn && !p.rst
    requires p.Len() > 0 ==> h.ep.rcv.nxt <= p.seqno + |p.data|
    ensures !Exact(Dispatch(h.ep, p, ie).ep.rcv)
  {
    hide QueueOk, InStream, Dispatch, Receive, Normal, GrowsBothEnds;
    BothEndsHaveData(h.ep.rcv, p);
    assert h.ep.sock;
    DataHeard(h, g, p);
    ReceiveLoses(h.ep.rcv, p);
    if h.ep.st.SynRcvd? {
      SynRcvdTakesIn(h.ep, p, ie, h.sent, h.closed);
    } else {
      DataTakenIn(h.ep, p, ie, h.sent, h.closed);
    }
  }

  /** An action keeps the counter right if and only if it does not take in such a segment. */
  lemma {:induction false} ActCounts(h: Host, g: Host, a: Action)
    requires HostOk(h) && Link(h, g) && Link(g, h) && Exact(h.ep.rcv)
    ensures Exact(Act(h, g.wire, a).ep.rcv) <==> OneEnd(h, g.wire, a)
  {
    hide HostOk, Exact, Dispatch, TakesData, GrowsBothEnds, Check, InStream;
    if OneEnd(h, g.wire, a) {
      ActExact(h, g, a);
    } else {
      ArrivalLoses(h, g, a.p, a.ie);
    }
  }

  lemma {:induction false} ArrivalLoses(h: Host, g: Host, k: Packet, ie: InEnv)
    requires HostOk(h) && Heard(h, g) && Link(g, h) && Exact(h.ep.rcv) && k in g.wire
    requires var v := Check(h.ep.rcv, h.ep.st, Cut(k)); v.ok && TakesData(h.ep, v.p) && GrowsBothEnds(h.ep.rcv.q, Payload(v.p))
    ensures !Exact(Act(h, g.wire, Deliver(k, ie)).ep.rcv)
  {
    hide Exact, Dispatch, GrowsBothEnds, Check, InStream, QueueOk;
    var p := Check(h.ep.rcv, h.ep.st, Cut(k)).p;
    assert OnWire(k, g, h);
    CutOnWire(k, g, h);
    CheckKeepsAck(h.ep.rcv, h.ep.st, Cut(k));
    AcceptedIsGenuine(h, g, Cut(k));
    TakenLoses(h, g, p, ie);
  }

  /** The counter of host `a` is the span in every state of a run if and only if no such segment was taken in. */
  lemma {:induction false} CounterIsSpanIffOneEnd(s: Sys, run: seq<Event>)
    requires Fresh(s)
    ensures (forall k :: 0 <= k <= |run| ==> Exact(StateAt(s, run, k).a.ep.rcv)) <==> OneEndAlways(s, run)
  {
    hide Act, Inv, OneEnd, Exact;
    if OneEndAlways(s, run) {
      forall k | 0 <= k <= |run| ensures Exact(StateAt(s, run, k).a.ep.rcv) { CounterIsSpan(s, run, k); }
    } else {
      var k :| 0 <= k < |run| && run[k].atA && !OneEnd(StateAt(s, run, k).a, StateAt(s, run, k).b.wire, run[k].act);
      OneMore(s, run, k);
      InvAlways(s, run[..k]);
      if Exact(StateAt(s, run, k).a.ep.rcv) { StepLoses(StateAt(s, run, k), run[k]); }
    }
  }

  lemma {:induction false} StepLoses(y: Sys, e: Event)
    requires Inv(y) && Exact(y.a.ep.rcv) && e.atA && !OneEnd(y.a, y.b.wire, e.act)
    ensures !Exact(Step(y, e).a.ep.rcv)
  {
    hide Act, HostOk, Link, OneEnd, Exact;
    ActCounts(y.a, y.b, e.act);
  }
}
