/** A connection in TIMEWAIT waits for nothing but its end. */
module Resting {
  import opened TcpTypes
  import opened TcpSend
  import opened RecvQueue
  import opened TcpRecv
  import opened TcpEndpoint
  import opened TcpSystem
  import opened SendFacts
  import opened EndpointFacts
  import opened SystemFacts
  import opened RunTheorems

  /** No acknowledgment is delayed in TIMEWAIT. */
  predicate Rested(ep: Endpoint) { ep.st.TimeWait? ==> !ep.delack }

  /** The state stays or the connection has ended, and no acknowledgment is newly delayed. */
  predicate Calmer(ep: Endpoint, ep': Endpoint) { (ep'.st == ep.st || ep'.st.Closed?) && (ep'.delack ==> ep.delack) }

  lemma ApplyCalmer(ep: Endpoint, r: SndRes)
    ensures Calmer(ep, Apply(ep, r).ep)
  {
    hide Window, Record;
  }

  lemma {:induction false} AckCalmer(ep: Endpoint, p: Packet, update: bool, ie: InEnv)
    ensures Calmer(ep, TakeAck(ep, p, update, ie).ep)
  {
    hide Output, Apply, Window, Record;
    forall e: Endpoint, r: SndRes ensures Calmer(e, Apply(e, r).ep) { ApplyCalmer(e, r); }
  }

  lemma DataRests(ep: Endpoint, p: Packet, ie: InEnv)
    ensures var d := TakeData(ep, p, ie).ep; d.st == ep.st && (d.delack ==> ep.delack || ep.st.Established?)
  {
    hide Window, Record, Receive, AckNow;
  }

  lemma SendQueuedCalmer(ep: Endpoint, q: Queued, e: Env)
    ensures Calmer(ep, SendQueued(ep, q, e).ep)
  {
    hide Output, Apply;
    ApplyCalmer(ep.(snd := q.s), Output(q.s, Send, e));
  }

  lemma {:induction false} HandlerRests(ep: Endpoint, p: Packet, ie: InEnv)
    requires Rested(ep)
    ensures Rested(Dispatch(ep, p, ie).ep)
  {
    hide TakeAck, TakeData, Queue, SendQueued, Window, Record;
    forall e: Endpoint, update ensures Calmer(e, TakeAck(e, p, update, ie).ep) { AckCalmer(e, p, update, ie); }
    forall e: Endpoint ensures TakeData(e, p, ie).ep.st == e.st { DataRests(e, p, ie); }
    forall e: Endpoint, q, env ensures Calmer(e, SendQueued(e, q, env).ep) { SendQueuedCalmer(e, q, env); }
  }

  lemma {:induction false} ActRests(h: Host, wire: set<Packet>, a: Action)
    requires Rested(h.ep)
    ensures Rested(Act(h, wire, a).ep)
  {
    hide Dispatch, Output, Write, Queue, SendQueued, Apply, TimerFires, Window, Record, Check, ReadCall, Readable;
    forall e: Endpoint, r: SndRes ensures Calmer(e, Apply(e, r).ep) { ApplyCalmer(e, r); }
    forall e: Endpoint, q, env ensures Calmer(e, SendQueued(e, q, env).ep) { SendQueuedCalmer(e, q, env); }
    if a.Deliver? { HandlerRests(h.ep, Check(h.ep.rcv, h.ep.st, Cut(a.p)).p, a.ie); }
  }

  lemma {:induction false} RestedAlways(s: Sys, run: seq<Event>)
    requires Fresh(s)
    ensures var t := Exec(s, run); Rested(t.a.ep) && Rested(t.b.ep)
    decreases |run|
  {
    hide Act;
    if |run| > 0 {
      var t, e := Exec(s, run[..|run| - 1]), run[|run| - 1];
      RestedAlways(s, run[..|run| - 1]);
      if e.atA { ActRests(t.a, t.b.wire, e.act); } else { ActRests(t.b, t.a.wire, e.act); }
    }
  }

  /** Nothing is queued, sent again, probed for or still to be acknowledged. */
  predicate Quiescent(ep: Endpoint) { ep.snd.q == [] && ep.snd.ostate.Idle? && !ep.snd.timer && !ep.delack }

  lemma {:induction false} AckedIsIdle(h: Host)
    requires HostOk(h) && h.ep.st.TimeWait?
    ensures h.ep.snd.q == [] && h.ep.snd.ostate.Idle? && !h.ep.snd.timer
  {
    AckedMeansEmpty(h.ep.snd, h.sent, h.closed);
  }

  /** In every reachable state a connection in TIMEWAIT waits for nothing but the end of that state. */
  lemma {:induction false} TimeWaitIsQuiet(s: Sys, run: seq<Event>, atA: bool)
    requires Fresh(s)
    ensures var h := Mine(Exec(s, run), atA); h.ep.st.TimeWait? ==> Quiescent(h.ep)
  {
    hide HostOk, Link;
    InvAlways(s, run);
    RestedAlways(s, run);
    var h := Mine(Exec(s, run), atA);
    if h.ep.st.TimeWait? { AckedIsIdle(h); }
  }
}
