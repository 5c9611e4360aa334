/** The acceptance test is the table of RFC 793, section 3.3, and what passes it is heeded. */
module Acceptance {
  import opened TcpTypes
  import opened TcpSend
  import opened TcpRecv
  import opened TcpEndpoint
  import opened SendFacts
  import opened EndpointFacts
  import opened TcpSystem
  import opened SystemFacts
  import opened RunFacts
  import opened RunTheorems

  // ---------------------------------------------------------------- the test

  /** The segment occupies the number `x`, with data, SYN or FIN. */
  predicate Occupies(p: Packet, x: int) { p.seqno <= x < p.seqno + p.Len() }

  predicate InWindow(r: Rcv, st: State, x: int) { r.nxt <= x < r.nxt + Window(r, st) }

  /** The four rows of the table: empty or not, window open or not. */
  ghost predicate Acceptable(r: Rcv, st: State, p: Packet) {
    if p.Len() == 0 then p.seqno == r.nxt || InWindow(r, st, p.seqno)
    else exists x :: Occupies(p, x) && InWindow(r, st, x)
  }

  lemma {:induction false} AcceptedIffAcceptable(r: Rcv, st: State, p: Packet)
    requires st.Synchronised()
    ensures Check(r, st, p).ok <==> Acceptable(r, st, p)
  {
    hide Window;
    var w := Window(r, st);
    if p.Len() > 0 && w > 0 && r.nxt <= p.seqno + p.Len() - 1 && p.seqno < r.nxt + w {
      var x := Max(p.seqno, r.nxt);
      assert Occupies(p, x) && InWindow(r, st, x);
    }
  }

  /** A host that has no connection yet takes every segment to its handler, as it is. */
  lemma {:induction false} UnsynchronisedTakesAll(r: Rcv, st: State, p: Packet)
    requires !st.Synchronised()
    ensures Check(r, st, p) == Verdict(true, p)
  {
  }

  /** The number of a FIN is the last one of its segment. */
  function FinAt(p: Packet): int { p.seqno + Bit(p.syn) + |p.data| }

  /**
   * The test edits the header only: the data keeps its numbers, a SYN goes exactly if it lies left of the window,
   * a FIN exactly if it lies right of it.
   */
  lemma {:induction false} HeaderEdits(r: Rcv, st: State, p: Packet)
    requires st.Synchronised() && Acceptable(r, st, p)
    ensures var k := Check(r, st, p).p;
      && k.data == p.data && k.seqno + Bit(k.syn) == p.seqno + Bit(p.syn)
      && (k.syn <==> p.syn && r.nxt <= p.seqno)
      && (k.fin <==> p.fin && FinAt(p) < r.nxt + Window(r, st))
      && k == p.(seqno := k.seqno, syn := k.syn, fin := k.fin)
  {
    hide Window;
    AcceptedIffAcceptable(r, st, p);
  }

  // ---------------------------------------------------------------- acknowledgments are heeded

  /** The oldest unacknowledged number after an acknowledgment: what it says, if it is new and not beyond what was sent. */
  function NewEdge(s: Snd, ackno: int): int { if s.una < ackno <= s.max then ackno else s.una }

  lemma {:induction false} EventKeepsEdge(ep: Endpoint, s: Snd, ev: OEvent, e: Env, str: seq<Byte>, closed: bool)
    requires Before(s, ev, str, closed)
    ensures Apply(ep, Output(s, ev, e)).ep.snd.una == s.una
  {
    hide Before, Output, Window, Record;
    OutputFine(s, ev, e, str, closed);
  }

  lemma {:induction false} NumberMovesEdge(ep: Endpoint, p: Packet, oldWnd: int, ie: InEnv, str: seq<Byte>, closed: bool)
    requires EpOk(ep, str, closed)
    ensures AckNumber(ep, p, oldWnd, ie).ep.snd.una == NewEdge(ep.snd, p.ackno)
  {
    hide Output, Apply, QueueOk;
    if ep.snd.una < p.ackno <= ep.snd.max {
      EventKeepsEdge(ep, ep.snd.(una := p.ackno), AckRcvd, ie.e1, str, closed);
    } else if p.ackno <= ep.snd.max {
      var s := ep.snd.(dupacks := ep.snd.dupacks + 1);
      WindowFieldsFree(ep.snd, s, str, closed);
      EventKeepsEdge(ep, s, DupAck, ie.e1, str, closed);
    }
  }

  lemma {:induction false} AckMovesEdge(ep: Endpoint, p: Packet, update: bool, ie: InEnv, str: seq<Byte>, closed: bool)
    requires EpOk(ep, str, closed)
    ensures TakeAck(ep, p, update, ie).ep.snd.una == if p.ack then NewEdge(ep.snd, p.ackno) else ep.snd.una
  {
    hide QueueOk, Counted, Output, AckNumber;
    if p.ack {
      var u := if update then SndWnd(ep.snd, p) else Stale;
      if u.Update? {
        SndWndKeeps(ep.snd, p, str, closed);
        var ep1 := ep.(snd := u.s);
        AckNumberCarries(ep1, p, ep.snd.wnd, ie, str, closed);
        NumberMovesEdge(ep1, p, ep.snd.wnd, ie, str, closed);
        var r := AckNumber(ep1, p, ep.snd.wnd, ie);
        OutputFine(r.ep.snd, u.ev, ie.e2, str, closed);
      } else {
        NumberMovesEdge(ep, p, ep.snd.wnd, ie, str, closed);
      }
    }
  }

  lemma {:induction false} DataKeepsSender(ep: Endpoint, p: Packet, ie: InEnv)
    ensures var d := TakeData(ep, p, ie).ep; d.snd == ep.snd && d.st == ep.st && d.sock == ep.sock
  {
    hide Receive, AckNow, Window;
  }

  lemma {:induction false} AckThenDataMovesEdge(ep: Endpoint, p: Packet, update: bool, ie: InEnv, str: seq<Byte>, closed: bool)
    requires EpOk(ep, str, closed) && p.ack
    ensures TakeData(TakeAck(ep, p, update, ie).ep, p, ie).ep.snd.una == NewEdge(ep.snd, p.ackno)
    ensures TakeAck(ep, p, update, ie).ep.snd.una == NewEdge(ep.snd, p.ackno)
  {
    hide EpOk, TakeAck, TakeData, NewEdge;
    AckMovesEdge(ep, p, update, ie, str, closed);
    DataKeepsSender(TakeAck(ep, p, update, ie).ep, p, ie);
  }

  lemma {:induction false} SynMovesEdge(ep: Endpoint, p: Packet, ie: InEnv, str: seq<Byte>, closed: bool)
    requires EpOk(ep, str, closed) && ep.st.SynSent?
    ensures Dispatch(ep, p, ie).ep.snd.una == if Heeds(ep, p) && p.ack then NewEdge(ep.snd, p.ackno) else ep.snd.una
  {
    hide SndOk, TimerOk, TakeAck, TakeData;
    var ep1 := ep.(rcv := ep.rcv.(sync := true, nxt := p.seqno, wnd := p.seqno, read := p.seqno + 1));
    AckMovesEdge(ep1, p, false, ie, str, closed);
    var r := AfterSynAck(TakeAck(ep1, p, false, ie).ep, p, Max(32, ie.mss));
    DataKeepsSender(r, p, ie);
    if p.ack { OutOfRange(ep.snd, p.ackno, str, closed); }
  }

  lemma {:induction false} OutOfRange(s: Snd, ackno: int, str: seq<Byte>, closed: bool)
    requires SndOk(s, str, closed)
    ensures ackno <= s.isn || ackno > s.max ==> NewEdge(s, ackno) == s.una
  {
  }

  lemma {:induction false} OpenMovesEdge(ep: Endpoint, p: Packet, ie: InEnv, str: seq<Byte>, closed: bool)
    requires EpOk(ep, str, closed) && (ep.st.SynRcvd? || ep.st.Established? || ep.st.FinWait1? || ep.st.FinWait2?)
    ensures Dispatch(ep, p, ie).ep.snd.una == if Heeds(ep, p) && p.ack then NewEdge(ep.snd, p.ackno) else ep.snd.una
  {
    hide EpOk, TakeAck, TakeData, NewEdge;
    if Heeds(ep, p) && p.ack {
      AckThenDataMovesEdge(ep, p, ep.st.Established? || ep.st.FinWait1?, ie, str, closed);
      var r := TakeAck(ep, p, false, ie);
      DataKeepsSender(r.ep.(st := Established, snd := r.ep.snd.(wnd := p.window, wndseq := p.seqno, wndack := p.ackno)), p, ie);
    }
  }

  /** Every handler that looks at the acknowledgment moves the edge, and nothing else in a segment does. */
  lemma {:induction false} HandlerMovesEdge(ep: Endpoint, p: Packet, ie: InEnv, str: seq<Byte>, closed: bool)
    requires EpOk(ep, str, closed) && !ep.st.Listen?
    ensures Dispatch(ep, p, ie).ep.snd.una == if Heeds(ep, p) && p.ack then NewEdge(ep.snd, p.ackno) else ep.snd.una
  {
    hide EpOk, TakeAck, TakeData, NewEdge;
    if ep.st.SynSent? {
      SynMovesEdge(ep, p, ie, str, closed);
    } else if ep.st.SynRcvd? || ep.st.Established? || ep.st.FinWait1? || ep.st.FinWait2? {
      OpenMovesEdge(ep, p, ie, str, closed);
    } else {
      AckMovesEdge(ep, p, ep.st.CloseWait?, ie, str, closed);
      DataKeepsSender(TakeAck(ep, p, false, ie).ep, p, ie);
    }
  }

  /** What the acknowledgment part of a handler sends goes out first. */
  lemma {:induction false} HandlerSpeaks(ep: Endpoint, p: Packet, ie: InEnv)
    requires ep.st.Synchronised() && Heeds(ep, p) && p.ack
    ensures TakeAck(ep, p, Updates(ep.st), ie).out <= Dispatch(ep, p, ie).out
  {
    hide TakeAck, TakeData;
  }

  lemma {:induction false} DeliveryMovesEdge(h: Host, g: Host, k: Packet, ie: InEnv)
    requires HostOk(h) && Link(h, g) && Link(g, h) && h.ep.st.Synchronised() && k in g.wire
    requires Acceptable(h.ep.rcv, h.ep.st, Cut(k)) && k.ack && !k.rst && (h.ep.sock || |k.data| == 0)
    ensures Act(h, g.wire, Deliver(k, ie)).ep.snd.una == NewEdge(h.ep.snd, k.ackno)
  {
    hide EpOk, Window, Dispatch, Check, Acceptable;
    assert OnWire(k, g, h);
    CutOnWire(k, g, h);
    AcceptedIffAcceptable(h.ep.rcv, h.ep.st, Cut(k));
    AcceptedIsGenuine(h, g, Cut(k));
    HeaderEdits(h.ep.rcv, h.ep.st, Cut(k));
    HandlerMovesEdge(h.ep, Check(h.ep.rcv, h.ep.st, Cut(k)).p, ie, h.sent, h.closed);
  }

  /** In every reachable state an acceptable acknowledgment of something sent moves `snd_una` to its number. */
  lemma {:induction false} AcknowledgmentsAreHeard(s: Sys, run: seq<Event>, t: Sys, atA: bool, k: Packet, ie: InEnv)
    requires Fresh(s) && t == Exec(s, run)
    requires var h := Mine(t, atA);
      && h.ep.st.Synchronised() && k in Mine(t, !atA).wire && Acceptable(h.ep.rcv, h.ep.st, Cut(k))
      && k.ack && !k.rst && (h.ep.sock || |k.data| == 0)
    ensures Mine(Step(t, Event(atA, Deliver(k, ie))), atA).ep.snd.una == NewEdge(Mine(t, atA).ep.snd, k.ackno)
  {
    hide Act, HostOk, Link, Acceptable, Cut;
    InvAlways(s, run);
    DeliveryMovesEdge(Mine(t, atA), Mine(t, !atA), k, ie);
  }

  /** A segment that only acknowledges, from the peer's own position, is heard whatever the receive window. */
  lemma {:induction false} PureAcksAreHeard(s: Sys, run: seq<Event>, t: Sys, atA: bool, k: Packet, ie: InEnv)
    requires Fresh(s) && t == Exec(s, run)
    requires var h := Mine(t, atA);
      && h.ep.st.Synchronised() && k in Mine(t, !atA).wire && k.Len() == 0 && k.seqno == h.ep.rcv.nxt
      && k.ack && !k.rst && h.ep.snd.una < k.ackno <= h.ep.snd.max
    ensures Mine(Step(t, Event(atA, Deliver(k, ie))), atA).ep.snd.una == k.ackno
  {
    hide Act, Exec, Fresh;
    AcknowledgmentsAreHeard(s, run, t, atA, k, ie);
  }
}
