/**
 * When a retransmission can find its window reversed. An acknowledgment may pass `snd_nxt`, because padding is
 * sent beyond it; what happens then depends on the window event of the same segment.
 */
module Reversal {
  import opened TcpTypes
  import opened TcpSend
  import opened SendFacts
  import opened TcpRecv
  import opened TcpEndpoint

  /** The machine would retransmit with a window whose right edge lies before its left one. */
  predicate Turned(s: Snd) { (s.ostate.Xmit? || s.ostate.Retrans?) && s.nxt < s.una }

  // ---------------------------------------------------------------- the sending loop after such an acknowledgment

  /** Contiguous, non-empty segments. */
  ghost predicate Shape(s: Snd) {
    Chain(s.q, s.write) && forall i :: 0 <= i < |s.q| ==> s.q[i].Len() > 0
  }

  lemma {:induction false} OneSegment(s: Snd, k: nat, w: int, o: Outcome)
    requires k < |s.q| && s.nxt < s.q[k].End()
    ensures var (r, ok) := SendOne(s, k, w, o);
      && r.s == s.(nxt := r.s.nxt, max := r.s.max)
      && (ok <==> o.Sent? && s.q[k].start < w && s.nxt <= w)
      && r.s.nxt == if ok then Min(s.q[k].End(), w) else if s.una == s.nxt then s.q[k].End() else s.nxt
  {
    hide Clip, Padded;
  }

  /** Sending moves `snd_nxt` and `snd_max` and nothing else. */
  lemma {:induction false} SendFromKeeps(s: Snd, k: nat, wndnxt: int, budget: nat, failure: Outcome)
    ensures var r := SendFrom(s, k, wndnxt, budget, failure); r.s == s.(nxt := r.s.nxt, max := r.s.max) && !r.dead
    decreases |s.q| - k
  {
    if k < |s.q| && (s.q[k].End() <= wndnxt || (s.nxt < wndnxt && 2 * (wndnxt - s.nxt) > s.wndmax)) {
      hide SndSeg;
      var o := if budget > 0 then Sent else failure;
      UnpaddedKeeps(s, k, s.nxt, wndnxt, o);
      var (r, ok) := SendOne(s, k, wndnxt, o);
      if ok { SendFromKeeps(r.s, k + 1, wndnxt, if budget > 0 then budget - 1 else 0, failure); }
    }
  }

  /** From a segment past `snd_nxt` on, sending moves `snd_nxt` forward only. */
  lemma {:induction false} SendFromForward(s: Snd, k: nat, wndnxt: int, budget: nat, failure: Outcome)
    requires Shape(s) && (k < |s.q| ==> s.nxt < s.q[k].End())
    ensures var r := SendFrom(s, k, wndnxt, budget, failure); s.nxt <= r.s.nxt && r.s == s.(nxt := r.s.nxt, max := r.s.max)
    decreases |s.q| - k
  {
    hide SendOne;
    if k < |s.q| && (s.q[k].End() <= wndnxt || (s.nxt < wndnxt && 2 * (wndnxt - s.nxt) > s.wndmax)) {
      OneSegment(s, k, wndnxt, if budget > 0 then Sent else failure);
      var (r, ok) := SendOne(s, k, wndnxt, if budget > 0 then Sent else failure);
      if ok { SendFromForward(r.s, k + 1, wndnxt, if budget > 0 then budget - 1 else 0, failure); }
    }
  }

  lemma {:induction false} SndHeadKeeps(s: Snd, e: Env)
    ensures var r := SndHead(s, e); r.s == s.(nxt := r.s.nxt, max := r.s.max) && !r.dead
  {
    hide SendFrom;
    SendFromKeeps(s, FirstPast(s.q, s.nxt), s.wndack + Min(s.wnd, SendLimit(s, e)), e.budget, e.failure);
  }

  lemma {:induction false} SndHeadForward(s: Snd, e: Env)
    requires Shape(s)
    ensures var r := SndHead(s, e); s.nxt <= r.s.nxt && r.s == s.(nxt := r.s.nxt, max := r.s.max)
  {
    SendFromForward(s, FirstPast(s.q, s.nxt), s.wndack + Min(s.wnd, SendLimit(s, e)), e.budget, e.failure);
  }

  /** The first queued segment does not go out as far as `snd_una`: windows too small, or no memory. */
  predicate Stuck(s: Snd, e: Env) {
    var w := s.wndack + Min(s.wnd, SendLimit(s, e));
    |s.q| > 0 && (
      || w < s.una || w == s.q[0].start
      || (w < s.q[0].End() && 2 * (w - s.nxt) <= s.wndmax)
      || (e.budget == 0 && !e.failure.Sent?))
  }

  lemma {:induction false} FirstOnly(s: Snd, w: int, budget: nat, failure: Outcome)
    requires Shape(s) && |s.q| > 0 && s.nxt < s.una < s.q[0].End() && s.q[0].start <= s.una
    ensures SendFrom(s, 0, w, budget, failure).s.nxt < s.una <==>
      w < s.una || w == s.q[0].start || (w < s.q[0].End() && 2 * (w - s.nxt) <= s.wndmax) || (budget == 0 && !failure.Sent?)
  {
    hide SendOne;
    var o, b := if budget > 0 then Sent else failure, if budget > 0 then budget - 1 else 0;
    if s.q[0].End() <= w || (s.nxt < w && 2 * (w - s.nxt) > s.wndmax) {
      OneSegment(s, 0, w, o);
      var (r, ok) := SendOne(s, 0, w, o);
      if ok {
        SendFromForward(r.s, 1, w, b, failure);
        assert w < s.una ==> SendFrom(r.s, 1, w, b, failure) == Quiet(r.s);
      }
    }
  }

  lemma {:induction false} CatchesUpUnlessStuck(s: Snd, e: Env)
    requires Shape(s) && |s.q| > 0 && s.nxt < s.una < s.q[0].End() && s.q[0].start <= s.una && s.nxt < s.write
    ensures SndHead(s, e).s.nxt < s.una <==> Stuck(s, e)
  {
    hide SendLimit, SendFrom;
    FirstOnly(s, s.wndack + Min(s.wnd, SendLimit(s, e)), e.budget, e.failure);
  }

  // ---------------------------------------------------------------- one event of the machine

  /** Resending moves neither edge. */
  lemma {:induction false} ResendingKeepsEdges(s: Snd, e: Env)
    ensures var r := Retransmit(s, e).s; r.una == s.una && r.nxt == s.nxt && (r.ostate == s.ostate || r.ostate.Idle?)
    ensures var r := Resend(s, e).s; r.una == s.una && r.nxt == s.nxt && r.ostate == s.ostate
  {
    hide Appended, Padded, Outside;
  }

  /** Only an acknowledgment can turn the window. */
  lemma {:induction false} OtherEvents(s: Snd, ev: OEvent, e: Env)
    requires Shape(s) && !Turned(s) && !ev.AckRcvd?
    ensures !Turned(Output(s, ev, e).s)
  {
    hide SndHead, Retransmit, Resend;
    SndHeadForward(s, e);
    SndHeadForward(s.(wndmax := s.wnd), e);
    ResendingKeepsEdges(s, e);
    ResendingKeepsEdges(s.(ostate := Retrans, dupacks := if s.dupacks >= DUP_THRESHOLD then DUP_THRESHOLD - 1 else s.dupacks), e);
  }

  /** A window event leaves a sending machine only if there is something to retransmit. */
  lemma {:induction false} WindowEvent(s: Snd, ev: OEvent, e: Env)
    requires ev.WndClose? || (ev.WndOpen? && (s.ostate.Retrans? ==> s.una <= s.nxt))
    ensures !Turned(Output(s, ev, e).s)
  {
    hide SndHead, SendFrom;
    SndHeadKeeps(s, e);
  }

  /** The acknowledgment passes `snd_nxt`, and sending does not catch up with it. */
  predicate Passes(s: Snd, ackno: int, e: Env) {
    && s.una < ackno <= s.max && s.nxt < ackno < s.write
    && (s.ostate.Xmit? || (s.ostate.Retrans? && Stuck(SlowStart(DropData(s.(una := ackno))), e)))
  }

  lemma {:induction false} AckEvent(s: Snd, ackno: int, e: Env, str: seq<Byte>, closed: bool)
    requires SndOk(s, str, closed) && s.una < ackno <= s.max && !Turned(s)
    ensures Turned(Output(s.(una := ackno), AckRcvd, e).s) <==> Passes(s, ackno, e)
  {
    hide SndHead, DropData, Stuck, QueueOk, Shape;
    DropDataKeeps(s.(una := ackno), str, closed);
    var d := DropData(s.(una := ackno));
    var d1 := SlowStart(d);
    ShapeOf(d, d1, str, closed);
    DropKeepsRest(s.(una := ackno));
    if s.ostate.Retrans? && d.nxt < d.una < d.write { CatchesUpUnlessStuck(d1, e); }
    SndHeadForward(d1, e);
  }

  /** Once the window is turned every timeout is silent: it only counts, until the connection is given up. */
  lemma {:induction false} TurnedOnlyCounts(s: Snd, e: Env)
    requires Turned(s) && |s.q| > 0
    ensures var r := TimerFires(s, e);
      && r.out == [] && r.s.nretrans == s.nretrans + 1 && (r.dead <==> s.nretrans >= MAX_RETRY)
      && (!r.dead ==> Turned(r.s) && r.s.q == s.q && r.s.timer)
  {
    hide Appended, Padded, Outside;
  }

  // ---------------------------------------------------------------- one incoming segment

  lemma {:induction false} Applied(ep: Endpoint, r: SndRes)
    ensures if r.dead then Apply(ep, r).ep.snd.ostate.Idle? else Apply(ep, r).ep.snd == r.s
  {
    hide Record, Window, Stamp;
  }

  lemma {:induction false} AckNumberTurns(ep: Endpoint, p: Packet, oldWnd: int, ie: InEnv, str: seq<Byte>, closed: bool)
    requires SndOk(ep.snd, str, closed) && TimerOk(ep.snd) && !Turned(ep.snd)
    ensures Turned(AckNumber(ep, p, oldWnd, ie).ep.snd) <==> Passes(ep.snd, p.ackno, ie.e1)
  {
    hide Output, Apply, SndOk, Stuck;
    var s := ep.snd;
    if s.una < p.ackno <= s.max {
      AckEvent(s, p.ackno, ie.e1, str, closed);
      AckLives(s, p.ackno, ie.e1);
      Applied(ep, Output(s.(una := p.ackno), AckRcvd, ie.e1));
    } else if p.ackno == s.una {
      ShapeOf(s, s.(dupacks := s.dupacks + 1), str, closed);
      OtherEvents(s.(dupacks := s.dupacks + 1), DupAck, ie.e1);
      Applied(ep, Output(s.(dupacks := s.dupacks + 1), DupAck, ie.e1));
    }
  }

  lemma {:induction false} ShapeOf(s: Snd, t: Snd, str: seq<Byte>, closed: bool)
    requires SndOk(s, str, closed) && t.q == s.q && t.write == s.write
    ensures Shape(t)
  {
  }

  /** Only a timer gives a connection up. */
  lemma {:induction false} AckLives(s: Snd, ackno: int, e: Env)
    ensures !Output(s.(una := ackno), AckRcvd, e).dead
  {
    hide SndHead, DropData;
    SndHeadKeeps(SlowStart(DropData(s.(una := ackno))), e);
  }

  /** An acknowledgment whose window counts never leaves the window turned. */
  lemma {:induction false} NewerNeverTurns(ep: Endpoint, p: Packet, ie: InEnv)
    requires !Turned(ep.snd) && p.ack && SndWnd(ep.snd, p).Update?
    ensures !Turned(TakeAck(ep, p, true, ie).ep.snd)
  {
    hide Output, Apply, AckNumber;
    var u := SndWnd(ep.snd, p);
    var r := AckNumber(ep.(snd := u.s), p, ep.snd.wnd, ie);
    if u.ev.WndOpen? { NotTurnedInRetrans(ep.(snd := u.s), p, ep.snd.wnd, ie); }
    WindowEvent(r.ep.snd, u.ev, ie.e2);
    Applied(r.ep, Output(r.ep.snd, u.ev, ie.e2));
  }

  /** An acknowledgment turns the window exactly if it passes `snd_nxt` while its window does not count. */
  lemma {:induction false} TakeAckTurns(ep: Endpoint, p: Packet, update: bool, ie: InEnv, str: seq<Byte>, closed: bool)
    requires SndOk(ep.snd, str, closed) && TimerOk(ep.snd) && !Turned(ep.snd)
    ensures Turned(TakeAck(ep, p, update, ie).ep.snd) <==>
      p.ack && (update ==> SndWnd(ep.snd, p).Stale?) && Passes(ep.snd, p.ackno, ie.e1)
  {
    hide AckNumber, Apply, Output, SndOk, Passes;
    if p.ack && update && SndWnd(ep.snd, p).Update? {
      NewerNeverTurns(ep, p, ie);
    } else if p.ack {
      AckNumberTurns(ep, p, ep.snd.wnd, ie, str, closed);
    }
  }

  /** In the retransmission state an acknowledgment past `snd_nxt` leaves that state. */
  lemma {:induction false} NotTurnedInRetrans(ep: Endpoint, p: Packet, oldWnd: int, ie: InEnv)
    requires !Turned(ep.snd)
    ensures var s := AckNumber(ep, p, oldWnd, ie).ep.snd; s.ostate.Retrans? ==> s.una <= s.nxt
  {
    hide Apply, SndHead, DropData, Resend;
    var s := ep.snd;
    var a, d := Output(s.(una := p.ackno), AckRcvd, ie.e1), Output(s.(dupacks := s.dupacks + 1), DupAck, ie.e1);
    DropKeepsRest(s.(una := p.ackno));
    SndHeadKeeps(SlowStart(DropData(s.(una := p.ackno))), ie.e1);
    ResendingKeepsEdges(s.(dupacks := s.dupacks + 1), ie.e1);
    Applied(ep, a);
    Applied(ep, d);
  }
}
