/** The output machine, event by event: what is sent, what is waited for, and when the connection is given up. */
module OutputMeaning {
  import opened TcpTypes
  import opened Stream
  import opened TcpSend
  import opened SendFacts
  import opened Sending

  // ---------------------------------------------------------------- sending

  /** The state and the event ask for everything to be sent that the windows allow. */
  predicate Pushes(s: Snd, ev: OEvent) {
    match s.ostate
    case Idle => ev.Send? && s.nxt < s.write
    case Xmit => ev.Send? || ev.WndOpen?
    case Persist => ev.WndOpen?
    case Retrans => ev.AckRcvd? && s.nxt <= s.una < s.write
  }

  /** The state in which the sending starts: after a rest or a retransmission with a small congestion window. */
  function Ready(s: Snd, ev: OEvent, e: Env): Snd {
    if s.ostate.Idle? && e.rested then SlowStart(s)
    else if s.ostate.Retrans? then SlowStart(DropData(s))
    else s
  }

  /** Then everything goes out, in order and without a gap, up to the limit of the windows. */
  lemma {:induction false} PushSendsAll(s: Snd, ev: OEvent, e: Env, str: seq<Byte>, closed: bool)
    requires Before(s, ev, str, closed) && Pushes(s, ev) && s.una <= s.nxt && |s.q| <= e.budget
    ensures var s1, r := Ready(s, ev, e), Output(s, ev, e); Greedy(s1, Reach(s1, e), r.out, r.s.nxt)
  {
    hide QueueOk, Greedy, SndHead, FirstPast, Reach;
    var s1 := Ready(s, ev, e);
    if s.ostate.Retrans? {
      DropDataKeeps(s, str, closed);
      DropKeepsRest(s);
      DropShortens(s);
    }
    HeadIsGreedy(s1, e, str, closed);
  }

  lemma DropShortens(s: Snd)
    ensures |DropData(s).q| <= |s.q|
  {
  }

  /** Every other event but a timeout or a duplicate acknowledgment sends nothing. */
  lemma {:induction false} NoPushNoPacket(s: Snd, ev: OEvent, e: Env)
    requires !Pushes(s, ev) && !ev.Timeout? && !ev.DupAck? && (s.ostate.Idle? || |s.q| > 0)
    ensures var r := Output(s, ev, e); r.out == [] && r.s.nxt == s.nxt && r.s.max == s.max && !r.wrote
  {
    hide FirstPast, SumData, Opened, SndHead;
  }

  /** A timeout while waiting for a window: what an open window allows; if nothing is then outstanding, a probe. */
  lemma {:induction false} PersistTimeoutSends(s: Snd, e: Env, str: seq<Byte>, closed: bool)
    requires Before(s, Timeout, str, closed) && s.ostate.Persist? && s.una <= s.nxt && |s.q| < e.budget
    ensures var r := Output(s, Timeout, e);
      var s1 := s.(wndmax := s.wnd);
      if s.wnd > 0 && CanRetrans(r.s) then Greedy(s1, Reach(s1, e), r.out, r.s.nxt)
      else if e.silent then r.dead
      else |r.out| > 0 && IsProbe(r.out[|r.out| - 1], s.una) && (s.wnd == 0 ==> |r.out| == 1)
  {
    hide QueueOk, Greedy, SndHead, Reach;
    if s.wnd > 0 { HeadIsGreedy(s.(wndmax := s.wnd), e, str, closed); }
  }

  /** One queued segment that is a flag and nothing else. */
  predicate OnlyFlag(s: Snd) {
    && s.una == s.nxt && s.write == s.nxt + 1 && s.wndack == s.nxt && s.wnd > 0 && s.ostate.Idle? && 0 < s.mss <= s.cwnd
    && |s.q| == 1 && s.q[0].start == s.nxt && s.q[0].data == [] && s.q[0].Len() == 1
  }

  /** A SYN or FIN that is queued at rest goes out at once. */
  lemma {:induction false} FlagGoesOut(s: Snd, e: Env)
    requires OnlyFlag(s) && e.budget > 0
    ensures var r, b := Output(s, Send, e), s.q[0];
      && r.out == [Packet(b.start, [], b.syn, b.fin, false, b.ack, 0, 0)] && !r.dead
      && r.s.write == s.write && r.s.una == s.una && r.s.nxt == s.write && r.s.wnd == s.wnd && r.s.wndack == s.wndack && r.s.q == s.q
  {
    var s1 := if e.rested then SlowStart(s) else s;
    var limit := Reach(s1, e);
    assert FirstPast(s1.q, s1.nxt) == 0;
    var (r, ok) := SendOne(s1, 0, limit, Sent);
    assert ok && r.out == [Packet(s.q[0].start, [], s.q[0].syn, s.q[0].fin, false, s.q[0].ack, 0, 0)];
    assert SendFrom(r.s, 1, limit, e.budget - 1, e.failure) == Quiet(r.s);
  }

  /** Nagle's rule: a last segment that is not full waits while anything is under way or queued before it. */
  lemma {:induction false} NagleHoldsLast(s: Snd, e: Env, str: seq<Byte>, closed: bool)
    requires SndOk(s, str, closed) && |s.q| > 0 && s.una <= s.nxt && |s.q| <= e.budget
    ensures var last := s.q[|s.q| - 1].start;
      if e.nagle && (s.una < s.nxt || |s.q| > 1) then SndHead(s, e).s.nxt <= Max(s.nxt, Min(last, s.wndack + Min(s.wnd, s.cwnd)))
      else Reach(s, e) == s.wndack + Min(s.wnd, s.cwnd)
  {
    hide QueueOk, Counted, SndHead, RunsFrom, StopsAt;
    HeadIsGreedy(s, e, str, closed);
  }

  // ---------------------------------------------------------------- the states

  /** Something can be retransmitted exactly if the window is open and something sent is not acknowledged. */
  lemma {:induction false} CanRetransMeans(s: Snd, str: seq<Byte>, closed: bool)
    requires SndOk(s, str, closed)
    ensures CanRetrans(s) <==> s.wnd > 0 && s.una < s.nxt
  {
  }

  /**
   * The state after an event: idle once all is acknowledged, waiting for a window while nothing can be retransmitted,
   * retransmitting from a timeout on until all that was sent is acknowledged.
   */
  function NextOState(s: Snd, ev: OEvent, outstanding: bool): OState {
    match ev
    case Send => if s.ostate.Idle? && s.nxt < s.write then (if outstanding then Xmit else Persist) else s.ostate
    case AckRcvd =>
      if s.ostate.Idle? || s.write <= s.una then Idle
      else if s.ostate.Retrans? && s.nxt <= s.una then Xmit
      else s.ostate
    case WndOpen =>
      if s.ostate.Xmit? || s.ostate.Persist? then (if outstanding then Xmit else Persist) else s.ostate
    case WndClose => if (s.ostate.Xmit? || s.ostate.Retrans?) && !outstanding then Persist else s.ostate
    case Timeout =>
      if s.ostate.Persist? then (if outstanding then Xmit else Persist) else if s.ostate.Idle? then Idle else Retrans
    case DupAck => s.ostate
  }

  /** Sending and resending leave the output state alone. */
  lemma {:induction false} SendingKeepsState(s: Snd, e: Env, k: nat, n: nat, o: Outcome, str: seq<Byte>, closed: bool)
    requires QueueOk(s.q, s.isn, s.write, str, closed) && Pointers(s)
    ensures SndHead(s, e).s.ostate == s.ostate && !SndHead(s, e).dead
    ensures k < |s.q| ==> var r := SndSeg(s, k, n, s.una, s.nxt, o).0; r.s.ostate == s.ostate && !r.dead && CanRetrans(r.s) == CanRetrans(s)
  {
    hide QueueOk, SndHead, SndSeg;
    SndHeadMoves(s, e, str, closed);
    if k < |s.q| { SndSegEmits(s, k, n, s.una, s.nxt, o, str, closed); }
  }

  lemma {:induction false} MachineMoves(s: Snd, ev: OEvent, e: Env, str: seq<Byte>, closed: bool)
    requires Before(s, ev, str, closed)
    ensures var r := Output(s, ev, e); !r.dead ==> r.s.ostate == NextOState(s, ev, CanRetrans(r.s))
  {
    hide Output, QueueOk;
    match ev
    case AckRcvd => AckMoves(s, e, str, closed);
    case Timeout => TimeoutMoves(s, e, str, closed);
    case DupAck => DupAckMoves(s, e, str, closed);
    case Send => WindowMoves(s, ev, e, str, closed);
    case WndOpen => WindowMoves(s, ev, e, str, closed);
    case WndClose => WindowMoves(s, ev, e, str, closed);
  }

  lemma {:induction false} WindowMoves(s: Snd, ev: OEvent, e: Env, str: seq<Byte>, closed: bool)
    requires Before(s, ev, str, closed) && (ev.Send? || ev.WndOpen? || ev.WndClose?)
    ensures var r := Output(s, ev, e); r.s.ostate == NextOState(s, ev, CanRetrans(r.s)) && !r.dead
  {
    hide QueueOk, Counted, SndHead;
    SendingKeepsState(s, e, 0, 0, Sent, str, closed);
    SendingKeepsState(SlowStart(s), e, 0, 0, Sent, str, closed);
  }

  lemma {:induction false} AckMoves(s: Snd, e: Env, str: seq<Byte>, closed: bool)
    requires Before(s, AckRcvd, str, closed)
    ensures var r := Output(s, AckRcvd, e); r.s.ostate == NextOState(s, AckRcvd, CanRetrans(r.s)) && !r.dead
  {
    hide QueueOk, SndHead, DropData;
    DropKeepsRest(s);
    DropDataKeeps(s, str, closed);
    SendingKeepsState(SlowStart(DropData(s)), e, 0, 0, Sent, str, closed);
  }

  lemma {:induction false} DupAckMoves(s: Snd, e: Env, str: seq<Byte>, closed: bool)
    requires Before(s, DupAck, str, closed)
    ensures var r := Output(s, DupAck, e); r.s.ostate == s.ostate && !r.dead
  {
    hide QueueOk, SndSeg;
    var k := if s.dupacks < DUP_THRESHOLD then 0 else s.dupacks - DUP_THRESHOLD;
    SendingKeepsState(s, e, k, if k == 0 then s.nretrans else 0, if e.budget > 0 then Sent else e.failure, str, closed);
  }

  lemma {:induction false} TimeoutMoves(s: Snd, e: Env, str: seq<Byte>, closed: bool)
    requires Before(s, Timeout, str, closed)
    ensures var r := Output(s, Timeout, e); !r.dead ==> r.s.ostate == NextOState(s, Timeout, CanRetrans(r.s))
    ensures Output(s, Timeout, e).dead <==> if s.ostate.Persist? then ProbeGivesUp(s, e) else s.nretrans >= MAX_RETRY
  {
    hide QueueOk, Counted, SndHead, SndSeg;
    if s.ostate.Persist? {
      SendingKeepsState(s.(wndmax := s.wnd), e, 0, 0, Sent, str, closed);
    } else {
      var d := if s.ostate.Xmit? && s.dupacks >= DUP_THRESHOLD then DUP_THRESHOLD - 1 else s.dupacks;
      var s1 := Backed(s.(ostate := Retrans, dupacks := d, nretrans := s.nretrans + 1));
      SendingKeepsState(s1, e, 0, s1.nretrans, if e.budget > 0 then Sent else e.failure, str, closed);
    }
  }

  /** The peer has been silent for too long, and no window has opened that lets anything out. */
  predicate ProbeGivesUp(s: Snd, e: Env) {
    e.silent && !(s.wnd > 0 && CanRetrans(SndHead(s.(wndmax := s.wnd), e).s))
  }

  /** The connection is given up exactly at the sixteenth retransmission, or when a probe finds the peer silent too long. */
  lemma {:induction false} GivesUpIff(s: Snd, ev: OEvent, e: Env, str: seq<Byte>, closed: bool)
    requires Before(s, ev, str, closed)
    ensures Output(s, ev, e).dead <==>
      (ev.Timeout? && if s.ostate.Persist? then ProbeGivesUp(s, e) else s.nretrans >= MAX_RETRY)
  {
    hide Output, QueueOk, ProbeGivesUp;
    OutputFine(s, ev, e, str, closed);
    if ev.Timeout? { TimeoutMoves(s, e, str, closed); }
  }

  /** The acknowledgment of everything makes the machine idle and sends nothing. */
  lemma {:induction false} AllAckedIsQuiet(s: Snd, e: Env)
    requires !s.ostate.Idle? && s.write <= s.una
    ensures Output(s, AckRcvd, e) == Quiet(DropData(s).(timer := false, ostate := Idle))
  {
    DropKeepsRest(s);
    hide DropData;
  }

  // ---------------------------------------------------------------- duplicate acknowledgments

  /** The segment that the count of duplicate acknowledgments points at has been sent to its end. */
  predicate PointsAt(s: Snd, k: nat) {
    DUP_THRESHOLD <= s.dupacks && k == s.dupacks - DUP_THRESHOLD < |s.q| && s.q[k].End() <= s.nxt
  }

  /** From the third duplicate on, each sends one more of the segments under way, whole or from `snd_una` on. */
  lemma {:induction false} DuplicateResends(s: Snd, k: nat, e: Env, str: seq<Byte>, closed: bool)
    requires SndOk(s, str, closed) && s.ostate.Retrans? && s.wnd > 0 && s.una < s.nxt && PointsAt(s, k) && e.budget > 0
    ensures var r := Output(s, DupAck, e);
      && |r.out| == 1 && r.out[0].seqno == Max(s.una, s.q[k].start) && s.q[k].End() <= r.out[0].seqno + r.out[0].Len()
      && r.s == s.(max := r.s.max)
  {
    hide QueueOk, Padded;
    CanRetransMeans(s, str, closed);
    SegmentBeyond(s, k, str, closed);
    var n := if k == 0 then s.nretrans else 0;
    PaddedIsGenuine(s, k, n, s.una, s.nxt, str, closed);
    PaddedFrom(s, k, n, s.una, s.nxt);
  }

  lemma {:induction false} PaddedFrom(s: Snd, k: nat, n: nat, w1: int, w2: int)
    requires k < |s.q| && !Outside(s.q[k], w1, w2) && w1 <= w2
    ensures Padded(s, k, n, w1, w2).seqno == Max(w1, s.q[k].start)
  {
  }

  /** Every queued segment ends beyond the oldest unacknowledged number. */
  lemma {:induction false} SegmentBeyond(s: Snd, k: nat, str: seq<Byte>, closed: bool)
    requires SndOk(s, str, closed) && k < |s.q|
    ensures s.una < s.q[k].End() && s.q[k].start < s.q[k].End()
  {
    hide InStream;
    assert SegOk(s.q[k], s.isn, str, closed);
    if k > 0 {
      SegmentBeyond(s, k - 1, str, closed);
      ChainOrder(s.q, s.write, k - 1);
    }
  }

  /** In every other case a duplicate acknowledgment sends nothing and changes nothing. */
  lemma {:induction false} OtherDuplicatesSilent(s: Snd, e: Env)
    requires !s.ostate.Retrans? || !CanRetrans(s) || forall k: nat :: !PointsAt(s, k)
    ensures Output(s, DupAck, e) == Quiet(s)
  {
    if s.dupacks >= DUP_THRESHOLD { assert !s.ostate.Retrans? || !CanRetrans(s) || !PointsAt(s, s.dupacks - DUP_THRESHOLD); }
  }

  // ---------------------------------------------------------------- timeouts

  /** A timeout while something is under way sends the first segment again, up to what was sent of it, and backs off. */
  lemma {:induction false} TimeoutResends(s: Snd, e: Env, str: seq<Byte>, closed: bool)
    requires Before(s, Timeout, str, closed) && (s.ostate.Xmit? || s.ostate.Retrans?) && s.nretrans < MAX_RETRY
    ensures var r := Output(s, Timeout, e).s;
      && r.nretrans == s.nretrans + 1 && r.timer && r.cwnd == s.mss
      && r.thresh == Max(2 * s.mss, Min(Max(s.thresh, s.cwnd), s.wnd) / 2)
      && r.dupacks == if s.ostate.Xmit? then Min(s.dupacks, DUP_THRESHOLD - 1) else s.dupacks
    ensures s.una < s.nxt && e.budget > 0 ==>
      var out := Output(s, Timeout, e).out;
      && |out| == 1 && out[0].seqno == s.una
      && out[0].seqno + out[0].Len() == Min(s.nxt, s.q[0].End()) + Appended(Backed(s), 0, s.nretrans + 1, s.una, s.nxt)
  {
    hide QueueOk, Padded, Appended;
    var d := if s.ostate.Xmit? && s.dupacks >= DUP_THRESHOLD then DUP_THRESHOLD - 1 else s.dupacks;
    var n := s.nretrans + 1;
    var s1 := Backed(s.(ostate := Retrans, dupacks := d, nretrans := n));
    if s.una < s.nxt {
      PaddedIsGenuine(s1, 0, n, s.una, s.nxt, str, closed);
      PaddedFrom(s1, 0, n, s.una, s.nxt);
      AppendedSame(s1, Backed(s), 0, n, s.una, s.nxt);
    }
  }

  lemma AppendedSame(s: Snd, s': Snd, k: nat, n: nat, w1: int, w2: int)
    requires k < |s.q| && !Outside(s.q[k], w1, w2) && w1 <= w2
    requires s' == s.(ostate := s'.ostate, dupacks := s'.dupacks, nretrans := s'.nretrans)
    ensures Appended(s, k, n, w1, w2) == Appended(s', k, n, w1, w2)
  {
  }

  /** The next segment lends `n` bytes: it is there, it has them, they fit the window, and no SYN or FIN lies between. */
  predicate Lends(s: Snd, k: nat, n: nat, w1: int, w2: int)
    requires k < |s.q|
  {
    && s.q[k].End() <= w2 && k + 1 < |s.q| && n <= |s.q[k + 1].data| && s.q[k + 1].start + n <= s.wndack + s.wnd
    && s.q[k + 1].syn == (s.q[k].syn && w1 <= s.q[k].start) && s.q[k + 1].fin == s.q[k].fin
  }

  /** Each retransmission of a segment ends one number further, so that the acknowledgment tells which one arrived. */
  lemma {:induction false} RetransmissionsTellApart(s: Snd, k: nat, n: nat, w1: int, w2: int)
    requires k < |s.q| && !Outside(s.q[k], w1, w2) && w1 <= w2
    ensures Lends(s, k, n, w1, w2) ==> Appended(s, k, n, w1, w2) == n
    ensures s.q[k].End() > w2 || k + 1 == |s.q| ==> Appended(s, k, n, w1, w2) == 0
    ensures Appended(s, k, n, w1, w2) <= n
  {
  }

  // ---------------------------------------------------------------- the peer's window

  /** A segment's window counts exactly if the segment is not older than the one that was last looked at. */
  lemma {:induction false} WindowIsTakenIff(s: Snd, p: Packet)
    ensures SndWnd(s, p).Update? <==>
      p.ack && (p.seqno > s.wndseq || (p.seqno == s.wndseq && p.ackno >= s.wndack))
    ensures SndWnd(s, p).Update? ==>
      var u := SndWnd(s, p);
      var edge, edge' := s.wndack + s.wnd, u.s.wndack + u.s.wnd;
      && edge' == p.ackno + p.window && u.s.wnd == p.window && u.s.wndack == p.ackno && u.s.wndseq == p.seqno
      && u.s.wndmax == Max(s.wndmax, p.window)
      && (edge' >= edge ==> u.s.nxt == s.nxt) && (edge' < edge ==> u.s.nxt == Min(s.nxt, edge'))
      && (u.ev.WndOpen? <==> edge' >= edge && p.window > 0) && (u.ev.WndOpen? || u.ev.WndClose?)
  {
  }

  // ---------------------------------------------------------------- the congestion window

  /** Below the threshold a window of acknowledged segments doubles it, above it adds one segment at most. */
  lemma {:induction false} WindowGrowth(s: Snd, n: nat)
    requires 0 < s.mss <= s.cwnd
    ensures s.cwnd < s.thresh ==> Opened(s, n) == s.cwnd + n * s.mss
    ensures s.thresh <= s.cwnd && n * s.mss <= s.cwnd ==> Opened(s, n) <= s.cwnd + s.mss
    ensures s.thresh <= s.cwnd && n * s.mss >= s.cwnd ==> Opened(s, n) > s.cwnd + s.mss - n
  {
    if s.thresh <= s.cwnd {
      var g := Share(s.mss, s.cwnd);
      ShareBounds(s.mss, s.cwnd);
      ShareOfWindow(g, s.mss, s.cwnd, n);
    }
  }

  lemma {:induction false} ShareBounds(mss: nat, cwnd: nat)
    requires cwnd > 0
    ensures Share(mss, cwnd) * cwnd <= mss * mss < (Share(mss, cwnd) + 1) * cwnd
  {
  }

  lemma {:induction false} ScaleUp(a: int, b: int, c: nat)
    requires a <= b
    ensures a * c <= b * c
  {
    assert b * c - a * c == (b - a) * c;
  }

  lemma {:induction false} ScaleStrictly(a: int, b: int, c: nat)
    requires c > 0 && a < b
    ensures a * c < b * c
  {
    ScaleUp(a + 1, b, c);
    assert (a + 1) * c == a * c + c;
  }

  lemma {:induction false} Regroup(n: int, a: int, b: int)
    ensures n * (a * b) == (n * a) * b && (a * b) * n == (n * a) * b
  {
  }

  lemma {:induction false} ShareOfWindow(g: nat, mss: nat, cwnd: nat, n: nat)
    requires 0 < mss <= cwnd && g * cwnd <= mss * mss < (g + 1) * cwnd
    ensures n * mss <= cwnd ==> n * g <= mss
    ensures n * mss >= cwnd ==> n * g > mss - n
  {
    if n * mss <= cwnd { ShareAtMost(g, mss, cwnd, n); }
    if n * mss >= cwnd { ShareAtLeast(g, mss, cwnd, n); }
  }

  lemma {:induction false} ShareAtMost(g: nat, mss: nat, cwnd: nat, n: nat)
    requires 0 < cwnd && g * cwnd <= mss * mss && n * mss <= cwnd
    ensures n * g <= mss
  {
    ScaleUp(g * cwnd, mss * mss, n);
    ScaleUp(n * mss, cwnd, mss);
    Regroup(n, mss, mss);
    Regroup(n, g, cwnd);
    if mss < n * g { ScaleStrictly(mss, n * g, cwnd); }
  }

  lemma {:induction false} ShareAtLeast(g: nat, mss: nat, cwnd: nat, n: nat)
    requires 0 < mss && 0 < cwnd && mss * mss < (g + 1) * cwnd && n * mss >= cwnd
    ensures n * g > mss - n
  {
    ScaleUp(mss * mss + 1, (g + 1) * cwnd, n);
    ScaleUp(cwnd, n * mss, mss);
    Regroup(n, mss, mss);
    Regroup(n, g + 1, cwnd);
    assert (mss * mss + 1) * n == mss * mss * n + n;
    if n * (g + 1) <= mss { ScaleUp(n * (g + 1), mss, cwnd); }
  }
}
