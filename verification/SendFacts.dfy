/** What the send side guarantees: the queue, the clipped segments, the timers. */
module SendFacts {
  import opened TcpTypes
  import opened TcpSend
  import opened Stream

  // ---------------------------------------------------------------- clipping

  /** One sequence number's worth of a segment. */
  datatype Elem = Syn | Data(b: Byte) | Fin | Nothing

  function ElemAt(start: int, syn: bool, data: seq<Byte>, fin: bool, x: int): Elem {
    var d := start + Bit(syn);
    if syn && x == start then Syn
    else if d <= x < d + |data| then Data(data[x - d])
    else if fin && x == d + |data| then Fin
    else Nothing
  }

  function SegElem(b: OutSeg, x: int): Elem { ElemAt(b.start, b.syn, b.data, b.fin, x) }

  function PacketElem(p: Packet, x: int): Elem { ElemAt(p.seqno, p.syn, p.data, p.fin, x) }

  /** The four-way clipping keeps exactly the elements inside the window. */
  lemma {:induction false} ClipIsIntersection(b: OutSeg, w1: int, w2: int, x: int)
    requires !Outside(b, w1, w2) && w1 <= w2
    ensures PacketElem(Clip(b, w1, w2), x) == if w1 <= x < w2 then SegElem(b, x) else Nothing
  {
  }

  /** For a segment that meets the window the copy length is negative exactly when the window is reversed. */
  lemma {:induction false} CopyCountIsNegativeWhenReversed(b: OutSeg, w1: int, w2: int)
    requires !Outside(b, w1, w2)
    ensures CopyCount(b, w1, w2) < 0 <==> w2 < w1
    ensures w1 <= w2 ==> CopyCount(b, w1, w2) == |Clip(b, w1, w2).data|
  {
  }

  // ---------------------------------------------------------------- the invariant

  /** A queued segment agrees with what the user wrote. */
  ghost predicate SegOk(b: OutSeg, isn: int, str: seq<Byte>, closed: bool) {
    && b.Len() > 0
    && isn <= b.start && (b.syn <==> b.start == isn) && (b.syn || b.ack)
    && InStream(b.DataStart(), b.data, isn + 1, str)
    && (b.fin ==> closed && b.DataEnd() == isn + 1 + |str|)
  }

  /** The queue is a contiguous run of segments that ends at `write`. */
  ghost predicate Chain(q: seq<OutSeg>, write: int) {
    && (forall i, j :: 0 <= i && j == i + 1 && j < |q| ==> q[i].End() == q[j].start)
    && (|q| > 0 ==> q[|q| - 1].End() == write)
  }

  ghost predicate QueueOk(q: seq<OutSeg>, isn: int, write: int, str: seq<Byte>, closed: bool) {
    && Chain(q, write)
    && (forall i :: 0 <= i < |q| ==> SegOk(q[i], isn, str, closed))
  }

  /** Order of the send pointers; `snd_nxt` may lie below `snd_una`. */
  predicate Pointers(s: Snd) {
    s.isn <= s.una <= s.max <= s.write && s.nxt <= s.max
  }

  /** Nothing queued yet, or SYN, stream and possibly FIN queued. */
  ghost predicate WriteAt(s: Snd, str: seq<Byte>, closed: bool) {
    || (s.write == s.isn && str == [] && !closed)
    || s.write == s.isn + 1 + |str| + Bit(closed)
  }

  /** The queue starts at the segment that holds the oldest unacknowledged number. */
  predicate HeadAtUna(s: Snd) {
    if |s.q| == 0 then s.una == s.write else s.q[0].start <= s.una < s.q[0].End()
  }

  ghost predicate Counted(s: Snd) { s.cur == SumData(s.q) <= s.maxcur }

  /** Everything about the data; the output state and timer are separate. */
  ghost predicate SndOk(s: Snd, str: seq<Byte>, closed: bool) {
    && MAX_RETRY < s.mss <= s.cwnd
    && QueueOk(s.q, s.isn, s.write, str, closed)
    && Pointers(s) && WriteAt(s, str, closed) && HeadAtUna(s) && Counted(s)
  }

  /** No lost timer: the machine is idle and the timer off exactly when nothing is queued. */
  predicate TimerOk(s: Snd) {
    && (s.ostate.Idle? <==> |s.q| == 0)
    && (s.timer <==> |s.q| > 0)
  }

  /** A probe: one byte before the oldest unacknowledged number, with no claim on its content. */
  predicate IsProbe(p: Packet, una: int) {
    p.seqno == una - 2 && |p.data| == 1 && !p.syn && !p.fin && !p.rst && p.ack
  }

  /** What may leave the send side: stream content up to `top`, or a probe. */
  ghost predicate Emitted(p: Packet, isn: int, str: seq<Byte>, closed: bool, una: int, top: int) {
    || IsProbe(p, una)
    || (!p.rst && Genuine(p, isn + 1, str, closed) && (p.Len() > 0 ==> p.seqno + p.Len() <= top))
  }

  ghost predicate AllEmitted(out: seq<Packet>, isn: int, str: seq<Byte>, closed: bool, una: int, top: int) {
    forall i :: 0 <= i < |out| ==> Emitted(out[i], isn, str, closed, una, top)
  }

  lemma {:induction false} ChainOrder(q: seq<OutSeg>, write: int, i: nat)
    requires Chain(q, write) && i < |q|
    ensures q[0].start <= q[i].start && q[i].End() <= write
    ensures i + 1 < |q| ==> q[i + 1].start == q[i].End()
  {
    ChainFromHead(q, write, i);
    ChainToTail(q, write, i);
  }

  lemma {:induction false} ChainFromHead(q: seq<OutSeg>, write: int, i: nat)
    requires Chain(q, write) && i < |q|
    ensures q[0].start <= q[i].start
  {
    if i > 0 { ChainFromHead(q, write, i - 1); }
  }

  lemma {:induction false} ChainToTail(q: seq<OutSeg>, write: int, i: nat)
    requires Chain(q, write) && i < |q|
    ensures q[i].End() <= write
    decreases |q| - i
  {
    if i + 1 < |q| { ChainToTail(q, write, i + 1); }
  }

  // ---------------------------------------------------------------- one segment

  lemma {:induction false} ClipIsGenuine(b: OutSeg, w1: int, w2: int, isn: int, str: seq<Byte>, closed: bool)
    requires SegOk(b, isn, str, closed) && !Outside(b, w1, w2) && w1 <= w2
    ensures var p := Clip(b, w1, w2);
      Genuine(p, isn + 1, str, closed) && !p.rst && p.seqno + p.Len() == Min(w2, b.End())
  {
    var p := Clip(b, w1, w2);
    InStreamPart(b.DataStart(), b.data, isn + 1, str, Under(b, w1), |b.data| - Over(b, w2));
    assert p.seqno + Bit(p.syn) == b.DataStart() + Under(b, w1);
    assert p.seqno + Bit(p.syn) + |p.data| == if w2 < b.End() then w2 else b.DataEnd();
  }

  /** A segment handed down holds stream content only, inside the window or appended from the next segment. */
  lemma {:induction false} PaddedIsGenuine(s: Snd, k: nat, nretrans: nat, w1: int, w2: int, str: seq<Byte>, closed: bool)
    requires QueueOk(s.q, s.isn, s.write, str, closed) && k < |s.q| && !Outside(s.q[k], w1, w2) && w1 <= w2
    ensures var p := Padded(s, k, nretrans, w1, w2);
      var n := Appended(s, k, nretrans, w1, w2);
      && Genuine(p, s.isn + 1, str, closed) && !p.rst
      && p.seqno + p.Len() == Min(w2, s.q[k].End()) + n
      && (n > 0 ==> k + 1 < |s.q| && p.seqno + p.Len() == s.q[k + 1].start + n <= s.write)
  {
    hide InStream;
    assert SegOk(s.q[k], s.isn, str, closed);
    ClipIsGenuine(s.q[k], w1, w2, s.isn, str, closed);
    var n := Appended(s, k, nretrans, w1, w2);
    if n > 0 {
      assert SegOk(s.q[k + 1], s.isn, str, closed);
      ChainOrder(s.q, s.write, k);
      ChainOrder(s.q, s.write, k + 1);
      PaddingIsGenuine(s.q[k], s.q[k + 1], w1, w2, n, s.isn, str, closed);
    }
  }

  lemma {:induction false} PaddingIsGenuine(b: OutSeg, c: OutSeg, w1: int, w2: int, n: nat, isn: int, str: seq<Byte>, closed: bool)
    requires SegOk(b, isn, str, closed) && SegOk(c, isn, str, closed) && b.End() == c.start && 0 < n <= |c.data|
    requires !Outside(b, w1, w2) && b.End() <= w2 && Clip(b, w1, w2).syn == c.syn && Clip(b, w1, w2).fin == c.fin
    ensures var p := Clip(b, w1, w2);
      var r := p.(data := p.data + c.data[..n]);
      Genuine(r, isn + 1, str, closed) && !r.rst && r.seqno + r.Len() == c.start + n
  {
    hide InStream;
    ClipIsGenuine(b, w1, w2, isn, str, closed);
    AppendIsGenuine(Clip(b, w1, w2), b, c, n, isn, str, closed);
  }

  lemma {:induction false} AppendIsGenuine(p: Packet, b: OutSeg, c: OutSeg, n: nat, isn: int, str: seq<Byte>, closed: bool)
    requires SegOk(b, isn, str, closed) && SegOk(c, isn, str, closed) && b.End() == c.start && 0 < n <= |c.data|
    requires Genuine(p, isn + 1, str, closed) && p.seqno < p.seqno + p.Len() == b.End()
    requires p.syn == c.syn && p.fin == c.fin && (p.fin ==> b.fin)
    ensures Genuine(p.(data := p.data + c.data[..n]), isn + 1, str, closed)
  {
    hide InStream;
    InStreamPart(c.DataStart(), c.data, isn + 1, str, 0, n);
    assert c.data[..n] == c.data[0..n];
    assert !c.syn && !p.fin;
    InStreamJoin(p.seqno, p.data, c.data[..n], isn + 1, str);
  }

  lemma {:induction false} SndSegEmits(s: Snd, k: nat, nretrans: nat, w1: int, w2: int, o: Outcome, str: seq<Byte>, closed: bool)
    requires QueueOk(s.q, s.isn, s.write, str, closed) && k < |s.q| && Pointers(s)
    ensures var r := SndSeg(s, k, nretrans, w1, w2, o).0;
      && r.s == s.(max := r.s.max) && s.max <= r.s.max <= s.write && !r.dead
      && AllEmitted(r.out, s.isn, str, closed, s.una, Max(r.s.max, Min(w2, s.q[k].End())))
  {
    hide InStream, QueueOk, Genuine, Clip;
    if SndSeg(s, k, nretrans, w1, w2, o).0.wrote {
      PaddedIsGenuine(s, k, nretrans, w1, w2, str, closed);
    }
  }

  // ---------------------------------------------------------------- many segments

  /** An output step that moved only `snd_nxt` and `snd_max`, forward within what is queued. */
  ghost predicate Moved(s: Snd, r: SndRes, str: seq<Byte>, closed: bool) {
    && r.s == s.(nxt := r.s.nxt, max := r.s.max)
    && s.max <= r.s.max && Pointers(r.s) && !r.dead
    && AllEmitted(r.out, s.isn, str, closed, s.una, r.s.max)
  }

  lemma {:induction false} MovedThen(s: Snd, a: SndRes, b: SndRes, str: seq<Byte>, closed: bool)
    requires Moved(s, a, str, closed) && Moved(a.s, b, str, closed)
    ensures Moved(s, Then(a, b), str, closed)
  {
    var r := Then(a, b);
    forall i | 0 <= i < |r.out| ensures Emitted(r.out[i], s.isn, str, closed, s.una, r.s.max) {
      if i < |a.out| {
        assert Emitted(a.out[i], s.isn, str, closed, s.una, a.s.max);
      } else {
        assert Emitted(b.out[i - |a.out|], s.isn, str, closed, s.una, b.s.max);
      }
    }
  }

  /** Without padding only the first round of a segment matters: nothing but packets comes of it. */
  lemma {:induction false} UnpaddedKeeps(s: Snd, k: nat, w1: int, w2: int, o: Outcome)
    requires k < |s.q|
    ensures var (r, ok) := SndSeg(s, k, 0, w1, w2, o);
      r.s == s && !r.dead && (!ok ==> r.out == []) && (ok ==> w1 <= w2)
  {
    hide Clip, Padded;
  }

  lemma {:induction false} SendOneMoves(s: Snd, k: nat, wndnxt: int, o: Outcome, str: seq<Byte>, closed: bool)
    requires QueueOk(s.q, s.isn, s.write, str, closed) && Pointers(s) && k < |s.q|
    ensures Moved(s, SendOne(s, k, wndnxt, o).0, str, closed)
  {
    hide InStream, SndSeg, Emitted;
    ChainOrder(s.q, s.write, k);
    SndSegEmits(s, k, 0, s.nxt, wndnxt, o, str, closed);
    UnpaddedKeeps(s, k, s.nxt, wndnxt, o);
  }

  lemma {:induction false} SendFromMoves(s: Snd, k: nat, wndnxt: int, budget: nat, failure: Outcome, str: seq<Byte>, closed: bool)
    requires QueueOk(s.q, s.isn, s.write, str, closed) && Pointers(s)
    ensures Moved(s, SendFrom(s, k, wndnxt, budget, failure), str, closed)
    decreases |s.q| - k
  {
    if k < |s.q| && (s.q[k].End() <= wndnxt || (s.nxt < wndnxt && 2 * (wndnxt - s.nxt) > s.wndmax)) {
      var o := if budget > 0 then Sent else failure;
      SendOneMoves(s, k, wndnxt, o, str, closed);
      var (r, ok) := SendOne(s, k, wndnxt, o);
      if ok {
        SendFromMoves(r.s, k + 1, wndnxt, if budget > 0 then budget - 1 else 0, failure, str, closed);
        MovedThen(s, r, SendFrom(r.s, k + 1, wndnxt, if budget > 0 then budget - 1 else 0, failure), str, closed);
      }
    }
  }

  lemma {:induction false} SndHeadMoves(s: Snd, e: Env, str: seq<Byte>, closed: bool)
    requires QueueOk(s.q, s.isn, s.write, str, closed) && Pointers(s)
    ensures Moved(s, SndHead(s, e), str, closed)
  {
    SendFromMoves(s, FirstPast(s.q, s.nxt), s.wndack + Min(s.wnd, SendLimit(s, e)), e.budget, e.failure, str, closed);
  }

  // ---------------------------------------------------------------- acknowledged data

  lemma {:induction false} SumDataSplit(q: seq<OutSeg>, k: nat)
    requires k <= |q|
    ensures SumData(q) == SumData(q[..k]) + SumData(q[k..])
  {
    if k > 0 {
      SumDataSplit(q[1..], k - 1);
      assert q[1..][..k - 1] == q[..k][1..];
      assert q[1..][k - 1..] == q[k..];
    } else {
      assert q[..0] == [] && q[0..] == q;
    }
  }

  /** After an acknowledgment the dropped segments are exactly those it covers. */
  lemma {:induction false} DropDataKeeps(s: Snd, str: seq<Byte>, closed: bool)
    requires MAX_RETRY < s.mss <= s.cwnd && QueueOk(s.q, s.isn, s.write, str, closed)
    requires Pointers(s) && WriteAt(s, str, closed) && Counted(s)
    requires |s.q| > 0 && s.q[0].start <= s.una
    ensures SndOk(DropData(s), str, closed)
    ensures DropData(s).una >= s.write <==> |DropData(s).q| == 0
  {
    var k := FirstPast(s.q, s.una);
    SumDataSplit(s.q, k);
    SuffixQueueOk(s.q, k, s.isn, s.write, str, closed);
    DropLandsAtUna(s.q, k, s.una, s.write);
  }

  /** Dropping changes the queue, its counters and the congestion window. */
  lemma {:induction false} DropKeepsRest(s: Snd)
    ensures var d := DropData(s); d == s.(q := d.q, cur := d.cur, nretrans := d.nretrans, cwnd := d.cwnd)
  {
    hide FirstPast, SumData, Opened;
  }

  lemma {:induction false} SuffixQueueOk(q: seq<OutSeg>, k: nat, isn: int, write: int, str: seq<Byte>, closed: bool)
    requires QueueOk(q, isn, write, str, closed) && k <= |q|
    ensures QueueOk(q[k..], isn, write, str, closed)
  {
    var q' := q[k..];
    forall i, j | 0 <= i && j == i + 1 && j < |q'| ensures q'[i].End() == q'[j].start {
      assert q'[i] == q[i + k] && q'[j] == q[j + k];
    }
    forall i | 0 <= i < |q'| ensures SegOk(q'[i], isn, str, closed) {
      assert q'[i] == q[i + k];
    }
  }

  lemma {:induction false} DropLandsAtUna(q: seq<OutSeg>, k: nat, una: int, write: int)
    requires Chain(q, write) && |q| > 0 && q[0].start <= una <= write && k == FirstPast(q, una)
    ensures if k == |q| then una == write else q[k].start <= una < q[k].End() <= write
  {
    if k > 0 { ChainOrder(q, write, k - 1); }
    if k < |q| { ChainOrder(q, write, k); }
  }

  // ---------------------------------------------------------------- the output machine

  /** An output event ended well: the invariant and the timer rule hold unless the connection was given up. */
  ghost predicate Fine(s: Snd, r: SndRes, str: seq<Byte>, closed: bool) {
    && r.s.isn == s.isn && r.s.una == s.una && r.s.write == s.write && s.max <= r.s.max
    && AllEmitted(r.out, s.isn, str, closed, s.una, r.s.max)
    && (!r.dead ==> SndOk(r.s, str, closed) && TimerOk(r.s))
  }

  /** Where each event may come from: the queue has just grown, or an acknowledgment has just been noted. */
  ghost predicate Before(s: Snd, ev: OEvent, str: seq<Byte>, closed: bool) {
    match ev
    case Send =>
      SndOk(s, str, closed) && |s.q| > 0 && s.timer == !s.ostate.Idle? && (s.ostate.Idle? ==> s.nxt < s.write)
    case AckRcvd =>
      && MAX_RETRY < s.mss <= s.cwnd && QueueOk(s.q, s.isn, s.write, str, closed)
      && Pointers(s) && WriteAt(s, str, closed) && Counted(s)
      && TimerOk(s) && |s.q| > 0 && s.q[0].start <= s.una
    case Timeout => SndOk(s, str, closed) && |s.q| > 0 && !s.ostate.Idle? && !s.timer
    case _ => SndOk(s, str, closed) && TimerOk(s)
  }

  /** Changing the state and the timer keeps everything about the data. */
  lemma {:induction false} SetState(s: Snd, r: SndRes, os: OState, t: bool, str: seq<Byte>, closed: bool)
    requires SndOk(s, str, closed) && Moved(s, r, str, closed)
    requires (os.Idle? <==> |s.q| == 0) && (t <==> |s.q| > 0)
    ensures Fine(s, r.(s := r.s.(ostate := os, timer := t)), str, closed)
  {
  }

  lemma {:induction false} StaysQuiet(s: Snd, str: seq<Byte>, closed: bool)
    requires Pointers(s)
    ensures Moved(s, Quiet(s), str, closed)
  {
  }

  lemma {:induction false} RetransmitFine(s: Snd, e: Env, str: seq<Byte>, closed: bool)
    requires Before(s, Timeout, str, closed)
    ensures Fine(s, Retransmit(s, e), str, closed)
  {
    hide QueueOk, Genuine, SndSeg, Emitted;
    var s1 := s.(nretrans := s.nretrans + 1);
    if s1.nretrans <= MAX_RETRY {
      var o := if e.budget > 0 then Sent else e.failure;
      ResendFirst(Backed(s1), o, str, closed);
      FineFrom(s, Backed(s1), Retransmit(s, e), str, closed);
    } else {
      assert Retransmit(s, e) == SndRes(s1, [], false, true);
    }
  }

  lemma {:induction false} ResendFirst(s: Snd, o: Outcome, str: seq<Byte>, closed: bool)
    requires SndOk(s, str, closed) && |s.q| > 0 && !s.ostate.Idle?
    ensures var r := SndSeg(s, 0, s.nretrans, s.una, s.nxt, o).0;
      Fine(s, r.(s := r.s.(timer := true)), str, closed)
  {
    SndSegEmits(s, 0, s.nretrans, s.una, s.nxt, o, str, closed);
    var r := SndSeg(s, 0, s.nretrans, s.una, s.nxt, o).0;
    assert Moved(s, r, str, closed);
    SetState(s, r, s.ostate, true, str, closed);
  }

  /** The counters of a state play no part in how an event ended. */
  lemma {:induction false} FineFrom(s: Snd, s1: Snd, r: SndRes, str: seq<Byte>, closed: bool)
    requires Fine(s1, r, str, closed) && s1.isn == s.isn && s1.una == s.una && s1.write == s.write && s1.max == s.max
    ensures Fine(s, r, str, closed)
  {
  }

  lemma {:induction false} ProbeFine(s: Snd, e: Env, str: seq<Byte>, closed: bool)
    requires Before(s, Timeout, str, closed)
    ensures Fine(s, Probe(s, e), str, closed)
  {
  }

  lemma {:induction false} OnIdleFine(s: Snd, ev: OEvent, e: Env, str: seq<Byte>, closed: bool)
    requires Before(s, ev, str, closed) && s.ostate.Idle?
    ensures Fine(s, OnIdle(s, ev, e), str, closed)
    ensures !ev.Timeout? ==> !OnIdle(s, ev, e).dead
  {
    hide QueueOk, Genuine, SndHead;
    if ev == Send {
      var s0 := if e.rested then SlowStart(s) else s;
      SndHeadMoves(s0, e, str, closed);
      var r := SndHead(s0, e);
      SetState(s0, r, if CanRetrans(r.s) then Xmit else Persist, true, str, closed);
      FineFrom(s, s0, OnIdle(s, ev, e), str, closed);
    }
  }

  /** The part that the three busy states share: drop, and fall idle once everything is acknowledged. */
  lemma {:induction false} AckFine(s: Snd, str: seq<Byte>, closed: bool)
    requires Before(s, AckRcvd, str, closed)
    ensures var d := DropData(s);
      && SndOk(d, str, closed) && d.una == s.una && d.write == s.write && d.max == s.max && d.isn == s.isn
      && (if d.una >= d.write then Fine(s, Quiet(d.(timer := false, ostate := Idle)), str, closed)
          else |d.q| > 0 && Fine(s, Quiet(d), str, closed))
  {
    DropDataKeeps(s, str, closed);
  }

  lemma {:induction false} OnXmitFine(s: Snd, ev: OEvent, e: Env, str: seq<Byte>, closed: bool)
    requires Before(s, ev, str, closed) && s.ostate.Xmit?
    ensures Fine(s, OnXmit(s, ev, e), str, closed)
    ensures !ev.Timeout? ==> !OnXmit(s, ev, e).dead
  {
    match ev
    case Send =>
      SndHeadMoves(s, e, str, closed);
      SetState(s, SndHead(s, e), Xmit, true, str, closed);
    case WndOpen =>
      SndHeadMoves(s, e, str, closed);
      var r := SndHead(s, e);
      SetState(s, r, if CanRetrans(r.s) then Xmit else Persist, true, str, closed);
    case AckRcvd => AckFine(s, str, closed);
    case Timeout => XmitTimeoutFine(s, e, str, closed);
    case WndClose => QuietFine(s, if CanRetrans(s) then Xmit else Persist, str, closed);
    case DupAck => QuietFine(s, Xmit, str, closed);
  }

  lemma {:induction false} XmitTimeoutFine(s: Snd, e: Env, str: seq<Byte>, closed: bool)
    requires Before(s, Timeout, str, closed) && s.ostate.Xmit?
    ensures Fine(s, OnXmit(s, Timeout, e), str, closed)
  {
    hide QueueOk, Genuine, Emitted, Retransmit, Fine;
    var s1 := s.(ostate := Retrans, dupacks := if s.dupacks >= DUP_THRESHOLD then DUP_THRESHOLD - 1 else s.dupacks);
    RetransmitFine(s1, e, str, closed);
    FineFrom(s, s1, Retransmit(s1, e), str, closed);
  }

  /** Only the state of a busy machine changes. */
  lemma {:induction false} QuietFine(s: Snd, os: OState, str: seq<Byte>, closed: bool)
    requires SndOk(s, str, closed) && TimerOk(s) && !s.ostate.Idle? && !os.Idle?
    ensures Fine(s, Quiet(s.(ostate := os)), str, closed) && s.(ostate := s.ostate) == s
  {
  }

  lemma {:induction false} OnRetransFine(s: Snd, ev: OEvent, e: Env, str: seq<Byte>, closed: bool)
    requires Before(s, ev, str, closed) && s.ostate.Retrans?
    ensures Fine(s, OnRetrans(s, ev, e), str, closed)
    ensures !ev.Timeout? ==> !OnRetrans(s, ev, e).dead
  {
    match ev
    case Timeout => RetransmitFine(s, e, str, closed);
    case DupAck => ResendFine(s, e, str, closed);
    case AckRcvd => RetransAckFine(s, e, str, closed);
    case Send => RetransWaits(s, ev, e, str, closed);
    case WndOpen => RetransWaits(s, ev, e, str, closed);
    case WndClose => RetransWaits(s, ev, e, str, closed);
  }

  lemma {:induction false} RetransWaits(s: Snd, ev: OEvent, e: Env, str: seq<Byte>, closed: bool)
    requires Before(s, ev, str, closed) && s.ostate.Retrans? && (ev.Send? || ev.WndOpen? || ev.WndClose?)
    ensures Fine(s, OnRetrans(s, ev, e), str, closed)
    ensures !ev.Timeout? ==> !OnRetrans(s, ev, e).dead
  {
    StaysQuiet(s, str, closed);
    SetState(s, Quiet(s), OnRetrans(s, ev, e).s.ostate, true, str, closed);
  }

  lemma {:induction false} ResendFine(s: Snd, e: Env, str: seq<Byte>, closed: bool)
    requires SndOk(s, str, closed) && TimerOk(s)
    ensures Fine(s, Resend(s, e), str, closed) && !Resend(s, e).dead
  {
    hide QueueOk, Genuine, Emitted;
    StaysQuiet(s, str, closed);
    if s.dupacks >= DUP_THRESHOLD && s.dupacks - DUP_THRESHOLD < |s.q| {
      var k := s.dupacks - DUP_THRESHOLD;
      SndSegEmits(s, k, if k == 0 then s.nretrans else 0, s.una, s.nxt, if e.budget > 0 then Sent else e.failure, str, closed);
    }
    assert Moved(s, Resend(s, e), str, closed);
    SetState(s, Resend(s, e), s.ostate, s.timer, str, closed);
  }

  lemma {:induction false} RetransAckFine(s: Snd, e: Env, str: seq<Byte>, closed: bool)
    requires Before(s, AckRcvd, str, closed) && s.ostate.Retrans?
    ensures Fine(s, OnRetrans(s, AckRcvd, e), str, closed) && !OnRetrans(s, AckRcvd, e).dead
  {
    hide QueueOk, Genuine, SndHead, DropData;
    AckFine(s, str, closed);
    DropKeepsRest(s);
    var d := SlowStart(DropData(s));
    if d.nxt <= d.una < d.write {
      SndHeadMoves(d, e, str, closed);
      SetState(d, SndHead(d, e), Xmit, true, str, closed);
      FineFrom(s, d, OnRetrans(s, AckRcvd, e), str, closed);
    }
  }

  lemma {:induction false} OnPersistFine(s: Snd, ev: OEvent, e: Env, str: seq<Byte>, closed: bool)
    requires Before(s, ev, str, closed) && s.ostate.Persist?
    ensures Fine(s, OnPersist(s, ev, e), str, closed)
    ensures !ev.Timeout? ==> !OnPersist(s, ev, e).dead
  {
    hide QueueOk, Genuine;
    match ev
    case Timeout =>
      if s.wnd > 0 {
        var s1 := s.(wndmax := s.wnd);
        SndHeadMoves(s1, e, str, closed);
        var r := SndHead(s1, e);
        if CanRetrans(r.s) {
          SetState(s1, r, Xmit, true, str, closed);
        } else {
          ProbeFine(r.s, e, str, closed);
          FineAfterMove(s1, r, Probe(r.s, e), str, closed);
        }
      } else {
        ProbeFine(s, e, str, closed);
      }
    case AckRcvd => AckFine(s, str, closed);
    case WndOpen =>
      SndHeadMoves(s, e, str, closed);
      var r := SndHead(s, e);
      SetState(s, r, if CanRetrans(r.s) then Xmit else Persist, true, str, closed);
    case _ =>
      StaysQuiet(s, str, closed);
      SetState(s, Quiet(s), Persist, true, str, closed);
  }

  lemma {:induction false} FineAfterMove(s: Snd, a: SndRes, b: SndRes, str: seq<Byte>, closed: bool)
    requires Moved(s, a, str, closed) && Fine(a.s, b, str, closed)
    ensures Fine(s, Then(a, b), str, closed)
  {
    var r := Then(a, b);
    forall i | 0 <= i < |r.out| ensures Emitted(r.out[i], s.isn, str, closed, s.una, r.s.max) {
      if i < |a.out| {
        assert Emitted(a.out[i], s.isn, str, closed, s.una, a.s.max);
      } else {
        assert Emitted(b.out[i - |a.out|], s.isn, str, closed, s.una, b.s.max);
      }
    }
  }

  /** Every state/event pair of the output machine keeps the queue invariant and loses no timer. */
  lemma {:induction false} OutputFine(s: Snd, ev: OEvent, e: Env, str: seq<Byte>, closed: bool)
    requires Before(s, ev, str, closed)
    ensures Fine(s, Output(s, ev, e), str, closed)
    ensures !ev.Timeout? ==> !Output(s, ev, e).dead
  {
    match s.ostate
    case Idle => OnIdleFine(s, ev, e, str, closed);
    case Retrans => OnRetransFine(s, ev, e, str, closed);
    case Persist => OnPersistFine(s, ev, e, str, closed);
    case Xmit => OnXmitFine(s, ev, e, str, closed);
  }

  // ---------------------------------------------------------------- queueing

  lemma {:induction false} SumDataLast(q: seq<OutSeg>, b: OutSeg)
    ensures SumData(q + [b]) == SumData(q) + |b.data|
  {
    SumDataSplit(q + [b], |q|);
    assert (q + [b])[..|q|] == q && (q + [b])[|q|..] == [b];
  }

  lemma {:induction false} SumDataReplaceLast(q: seq<OutSeg>, b: OutSeg)
    requires |q| > 0
    ensures SumData(q[|q| - 1 := b]) == SumData(q) - |q[|q| - 1].data| + |b.data|
  {
    var p := q[..|q| - 1];
    assert q == p + [q[|q| - 1]] && q[|q| - 1 := b] == p + [b];
    SumDataLast(p, q[|q| - 1]);
    SumDataLast(p, b);
  }

  /** Segments stay in agreement when the user writes more or closes. */
  lemma {:induction false} QueueGrows(q: seq<OutSeg>, isn: int, write: int, str: seq<Byte>, more: seq<Byte>, closed: bool)
    requires QueueOk(q, isn, write, str, false)
    ensures QueueOk(q, isn, write, str + more, closed)
  {
    forall i | 0 <= i < |q| ensures SegOk(q[i], isn, str + more, closed) {
      assert SegOk(q[i], isn, str, false);
      InStreamGrows(q[i].DataStart(), q[i].data, isn + 1, str, more);
    }
  }

  /** A segment put at the end. */
  lemma {:induction false} QueueAppend(q: seq<OutSeg>, b: OutSeg, isn: int, str: seq<Byte>, closed: bool)
    requires QueueOk(q, isn, b.start, str, closed) && SegOk(b, isn, str, closed)
    ensures QueueOk(q + [b], isn, b.End(), str, closed)
  {
    hide InStream;
    var q' := q + [b];
    forall i, j | 0 <= i && j == i + 1 && j < |q'| ensures q'[i].End() == q'[j].start {
      assert j < |q| ==> q[i].End() == q[j].start;
    }
  }

  /** The last segment replaced by a longer one. */
  lemma {:induction false} QueueReplaceLast(q: seq<OutSeg>, b: OutSeg, isn: int, write: int, str: seq<Byte>, closed: bool)
    requires |q| > 0 && QueueOk(q, isn, write, str, closed)
    requires SegOk(b, isn, str, closed) && b.start == q[|q| - 1].start
    ensures QueueOk(q[|q| - 1 := b], isn, b.End(), str, closed)
  {
    hide InStream;
    var m := |q| - 1;
    var q' := q[m := b];
    forall i, j | 0 <= i && j == i + 1 && j < |q'| ensures q'[i].End() == q'[j].start {
      assert q[i].End() == q[j].start;
    }
  }

  /** Bytes at the end of the stream. */
  lemma {:induction false} AtEnd(base: int, str: seq<Byte>, d: seq<Byte>)
    ensures InStream(base + |str|, d, base, str + d)
  {
  }

  /** The invariant carried over to a longer queue with the same head or a first element. */
  ghost predicate Grown(s: Snd, s': Snd, str: seq<Byte>, closed: bool) {
    && SndOk(s', str, closed) && |s'.q| > 0
    && s' == s.(q := s'.q, cur := s'.cur, write := s'.write)
    && s.write < s'.write
  }

  lemma {:induction false} GrowByAppend(s: Snd, b: OutSeg, str: seq<Byte>, closed: bool)
    requires MAX_RETRY < s.mss <= s.cwnd && QueueOk(s.q, s.isn, s.write, str, closed) && SegOk(b, s.isn, str, closed)
    requires b.start == s.write && b.End() == s.isn + 1 + |str| + Bit(closed)
    requires Pointers(s) && HeadAtUna(s) && Counted(s) && s.cur + |b.data| <= s.maxcur
    ensures Grown(s, s.(q := s.q + [b], cur := s.cur + |b.data|, write := b.End()), str, closed)
  {
    hide InStream, QueueOk;
    QueueAppend(s.q, b, s.isn, str, closed);
    SumDataLast(s.q, b);
  }

  lemma {:induction false} GrowByReplace(s: Snd, b: OutSeg, str: seq<Byte>, closed: bool)
    requires MAX_RETRY < s.mss <= s.cwnd && |s.q| > 0 && QueueOk(s.q, s.isn, s.write, str, closed) && SegOk(b, s.isn, str, closed)
    requires b.start == s.q[|s.q| - 1].start && s.write < b.End() == s.isn + 1 + |str| + Bit(closed)
    requires Pointers(s) && HeadAtUna(s) && Counted(s)
    requires s.cur - |s.q[|s.q| - 1].data| + |b.data| <= s.maxcur
    ensures Grown(s, s.(q := s.q[|s.q| - 1 := b], cur := s.cur - |s.q[|s.q| - 1].data| + |b.data|, write := b.End()), str, closed)
  {
    hide InStream, QueueOk;
    QueueReplaceLast(s.q, b, s.isn, s.write, str, closed);
    SumDataReplaceLast(s.q, b);
  }

  /** The last segment of an open stream ends where the stream ends. */
  lemma {:induction false} LastEndsStream(s: Snd, str: seq<Byte>)
    requires SndOk(s, str, false) && s.isn < s.write && |s.q| > 0
    ensures var b := s.q[|s.q| - 1];
      SegOk(b, s.isn, str, false) && !b.fin && b.DataEnd() == s.write == s.isn + 1 + |str|
  {
  }

  lemma {:induction false} JoinKeepsSeg(b: OutSeg, d: seq<Byte>, isn: int, str: seq<Byte>)
    requires SegOk(b, isn, str, false) && b.DataEnd() == isn + 1 + |str|
    ensures SegOk(b.(data := b.data + d), isn, str + d, false)
  {
    InStreamGrows(b.DataStart(), b.data, isn + 1, str, d);
    AtEnd(isn + 1, str, d);
    InStreamJoin(b.DataStart(), b.data, d, isn + 1, str + d);
  }

  lemma {:induction false} CombineGrows(s: Snd, d: seq<Byte>, str: seq<Byte>)
    requires SndOk(s, str, false) && s.isn < s.write && |s.q| > 0 && |d| > 0 && s.cur + |d| <= s.maxcur
    ensures var b := s.q[|s.q| - 1];
      Grown(s, s.(q := s.q[|s.q| - 1 := b.(data := b.data + d)], cur := s.cur + |d|, write := s.write + |d|), str + d, false)
  {
    hide InStream, QueueOk;
    var b := s.q[|s.q| - 1];
    QueueGrows(s.q, s.isn, s.write, str, d, false);
    LastEndsStream(s, str);
    JoinKeepsSeg(b, d, s.isn, str);
    GrowByReplace(s, b.(data := b.data + d), str + d, false);
  }

  lemma {:induction false} AppendGrows(s: Snd, b: OutSeg, str: seq<Byte>)
    requires SndOk(s, str, false) && s.isn < s.write && |b.data| > 0 && s.cur + |b.data| <= s.maxcur
    requires b.start == s.write && !b.syn && !b.fin && b.ack
    ensures Grown(s, s.(q := s.q + [b], cur := s.cur + |b.data|, write := b.End()), str + b.data, false)
  {
    hide InStream, QueueOk;
    QueueGrows(s.q, s.isn, s.write, str, b.data, false);
    AtEnd(s.isn + 1, str, b.data);
    GrowByAppend(s, b, str + b.data, false);
  }

  lemma {:induction false} ExtendKeeps(s: Snd, data: seq<Byte>, first: bool, str: seq<Byte>)
    requires SndOk(s, str, false) && s.isn < s.write && |data| > 0 && s.cur + |data| <= s.maxcur
    ensures var a := Ask(false, false, false);
      var n := Taken(s, data, a);
      Grown(s, Extend(s, data, a, first), str + data[..n], false)
      && Extend(s, data, a, first).cur == s.cur + n
  {
    hide QueueOk;
    var a := Ask(false, false, false);
    var d := data[..Taken(s, data, a)];
    if CanCombine(s, a) {
      var b := s.q[|s.q| - 1];
      CombineGrows(s, d, str);
      assert Extend(s, data, a, first)
        == s.(q := s.q[|s.q| - 1 := b.(data := b.data + d)], cur := s.cur + |d|, write := s.write + |d|);
    } else {
      var b := OutSeg(s.write, false, d, false, true, s.mss - MAX_RETRY);
      AppendGrows(s, b, str);
      assert Extend(s, data, a, first) == s.(q := s.q + [b], cur := s.cur + |d|, write := b.End());
    }
  }

  /** The accepted bytes, and nothing else, went to the end of the stream. */
  ghost predicate Accepted(s: Snd, r: Queued, data: seq<Byte>, str: seq<Byte>) {
    && r.taken <= |data| && (r.ok ==> r.taken == |data|)
    && (if r.taken == 0 then r.s == s else Grown(s, r.s, str + data[..r.taken], false))
  }

  /** The queueing loop puts exactly the accepted bytes at the end of the stream. */
  lemma {:induction false} EnqueueKeeps(s: Snd, data: seq<Byte>, first: bool, mem: nat, str: seq<Byte>)
    requires SndOk(s, str, false) && s.isn < s.write && |data| > 0 && s.cur + |data| <= s.maxcur
    ensures Accepted(s, Enqueue(s, data, Ask(false, false, false), first, mem), data, str)
    decreases |data|
  {
    hide QueueOk, Extend;
    var a := Ask(false, false, false);
    if CanCombine(s, a) || mem > 0 {
      var n := Taken(s, data, a);
      var s1 := Extend(s, data, a, first);
      ExtendKeeps(s, data, first, str);
      if n < |data| {
        var mem' := if CanCombine(s, a) then mem else mem - 1;
        EnqueueKeeps(s1, data[n..], false, mem', str + data[..n]);
        var r1 := Enqueue(s1, data[n..], a, false, mem');
        AcceptedAfter(s, s1, n, r1, data, str);
        EnqueueUnfolds(s, data, first, mem);
        assert Enqueue(s, data, a, first, mem) == Queued(r1.s, n + r1.taken, r1.ok);
      }
    }
  }

  lemma {:induction false} EnqueueUnfolds(s: Snd, data: seq<Byte>, first: bool, mem: nat)
    requires s.mss > MAX_RETRY && |data| > 0
    requires CanCombine(s, Ask(false, false, false)) || mem > 0
    ensures var a := Ask(false, false, false);
      var n := Taken(s, data, a);
      var s1 := Extend(s, data, a, first);
      var mem' := if CanCombine(s, a) then mem else mem - 1;
      Enqueue(s, data, a, first, mem) ==
        if n == |data| then Queued(s1, n, true)
        else var r1 := Enqueue(s1, data[n..], a, false, mem'); Queued(r1.s, n + r1.taken, r1.ok)
  {
  }

  lemma {:induction false} AcceptedAfter(s: Snd, s1: Snd, n: nat, r1: Queued, data: seq<Byte>, str: seq<Byte>)
    requires 0 < n <= |data| && Grown(s, s1, str + data[..n], false)
    requires Accepted(s1, r1, data[n..], str + data[..n])
    ensures Accepted(s, Queued(r1.s, n + r1.taken, r1.ok), data, str)
  {
    hide Grown;
    StreamPieces(str, data, n, r1.taken);
    if r1.taken > 0 { GrownTwice(s, s1, r1.s, str + data[..n], str + data[..n + r1.taken]); }
  }

  lemma {:induction false} GrownTwice(s: Snd, s1: Snd, s2: Snd, str1: seq<Byte>, str2: seq<Byte>)
    requires Grown(s, s1, str1, false) && Grown(s1, s2, str2, false)
    ensures Grown(s, s2, str2, false)
  {
  }

  lemma {:induction false} StreamPieces(str: seq<Byte>, data: seq<Byte>, n: nat, k: nat)
    requires n + k <= |data|
    ensures str + data[..n] + data[n..][..k] == str + data[..n + k]
  {
  }

  /** The SYN opens the queue. */
  lemma {:induction false} SynKeeps(s: Snd, ack: bool, mem: nat)
    requires SndOk(s, [], false) && s.write == s.isn && mem > 0
    ensures var r := Enqueue(s, [], Ask(true, false, ack), true, mem);
      r.ok && Grown(s, r.s, [], false) && r.s.write == s.isn + 1
  {
    var b := OutSeg(s.write, true, [], false, ack, s.mss - MAX_RETRY);
    var r := Enqueue(s, [], Ask(true, false, ack), true, mem);
    assert |s.q| > 0 ==> SegOk(s.q[0], s.isn, [], false);
    if |s.q| > 0 { ChainOrder(s.q, s.write, 0); }
    assert r.s.q == [b];
    assert SumData([b]) == 0;
  }

  lemma {:induction false} FinCombines(s: Snd, str: seq<Byte>)
    requires SndOk(s, str, false) && s.isn < s.write && |s.q| > 0
    ensures var b := s.q[|s.q| - 1];
      Grown(s, s.(q := s.q[|s.q| - 1 := b.(fin := true, room := |b.data|)], write := s.write + 1), str, true)
  {
    hide QueueOk, Chain, InStream;
    var b := s.q[|s.q| - 1];
    QueueGrows(s.q, s.isn, s.write, str, [], true);
    assert str + [] == str;
    LastEndsStream(s, str);
    GrowByReplace(s, b.(fin := true, room := |b.data|), str, true);
  }

  lemma {:induction false} FinAppends(s: Snd, str: seq<Byte>)
    requires SndOk(s, str, false) && s.isn < s.write
    ensures Grown(s, s.(q := s.q + [OutSeg(s.write, false, [], true, true, 0)], write := s.write + 1), str, true)
  {
    hide InStream, QueueOk;
    QueueGrows(s.q, s.isn, s.write, str, [], true);
    assert str + [] == str;
    AtEnd(s.isn + 1, str, []);
    GrowByAppend(s, OutSeg(s.write, false, [], true, true, 0), str, true);
  }

  /** The FIN closes the stream, on the last segment or on one of its own, whenever a segment can be had. */
  lemma {:induction false} FinKeeps(s: Snd, mem: nat, str: seq<Byte>)
    requires SndOk(s, str, false) && s.isn < s.write
    requires CanCombine(s, Ask(false, true, true)) || mem > 0
    ensures var r := Enqueue(s, [], Ask(false, true, true), true, mem);
      r.ok && Grown(s, r.s, str, true)
  {
    FinUnfolds(s, mem);
    if CanCombine(s, Ask(false, true, true)) { FinCombines(s, str); } else { FinAppends(s, str); }
  }

  lemma {:induction false} FinUnfolds(s: Snd, mem: nat)
    requires s.mss > MAX_RETRY && (|s.q| == 0 ==> s.cur == 0)
    requires CanCombine(s, Ask(false, true, true)) || mem > 0
    ensures Enqueue(s, [], Ask(false, true, true), true, mem) ==
      if CanCombine(s, Ask(false, true, true)) then
        var b := s.q[|s.q| - 1];
        Queued(s.(q := s.q[|s.q| - 1 := b.(fin := true, room := |b.data|)], write := s.write + 1), 0, true)
      else Queued(s.(q := s.q + [OutSeg(s.write, false, [], true, true, 0)], write := s.write + 1), 0, true)
  {
    var a := Ask(false, true, true);
    var s1 := Extend(s, [], a, true);
    var m := |s1.q| - 1;
    if CanCombine(s, a) {
      assert s.q[m].data + [] == s.q[m].data;
      assert s1 == s;
    } else {
      assert MarkFin(s1).q == s.q + [OutSeg(s.write, false, [], true, true, 0)];
    }
  }

  /** The peer's window only lowers `snd_nxt`. */
  lemma {:induction false} SndWndKeeps(s: Snd, p: Packet, str: seq<Byte>, closed: bool)
    requires SndOk(s, str, closed) && TimerOk(s) && SndWnd(s, p).Update?
    ensures var s' := SndWnd(s, p).s;
      SndOk(s', str, closed) && TimerOk(s') && s'.una == s.una && s'.max == s.max && s'.isn == s.isn && s'.write == s.write
  {
    hide QueueOk;
  }
}
