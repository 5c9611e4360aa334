/** The send side of a connection: the retransmission queue, clipping and the output machine. */
module TcpSend {
  import opened TcpTypes

  /** A queued segment; `room` is how many payload bytes it may hold. */
  datatype OutSeg = OutSeg(start: int, syn: bool, data: seq<Byte>, fin: bool, ack: bool, room: int) {
    function Len(): nat { Bit(syn) + |data| + Bit(fin) }

    function End(): int { start + Len() }

    /** Sequence number of the first payload byte. */
    function DataStart(): int { start + Bit(syn) }

    function DataEnd(): int { start + Bit(syn) + |data| }
  }

  datatype OState = Idle | Retrans | Persist | Xmit

  datatype OEvent = Send | AckRcvd | WndOpen | WndClose | Timeout | DupAck

  /** Send variables of a control block; `timer` says that the retransmit/persist timer is pending. */
  datatype Snd = Snd(
    isn: int, una: int, nxt: int, max: int, write: int,
    wnd: int, wndseq: int, wndack: int, wndmax: int, mss: int,
    q: seq<OutSeg>, cur: int, maxcur: int,
    ostate: OState, timer: bool, nretrans: nat, dupacks: nat,
    cwnd: int, thresh: int)

  /** What the layers below do with a segment. */
  datatype Outcome = Sent | NoMemory | Refused

  /**
   * Choices made outside this model during one output event: whether an idle connection has rested so long
   * that it starts slowly again, whether Nagle's rule holds back a short last segment, how many segments go out
   * before one fails and how, whether the peer has been silent for too long, and the byte that happens to lie
   * in a probe's buffer.
   */
  datatype Env = Env(rested: bool, nagle: bool, budget: nat, failure: Outcome, silent: bool, bogus: Byte)

  /** Result of an output event; `wrote` says a window was advertised, `dead` that the connection was given up. */
  datatype SndRes = SndRes(s: Snd, out: seq<Packet>, wrote: bool, dead: bool)

  function Quiet(s: Snd): SndRes { SndRes(s, [], false, false) }

  function Then(a: SndRes, b: SndRes): SndRes {
    SndRes(b.s, a.out + b.out, a.wrote || b.wrote, b.dead)
  }

  // ---------------------------------------------------------------- clipping

  /** The segment does not meet the window [w1, w2). */
  predicate Outside(b: OutSeg, w1: int, w2: int) { w2 <= b.start || b.End() <= w1 }

  /** Payload bytes beyond the right window edge; a FIN that is cut off is not a payload byte. */
  function Over(b: OutSeg, w2: int): int {
    if w2 < b.End() then (if b.fin then b.End() - 1 else b.End()) - w2 else 0
  }

  /** Payload bytes before the left window edge; a SYN that is cut off is not a payload byte. */
  function Under(b: OutSeg, w1: int): int {
    if w1 <= b.start then 0 else w1 - b.DataStart()
  }

  /** The number of payload bytes the source copies. */
  function CopyCount(b: OutSeg, w1: int, w2: int): int { |b.data| - Under(b, w1) - Over(b, w2) }

  /** The part of `b` inside the window [w1, w2). */
  function Clip(b: OutSeg, w1: int, w2: int): Packet
    requires !Outside(b, w1, w2) && w1 <= w2
  {
    Packet(Max(w1, b.start), b.data[Under(b, w1)..|b.data| - Over(b, w2)],
           b.syn && w1 <= b.start, b.fin && b.End() <= w2, false, b.ack, 0, 0)
  }

  /** Bytes of the following segment that a retransmission appends to the one at place `k`. */
  function Appended(s: Snd, k: nat, nretrans: nat, w1: int, w2: int): nat
    requires k < |s.q| && !Outside(s.q[k], w1, w2) && w1 <= w2
  {
    var b := s.q[k];
    var p := Clip(b, w1, w2);
    if nretrans == 0 || w2 < b.End() || k + 1 == |s.q| then 0 else
    var b2 := s.q[k + 1];
    var n := Min(|b2.data|, nretrans);
    if b2.start + n <= s.wndack + s.wnd && p.syn == b2.syn && p.fin == b2.fin then n else 0
  }

  /** The clipped segment with the bytes appended for retransmission. */
  function Padded(s: Snd, k: nat, nretrans: nat, w1: int, w2: int): Packet
    requires k < |s.q| && !Outside(s.q[k], w1, w2) && w1 <= w2
  {
    var p := Clip(s.q[k], w1, w2);
    var n := Appended(s, k, nretrans, w1, w2);
    if n > 0 then p.(data := p.data + s.q[k + 1].data[..n]) else p
  }

  /** Hands the segment at place `k` to the layers below, clipped to [w1, w2) and padded for retransmission. */
  function SndSeg(s: Snd, k: nat, nretrans: nat, w1: int, w2: int, o: Outcome): (SndRes, bool)
    requires k < |s.q|
  {
    if o == NoMemory || Outside(s.q[k], w1, w2) || w2 < w1 then (Quiet(s), false) else
    var n := Appended(s, k, nretrans, w1, w2);
    var s1 := if n > 0 then s.(max := Max(s.max, s.q[k + 1].start + n)) else s;
    (SndRes(s1, if o == Sent then [Padded(s, k, nretrans, w1, w2)] else [], true, false), o == Sent)
  }

  // ---------------------------------------------------------------- the congestion window

  /** The segment size agreed on with the peer; the congestion window is then one segment. */
  function Agreed(s: Snd, mss: int): Snd { s.(mss := mss, cwnd := mss, thresh := Max(s.thresh, 2 * mss)) }

  /** Sending starts again with one segment. */
  function SlowStart(s: Snd): Snd { s.(cwnd := s.mss, thresh := Max(s.thresh, s.cwnd)) }

  /** After a timeout the threshold is halved too, down to two segments. */
  function Backed(s: Snd): Snd {
    s.(cwnd := s.mss, thresh := Max(Min(Max(s.thresh, s.cwnd), s.wnd) / 2, 2 * s.mss))
  }

  /** How much an acknowledged segment opens the window: a segment below the threshold, a fraction above. */
  function Growth(s: Snd): (g: int)
    ensures 0 <= s.mss ==> 0 <= g
  {
    if s.cwnd < s.thresh then s.mss
    else if s.cwnd > 0 then Share(s.mss, s.cwnd) else 0
  }

  /** The congestion window after `n` segments have been acknowledged. */
  function Opened(s: Snd, n: nat): (c: int)
    ensures 0 <= s.mss ==> s.cwnd <= c
  {
    s.cwnd + n * Growth(s)
  }

  function Share(mss: int, cwnd: int): (g: int)
    requires cwnd > 0
    ensures 0 <= g
  {
    mss * mss / cwnd
  }

  // ---------------------------------------------------------------- sending what the window allows

  /** First queued segment that is not entirely before `x`. */
  function FirstPast(q: seq<OutSeg>, x: int): (k: nat)
    ensures k <= |q|
    ensures forall i :: 0 <= i < k ==> q[i].End() <= x
    ensures k < |q| ==> x < q[k].End()
  {
    if |q| == 0 || x < q[0].End() then 0 else 1 + FirstPast(q[1..], x)
  }

  /** One segment of the sending loop, before the loop goes on. */
  function SendOne(s: Snd, k: nat, wndnxt: int, o: Outcome): (SndRes, bool)
    requires k < |s.q|
  {
    var end := s.q[k].End();
    var (r, ok) := SndSeg(s, k, 0, s.nxt, wndnxt, o);
    if ok then (r.(s := r.s.(nxt := Min(end, wndnxt), max := Max(s.max, Min(end, wndnxt)))), true)
    else if s.una == s.nxt then (r.(s := r.s.(nxt := end, max := Max(s.max, end))), false)
    else (r, false)
  }

  /** Sends from place `k` on: whole segments, or a part if it is more than half the largest window seen. */
  function SendFrom(s: Snd, k: nat, wndnxt: int, budget: nat, failure: Outcome): SndRes
    decreases |s.q| - k
  {
    if k >= |s.q| then Quiet(s) else
    if !(s.q[k].End() <= wndnxt || (s.nxt < wndnxt && 2 * (wndnxt - s.nxt) > s.wndmax)) then Quiet(s) else
    var (r, ok) := SendOne(s, k, wndnxt, if budget > 0 then Sent else failure);
    if ok then Then(r, SendFrom(r.s, k + 1, wndnxt, if budget > 0 then budget - 1 else 0, failure)) else r
  }

  /** The congestion window; Nagle's rule stops before the last segment if others are under way. */
  function SendLimit(s: Snd, e: Env): int {
    if e.nagle && |s.q| > 0 && (s.una < s.nxt || |s.q| > 1) then Min(s.q[|s.q| - 1].start - s.wndack, s.cwnd) else s.cwnd
  }

  function SndHead(s: Snd, e: Env): SndRes {
    if s.nxt >= s.write then Quiet(s)
    else SendFrom(s, FirstPast(s.q, s.nxt), s.wndack + Min(s.wnd, SendLimit(s, e)), e.budget, e.failure)
  }

  // ---------------------------------------------------------------- dropping acknowledged data

  function SumData(q: seq<OutSeg>): nat { if |q| == 0 then 0 else |q[0].data| + SumData(q[1..]) }

  function DropData(s: Snd): Snd {
    var k := FirstPast(s.q, s.una);
    s.(q := s.q[k..], cur := if k == |s.q| && k > 0 then 0 else s.cur - SumData(s.q[..k]),
       nretrans := if k > 0 then 0 else s.nretrans, cwnd := Opened(s, k))
  }

  // ---------------------------------------------------------------- the output machine

  /** Something sent, not acknowledged and still inside the window. */
  predicate CanRetrans(s: Snd) {
    s.wnd > 0 && |s.q| > 0 && s.una < s.nxt && s.q[0].start < s.nxt
  }

  function Retransmit(s: Snd, e: Env): SndRes {
    var s1 := s.(nretrans := s.nretrans + 1);
    if s1.nretrans > MAX_RETRY then SndRes(s1, [], false, true)
    else if |s.q| == 0 then Quiet(s1.(ostate := Idle))
    else
      var (r, _) := SndSeg(Backed(s1), 0, s1.nretrans, s.una, s.nxt, if e.budget > 0 then Sent else e.failure);
      r.(s := r.s.(timer := true))
  }

  /** A window probe carries one bogus byte two places before the window. */
  function Probe(s: Snd, e: Env): SndRes {
    if e.silent then SndRes(s, [], false, true)
    else
      var p := Packet(s.una - 2, [e.bogus], false, false, false, true, 0, 0);
      SndRes(s.(timer := true), if e.budget > 0 then [p] else [], false, false)
  }

  function OnIdle(s: Snd, ev: OEvent, e: Env): SndRes {
    if ev != Send || s.nxt >= s.write then Quiet(s) else
    var r := SndHead(if e.rested then SlowStart(s) else s, e);
    r.(s := r.s.(ostate := if CanRetrans(r.s) then Xmit else Persist, timer := true))
  }

  function OnXmit(s: Snd, ev: OEvent, e: Env): SndRes {
    match ev
    case Send => SndHead(s, e)
    case WndOpen =>
      var r := SndHead(s, e);
      if CanRetrans(r.s) then r else r.(s := r.s.(ostate := Persist))
    case WndClose => if CanRetrans(s) then Quiet(s) else Quiet(s.(ostate := Persist))
    case AckRcvd =>
      var s1 := DropData(s);
      if s1.una >= s1.write then Quiet(s1.(timer := false, ostate := Idle)) else Quiet(s1)
    case Timeout =>
      Retransmit(s.(ostate := Retrans, dupacks := if s.dupacks >= DUP_THRESHOLD then DUP_THRESHOLD - 1 else s.dupacks), e)
    case DupAck => Quiet(s)
  }

  /** From the third duplicate acknowledgment on, each one resends one more of the segments already sent. */
  function Resend(s: Snd, e: Env): SndRes {
    if s.dupacks < DUP_THRESHOLD || !CanRetrans(s) then Quiet(s) else
    var k := s.dupacks - DUP_THRESHOLD;
    if |s.q| <= k || s.nxt < s.q[k].End() then Quiet(s)
    else SndSeg(s, k, if k == 0 then s.nretrans else 0, s.una, s.nxt, if e.budget > 0 then Sent else e.failure).0
  }

  function OnRetrans(s: Snd, ev: OEvent, e: Env): SndRes {
    match ev
    case Timeout => Retransmit(s, e)
    case WndClose => if CanRetrans(s) then Quiet(s) else Quiet(s.(ostate := Persist))
    case DupAck => Resend(s, e)
    case AckRcvd =>
      var s1 := DropData(s);
      if s1.una >= s1.write then Quiet(s1.(timer := false, ostate := Idle))
      else if s1.una >= s1.nxt then
        var r := SndHead(SlowStart(s1), e);
        r.(s := r.s.(ostate := Xmit))
      else Quiet(s1)
    case _ => Quiet(s)
  }

  function OnPersist(s: Snd, ev: OEvent, e: Env): SndRes {
    match ev
    case Timeout =>
      if s.wnd > 0 then
        var r := SndHead(s.(wndmax := s.wnd), e);
        if CanRetrans(r.s) then r.(s := r.s.(ostate := Xmit, timer := true)) else Then(r, Probe(r.s, e))
      else Probe(s, e)
    case AckRcvd =>
      var s1 := DropData(s);
      if s1.una >= s1.write then Quiet(s1.(timer := false, ostate := Idle)) else Quiet(s1)
    case WndOpen =>
      var r := SndHead(s, e);
      if CanRetrans(r.s) then r.(s := r.s.(ostate := Xmit)) else r
    case _ => Quiet(s)
  }

  /** One step of the output machine. */
  function Output(s: Snd, ev: OEvent, e: Env): SndRes {
    match s.ostate
    case Idle => OnIdle(s, ev, e)
    case Retrans => OnRetrans(s, ev, e)
    case Persist => OnPersist(s, ev, e)
    case Xmit => OnXmit(s, ev, e)
  }

  /** The timer goes off: it is no longer pending when the machine runs. */
  function TimerFires(s: Snd, e: Env): SndRes { Output(s.(timer := false), Timeout, e) }

  // ---------------------------------------------------------------- queueing

  /** What a caller asks to be queued. */
  datatype Ask = Ask(syn: bool, fin: bool, ack: bool)

  predicate CanCombine(s: Snd, a: Ask) {
    |s.q| > 0 && var b := s.q[|s.q| - 1]; s.max <= b.start && !a.syn && b.room - |b.data| > 0
  }

  /** Puts `data` into the last segment, or into a new one. */
  function Extend(s: Snd, data: seq<Byte>, a: Ask, first: bool): Snd
    requires s.mss > MAX_RETRY
  {
    if CanCombine(s, a) then
      var m := |s.q| - 1;
      var n := Min(s.q[m].room - |s.q[m].data|, |data|);
      s.(q := s.q[m := s.q[m].(data := s.q[m].data + data[..n])], cur := s.cur + n, write := s.write + n)
    else
      var n := Min(s.mss - MAX_RETRY, |data|);
      var syn := first && a.syn;
      var b := OutSeg(s.write, syn, data[..n], false, a.ack || !syn, s.mss - MAX_RETRY);
      s.(q := s.q + [b], cur := (if |s.q| == 0 then 0 else s.cur) + n, write := b.End())
  }

  /** How much of `data` one round takes. */
  function Taken(s: Snd, data: seq<Byte>, a: Ask): (n: nat)
    requires s.mss > MAX_RETRY
    ensures n <= |data|
    ensures |data| > 0 ==> n > 0
  {
    if CanCombine(s, a) then Min(s.q[|s.q| - 1].room - |s.q[|s.q| - 1].data|, |data|) else Min(s.mss - MAX_RETRY, |data|)
  }

  /** The FIN goes onto the last segment, which then counts as full. */
  function MarkFin(s: Snd): Snd
    requires |s.q| > 0
  {
    var m := |s.q| - 1;
    s.(q := s.q[m := s.q[m].(fin := true, room := |s.q[m].data|)], write := s.write + 1)
  }

  datatype Queued = Queued(s: Snd, taken: nat, ok: bool)

  /** The queueing loop; `mem` is how many new segments can be allocated. */
  function Enqueue(s: Snd, data: seq<Byte>, a: Ask, first: bool, mem: nat): Queued
    requires s.mss > MAX_RETRY
    decreases |data|
  {
    if !CanCombine(s, a) && mem == 0 then Queued(s, 0, false) else
    var s1 := Extend(s, data, a, first);
    var n := Taken(s, data, a);
    if n == |data| then Queued(if a.fin then MarkFin(s1) else s1, n, true)
    else
      var rest := Enqueue(s1, data[n..], a, false, if CanCombine(s, a) then mem else mem - 1);
      Queued(rest.s, n + rest.taken, rest.ok)
  }

  // ---------------------------------------------------------------- acknowledgments

  datatype Update = Update(s: Snd, ev: OEvent) | Stale

  /** Takes over the peer's window unless the segment is older than the last update. */
  function SndWnd(s: Snd, p: Packet): Update {
    if !p.ack || p.seqno < s.wndseq || (p.seqno == s.wndseq && p.ackno < s.wndack) then Stale else
    var was := s.wndack + s.wnd;
    var now := p.ackno + p.window;
    Update(
      s.(nxt := if now < was && now < s.nxt then now else s.nxt,
         wnd := p.window, wndseq := p.seqno, wndack := p.ackno, wndmax := Max(s.wndmax, p.window)),
      if was <= now && p.window > 0 then WndOpen else WndClose)
  }

  /** Bytes that can be accepted from the user. */
  function CanWrite(s: Snd, st: State): int {
    if !st.Connected() then 0 else
    var space := s.maxcur - s.cur;
    if space < s.mss && 2 * s.mss <= s.maxcur then 0 else Max(space, 0)
  }
}
