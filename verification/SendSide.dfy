/** The send side as the program runs it: fields updated in place and loops over the retransmission queue. */
module SendSide {
  import opened TcpTypes
  import opened TcpSend
  import opened SendFacts

  class OutQueue {
    var isn: int
    var una: int
    var nxt: int
    var max: int
    var write: int
    var wnd: int
    var wndseq: int
    var wndack: int
    var wndmax: int
    var mss: int
    var segs: seq<OutSeg>
    var cur: int
    var maxcur: int
    var ostate: OState
    var timer: bool
    var nretrans: nat
    var dupacks: nat
    var cwnd: int
    var thresh: int

    /** The value that the connection model works on. */
    function View(): Snd
      reads this
    {
      Snd(isn, una, nxt, max, write, wnd, wndseq, wndack, wndmax, mss, segs, cur, maxcur, ostate, timer, nretrans, dupacks, cwnd, thresh)
    }

    constructor (s: Snd)
      ensures View() == s
    {
      isn, una, nxt, max, write := s.isn, s.una, s.nxt, s.max, s.write;
      wnd, wndseq, wndack, wndmax, mss := s.wnd, s.wndseq, s.wndack, s.wndmax, s.mss;
      segs, cur, maxcur := s.q, s.cur, s.maxcur;
      ostate, timer, nretrans, dupacks := s.ostate, s.timer, s.nretrans, s.dupacks;
      cwnd, thresh := s.cwnd, s.thresh;
    }

    /** Throws everything queued away and rests. */
    method Flush()
      modifies `ostate, `timer, `segs, `cur
      ensures View() == old(View()).(ostate := Idle, timer := false, q := [], cur := 0)
    {
      ostate, timer, segs, cur := Idle, false, [], 0;
    }

    /** Takes the peer's window as it comes with the first acknowledgment. */
    method FirstWindow(window: int, seqno: int, ackno: int)
      modifies `wnd, `wndseq, `wndack
      ensures View() == old(View()).(wnd := window, wndseq := seqno, wndack := ackno)
    {
      wnd, wndseq, wndack := window, seqno, ackno;
    }

    /** The segment size agreed on; the congestion window is then one segment. */
    method SetMss(size: int)
      modifies `mss, `cwnd, `thresh
      ensures View() == Agreed(old(View()), size)
    {
      mss, cwnd := size, size;
      if thresh < 2 * cwnd {
        thresh := 2 * cwnd;
      }
    }

    // -------------------------------------------------------------- sending

    /** Sends a copy of the segment at place `k`, clipped to [w1, w2) and padded for retransmission. */
    method SendSeg(k: nat, padding: nat, w1: int, w2: int, o: Outcome) returns (out: seq<Packet>, wrote: bool, ok: bool)
      requires k < |segs|
      modifies `max
      ensures (SndRes(View(), out, wrote, false), ok) == SndSeg(old(View()), k, padding, w1, w2, o)
    {
      out, wrote, ok := [], false, false;
      var b := segs[k];
      if o == NoMemory || w2 <= b.start || b.End() <= w1 || w2 < w1 {
        return;
      }
      ghost var s := View();
      var p := Clip(b, w1, w2);
      if padding > 0 && b.End() <= w2 && k + 1 < |segs| {
        var b2 := segs[k + 1];
        var n := Min(|b2.data|, padding);
        if n > 0 && b2.start + n <= wndack + wnd && p.syn == b2.syn && p.fin == b2.fin {
          p := p.(data := p.data + b2.data[..n]);
          if max < b2.start + n {
            max := b2.start + n;
          }
        }
      }
      assert p == Padded(s, k, padding, w1, w2);
      wrote, ok := true, o == Sent;
      if ok {
        out := [p];
      }
    }

    /** Sends the segments that fall into the window, skipping what has been sent. */
    method SendHead(e: Env) returns (out: seq<Packet>, wrote: bool)
      modifies `nxt, `max
      ensures SndRes(View(), out, wrote, false) == SndHead(old(View()), e)
    {
      out, wrote := [], false;
      if nxt >= write {
        return;
      }
      var limit := SendLimit(View(), e);
      var wndnxt := wndack + Min(wnd, limit);
      var b := SkipSent();
      assert SndHead(View(), e) == SendFrom(View(), b, wndnxt, e.budget, e.failure);
      out, wrote := SendAll(b, wndnxt, e.budget, e.failure);
    }

    method SkipSent() returns (b: nat)
      ensures b == FirstPast(segs, nxt)
    {
      b := 0;
      while b < |segs| && segs[b].End() <= nxt
        invariant b <= |segs|
        invariant FirstPast(segs, nxt) == b + FirstPast(segs[b..], nxt)
      {
        assert segs[b..][1..] == segs[b + 1..];
        b := b + 1;
      }
    }

    /** The sending loop from place `from` on. */
    method SendAll(from: nat, wndnxt: int, budget: nat, failure: Outcome) returns (out: seq<Packet>, wrote: bool)
      modifies `nxt, `max
      ensures SndRes(View(), out, wrote, false) == SendFrom(old(View()), from, wndnxt, budget, failure)
    {
      hide SendFrom, SendOne;
      ghost var all := SendFrom(View(), from, wndnxt, budget, failure);
      var b, left: nat, go := from, budget, true;
      out, wrote := [], false;
      while go && Goes(View(), b, wndnxt)
        invariant go ==> all == Then(SndRes(View(), out, wrote, false), SendFrom(View(), b, wndnxt, left, failure))
        invariant !go ==> all == SndRes(View(), out, wrote, false)
        decreases go, |segs| - b
      {
        RoundOfSendFrom(View(), b, wndnxt, left, failure, SndRes(View(), out, wrote, false));
        var p, w;
        p, w, go := SendNext(b, wndnxt, if left > 0 then Sent else failure);
        out, wrote, left, b := out + p, wrote || w, if left > 0 then left - 1 else 0, b + 1;
      }
      EndOfSendFrom(View(), b, wndnxt, left, failure, SndRes(View(), out, wrote, false));
    }

    /** One round of the sending loop; with nothing outstanding a failure counts as a loss. */
    method SendNext(b: nat, wndnxt: int, o: Outcome) returns (out: seq<Packet>, wrote: bool, ok: bool)
      requires b < |segs|
      modifies `nxt, `max
      ensures (SndRes(View(), out, wrote, false), ok) == SendOne(old(View()), b, wndnxt, o)
    {
      var end := segs[b].End();
      out, wrote, ok := SendSeg(b, 0, nxt, wndnxt, o);
      if !ok {
        if una == nxt {
          nxt := end;
          if max < nxt {
            max := nxt;
          }
        }
        return;
      }
      nxt := if end <= wndnxt then end else wndnxt;
      if max < nxt {
        max := nxt;
      }
    }

    // -------------------------------------------------------------- acknowledged data

    /** Unlinks the segments that are acknowledged to their end. */
    method Acknowledge()
      modifies `segs, `cur, `nretrans, `cwnd
      ensures View() == DropData(old(View()))
    {
      var n := Unlink();
      if n > 0 {
        nretrans := 0;
        cwnd := Opened(View(), n);
      }
    }

    method Unlink() returns (n: nat)
      modifies `segs, `cur
      ensures n == FirstPast(old(segs), una) && segs == old(segs)[n..]
      ensures cur == if n == |old(segs)| && n > 0 then 0 else old(cur) - SumData(old(segs)[..n])
    {
      ghost var q, c := segs, cur;
      n := 0;
      while |segs| > 0 && segs[0].End() <= una
        invariant n <= |q| && segs == q[n..]
        invariant FirstPast(q, una) == n + FirstPast(segs, una)
        invariant cur == if n == |q| && n > 0 then 0 else c - SumData(q[..n])
        decreases |segs|
      {
        SumDataGrows(q, n);
        cur := if |segs| > 1 then cur - |segs[0].data| else 0;
        segs := segs[1..];
        n := n + 1;
      }
    }

    // -------------------------------------------------------------- the output machine

    /** Sending starts again with one segment. */
    method Restart()
      modifies `cwnd, `thresh
      ensures View() == SlowStart(old(View()))
    {
      if cwnd > thresh {
        thresh := cwnd;
      }
      cwnd := mss;
    }

    /** A timeout halves the threshold, down to two segments. */
    method BackOff()
      modifies `cwnd, `thresh
      ensures View() == Backed(old(View()))
    {
      if cwnd > thresh {
        thresh := cwnd;
      }
      thresh := (if thresh <= wnd then thresh else wnd) / 2;
      if thresh < 2 * mss {
        thresh := 2 * mss;
      }
      cwnd := mss;
    }

    /** Resends the first segment, one byte longer each time; gives up after too many tries. */
    method Retry(e: Env) returns (out: seq<Packet>, wrote: bool, dead: bool)
      modifies `nretrans, `ostate, `max, `timer, `cwnd, `thresh
      ensures SndRes(View(), out, wrote, dead) == Retransmit(old(View()), e)
    {
      hide SndSeg;
      out, wrote, dead := [], false, false;
      nretrans := nretrans + 1;
      if nretrans > MAX_RETRY {
        dead := true;
      } else if |segs| == 0 {
        ostate := Idle;
      } else {
        BackOff();
        var sent;
        out, wrote, sent := SendSeg(0, nretrans, una, nxt, if e.budget > 0 then Sent else e.failure);
        timer := true;
      }
    }

    method ProbeWindow(e: Env) returns (out: seq<Packet>, dead: bool)
      modifies `timer
      ensures SndRes(View(), out, false, dead) == Probe(old(View()), e)
    {
      out, dead := [], e.silent;
      if !dead {
        timer := true;
        if e.budget > 0 {
          out := [Packet(una - 2, [e.bogus], false, false, false, true, 0, 0)];
        }
      }
    }

    /** Drops acknowledged data; with everything acknowledged the timer stops and the machine rests. */
    method AckedAll() returns (rest: bool)
      modifies `segs, `cur, `nretrans, `timer, `ostate, `cwnd
      ensures rest == (una >= write)
      ensures var s1 := DropData(old(View())); View() == if rest then s1.(timer := false, ostate := Idle) else s1
    {
      Acknowledge();
      rest := una >= write;
      if rest {
        timer, ostate := false, Idle;
      }
    }

    method WhenIdle(ev: OEvent, e: Env) returns (out: seq<Packet>, wrote: bool)
      requires ostate == Idle
      modifies `nxt, `max, `ostate, `timer, `cwnd, `thresh
      ensures SndRes(View(), out, wrote, false) == Output(old(View()), ev, e)
    {
      out, wrote := [], false;
      if ev == Send && nxt < write {
        if e.rested {
          Restart();
        }
        out, wrote := SendHead(e);
        ostate := if CanRetrans(View()) then Xmit else Persist;
        timer := true;
      }
    }

    method WhenXmit(ev: OEvent, e: Env) returns (out: seq<Packet>, wrote: bool, dead: bool)
      requires ostate == Xmit
      modifies this
      ensures SndRes(View(), out, wrote, dead) == Output(old(View()), ev, e)
    {
      hide SndHead, Retransmit, DropData;
      out, wrote, dead := [], false, false;
      match ev
      case Send =>
        out, wrote := SendHead(e);
      case WndOpen =>
        out, wrote := SendHead(e);
        if !CanRetrans(View()) { ostate := Persist; }
      case WndClose =>
        if !CanRetrans(View()) { ostate := Persist; }
      case AckRcvd =>
        var _ := AckedAll();
      case Timeout =>
        ostate := Retrans;
        if dupacks >= DUP_THRESHOLD { dupacks := DUP_THRESHOLD - 1; }
        out, wrote, dead := Retry(e);
      case DupAck =>
    }

    /** From the third duplicate acknowledgment on, each one resends one more of the segments already sent. */
    method SendAgain(e: Env) returns (out: seq<Packet>, wrote: bool)
      modifies `max
      ensures SndRes(View(), out, wrote, false) == Resend(old(View()), e)
    {
      out, wrote := [], false;
      if dupacks < DUP_THRESHOLD || !CanRetrans(View()) {
        return;
      }
      var k := dupacks - DUP_THRESHOLD;
      if k < |segs| && segs[k].End() <= nxt {
        var sent;
        out, wrote, sent := SendSeg(k, if k == 0 then nretrans else 0, una, nxt, if e.budget > 0 then Sent else e.failure);
      }
    }

    method WhenRetrans(ev: OEvent, e: Env) returns (out: seq<Packet>, wrote: bool, dead: bool)
      requires ostate == Retrans
      modifies this
      ensures SndRes(View(), out, wrote, dead) == Output(old(View()), ev, e)
    {
      out, wrote, dead := [], false, false;
      match ev
      case Timeout =>
        out, wrote, dead := Retry(e);
      case WndClose =>
        if !CanRetrans(View()) { ostate := Persist; }
      case DupAck =>
        out, wrote := SendAgain(e);
      case AckRcvd =>
        var rest := AckedAll();
        if !rest && una >= nxt {
          Restart();
          out, wrote := SendHead(e);
          ostate := Xmit;
        }
      case _ =>
    }

    method PersistTimeout(e: Env) returns (out: seq<Packet>, wrote: bool, dead: bool)
      modifies this
      ensures SndRes(View(), out, wrote, dead) == OnPersist(old(View()), Timeout, e)
    {
      out, wrote, dead := [], false, false;
      if wnd > 0 {
        wndmax := wnd;
        out, wrote := SendHead(e);
        if CanRetrans(View()) {
          ostate, timer := Xmit, true;
          return;
        }
      }
      var more;
      more, dead := ProbeWindow(e);
      out := out + more;
    }

    method WhenPersist(ev: OEvent, e: Env) returns (out: seq<Packet>, wrote: bool, dead: bool)
      requires ostate == Persist
      modifies this
      ensures SndRes(View(), out, wrote, dead) == Output(old(View()), ev, e)
    {
      out, wrote, dead := [], false, false;
      match ev
      case Timeout =>
        out, wrote, dead := PersistTimeout(e);
      case AckRcvd =>
        var _ := AckedAll();
      case WndOpen =>
        out, wrote := SendHead(e);
        if CanRetrans(View()) { ostate := Xmit; }
      case _ =>
    }

    /** One step of the output machine. */
    method Step(ev: OEvent, e: Env) returns (out: seq<Packet>, wrote: bool, dead: bool)
      modifies this
      ensures SndRes(View(), out, wrote, dead) == Output(old(View()), ev, e)
    {
      dead := false;
      match ostate
      case Idle => out, wrote := WhenIdle(ev, e);
      case Retrans => out, wrote, dead := WhenRetrans(ev, e);
      case Persist => out, wrote, dead := WhenPersist(ev, e);
      case Xmit => out, wrote, dead := WhenXmit(ev, e);
    }

    // -------------------------------------------------------------- the peer's window

    /** Takes over the peer's window; the result is the event for the machine, if the segment was not stale. */
    method UpdateWindow(p: Packet) returns (taken: bool, ev: OEvent)
      modifies `nxt, `wnd, `wndseq, `wndack, `wndmax
      ensures var u := SndWnd(old(View()), p);
        && taken == u.Update?
        && View() == (if taken then u.s else old(View()))
        && (taken ==> ev == u.ev)
    {
      if !p.ack || p.seqno < wndseq || (p.seqno == wndseq && p.ackno < wndack) {
        return false, WndClose;
      }
      var was, now := wndack + wnd, p.ackno + p.window;
      if now < was && now < nxt {
        nxt := now;
      }
      wnd, wndseq, wndack := p.window, p.seqno, p.ackno;
      if wnd > wndmax {
        wndmax := wnd;
      }
      return true, if was <= now && wnd > 0 then WndOpen else WndClose;
    }

    // -------------------------------------------------------------- queueing

    /** Puts data, a SYN or a FIN into the queue, filling the last unsent segment first. */
    method Append(data: seq<Byte>, a: Ask, mem: nat) returns (taken: nat, ok: bool)
      requires mss > MAX_RETRY
      modifies `segs, `cur, `write
      ensures Queued(View(), taken, ok) == Enqueue(old(View()), data, a, true, mem)
    {
      ghost var all := Enqueue(View(), data, a, true, mem);
      var rest, first, left: nat := data, true, mem;
      taken, ok := 0, true;
      while ok && (first || |rest| > 0)
        invariant View() == old(View()).(q := segs, cur := cur, write := write)
        invariant ok && (first || |rest| > 0) ==>
          var more := Enqueue(View(), rest, a, first, left); all == Queued(more.s, taken + more.taken, more.ok)
        invariant !(ok && (first || |rest| > 0)) ==> all == Queued(View(), taken, ok)
        decreases ok, |rest|, first
      {
        var n;
        n, left, ok := AppendOnce(rest, a, first, left);
        rest, taken, first := rest[n..], taken + n, false;
      }
    }

    /** One round of the queueing loop. */
    method AppendOnce(data: seq<Byte>, a: Ask, first: bool, mem: nat) returns (n: nat, left: nat, ok: bool)
      requires mss > MAX_RETRY
      modifies `segs, `cur, `write
      ensures n <= |data| && ok == (CanCombine(old(View()), a) || mem > 0)
      ensures !ok ==> n == 0 && View() == old(View())
      ensures ok ==> n == Taken(old(View()), data, a) && left == if CanCombine(old(View()), a) then mem else mem - 1
      ensures ok ==> var s1 := Extend(old(View()), data, a, first);
        View() == if a.fin && n == |data| then MarkFin(s1) else s1
    {
      n, left, ok := PutData(data, a, first, mem);
      if ok && n == |data| && a.fin {
        FinishLast();
      }
    }

    method PutData(data: seq<Byte>, a: Ask, first: bool, mem: nat) returns (n: nat, left: nat, ok: bool)
      requires mss > MAX_RETRY
      modifies `segs, `cur, `write
      ensures ok == (CanCombine(old(View()), a) || mem > 0)
      ensures !ok ==> n == 0 && View() == old(View())
      ensures ok ==> n == Taken(old(View()), data, a) && left == if CanCombine(old(View()), a) then mem else mem - 1
      ensures ok ==> View() == Extend(old(View()), data, a, first) && |segs| > 0
    {
      left, ok, n := mem, true, 0;
      var last := |segs| - 1;
      if |segs| > 0 && max <= segs[last].start && !a.syn && segs[last].room - |segs[last].data| > 0 {
        n := Min(segs[last].room - |segs[last].data|, |data|);
        FillLast(data[..n]);
      } else if mem == 0 {
        ok := false;
      } else {
        left := mem - 1;
        n := Min(mss - MAX_RETRY, |data|);
        NewSegment(data[..n], a, first && a.syn);
      }
    }

    method FillLast(data: seq<Byte>)
      requires |segs| > 0
      modifies `segs, `cur, `write
      ensures var last := |old(segs)| - 1;
        && segs == old(segs)[last := old(segs)[last].(data := old(segs)[last].data + data)]
        && cur == old(cur) + |data| && write == old(write) + |data|
    {
      var last := |segs| - 1;
      segs := segs[last := segs[last].(data := segs[last].data + data)];
      cur, write := cur + |data|, write + |data|;
    }

    method NewSegment(data: seq<Byte>, a: Ask, syn: bool)
      requires mss > MAX_RETRY
      modifies `segs, `cur, `write
      ensures var b := OutSeg(old(write), syn, data, false, a.ack || !syn, mss - MAX_RETRY);
        && segs == old(segs) + [b] && write == b.End()
        && cur == (if |old(segs)| == 0 then 0 else old(cur)) + |data|
    {
      var b := OutSeg(write, syn, data, false, a.ack || !syn, mss - MAX_RETRY);
      if |segs| == 0 {
        cur := |data|;
      } else {
        cur := cur + |data|;
      }
      segs := segs + [b];
      write := write + Bit(syn) + |data|;
    }

    method FinishLast()
      requires |segs| > 0
      modifies `segs, `write
      ensures View() == MarkFin(old(View()))
    {
      var last := |segs| - 1;
      segs := segs[last := segs[last].(fin := true, room := |segs[last].data|)];
      write := write + 1;
    }
  }

  predicate Goes(s: Snd, k: nat, wndnxt: int) {
    k < |s.q| && (s.q[k].End() <= wndnxt || (s.nxt < wndnxt && 2 * (wndnxt - s.nxt) > s.wndmax))
  }

  lemma {:induction false} EndOfSendFrom(s: Snd, k: nat, wndnxt: int, budget: nat, failure: Outcome, done: SndRes)
    ensures !Goes(s, k, wndnxt) && done.s == s && !done.dead ==> Then(done, SendFrom(s, k, wndnxt, budget, failure)) == done
  {
  }

  /** One round of the sending loop, appended to what earlier rounds did. */
  lemma {:induction false} RoundOfSendFrom(s: Snd, k: nat, wndnxt: int, budget: nat, failure: Outcome, done: SndRes)
    requires Goes(s, k, wndnxt) && done.s == s && !done.dead
    ensures var (r, ok) := SendOne(s, k, wndnxt, if budget > 0 then Sent else failure);
      var next := SndRes(r.s, done.out + r.out, done.wrote || r.wrote, false);
      Then(done, SendFrom(s, k, wndnxt, budget, failure)) ==
        if ok then Then(next, SendFrom(r.s, k + 1, wndnxt, if budget > 0 then budget - 1 else 0, failure)) else next
  {
    var (r, ok) := SendOne(s, k, wndnxt, if budget > 0 then Sent else failure);
    if ok {
      var rest := SendFrom(r.s, k + 1, wndnxt, if budget > 0 then budget - 1 else 0, failure);
      assert (done.out + r.out) + rest.out == done.out + (r.out + rest.out);
    }
  }

  lemma {:induction false} SumDataGrows(q: seq<OutSeg>, n: nat)
    requires n < |q|
    ensures SumData(q[..n + 1]) == SumData(q[..n]) + |q[n].data|
  {
    SumDataLast(q[..n], q[n]);
    assert q[..n + 1] == q[..n] + [q[n]];
  }
}
