/** What goes out: the sending loop hands down everything that the windows allow, and nothing else. */
module Sending {
  import opened TcpTypes
  import opened TcpSend
  import opened SendFacts

  /** The packets follow each other without a gap from number `a` to number `b`. */
  ghost predicate RunsFrom(out: seq<Packet>, a: int, b: int) {
    if |out| == 0 then a == b
    else out[0].seqno == a && out[0].Len() > 0 && RunsFrom(out[1..], a + out[0].Len(), b)
  }

  predicate Occupied(p: Packet, x: int) { p.seqno <= x < p.seqno + p.Len() }

  /** So every number from `a` to `b` is in one of them, and no other. */
  lemma {:induction false} RunCovers(out: seq<Packet>, a: int, b: int, x: int)
    requires RunsFrom(out, a, b)
    ensures a <= b
    ensures a <= x < b <==> exists i :: 0 <= i < |out| && Occupied(out[i], x)
  {
    if |out| > 0 {
      var next := a + out[0].Len();
      RunCovers(out[1..], next, b, x);
      if next <= x < b {
        var i :| 0 <= i < |out[1..]| && Occupied(out[1..][i], x);
        assert Occupied(out[i + 1], x);
      }
      if i :| 0 <= i < |out| && Occupied(out[i], x) {
        if i > 0 { assert Occupied(out[1..][i - 1], x); }
      }
    }
  }

  /** Sending stops at `x`: all is sent, or the segment there does not fit and no large part of it either. */
  ghost predicate StopsAt(s: Snd, limit: int, x: int) {
    || x == s.write
    || exists k :: 0 <= k < |s.q| && HasWithin(s.q[k], x) && TooLong(s, s.q[k], limit, x)
  }

  predicate HasWithin(b: OutSeg, x: int) { b.start <= x < b.End() }

  predicate TooLong(s: Snd, b: OutSeg, limit: int, x: int) {
    limit < b.End() && (limit <= x || 2 * (limit - x) <= s.wndmax)
  }

  /** From `s` everything up to `limit` has been sent that is worth sending: `out` holds it and `x` is next. */
  ghost predicate Greedy(s: Snd, limit: int, out: seq<Packet>, x: int) {
    && RunsFrom(out, s.nxt, x) && x <= Max(s.nxt, limit) && StopsAt(s, limit, x)
  }

  /** A whole segment, or the part of it up to the limit. */
  lemma {:induction false} OneGoesOut(s: Snd, k: nat, limit: int, str: seq<Byte>, closed: bool)
    requires QueueOk(s.q, s.isn, s.write, str, closed) && k < |s.q| && HasWithin(s.q[k], s.nxt) && s.nxt < limit
    ensures var (r, ok) := SendOne(s, k, limit, Sent);
      && ok && |r.out| == 1 && RunsFrom(r.out, s.nxt, r.s.nxt)
      && r.s == s.(nxt := Min(s.q[k].End(), limit), max := Max(s.max, r.s.nxt))
  {
    hide QueueOk, Clip;
    PaddedIsGenuine(s, k, 0, s.nxt, limit, str, closed);
    var (r, ok) := SendOne(s, k, limit, Sent);
    var p := Padded(s, k, 0, s.nxt, limit);
    assert r.out == [p];
    PaddedStarts(s, k, 0, s.nxt, limit);
    OneRuns(p);
  }

  lemma {:induction false} PaddedStarts(s: Snd, k: nat, nretrans: nat, w1: int, w2: int)
    requires k < |s.q| && !Outside(s.q[k], w1, w2) && w1 <= w2
    ensures Padded(s, k, nretrans, w1, w2).seqno == Max(w1, s.q[k].start)
  {
  }

  lemma OneRuns(p: Packet)
    requires p.Len() > 0
    ensures RunsFrom([p], p.seqno, p.seqno + p.Len())
  {
    assert [p][1..] == [];
  }

  lemma {:induction false} RunsOn(a: seq<Packet>, b: seq<Packet>, x: int, y: int, z: int)
    requires RunsFrom(a, x, y) && RunsFrom(b, y, z)
    ensures RunsFrom(a + b, x, z)
  {
    if |a| > 0 {
      RunsOn(a[1..], b, x + a[0].Len(), y, z);
      assert (a + b)[1..] == a[1..] + b;
    } else {
      assert a + b == b;
    }
  }

  /** Segment `k` starts where segment `k - 1` ends, and the last one ends the queue. */
  lemma {:induction false} NextSegment(s: Snd, k: nat, str: seq<Byte>, closed: bool)
    requires QueueOk(s.q, s.isn, s.write, str, closed) && k < |s.q|
    ensures k + 1 < |s.q| ==> HasWithin(s.q[k + 1], s.q[k].End())
    ensures k + 1 == |s.q| ==> s.q[k].End() == s.write
    ensures s.q[k].End() <= s.write
  {
    ChainOrder(s.q, s.write, k);
    if k + 1 < |s.q| { assert SegOk(s.q[k + 1], s.isn, str, closed); }
  }

  predicate Qualifies(s: Snd, b: OutSeg, limit: int) {
    b.End() <= limit || (s.nxt < limit && 2 * (limit - s.nxt) > s.wndmax)
  }

  /** One round of the loop. */
  lemma {:induction false} LoopUnfolds(s: Snd, k: nat, limit: int, budget: nat, failure: Outcome)
    ensures k >= |s.q| || !Qualifies(s, s.q[k], limit) ==> SendFrom(s, k, limit, budget, failure) == Quiet(s)
    ensures k < |s.q| && Qualifies(s, s.q[k], limit) && budget > 0 ==>
      var (r, ok) := SendOne(s, k, limit, Sent);
      SendFrom(s, k, limit, budget, failure) == if ok then Then(r, SendFrom(r.s, k + 1, limit, budget - 1, failure)) else r
  {
    hide SendOne;
  }

  lemma {:induction false} GreedyThen(s: Snd, s1: Snd, limit: int, a: seq<Packet>, b: seq<Packet>, x: int)
    requires RunsFrom(a, s.nxt, s1.nxt) && Greedy(s1, limit, b, x) && s1.nxt <= Max(s.nxt, limit)
    requires s1 == s.(nxt := s1.nxt, max := s1.max)
    ensures Greedy(s, limit, a + b, x)
  {
    RunsOn(a, b, s.nxt, s1.nxt, x);
  }

  /** The sending loop, when the layers below take everything. */
  lemma {:induction false} LoopIsGreedy(s: Snd, k: nat, limit: int, budget: nat, failure: Outcome, str: seq<Byte>, closed: bool)
    requires QueueOk(s.q, s.isn, s.write, str, closed) && Pointers(s) && k <= |s.q| && |s.q| - k <= budget
    requires if k < |s.q| then HasWithin(s.q[k], s.nxt) else s.nxt == s.write
    ensures var r := SendFrom(s, k, limit, budget, failure);
      && Greedy(s, limit, r.out, r.s.nxt) && !r.dead
      && r.s == s.(nxt := r.s.nxt, max := Max(s.max, r.s.nxt))
    decreases |s.q| - k
  {
    hide QueueOk, SendOne, SendFrom, RunsFrom;
    LoopUnfolds(s, k, limit, budget, failure);
    if k >= |s.q| || !Qualifies(s, s.q[k], limit) {
      NothingRuns(s.nxt);
    } else {
      OneGoesOut(s, k, limit, str, closed);
      NextSegment(s, k, str, closed);
      var (r, ok) := SendOne(s, k, limit, Sent);
      if s.q[k].End() <= limit {
        LoopIsGreedy(r.s, k + 1, limit, budget - 1, failure, str, closed);
        var rest := SendFrom(r.s, k + 1, limit, budget - 1, failure);
        RunCovers(rest.out, r.s.nxt, rest.s.nxt, limit);
        GreedyThen(s, r.s, limit, r.out, rest.out, rest.s.nxt);
      } else {
        LoopUnfolds(r.s, k + 1, limit, budget - 1, failure);
        NothingRuns(limit);
        assert HasWithin(s.q[k], limit) && TooLong(s, s.q[k], limit, limit);
        GreedyThen(s, r.s, limit, r.out, [], limit);
        assert r.out + [] == r.out;
      }
    }
  }

  lemma NothingRuns(x: int)
    ensures RunsFrom([], x, x)
  {
  }

  /** With nothing sent beyond `snd_una` taken back, the sending routine is greedy up to its limit. */
  lemma {:induction false} HeadIsGreedy(s: Snd, e: Env, str: seq<Byte>, closed: bool)
    requires SndOk(s, str, closed) && s.una <= s.nxt && |s.q| <= e.budget
    ensures var r := SndHead(s, e);
      && Greedy(s, Reach(s, e), r.out, r.s.nxt) && !r.dead
      && r.s == s.(nxt := r.s.nxt, max := Max(s.max, r.s.nxt))
  {
    hide QueueOk, RunsFrom, SendFrom;
    NothingRuns(s.nxt);
    if s.nxt < s.write {
      var k := FirstPast(s.q, s.nxt);
      StartsAtNext(s, k, str, closed);
      LoopIsGreedy(s, k, Reach(s, e), e.budget, e.failure, str, closed);
    }
  }

  /** How far the peer's window, the congestion window and Nagle's rule let the machine send. */
  function Reach(s: Snd, e: Env): int { s.wndack + Min(s.wnd, SendLimit(s, e)) }

  lemma {:induction false} StartsAtNext(s: Snd, k: nat, str: seq<Byte>, closed: bool)
    requires SndOk(s, str, closed) && s.una <= s.nxt < s.write && k == FirstPast(s.q, s.nxt)
    ensures k < |s.q| && HasWithin(s.q[k], s.nxt)
  {
    if |s.q| > 0 { ChainOrder(s.q, s.write, |s.q| - 1); }
    if k > 0 { ChainOrder(s.q, s.write, k - 1); }
  }
}
