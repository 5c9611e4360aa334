/** The interface queue: two priorities served by weighted round robin (kernel/if.c). */
module IfQueue {
  import opened Common

  const PRIORITIES := 2
  const SHORT := 0x1_0000

  /** Packets are named by numbers; `curr` is a signed 16-bit word. */
  datatype Queue = Queue(maxqlen: int, qlen: int, curr: int, que: seq<seq<nat>>)

  /** The low 16 bits as a signed word. */
  function Short(v: int): (s: int)
    ensures -(SHORT / 2) <= s < SHORT / 2
  {
    (v + SHORT / 2) % SHORT - SHORT / 2
  }

  /** Whose turn the counter says it is. */
  function Turn(curr: int): (n: nat)
    ensures n < PRIORITIES
  {
    curr / 2 % 2
  }

  ghost predicate Valid(q: Queue) { |q.que| == PRIORITIES && q.qlen == |q.que[0]| + |q.que[1]| }

  /** Unknown priorities count as the lowest. */
  function Priority(pri: int): (n: nat)
    ensures n < PRIORITIES
  {
    if 0 <= pri < PRIORITIES then pri else PRIORITIES - 1
  }

  // ---------------------------------------------------------------- operations on values

  function Enqueue(q: Queue, buf: nat, pri: int): Queue
    requires |q.que| == PRIORITIES
  {
    if q.qlen >= q.maxqlen then q else
    var p := Priority(pri);
    q.(qlen := q.qlen + 1, que := q.que[p := q.que[p] + [buf]])
  }

  function Putback(q: Queue, buf: nat, pri: int): Queue
    requires |q.que| == PRIORITIES
  {
    if q.qlen >= q.maxqlen then q else
    var p := Priority(pri);
    q.(qlen := q.qlen + 1, que := q.que[p := [buf] + q.que[p]])
  }

  /** The queue that is served next: the one whose turn it is, or the other if that is empty. */
  function Served(q: Queue): (n: nat)
    requires |q.que| == PRIORITIES
    ensures n < PRIORITIES
  {
    var t := Turn(q.curr);
    if |q.que[t]| > 0 then t else 1 - t
  }

  function Dequeue(q: Queue): (Queue, Option<nat>)
    requires Valid(q)
  {
    if q.qlen <= 0 then (q, None) else
    var n := Served(q);
    var from := if n == Turn(q.curr) then q.curr else 2 * n;
    (q.(qlen := q.qlen - 1, curr := Short(from + 2 - n), que := q.que[n := q.que[n][1..]]), Some(q.que[n][0]))
  }

  // ---------------------------------------------------------------- the turn counter

  /** Sixteen-bit wrap-around does not disturb whose turn it is. */
  lemma {:induction false} WrapKeepsTurn(v: int)
    ensures Short(v) % 4 == v % 4 && Turn(Short(v)) == Turn(v)
  {
    var s := Short(v);
    assert (v + SHORT / 2) == SHORT * ((v + SHORT / 2) / SHORT) + (v + SHORT / 2) % SHORT;
    assert s == v - SHORT * ((v + SHORT / 2) / SHORT);
    assert s == v - 4 * (16384 * ((v + SHORT / 2) / SHORT));
    TurnIsPhase(s);
    TurnIsPhase(v);
  }

  /** The counter's last two bits: 0 and 1 mean the first queue, 2 and 3 the second. */
  lemma {:induction false} TurnIsPhase(v: int)
    ensures Turn(v) == (if v % 4 < 2 then 0 else 1)
  {
  }

  /** How a dequeue moves the phase. */
  lemma {:induction false} PhaseMoves(q: Queue)
    requires Valid(q) && q.qlen > 0
    ensures var c, n := q.curr % 4, Served(q);
      Dequeue(q).0.curr % 4 ==
        if n == 0 then (if c == 1 then 3 else 2) else (if c == 3 then 0 else 3)
  {
    TurnIsPhase(q.curr);
    var n := Served(q);
    var from := if n == Turn(q.curr) then q.curr else 2 * n;
    WrapKeepsTurn(from + 2 - n);
    PhaseAdds(from, 2 - n);
  }

  lemma {:induction false} PhaseAdds(c: int, k: int)
    ensures (c + k) % 4 == (c % 4 + k) % 4
  {
    var d := c / 4;
    assert c == 4 * d + c % 4;
    SameModulo(c % 4 + k, d);
  }

  lemma {:induction false} SameModulo(x: int, d: int)
    ensures (4 * d + x) % 4 == x % 4
  {
  }

  /** While the first queue has packets, it is served at least once in three dequeues. */
  lemma {:induction false} FirstInThree(a: Queue, b: Queue, c: Queue)
    requires Valid(a) && Valid(b) && Valid(c) && |a.que[0]| > 0 && |b.que[0]| > 0 && |c.que[0]| > 0
    requires b.curr == Dequeue(a).0.curr && c.curr == Dequeue(b).0.curr
    ensures Served(a) == 0 || Served(b) == 0 || Served(c) == 0
  {
    PhaseMoves(a);
    PhaseMoves(b);
    TurnIsPhase(a.curr);
    TurnIsPhase(b.curr);
    TurnIsPhase(c.curr);
  }

  /** While the second queue has packets, it is served at least once in two dequeues. */
  lemma {:induction false} SecondInTwo(a: Queue, b: Queue)
    requires Valid(a) && Valid(b) && |a.que[1]| > 0 && |b.que[1]| > 0
    requires b.curr == Dequeue(a).0.curr
    ensures Served(a) == 1 || Served(b) == 1
  {
    PhaseMoves(a);
    TurnIsPhase(a.curr);
    TurnIsPhase(b.curr);
  }

  // ---------------------------------------------------------------- runs

  datatype Op = Enq(buf: nat, pri: int) | Put(buf: nat, pri: int) | Deq

  function Step(q: Queue, op: Op): Queue
    requires Valid(q)
  {
    match op
    case Enq(b, p) => Enqueue(q, b, p)
    case Put(b, p) => Putback(q, b, p)
    case Deq => Dequeue(q).0
  }

  lemma {:induction false} StepKeepsValid(q: Queue, op: Op)
    requires Valid(q)
    ensures Valid(Step(q, op))
    ensures !op.Deq? ==> Step(q, op).curr == q.curr
  {
  }

  /** The states of a run, one before each operation and one at the end. */
  ghost predicate IsRun(qs: seq<Queue>, ops: seq<Op>) {
    && |qs| == |ops| + 1 && Valid(qs[0])
    && forall i :: 0 <= i < |ops| ==> Valid(qs[i]) ==> qs[i + 1] == Step(qs[i], ops[i])
  }

  lemma {:induction false} RunIsValid(qs: seq<Queue>, ops: seq<Op>, n: nat)
    requires IsRun(qs, ops) && n < |qs|
    ensures Valid(qs[n])
  {
    if n > 0 {
      RunIsValid(qs, ops, n - 1);
      StepKeepsValid(qs[n - 1], ops[n - 1]);
    }
  }

  /** Between two dequeues the counter rests. */
  lemma {:induction false} CounterRests(qs: seq<Queue>, ops: seq<Op>, i: nat, j: nat)
    requires IsRun(qs, ops) && i <= j < |qs| && forall k :: i <= k < j ==> !ops[k].Deq?
    ensures qs[j].curr == qs[i].curr
    decreases j
  {
    if i < j {
      CounterRests(qs, ops, i, j - 1);
      RunIsValid(qs, ops, j - 1);
      StepKeepsValid(qs[j - 1], ops[j - 1]);
    }
  }

  ghost predicate NextDequeue(ops: seq<Op>, i: nat, j: nat) {
    i < j < |ops| && ops[i].Deq? && ops[j].Deq? && forall k :: i < k < j ==> !ops[k].Deq?
  }

  lemma {:induction false} CounterCarries(qs: seq<Queue>, ops: seq<Op>, i: nat, j: nat)
    requires IsRun(qs, ops) && NextDequeue(ops, i, j)
    ensures Valid(qs[i]) && Valid(qs[j]) && qs[j].curr == Dequeue(qs[i]).0.curr
  {
    RunIsValid(qs, ops, i);
    RunIsValid(qs, ops, j);
    CounterRests(qs, ops, i + 1, j);
  }

  /** Fairness over runs, whatever is queued in between. */
  lemma {:induction false} Fairness(qs: seq<Queue>, ops: seq<Op>, i: nat, j: nat, k: nat)
    requires IsRun(qs, ops) && NextDequeue(ops, i, j) && NextDequeue(ops, j, k)
    ensures Valid(qs[i]) && Valid(qs[j]) && Valid(qs[k])
    ensures |qs[i].que[0]| > 0 && |qs[j].que[0]| > 0 && |qs[k].que[0]| > 0 ==>
      Served(qs[i]) == 0 || Served(qs[j]) == 0 || Served(qs[k]) == 0
    ensures |qs[i].que[1]| > 0 && |qs[j].que[1]| > 0 ==> Served(qs[i]) == 1 || Served(qs[j]) == 1
  {
    CounterCarries(qs, ops, i, j);
    CounterCarries(qs, ops, j, k);
    if |qs[i].que[0]| > 0 && |qs[j].que[0]| > 0 && |qs[k].que[0]| > 0 { FirstInThree(qs[i], qs[j], qs[k]); }
    if |qs[i].que[1]| > 0 && |qs[j].que[1]| > 0 { SecondInTwo(qs[i], qs[j]); }
  }

  /** What one operation brings in for priority `p`. */
  function Entering(q: Queue, op: Op, p: nat): seq<nat> {
    if !op.Deq? && Priority(op.pri) == p && q.qlen < q.maxqlen then [op.buf] else []
  }

  /** What one operation hands out of priority `p`. */
  function Leaving(q: Queue, op: Op, p: nat): seq<nat>
    requires Valid(q)
  {
    if op.Deq? && q.qlen > 0 && Served(q) == p then [Dequeue(q).1.value] else []
  }

  lemma {:induction false} StepIsFifo(q: Queue, op: Op, p: nat)
    requires Valid(q) && p < PRIORITIES && !op.Put?
    ensures |Step(q, op).que| == PRIORITIES
    ensures q.que[p] + Entering(q, op, p) == Leaving(q, op, p) + Step(q, op).que[p]
  {
    if op.Deq? && q.qlen > 0 && Served(q) == p {
      assert q.que[p] == [q.que[p][0]] + q.que[p][1..];
    }
  }

  lemma {:induction false} StepConserves(q: Queue, op: Op, p: nat)
    requires Valid(q) && p < PRIORITIES
    ensures |Step(q, op).que| == PRIORITIES
    ensures multiset(q.que[p]) + multiset(Entering(q, op, p)) == multiset(Leaving(q, op, p)) + multiset(Step(q, op).que[p])
  {
    var was, now, x, y := q.que[p], Step(q, op).que[p], Entering(q, op, p), Leaving(q, op, p);
    if op.Put? {
      assert now == x + was && y == [];
    } else {
      StepIsFifo(q, op, p);
      SameBags(was, x, y, now);
    }
  }

  lemma {:induction false} SameBags(a: seq<nat>, b: seq<nat>, c: seq<nat>, d: seq<nat>)
    requires a + b == c + d
    ensures multiset(a) + multiset(b) == multiset(c) + multiset(d)
  {
    assert multiset(a + b) == multiset(c + d);
  }

  /** Packets accepted for priority `p` in the first `n` operations, in order. */
  ghost function Accepted(qs: seq<Queue>, ops: seq<Op>, p: nat, n: nat): seq<nat>
    requires IsRun(qs, ops) && n <= |ops|
  {
    if n == 0 then [] else Accepted(qs, ops, p, n - 1) + Entering(qs[n - 1], ops[n - 1], p)
  }

  /** Packets of priority `p` handed out in the first `n` operations, in order. */
  ghost function HandedOut(qs: seq<Queue>, ops: seq<Op>, p: nat, n: nat): seq<nat>
    requires IsRun(qs, ops) && n <= |ops|
  {
    if n == 0 then [] else
    RunIsValid(qs, ops, n - 1);
    HandedOut(qs, ops, p, n - 1) + Leaving(qs[n - 1], ops[n - 1], p)
  }

  /** Without putting back, each priority is first in, first out. */
  lemma {:induction false} FirstInFirstOut(qs: seq<Queue>, ops: seq<Op>, p: nat, n: nat)
    requires IsRun(qs, ops) && n <= |ops| && p < PRIORITIES && forall i :: 0 <= i < n ==> !ops[i].Put?
    ensures Valid(qs[n]) && Valid(qs[0])
    ensures qs[0].que[p] + Accepted(qs, ops, p, n) == HandedOut(qs, ops, p, n) + qs[n].que[p]
  {
    RunIsValid(qs, ops, n);
    if n > 0 {
      RunIsValid(qs, ops, n - 1);
      FirstInFirstOut(qs, ops, p, n - 1);
      StepIsFifo(qs[n - 1], ops[n - 1], p);
      Chain(qs[0].que[p], Accepted(qs, ops, p, n - 1), HandedOut(qs, ops, p, n - 1), qs[n - 1].que[p],
            Entering(qs[n - 1], ops[n - 1], p), Leaving(qs[n - 1], ops[n - 1], p), qs[n].que[p]);
    } else {
      assert qs[0].que[p] + [] == [] + qs[0].que[p];
    }
  }

  lemma {:induction false} Chain(q: seq<nat>, a: seq<nat>, h: seq<nat>, q1: seq<nat>, x: seq<nat>, y: seq<nat>, q2: seq<nat>)
    requires q + a == h + q1 && q1 + x == y + q2
    ensures q + (a + x) == (h + y) + q2
  {
    assert q + (a + x) == (q + a) + x && (h + q1) + x == h + (q1 + x) && h + (y + q2) == (h + y) + q2;
  }

  /** Nothing is lost or made up, with or without putting back. */
  lemma {:induction false} PacketsConserved(qs: seq<Queue>, ops: seq<Op>, p: nat, n: nat)
    requires IsRun(qs, ops) && n <= |ops| && p < PRIORITIES
    ensures Valid(qs[n]) && Valid(qs[0])
    ensures multiset(qs[0].que[p]) + multiset(Accepted(qs, ops, p, n)) ==
      multiset(HandedOut(qs, ops, p, n)) + multiset(qs[n].que[p])
  {
    RunIsValid(qs, ops, n);
    if n > 0 {
      RunIsValid(qs, ops, n - 1);
      PacketsConserved(qs, ops, p, n - 1);
      StepConserves(qs[n - 1], ops[n - 1], p);
      ChainBags(qs[0].que[p], Accepted(qs, ops, p, n - 1), HandedOut(qs, ops, p, n - 1), qs[n - 1].que[p],
                Entering(qs[n - 1], ops[n - 1], p), Leaving(qs[n - 1], ops[n - 1], p), qs[n].que[p]);
    }
  }

  lemma {:induction false} ChainBags(q: seq<nat>, a: seq<nat>, h: seq<nat>, q1: seq<nat>, x: seq<nat>, y: seq<nat>, q2: seq<nat>)
    requires multiset(q) + multiset(a) == multiset(h) + multiset(q1)
    requires multiset(q1) + multiset(x) == multiset(y) + multiset(q2)
    ensures multiset(q) + multiset(a + x) == multiset(h + y) + multiset(q2)
  {
    forall v ensures (multiset(q) + multiset(a + x))[v] == (multiset(h + y) + multiset(q2))[v] {
      assert (multiset(q) + multiset(a))[v] == (multiset(h) + multiset(q1))[v];
      assert (multiset(q1) + multiset(x))[v] == (multiset(y) + multiset(q2))[v];
    }
  }

  /** While nothing is put back, a packet stays first of its priority until it is handed out. */
  lemma {:induction false} HeadStays(qs: seq<Queue>, ops: seq<Op>, m: nat, n: nat, p: nat, b: nat)
    requires IsRun(qs, ops) && m <= n < |qs| && p < PRIORITIES && Valid(qs[m]) && |qs[m].que[p]| > 0 && qs[m].que[p][0] == b
    requires forall x :: m <= x < n ==> !ops[x].Put? && (ops[x].Deq? ==> Valid(qs[x]) ==> Served(qs[x]) != p)
    ensures Valid(qs[n]) && |qs[n].que[p]| > 0 && qs[n].que[p][0] == b
    decreases n
  {
    RunIsValid(qs, ops, n);
    if m < n { HeadStays(qs, ops, m, n - 1, p, b); }
  }

  /**
   * Priority 0 is urgent: such a packet, accepted when no other is waiting, is handed out by one of the next three
   * dequeues, however much is queued behind it; one of the other priority by one of the next two.
   */
  lemma {:induction false} UrgentIsServed(qs: seq<Queue>, ops: seq<Op>, m: nat, i: nat, j: nat, k: nat, b: nat, pri: int)
    requires IsRun(qs, ops) && m < i && NextDequeue(ops, i, j) && NextDequeue(ops, j, k)
    requires forall x :: m < x < i ==> !ops[x].Deq?
    requires forall x :: m < x < k ==> !ops[x].Put?
    requires Valid(qs[m]) && ops[m] == Enq(b, pri) && qs[m].qlen < qs[m].maxqlen
    ensures Valid(qs[i]) && Valid(qs[j]) && Valid(qs[k])
    ensures pri == 0 && qs[m].que[0] == [] ==>
      Some(b) in {Dequeue(qs[i]).1, Dequeue(qs[j]).1, Dequeue(qs[k]).1}
    ensures pri != 0 && qs[m].que[1] == [] ==> Some(b) in {Dequeue(qs[i]).1, Dequeue(qs[j]).1}
  {
    Fairness(qs, ops, i, j, k);
    var p := if pri == 0 then 0 else 1;
    if qs[m].que[p] == [] {
      RunIsValid(qs, ops, m + 1);
      assert qs[m + 1] == Step(qs[m], ops[m]);
      HeadStays(qs, ops, m + 1, i, p, b);
      if Served(qs[i]) != p {
        HeadStays(qs, ops, i, j, p, b);
        if Served(qs[j]) != p && p == 0 { HeadStays(qs, ops, j, k, p, b); }
      }
    }
  }

  // ---------------------------------------------------------------- as the program runs it

  class Ifq {
    var maxqlen: int
    var qlen: int
    var curr: int
    var que: seq<seq<nat>>

    ghost function View(): Queue
      reads this
    {
      Queue(maxqlen, qlen, curr, que)
    }

    constructor (max: int)
      ensures View() == Queue(max, 0, 0, [[], []]) && Valid(View())
    {
      maxqlen, qlen, curr, que := max, 0, 0, [[], []];
    }

    /** Queues a packet; false means the queue was full and the packet dropped. */
    method Append(buf: nat, pri: int) returns (ok: bool)
      requires Valid(View())
      modifies `qlen, `que
      ensures View() == Enqueue(old(View()), buf, pri) && Valid(View())
      ensures ok == (old(qlen) < maxqlen)
    {
      if qlen >= maxqlen {
        return false;
      }
      var p := if 0 <= pri < PRIORITIES then pri else PRIORITIES - 1;
      que := que[p := que[p] + [buf]];
      qlen := qlen + 1;
      return true;
    }

    /** Puts a packet back at the head of its queue. */
    method PutFirst(buf: nat, pri: int) returns (ok: bool)
      requires Valid(View())
      modifies `qlen, `que
      ensures View() == Putback(old(View()), buf, pri) && Valid(View())
      ensures ok == (old(qlen) < maxqlen)
    {
      if qlen >= maxqlen {
        return false;
      }
      var p := if 0 <= pri < PRIORITIES then pri else PRIORITIES - 1;
      que := que[p := [buf] + que[p]];
      qlen := qlen + 1;
      return true;
    }

    /** Hands out the next packet: the queue whose turn it is first, then the others. */
    method Next() returns (r: Option<nat>)
      requires Valid(View())
      modifies `qlen, `curr, `que
      ensures (View(), r) == Dequeue(old(View())) && Valid(View())
    {
      r := None;
      if qlen <= 0 {
        return;
      }
      var n, i := Turn(curr), PRIORITIES;
      while i > 0 && |que[n]| == 0
        invariant 0 <= i <= PRIORITIES && 0 <= n < PRIORITIES
        invariant i == PRIORITIES ==> n == Turn(curr)
        invariant i == 1 ==> n == 1 - Turn(curr) && |que[Turn(curr)]| == 0
        invariant i == 0 ==> |que[0]| == 0 && |que[1]| == 0
      {
        i, n := i - 1, (n + 1) % PRIORITIES;
      }
      assert i > 0 && n == Served(View());
      r := Some(que[n][0]);
      que := que[n := que[n][1..]];
      if i < PRIORITIES {
        curr := 2 * n;
      }
      curr := Short(curr + PRIORITIES - n);
      qlen := qlen - 1;
    }

    /** Throws all packets away; the turn stays where it is. */
    method Flush()
      requires Valid(View())
      modifies `qlen, `que
      ensures View() == old(View()).(qlen := 0, que := [[], []]) && Valid(View())
    {
      var i := 0;
      while i < PRIORITIES
        invariant 0 <= i <= PRIORITIES && |que| == PRIORITIES
        invariant forall j :: 0 <= j < i ==> que[j] == []
      {
        que := que[i := []];
        i := i + 1;
      }
      assert que == [[], []];
      qlen := 0;
    }
  }
}
