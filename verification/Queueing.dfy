/** What a write call takes: as much as the send buffer, the last segment and the memory have room for. */
module Queueing {
  import opened TcpTypes
  import opened TcpSend
  import opened TcpSystem
  import opened SendFacts

  const DATA := Ask(false, false, false)

  /** Bytes that the last segment can still take. */
  function LastRoom(s: Snd, a: Ask): nat {
    if CanCombine(s, a) then s.q[|s.q| - 1].room - |s.q[|s.q| - 1].data| else 0
  }

  /** After one round that did not take everything, the last segment is full. */
  lemma {:induction false} FullAfterRound(s: Snd, data: seq<Byte>, first: bool)
    requires s.mss > MAX_RETRY && Taken(s, data, DATA) < |data|
    ensures LastRoom(Extend(s, data, DATA, first), DATA) == 0 && Extend(s, data, DATA, first).mss == s.mss
  {
  }

  function Space(room: nat, mem: nat, size: nat): nat { room + mem * size }

  lemma {:induction false} OneSegmentLess(n: nat, mem: nat, size: nat)
    ensures mem > 0 ==> Space(0, mem, size) == size + Space(0, mem - 1, size)
    ensures Space(n, mem, size) == n + Space(0, mem, size) && Space(0, 0, size) == 0
  {
    assert mem * size == (mem - 1) * size + size;
  }

  lemma {:induction false} OneRoundTakes(s: Snd, data: seq<Byte>, first: bool, mem: nat)
    requires s.mss > MAX_RETRY && |data| > 0
    ensures !CanCombine(s, DATA) && mem == 0 ==> Enqueue(s, data, DATA, first, mem) == Queued(s, 0, false)
    ensures Taken(s, data, DATA) == Min(|data|, if CanCombine(s, DATA) then LastRoom(s, DATA) else s.mss - MAX_RETRY)
    ensures !CanCombine(s, DATA) ==> LastRoom(s, DATA) == 0
  {
  }

  lemma {:induction false} TakesWhatFits(s: Snd, data: seq<Byte>, first: bool, mem: nat)
    requires s.mss > MAX_RETRY && |data| > 0
    ensures var r := Enqueue(s, data, DATA, first, mem);
      r.taken == Min(|data|, Space(LastRoom(s, DATA), mem, s.mss - MAX_RETRY)) && (r.ok <==> r.taken == |data|)
    decreases |data|
  {
    hide Extend, Enqueue, Taken, LastRoom, Space, CanCombine;
    OneRoundTakes(s, data, first, mem);
    OneSegmentLess(LastRoom(s, DATA), mem, s.mss - MAX_RETRY);
    if CanCombine(s, DATA) || mem > 0 {
      EnqueueUnfolds(s, data, first, mem);
      if Taken(s, data, DATA) < |data| {
        FullAfterRound(s, data, first);
        TakesWhatFits(Extend(s, data, DATA, first), data[Taken(s, data, DATA)..], false, if CanCombine(s, DATA) then mem else mem - 1);
      }
    }
  }

  /** Segments that have been sent, at least in part, are never changed by queueing more. */
  lemma {:induction false} SentSegmentsStay(s: Snd, data: seq<Byte>, a: Ask, first: bool, mem: nat, i: nat)
    requires s.mss > MAX_RETRY && i < |s.q| && (i + 1 < |s.q| || s.q[i].start < s.max)
    ensures var r := Enqueue(s, data, a, first, mem).s; |s.q| <= |r.q| && r.q[i] == s.q[i]
    decreases |data|
  {
    if CanCombine(s, a) || mem > 0 {
      var s1 := Extend(s, data, a, first);
      var n := Taken(s, data, a);
      if n < |data| { SentSegmentsStay(s1, data[n..], a, false, if CanCombine(s, a) then mem else mem - 1, i); }
    }
  }

  // ---------------------------------------------------------------- the send buffer

  /** Both connected states may write; a write fills the buffer exactly, unless what is left is a silly small piece. */
  lemma {:induction false} CanWriteMeans(s: Snd, st: State)
    requires 0 < s.mss
    ensures var n := CanWrite(s, st);
      && 0 <= n && (n > 0 ==> s.cur + n == s.maxcur)
      && (n > 0 <==> (st.Established? || st.CloseWait?) && s.cur < s.maxcur && (s.cur + s.mss <= s.maxcur || s.maxcur < 2 * s.mss))
  {
  }

  /** How much of `data` a write takes. */
  function WriteTakes(s: Snd, st: State, data: seq<Byte>, mem: nat): nat
    requires s.mss > MAX_RETRY
  {
    Min(Min(CanWrite(s, st), |data|), Space(LastRoom(s, DATA), mem, s.mss - MAX_RETRY))
  }

  /** The user of a connected host gets exactly that much into the stream. */
  lemma {:induction false} WriteIsTaken(h: Host, wire: set<Packet>, data: seq<Byte>, mem: nat, e: Env)
    requires h.ep.snd.mss > MAX_RETRY && h.ep.sock && h.ep.st.Connected()
    ensures var n := WriteTakes(h.ep.snd, h.ep.st, data, mem);
      n <= |data| && Act(h, wire, DoWrite(data, mem, e)).sent == h.sent + data[..n]
  {
    hide Enqueue, Output, CanCombine;
    var n := Min(CanWrite(h.ep.snd, h.ep.st), |data|);
    CanWriteMeans(h.ep.snd, h.ep.st);
    if n > 0 {
      TakesWhatFits(h.ep.snd, data[..n], true, mem);
    }
  }
}
