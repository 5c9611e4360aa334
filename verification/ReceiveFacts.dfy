/** What the receive side guarantees: the frontier, the bytes read and the advertised window. */
module ReceiveFacts {
  import opened TcpTypes
  import opened RecvQueue
  import opened TcpRecv
  import opened Stream

  /** `e` is the first number from `x` on that the queue does not cover. */
  ghost predicate IsEdge(q: seq<Seg>, x: int, e: int) {
    x <= e && (forall y :: x <= y < e ==> Covers(q, y)) && !Covers(q, e)
  }

  // ---------------------------------------------------------------- the frontier

  lemma {:induction false} WalkReachesEdge(q: seq<Seg>, k: nat, x: int, n: int)
    requires Normal(q) && k <= |q| && x <= n
    requires forall y :: x <= y < n ==> Covers(q, y)
    requires forall i :: 0 <= i < k ==> q[i].End() <= n
    requires k < |q| ==> n <= q[k].End()
    ensures IsEdge(q, x, Walk(q, k, n)) && n <= Walk(q, k, n)
    decreases |q| - k
  {
    if k < |q| && q[k].start <= n {
      forall y | x <= y < q[k].End() ensures Covers(q, y) {
        assert y < n || q[k].start <= y < q[k].End();
      }
      WalkReachesEdge(q, k + 1, x, q[k].End());
    }
  }

  /** Walking from the new segment alone finds the first uncovered number of the whole queue. */
  lemma {:induction false} FrontierIsFirstHole(r: Rcv, p: Packet, x: int)
    requires Normal(r.q) && !p.syn && IsEdge(r.q, x, r.nxt)
    requires |p.data| > 0 ==> r.nxt <= Payload(p).End()
    ensures IsEdge(Insert(r.q, Payload(p)), x, NextData(r, p))
    ensures r.nxt <= NextData(r, p) <= Receive(r, p).nxt
  {
    var s := Payload(p);
    var q' := Insert(r.q, s);
    InsertKeepsNormal(r.q, s);
    forall y ensures Covers(q', y) <==> Covers(r.q, y) || s.start <= y < s.End() {
      InsertCoversUnion(r.q, s, y);
    }
    if !Redundant(r.q, s) && s.start <= r.nxt {
      CutsAround(r.q, s);
      var k := LowCut(r.q, s.start);
      InsertedAt(r.q, s, k);
      forall i: nat | i < k ensures q'[i].End() <= r.nxt {
        InsertedAt(r.q, s, i);
        assert !(r.q[i].start <= r.nxt < r.q[i].End());
      }
      WalkReachesEdge(q', k, x, r.nxt);
    } else if !Redundant(r.q, s) {
      CutsAround(r.q, s);
      InsertedAt(r.q, s, LowCut(r.q, s.start));
    }
  }

  /** A segment that passes the acceptance test reaches the frontier, so the frontier never moves back. */
  lemma {:induction false} CheckedReachesFrontier(r: Rcv, st: State, p: Packet)
    requires st.Synchronised() && Check(r, st, p).ok
    ensures var p' := Check(r, st, p).p;
      p'.Len() > 0 ==> r.nxt <= p'.seqno + Bit(p'.syn) + |p'.data|
  {
  }

  // ---------------------------------------------------------------- agreement with a byte stream

  /** Every queued byte is the byte of `str` at that place; `str` starts at number `base`. */
  ghost predicate FromStream(q: seq<Seg>, base: int, str: seq<Byte>) {
    forall i :: 0 <= i < |q| ==> InStream(q[i].start, q[i].data, base, str)
  }

  /** The FIN bookkeeping agrees with the stream. */
  ghost predicate FinAgrees(r: Rcv, base: int, str: seq<Byte>, closed: bool) {
    && base <= r.nxt <= base + |str| + Bit(closed)
    && (r.finSeen ==> closed && r.seqFin == base + |str|)
    && (r.nxt == base + |str| + 1 ==> r.finSeen)
  }

  /** Everything known of a receive side whose socket is attached. */
  ghost predicate Agrees(r: Rcv, base: int, str: seq<Byte>, closed: bool) {
    && FinAgrees(r, base, str, closed)
    && base <= r.read
    && Unread(r.q, r.read, r.DataNxt(), base, str)
  }

  /** More stream only adds behaviour: what agreed with a prefix agrees with the longer stream. */
  lemma {:induction false} StreamGrows(r: Rcv, base: int, str: seq<Byte>, more: seq<Byte>, fin: bool)
    requires FinAgrees(r, base, str, false)
    ensures FinAgrees(r, base, str + more, fin)
    ensures Agrees(r, base, str, false) ==> Agrees(r, base, str + more, fin)
  {
    forall i | 0 <= i < |r.q| && InStream(r.q[i].start, r.q[i].data, base, str)
      ensures InStream(r.q[i].start, r.q[i].data, base, str + more) {
      InStreamGrows(r.q[i].start, r.q[i].data, base, str, more);
    }
  }

  /** A packet without payload bytes changes at most the FIN's own bookkeeping. */
  lemma {:induction false} EmptyPacketKeepsFin(r: Rcv, p: Packet, base: int, str: seq<Byte>, closed: bool)
    requires FinAgrees(r, base, str, closed) && Genuine(p, base, str, closed) && !p.syn && |p.data| == 0
    requires p.fin ==> r.nxt <= p.seqno
    ensures var r' := Receive(r, p);
      FinAgrees(r', base, str, closed) && r.nxt <= r'.nxt && r'.q == r.q && r'.cur == r.cur && r'.DataNxt() == r.DataNxt()
  {
    assert Redundant(r.q, Payload(p));
  }

  /** An accepted packet of an honest peer keeps the agreement and never moves the frontier back. */
  lemma {:induction false} ReceiveAgrees(r: Rcv, p: Packet, base: int, str: seq<Byte>, closed: bool)
    requires Agrees(r, base, str, closed) && Genuine(p, base, str, closed) && !p.syn
    requires p.Len() > 0 ==> r.nxt <= p.seqno + |p.data|
    ensures Agrees(Receive(r, p), base, str, closed)
    ensures r.nxt <= Receive(r, p).nxt
  {
    if |p.data| == 0 {
      EmptyPacketKeepsFin(r, p, base, str, closed);
    } else {
      assert !r.Finished();
      DataKeepsUnread(r, p, base, str);
      FinAfterData(r, p, base, str, closed);
    }
  }

  lemma {:induction false} FinAfterData(r: Rcv, p: Packet, base: int, str: seq<Byte>, closed: bool)
    requires FinAgrees(r, base, str, closed) && Genuine(p, base, str, closed) && !p.syn && !r.Finished()
    requires r.nxt <= NextData(r, p) <= base + |str|
    ensures var r' := Receive(r, p);
      FinAgrees(r', base, str, closed) && r.nxt <= r'.nxt && r'.DataNxt() == NextData(r, p)
  {
  }

  lemma {:induction false} DataKeepsUnread(r: Rcv, p: Packet, base: int, str: seq<Byte>)
    requires Unread(r.q, r.read, r.nxt, base, str) && base <= r.nxt <= base + |str|
    requires !p.syn && InStream(p.seqno, p.data, base, str) && r.nxt <= p.seqno + |p.data|
    ensures Unread(Receive(r, p).q, r.read, NextData(r, p), base, str)
    ensures r.nxt <= NextData(r, p) <= base + |str|
  {
    FrontierIsFirstHole(r, p, r.read);
    InsertKeepsUnread(r.q, Payload(p), r.read, r.nxt, NextData(r, p), base, str);
  }

  lemma {:induction false} InsertKeepsUnread(q: seq<Seg>, s: Seg, x: int, e: int, e': int, base: int, str: seq<Byte>)
    requires Unread(q, x, e, base, str) && InStream(s.start, s.data, base, str) && !s.used
    requires IsEdge(Insert(q, s), x, e') && base <= e <= base + |str|
    ensures Unread(Insert(q, s), x, e', base, str)
    ensures e' <= base + |str|
  {
    InsertKeepsNormal(q, s);
    InsertFromStream(q, s, base, str);
    InsertKeepsUsed(q, s, x);
    EdgeInStream(Insert(q, s), x, e', e, base, str);
  }

  lemma {:induction false} InsertFromStream(q: seq<Seg>, s: Seg, base: int, str: seq<Byte>)
    requires Normal(q) && FromStream(q, base, str) && InStream(s.start, s.data, base, str)
    ensures FromStream(Insert(q, s), base, str)
  {
    InsertKeepsNormal(q, s);
    forall i | 0 <= i < |Insert(q, s)|
      ensures InStream(Insert(q, s)[i].start, Insert(q, s)[i].data, base, str) {
      assert Insert(q, s)[i] in q || Insert(q, s)[i] == s;
    }
  }

  lemma {:induction false} InsertKeepsUsed(q: seq<Seg>, s: Seg, x: int)
    requires Normal(q) && !s.used
    requires forall i :: 0 <= i < |q| && q[i].used ==> q[i].End() <= x
    ensures forall i :: 0 <= i < |Insert(q, s)| && Insert(q, s)[i].used ==> Insert(q, s)[i].End() <= x
  {
    InsertKeepsNormal(q, s);
    forall i | 0 <= i < |Insert(q, s)| ensures Insert(q, s)[i].used ==> Insert(q, s)[i].End() <= x {
      var t := Insert(q, s)[i];
      assert t in q || t == s;
    }
  }

  lemma {:induction false} EdgeInStream(q: seq<Seg>, x: int, e: int, low: int, base: int, str: seq<Byte>)
    requires FromStream(q, base, str) && IsEdge(q, x, e) && x <= low <= base + |str| && base <= low
    ensures e <= base + |str| || e <= low
  {
    if low < e {
      assert Covers(q, e - 1);
      var i :| 0 <= i < |q| && q[i].start <= e - 1 < q[i].End();
      assert InStream(q[i].start, q[i].data, base, str);
    }
  }

  // ---------------------------------------------------------------- reading

  /** Two queues that differ in their marks only cover the same numbers. */
  ghost predicate SameRanges(q: seq<Seg>, q': seq<Seg>) {
    |q| == |q'| && forall i :: 0 <= i < |q| ==> q'[i].start == q[i].start && q'[i].data == q[i].data
  }

  lemma {:induction false} SameRangesSameEdge(q: seq<Seg>, q': seq<Seg>, x: int, y: int, e: int)
    requires SameRanges(q, q') && IsEdge(q, x, e) && x <= y <= e
    ensures IsEdge(q', y, e)
  {
    forall z ensures Covers(q, z) <==> Covers(q', z) {
      if i :| 0 <= i < |q| && q[i].start <= z < q[i].End() { assert q'[i].start <= z < q'[i].End(); }
      if i :| 0 <= i < |q'| && q'[i].start <= z < q'[i].End() { assert q[i].start <= z < q[i].End(); }
    }
  }

  /** Nothing is covered at `x` when place `k` starts later and all before it end earlier. */
  lemma {:induction false} EdgeHere(q: seq<Seg>, k: nat, x: int, e: int)
    requires Normal(q) && k <= |q| && IsEdge(q, x, e)
    requires forall i :: 0 <= i < k ==> q[i].End() <= x
    requires k < |q| ==> x < q[k].start
    ensures e == x
  {
    assert !Covers(q, x);
  }

  lemma {:induction false} EdgePastSegment(q: seq<Seg>, k: nat, x: int, e: int)
    requires k < |q| && IsEdge(q, x, e) && q[k].start <= x <= q[k].End()
    ensures q[k].End() <= e
  {
    assert q[k].start <= e < q[k].End() ==> Covers(q, e);
  }

  /** Reading copies the stream from `x` up to the edge or the buffer size. */
  lemma {:induction false} CopyFollowsStream(q: seq<Seg>, k: nat, x: int, size: nat, base: int, str: seq<Byte>, e: int)
    requires Normal(q) && FromStream(q, base, str) && base <= x && e <= base + |str| && IsEdge(q, x, e) && k <= |q|
    requires forall i :: 0 <= i < k ==> q[i].End() <= x
    requires forall i :: k <= i < |q| ==> !q[i].used && x <= q[i].End()
    ensures var c := CopyFrom(q, k, x, size);
      c.read == Min(e, x + size) && c.bytes == str[x - base..c.read - base]
    decreases |q| - k
  {
    hide InStream, Covers, Normal;
    if k < |q| && size > 0 && q[k].start <= x {
      EdgePastSegment(q, k, x, e);
      var n := Min(size, q[k].End() - x);
      if size > n {
        LaterEdge(q, x, x + n, e);
        EndsRise(q, k);
        CopyFollowsStream(q, k + 1, x + n, size - n, base, str, e);
      }
      CopyOne(q, k, x, size, base, str, e);
    } else if size > 0 {
      EdgeHere(q, k, x, e);
    }
  }

  lemma {:induction false} EndsRise(q: seq<Seg>, k: nat)
    requires Normal(q) && k < |q|
    ensures forall i :: k < i < |q| ==> q[k].End() <= q[i].End()
  {
  }

  /** One round of copying, given the rest. */
  lemma {:induction false} CopyOne(q: seq<Seg>, k: nat, x: int, size: nat, base: int, str: seq<Byte>, e: int)
    requires k < |q| && size > 0 && q[k].start <= x <= q[k].End() <= e <= base + |str| && !q[k].used && base <= x
    requires InStream(q[k].start, q[k].data, base, str)
    requires var n := Min(size, q[k].End() - x);
      var rest := CopyFrom(q, k + 1, x + n, size - n);
      size > n ==> rest.read == Min(e, x + size) && rest.bytes == str[x + n - base..rest.read - base]
    ensures var c := CopyFrom(q, k, x, size);
      c.read == Min(e, x + size) && c.bytes == str[x - base..c.read - base]
  {
    var n := Min(size, q[k].End() - x);
    var rest := CopyFrom(q, k + 1, x + n, size - n);
    OneSegmentOfStream(q[k], x - q[k].start, n, base, str);
    if size > n {
      StreamSplits(str, x - base, x + n - base, rest.read - base);
    } else {
      assert rest == Copied([], x + n);
    }
  }

  lemma {:induction false} StreamSplits(str: seq<Byte>, a: nat, b: nat, c: nat)
    requires a <= b <= c <= |str|
    ensures str[a..b] + str[b..c] == str[a..c]
  {
  }

  lemma {:induction false} LaterEdge(q: seq<Seg>, x: int, y: int, e: int)
    requires IsEdge(q, x, e) && x <= y <= e
    ensures IsEdge(q, y, e)
  {
  }

  lemma {:induction false} OneSegmentOfStream(s: Seg, off: nat, n: nat, base: int, str: seq<Byte>)
    requires InStream(s.start, s.data, base, str) && off + n <= |s.data|
    ensures s.data[off..][..n] == str[s.start + off - base..s.start + off + n - base]
  {
    PartOfPart(str, s.start - base, |s.data|, off, off + n);
    assert s.data[off..][..n] == s.data[off..off + n];
  }

  /** Dropping unlinks a run of finished segments at the head and nothing that is still unread. */
  lemma {:induction false} DropKeepsUnread(q: seq<Seg>, cur: int, read: int)
    requires Normal(q)
    requires forall i :: 0 <= i < |q| && q[i].used ==> q[i].End() <= read
    ensures var d := Drop(q, cur, read);
      && d.read == read
      && |d.q| <= |q| && d.q == q[|q| - |d.q|..]
      && (forall i :: 0 <= i < |q| - |d.q| ==> q[i].End() <= read)
  {
    if |q| > 0 && q[0].used {
      var cur' := if |q| > 1 then cur - (q[1].start - q[0].start) else 0;
      SuffixNormal(q, 1);
      DropKeepsUnread(q[1..], cur', read);
      var d := Drop(q[1..], cur', read);
      var m := |q| - |d.q|;
      assert Drop(q, cur, read) == d;
      forall i: nat | i < m ensures q[i].End() <= read {
        if i > 0 { assert q[i] == q[1..][i - 1]; }
      }
      assert q[1..][m - 1..] == q[m..];
    }
  }

  lemma {:induction false} DropTracksSpan(q: seq<Seg>, cur: int, read: int)
    requires cur == Span(q)
    ensures var d := Drop(q, cur, read); d.cur == Span(d.q)
  {
    if |q| > 0 && q[0].used {
      DropTracksSpan(q[1..], if |q| > 1 then cur - (q[1].start - q[0].start) else 0, Max(read, q[0].End()));
    }
  }

  lemma {:induction false} SuffixKeepsEdge(q: seq<Seg>, m: nat, x: int, e: int)
    requires Normal(q) && m <= |q| && IsEdge(q, x, e)
    requires forall i :: 0 <= i < m ==> q[i].End() <= x
    ensures IsEdge(q[m..], x, e)
  {
    forall y | x <= y ensures Covers(q, y) <==> Covers(q[m..], y) {
      if i :| 0 <= i < |q| && q[i].start <= y < q[i].End() { assert q[m..][i - m] == q[i]; }
      if i :| 0 <= i < |q[m..]| && q[m..][i].start <= y < q[m..][i].End() { assert q[i + m] == q[m..][i]; }
    }
  }

  /** A read returns the next bytes of the stream, as many as are there and fit, and keeps the agreement. */
  lemma {:induction false} ReadCallFollowsStream(r: Rcv, size: nat, base: int, str: seq<Byte>, closed: bool)
    requires Agrees(r, base, str, closed)
    ensures var res := ReadCall(r, size);
      && r.read <= res.r.read == Min(r.DataNxt(), r.read + size) <= base + |str|
      && res.bytes == str[r.read - base..res.r.read - base]
      && Agrees(res.r, base, str, closed)
      && res.r == r.(q := res.r.q, cur := res.r.cur, read := res.r.read)
  {
    ReadKeepsUnread(r, size, r.DataNxt(), base, str);
  }

  lemma {:induction false} ReadKeepsUnread(r: Rcv, size: nat, e: int, base: int, str: seq<Byte>)
    requires Unread(r.q, r.read, e, base, str) && base <= r.read && e <= base + |str|
    ensures var res := ReadCall(r, size);
      && res.r.read == Min(e, r.read + size)
      && res.bytes == str[r.read - base..res.r.read - base]
      && Unread(res.r.q, res.r.read, e, base, str)
  {
    hide CopyFrom, Drop, MarkUsed, SkipUsed, Normal, InStream;
    var k := HighCut(r.q, r.read);
    CopyAtHead(r.q, r.read, size, e, base, str);
    if size > 0 && Readable(r) {
      AfterRead(r.q, k, r.cur, CopyFrom(r.q, k, r.read, size).read, r.read, e, base, str);
    }
  }

  lemma {:induction false} CopyAtHead(q: seq<Seg>, x: int, size: nat, e: int, base: int, str: seq<Byte>)
    requires Unread(q, x, e, base, str) && base <= x && e <= base + |str|
    ensures var k := HighCut(q, x);
      var c := CopyFrom(q, k, x, size);
      && SkipUsed(q, k, x) == (x, k)
      && c.read == Min(e, x + size) && c.bytes == str[x - base..c.read - base]
      && ((k < |q| && q[k].start <= x) || e == x)
  {
    var k := HighCut(q, x);
    ReadStartsHere(q, x, e, base, str);
    CopyFollowsStream(q, k, x, size, base, str, e);
    if !(k < |q| && q[k].start <= x) { EdgeHere(q, k, x, e); }
  }

  /** No segment from the read position on is marked, so the skip loop does nothing. */
  lemma {:induction false} ReadStartsHere(q: seq<Seg>, x: int, e: int, base: int, str: seq<Byte>)
    requires Unread(q, x, e, base, str)
    ensures SkipUsed(q, HighCut(q, x), x) == (x, HighCut(q, x))
    ensures forall i :: HighCut(q, x) <= i < |q| ==> !q[i].used && x <= q[i].End()
  {
    var k := HighCut(q, x);
    assert forall i :: k <= i < |q| ==> q[k].End() <= q[i].End();
  }

  /** What a queue must satisfy when everything before `x` has been read and `e` is the first hole. */
  ghost predicate Unread(q: seq<Seg>, x: int, e: int, base: int, str: seq<Byte>) {
    && Normal(q) && FromStream(q, base, str) && IsEdge(q, x, e)
    && (forall i :: 0 <= i < |q| && q[i].used ==> q[i].End() <= x)
  }

  lemma {:induction false} MarkKeepsUnread(q: seq<Seg>, k: nat, x: int, y: int, e: int, base: int, str: seq<Byte>)
    requires Unread(q, x, e, base, str) && x <= y <= e
    ensures Unread(MarkUsed(q, k, y), y, e, base, str)
  {
    var q' := MarkUsed(q, k, y);
    assert SameRanges(q, q');
    SameRangesSameEdge(q, q', x, y, e);
    SameRangesSameSpan(q, q');
    forall i | 0 <= i < |q'|
      ensures InStream(q'[i].start, q'[i].data, base, str) && (q'[i].used ==> q'[i].End() <= y)
    {
      assert InStream(q[i].start, q[i].data, base, str);
    }
  }

  lemma {:induction false} SuffixKeepsUnread(q: seq<Seg>, m: nat, x: int, e: int, base: int, str: seq<Byte>)
    requires Unread(q, x, e, base, str) && m <= |q|
    requires forall i :: 0 <= i < m ==> q[i].End() <= x
    ensures Unread(q[m..], x, e, base, str)
  {
    SuffixKeepsEdge(q, m, x, e);
    SuffixNormal(q, m);
    forall i | 0 <= i < |q[m..]|
      ensures InStream(q[m..][i].start, q[m..][i].data, base, str) && (q[m..][i].used ==> q[m..][i].End() <= x)
    {
      assert InStream(q[i + m].start, q[i + m].data, base, str);
    }
  }

  lemma {:induction false} SuffixNormal(q: seq<Seg>, m: nat)
    requires Normal(q) && m <= |q|
    ensures Normal(q[m..])
  {
  }

  /** The queue that a read up to `y` leaves behind. */
  lemma {:induction false} AfterRead(q: seq<Seg>, k: nat, cur: int, y: int, x: int, e: int, base: int, str: seq<Byte>)
    requires Unread(q, x, e, base, str) && x <= y <= e
    ensures var d := Drop(MarkUsed(q, k, y), cur, y); d.read == y && Unread(d.q, y, e, base, str)
  {
    var q' := MarkUsed(q, k, y);
    MarkKeepsUnread(q, k, x, y, e, base, str);
    DropKeepsUnread(q', cur, y);
    SuffixKeepsUnread(q', |q'| - |Drop(q', cur, y).q|, y, e, base, str);
  }

  lemma {:induction false} SameRangesSameSpan(q: seq<Seg>, q': seq<Seg>)
    requires SameRanges(q, q') && Normal(q)
    ensures Span(q) == Span(q') && Normal(q')
  {
  }
}
