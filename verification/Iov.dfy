/** Copying between one block and a list of user buffers (kernel/iov.c). */
module Iov {
  import opened TcpTypes

  /** All buffers in one row. */
  function Flat(v: seq<seq<Byte>>): seq<Byte> {
    if |v| == 0 then [] else v[0] + Flat(v[1..])
  }

  lemma {:induction false} FlatJoins(a: seq<seq<Byte>>, b: seq<seq<Byte>>)
    ensures Flat(a + b) == Flat(a) + Flat(b)
  {
    if |a| == 0 {
      assert a + b == b;
    } else {
      assert (a + b)[1..] == a[1..] + b;
      FlatJoins(a[1..], b);
    }
  }

  lemma {:induction false} FlatOneMore(v: seq<seq<Byte>>, i: nat)
    requires i < |v|
    ensures Flat(v[..i + 1]) == Flat(v[..i]) + v[i]
    ensures Flat(v) == Flat(v[..i]) + v[i] + Flat(v[i + 1..])
  {
    assert v[..i + 1] == v[..i] + [v[i]];
    FlatJoins(v[..i], [v[i]]);
    assert [v[i]][1..] == [];
    assert v == v[..i + 1] + v[i + 1..];
    FlatJoins(v[..i + 1], v[i + 1..]);
  }

  lemma {:induction false} FlatOfAll(v: seq<seq<Byte>>, i: nat)
    requires i <= |v|
    ensures |Flat(v[..i])| <= |Flat(v)| && Flat(v)[..|Flat(v[..i])|] == Flat(v[..i])
    ensures i == |v| ==> Flat(v[..i]) == Flat(v)
  {
    assert v == v[..i] + v[i..];
    FlatJoins(v[..i], v[i..]);
    if i == |v| { assert v[..i] == v; }
  }

  /** How many bytes a copy moves. */
  function Amount(v: seq<seq<Byte>>, n: int, skip: int): nat {
    if n <= 0 || skip < 0 || |Flat(v)| <= skip then 0 else Min(n, |Flat(v)| - skip)
  }

  /** The buffers passed over: `i` of them, reaching `over` bytes beyond `skip`. */
  method Skip(v: seq<seq<Byte>>, skip: nat) returns (i: nat, over: int)
    ensures i <= |v| && over == |Flat(v[..i])| - skip && (over < 0 ==> i == |v|)
    ensures over > 0 ==> i > 0 && over <= |v[i - 1]|
  {
    i, over := 0, 0 - (skip as int);
    assert Flat(v[..0]) == [];
    while over < 0 && i < |v|
      invariant 0 <= i <= |v| && over == |Flat(v[..i])| - skip
      invariant over > 0 ==> i > 0 && over <= |v[i - 1]|
    {
      FlatOneMore(v, i);
      over := over + |v[i]|;
      i := i + 1;
    }
  }

  /** Buffer `i` within the row. */
  lemma {:induction false} PieceAt(v: seq<seq<Byte>>, i: nat)
    requires i < |v|
    ensures var at := |Flat(v[..i])|;
      && at + |v[i]| == |Flat(v[..i + 1])| <= |Flat(v)| && Flat(v)[at..at + |v[i]|] == v[i]
  {
    FlatOneMore(v, i);
  }

  /** `out` is what lies in the row from `skip` on; before buffer `i` nothing is left unless `out` is full. */
  ghost predicate Collected(v: seq<seq<Byte>>, i: nat, n: int, skip: nat, out: seq<Byte>) {
    && i <= |v| && |out| <= n && skip + |out| <= |Flat(v[..i])| <= |Flat(v)|
    && out == Flat(v)[skip..skip + |out|]
    && (|out| < n ==> skip + |out| == |Flat(v[..i])|)
  }

  lemma {:induction false} Pieces(f: seq<Byte>, a: nat, b: nat, c: nat, k: nat)
    requires a <= b <= c <= |f| && b + k <= c
    ensures f[b..c][..k] == f[b..b + k] && f[a..b] + f[b..b + k] == f[a..b + k]
  {
  }

  lemma {:induction false} CollectOneMore(v: seq<seq<Byte>>, i: nat, n: int, skip: nat, out: seq<Byte>)
    requires Collected(v, i, n, skip, out) && |out| < n && i < |v|
    ensures Collected(v, i + 1, n, skip, out + v[i][..Min(n - |out|, |v[i]|)])
  {
    PieceAt(v, i);
    var f, at, k := Flat(v), skip + |out|, Min(n - |out|, |v[i]|);
    Pieces(f, skip, at, at + |v[i]|, k);
  }

  /** Collects `n` bytes from the row of buffers, starting `skip` bytes in. */
  method Gather(v: seq<seq<Byte>>, n: int, skip: int) returns (out: seq<Byte>)
    ensures |out| == Amount(v, n, skip)
    ensures |out| > 0 ==> out == Flat(v)[skip..skip + |out|]
  {
    out := [];
    if |v| == 0 || n <= 0 || skip < 0 {
      return;
    }
    var i, over := Skip(v, skip);
    FlatOfAll(v, i);
    if over < 0 {
      return;
    }
    if over > 0 {
      var last := v[i - 1];
      TailCollected(v, i, n, skip, over);
      out := last[|last| - over..][..Min(over, n)];
    }
    while |out| < n && i < |v|
      invariant 0 <= i <= |v| && Collected(v, i, n, skip, out)
    {
      CollectOneMore(v, i, n, skip, out);
      out := out + v[i][..Min(n - |out|, |v[i]|)];
      i := i + 1;
    }
    FlatOfAll(v, i);
  }

  lemma {:induction false} Inner(f: seq<Byte>, a: nat, b: nat, i: nat, k: nat)
    requires a <= b <= |f| && i + k <= b - a
    ensures f[a..b][i..][..k] == f[a + i..a + i + k]
  {
  }

  lemma {:induction false} TailCollected(v: seq<seq<Byte>>, i: nat, n: int, skip: nat, over: int)
    requires 0 < i <= |v| && 0 < over <= |v[i - 1]| && over == |Flat(v[..i])| - skip && n > 0
    ensures var last := v[i - 1]; Collected(v, i, n, skip, last[|last| - over..][..Min(over, n)])
  {
    hide Flat;
    PieceAt(v, i - 1);
    var f, last, k := Flat(v), v[i - 1], Min(over, n);
    var at := |Flat(v[..i - 1])|;
    Inner(f, at, at + |last|, |last| - over, k);
    var out := last[|last| - over..][..k];
    assert out == f[skip..skip + k];
    assert v[..i - 1 + 1] == v[..i];
  }

  /** The buffers after `buf` has been written over the row, `at` bytes in. */
  ghost predicate Written(v: seq<seq<Byte>>, w: seq<seq<Byte>>, buf: seq<Byte>, at: nat) {
    && |w| == |v| && (forall i :: 0 <= i < |v| ==> |w[i]| == |v[i]|)
    && at + |buf| <= |Flat(v)| && Flat(w) == Flat(v)[..at] + buf + Flat(v)[at + |buf|..]
  }

  /** What is written by one buffer's worth at place `i`. */
  lemma {:induction false} WriteOne(v: seq<seq<Byte>>, i: nat, b: seq<Byte>)
    requires i < |v| && |b| == |v[i]|
    ensures Flat(v[i := b]) == Flat(v[..i]) + b + Flat(v[i + 1..])
    ensures |Flat(v[i := b])| == |Flat(v)| && Flat(v[i := b][..i + 1]) == Flat(v[..i]) + b
  {
    var w := v[i := b];
    FlatOneMore(w, i);
    FlatOneMore(v, i);
    assert w[..i] == v[..i] && w[i + 1..] == v[i + 1..];
  }

  /** Distributes the first `n` bytes of `buf` over the row of buffers, starting `skip` bytes in. */
  method Scatter(v: seq<seq<Byte>>, buf: seq<Byte>, n: int, skip: int) returns (w: seq<seq<Byte>>, done: nat)
    requires n <= |buf|
    ensures done == Amount(v, n, skip)
    ensures done == 0 ==> w == v
    ensures done > 0 ==> Written(v, w, buf[..done], skip)
  {
    hide Written, Distributed;
    w, done := v, 0;
    if |v| == 0 || n <= 0 || skip < 0 {
      return;
    }
    var i, over := Skip(v, skip);
    FlatOfAll(v, i);
    if over < 0 {
      return;
    }
    if over > 0 {
      done := Min(over, n);
      var last := v[i - 1];
      var at := |last| - over;
      w := v[i - 1 := last[..at] + buf[..done] + last[at + done..]];
    }
    StartDistributed(v, buf, n, skip, i, over);
    w, done := ScatterOn(v, w, buf, n, skip, i, done);
  }

  lemma {:induction false} StartDistributed(v: seq<seq<Byte>>, buf: seq<Byte>, n: int, skip: nat, i: nat, over: int)
    requires i <= |v| && 0 <= over == |Flat(v[..i])| - skip && 0 < n <= |buf| && (over > 0 ==> i > 0 && over <= |v[i - 1]|)
    ensures over == 0 ==> Distributed(v, v, buf, n, skip, i, 0)
    ensures over > 0 ==>
      var last, done := v[i - 1], Min(over, n);
      var at := |last| - over;
      Distributed(v, v[i - 1 := last[..at] + buf[..done] + last[at + done..]], buf, n, skip, i, done)
  {
    FlatOfAll(v, i);
    if over > 0 {
      TailDistributed(v, buf, n, skip, i, over);
    } else {
      NothingWritten(v, skip);
      assert buf[..0] == [];
    }
  }

  /** The rest of the buffer that `skip` ends in. */
  lemma {:induction false} TailDistributed(v: seq<seq<Byte>>, buf: seq<Byte>, n: int, skip: nat, i: nat, over: int)
    requires 0 < i <= |v| && 0 < over <= |v[i - 1]| && over == |Flat(v[..i])| - skip && 0 < n <= |buf|
    ensures var last, done := v[i - 1], Min(over, n);
      var at := |last| - over;
      Distributed(v, v[i - 1 := last[..at] + buf[..done] + last[at + done..]], buf, n, skip, i, done)
  {
    PieceAt(v, i - 1);
    FirstWritten(v, i - 1, buf[..Min(over, n)], |v[i - 1]| - over, skip);
  }

  /** The copying loop from buffer `from` on. */
  method ScatterOn(v: seq<seq<Byte>>, w0: seq<seq<Byte>>, buf: seq<Byte>, n: int, skip: nat, from: nat, done0: nat)
    returns (w: seq<seq<Byte>>, done: nat)
    requires Distributed(v, w0, buf, n, skip, from, done0)
    ensures done == Min(n, |Flat(v)| - skip) && Written(v, w, buf[..done], skip)
    ensures done == 0 ==> w == v
  {
    var i := from;
    w, done := w0, done0;
    while done < n && i < |v|
      invariant 0 <= i <= |v| && Distributed(v, w, buf, n, skip, i, done)
      decreases |v| - i
    {
      var k := Min(n - done, |v[i]|);
      DistributeOneMore(v, w, buf, n, skip, i, done);
      w := w[i := buf[done..done + k] + v[i][k..]];
      done := done + k;
      i := i + 1;
    }
    FlatOfAll(v, i);
  }

  /** The first `done` bytes of `buf` have been written; buffers from `i` on are untouched. */
  ghost predicate Distributed(v: seq<seq<Byte>>, w: seq<seq<Byte>>, buf: seq<Byte>, n: int, skip: nat, i: nat, done: nat) {
    && i <= |v| && done <= n <= |buf| && skip + done <= |Flat(v[..i])| <= |Flat(v)|
    && Written(v, w, buf[..done], skip) && w[i..] == v[i..]
    && (done < n ==> skip + done == |Flat(v[..i])|)
    && (done == 0 ==> w == v)
  }

  lemma {:induction false} DistributeOneMore(v: seq<seq<Byte>>, w: seq<seq<Byte>>, buf: seq<Byte>, n: int, skip: nat, i: nat, done: nat)
    requires Distributed(v, w, buf, n, skip, i, done) && done < n && i < |v|
    ensures var k := Min(n - done, |v[i]|);
      Distributed(v, w[i := buf[done..done + k] + v[i][k..]], buf, n, skip, i + 1, done + k)
  {
    var k := Min(n - done, |v[i]|);
    PieceAt(v, i);
    NextWritten(v, w, i, buf[..done], buf[done..done + k], skip);
    assert buf[..done] + buf[done..done + k] == buf[..done + k];
    if k == 0 { assert w[i..][0] == w[i] == v[i]; }
  }

  lemma {:induction false} NothingWritten(v: seq<seq<Byte>>, at: nat)
    requires at <= |Flat(v)|
    ensures Written(v, v, [], at)
  {
    assert Flat(v) == Flat(v)[..at] + [] + Flat(v)[at..];
  }

  lemma {:induction false} FirstWritten(v: seq<seq<Byte>>, i: nat, b: seq<Byte>, at: nat, skip: nat)
    requires i < |v| && at + |b| <= |v[i]| && skip == |Flat(v[..i])| + at
    ensures Written(v, v[i := v[i][..at] + b + v[i][at + |b|..]], b, skip)
  {
    var p, x, r := Flat(v[..i]), v[i], Flat(v[i + 1..]);
    FlatOneMore(v, i);
    WriteOne(v, i, x[..at] + b + x[at + |b|..]);
    CutInside(p, x, r, at, |b|);
    Regroup5(p, x[..at], b, x[at + |b|..], r);
  }

  /** Cutting three pieces in a row inside the middle one. */
  lemma {:induction false} CutInside(p: seq<Byte>, x: seq<Byte>, r: seq<Byte>, at: nat, n: nat)
    requires at + n <= |x|
    ensures (p + x + r)[..|p| + at] == p + x[..at] && (p + x + r)[|p| + at + n..] == x[at + n..] + r
  {
  }

  lemma {:induction false} Regroup5(p: seq<Byte>, a: seq<Byte>, b: seq<Byte>, c: seq<Byte>, r: seq<Byte>)
    ensures p + (a + b + c) + r == (p + a) + b + (c + r)
  {
  }

  lemma {:induction false} NextWritten(v: seq<seq<Byte>>, w: seq<seq<Byte>>, i: nat, b: seq<Byte>, c: seq<Byte>, skip: nat)
    requires Written(v, w, b, skip) && i < |v| && w[i..] == v[i..] && skip + |b| == |Flat(v[..i])| && |c| <= |v[i]|
    ensures var w' := w[i := c + v[i][|c|..]]; Written(v, w', b + c, skip) && w'[i + 1..] == v[i + 1..]
  {
    assert w[i] == w[i..][0] && v[i] == v[i..][0];
    assert w[i + 1..] == w[i..][1..] && v[i + 1..] == v[i..][1..];
    WriteOne(w, i, c + v[i][|c|..]);
    WrittenSoFar(v, w, i, b, skip);
    TailAfter(v, i, c, skip + |b|);
    Regroup(Flat(v)[..skip], b, c, v[i][|c|..], Flat(v[i + 1..]));
  }

  lemma {:induction false} WrittenSoFar(v: seq<seq<Byte>>, w: seq<seq<Byte>>, i: nat, b: seq<Byte>, skip: nat)
    requires Written(v, w, b, skip) && i <= |v| && skip + |b| == |Flat(v[..i])|
    ensures Flat(w[..i]) == Flat(v)[..skip] + b
  {
    FlatOfAll(w, i);
    SameLength(v[..i], w[..i]);
    assert Flat(w)[..skip + |b|] == Flat(v)[..skip] + b;
  }

  lemma {:induction false} TailAfter(v: seq<seq<Byte>>, i: nat, c: seq<Byte>, at: nat)
    requires i < |v| && at == |Flat(v[..i])| && |c| <= |v[i]|
    ensures at + |c| <= |Flat(v)| && Flat(v)[at + |c|..] == v[i][|c|..] + Flat(v[i + 1..])
  {
    FlatOneMore(v, i);
  }

  lemma {:induction false} Regroup(a: seq<Byte>, b: seq<Byte>, c: seq<Byte>, d: seq<Byte>, e: seq<Byte>)
    ensures (a + b) + (c + d) + e == a + (b + c) + (d + e)
  {
  }

  lemma {:induction false} SameLength(v: seq<seq<Byte>>, w: seq<seq<Byte>>)
    requires |v| == |w| && forall i :: 0 <= i < |v| ==> |w[i]| == |v[i]|
    ensures |Flat(v)| == |Flat(w)|
  {
    if |v| > 0 { SameLength(v[1..], w[1..]); }
  }

  /** Reading back what was written gives the same bytes. */
  lemma {:induction false} WrittenReadsBack(v: seq<seq<Byte>>, w: seq<seq<Byte>>, b: seq<Byte>, at: nat)
    requires Written(v, w, b, at)
    ensures |Flat(w)| == |Flat(v)| && Flat(w)[at..at + |b|] == b
    ensures Amount(w, |b|, at) == |b|
  {
  }
}
