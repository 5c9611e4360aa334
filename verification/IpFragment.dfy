/** Cutting a datagram up for an interface (kernel/ip.c, `ip_frag`). */
module IpFragment {
  import opened TcpTypes
  import opened IpTypes

  datatype Failure = AllSent | DontFragment | TooLong | NoMemory | SendFailed

  /** Payload bytes that fit into one fragment: a multiple of eight. */
  function Chunk(mtu: nat): (n: nat)
    requires mtu >= HEADER + 8
    ensures 8 <= n && n % 8 == 0 && HEADER + n <= mtu < HEADER + n + 8
  {
    (mtu - HEADER) / 8 * 8
  }

  /** The fragment that starts `at` bytes into the payload. */
  function Piece(d: Dgram, at: nat, mtu: nat): Dgram
    requires mtu >= HEADER + 8 && at <= |d.data|
  {
    var n := Min(Chunk(mtu), |d.data| - at);
    Dgram(d.id, d.saddr, d.off + at / 8, d.df, d.mf || at + n < |d.data|, HEADER + n, d.data[at..at + n])
  }

  /** All fragments from `at` on. */
  function Pieces(d: Dgram, at: nat, mtu: nat): seq<Dgram>
    requires mtu >= HEADER + 8 && at <= |d.data|
    decreases |d.data| - at
  {
    if at == |d.data| then [] else
    var p := Piece(d, at, mtu);
    [p] + Pieces(d, at + |p.data|, mtu)
  }

  /** The offset field cannot hold the place of the end of the datagram. */
  predicate OffsetOverflows(d: Dgram) { d.off + |d.data| / 8 > MAX_OFFSET }

  /** That is so exactly if the datagram reaches past 64K. */
  lemma {:induction false} OverflowsPast64K(d: Dgram)
    ensures OffsetOverflows(d) <==> 8 * d.off + |d.data| >= 0x1_0000
  {
  }

  lemma {:induction false} Units(a: nat, b: nat)
    requires a % 8 == 0 && b % 8 == 0
    ensures (a + b) % 8 == 0 && (a + b) / 8 == a / 8 + b / 8
  {
  }

  /** The fragments from `at` on cut up what is left of the datagram. */
  lemma {:induction false} PiecesCut(d: Dgram, at: nat, mtu: nat)
    requires mtu >= HEADER + 8 && at < |d.data| && at % 8 == 0
    ensures Cuts(Pieces(d, at, mtu), Rest(d, at))
    decreases |d.data| - at
  {
    var p := Piece(d, at, mtu);
    var ps := Pieces(d, at, mtu);
    var next := at + |p.data|;
    var rest := Pieces(d, next, mtu);
    assert ps == [p] + rest && ps[1..] == rest;
    if next < |d.data| {
      Units(at, |p.data|);
      PiecesCut(d, next, mtu);
      assert d.data[at..][..|p.data|] == p.data;
      assert d.data[at..][|p.data|..] == d.data[next..];
      assert Rest(Rest(d, at), |p.data|) == Rest(d, next);
      assert |rest| > 0;
    }
  }

  /** One fragment is the last exactly if it ends the payload. */
  lemma {:induction false} PiecesLeft(d: Dgram, at: nat, mtu: nat)
    requires mtu >= HEADER + 8 && at < |d.data|
    ensures var p := Piece(d, at, mtu);
      && at + |p.data| <= |d.data| && |p.data| > 0
      && Pieces(d, at, mtu) == [p] + Pieces(d, at + |p.data|, mtu)
      && (at + |p.data| < |d.data| <==> |Pieces(d, at, mtu)| > 1)
  {
  }

  lemma NoneLeft(d: Dgram, mtu: nat)
    requires mtu >= HEADER + 8
    ensures Pieces(d, |d.data|, mtu) == []
  {
  }

  lemma {:induction false} Eighths(a: nat, b: nat)
    requires a <= b
    ensures a / 8 <= b / 8
  {
  }

  lemma {:induction false} PieceFits(d: Dgram, at: nat, mtu: nat)
    requires mtu >= HEADER + 8 && at < |d.data| && at % 8 == 0 && !OffsetOverflows(d)
    ensures var p := Piece(d, at, mtu);
      && p.length <= mtu && p.off <= MAX_OFFSET && Sound(p)
      && (at + |p.data| < |d.data| ==> (at + |p.data|) % 8 == 0)
  {
    Eighths(at, |d.data|);
    Units(at, Chunk(mtu));
  }

  /** Every fragment fits the interface, and its offset fits the field: nothing carries into the flag bits. */
  lemma {:induction false} PiecesFit(d: Dgram, at: nat, mtu: nat)
    requires mtu >= HEADER + 8 && at <= |d.data| && at % 8 == 0 && !OffsetOverflows(d)
    ensures forall p :: p in Pieces(d, at, mtu) ==> p.length <= mtu && p.off <= MAX_OFFSET && Sound(p) && |p.data| > 0
    decreases |d.data| - at
  {
    hide Pieces, Piece, OffsetOverflows;
    if at < |d.data| {
      PiecesLeft(d, at, mtu);
      PieceFits(d, at, mtu);
      var next := at + |Piece(d, at, mtu).data|;
      if next < |d.data| { PiecesFit(d, next, mtu); } else { NoneLeft(d, mtu); }
    } else {
      NoneLeft(d, mtu);
    }
  }

  /** A prefix of the fragments, and the whole of them if nothing failed. */
  ghost predicate SentPart(sent: seq<Dgram>, d: Dgram, mtu: nat, f: Failure)
    requires mtu >= HEADER + 8
  {
    sent <= Pieces(d, 0, mtu) && (f.AllSent? ==> sent == Pieces(d, 0, mtu))
  }

  /** A failure after `good` of `n` fragments is met; the last fragment takes no new buffer. */
  predicate Fails(good: nat, failure: Failure, n: nat) { good < n && (failure == SendFailed || good + 1 < n) }

  /**
   * Sends a datagram, in fragments if it is longer than the interface takes. After `good` fragments the layers
   * below fail with `failure`; the last fragment reuses the original buffer, so it cannot lack memory.
   */
  method Send(d: Dgram, mtu: nat, good: nat, failure: Failure) returns (sent: seq<Dgram>, f: Failure)
    requires mtu >= HEADER + 8 && Sound(d)
    requires failure == NoMemory || failure == SendFailed
    ensures d.length <= mtu ==> sent == (if good > 0 || failure == NoMemory then [d] else [])
    ensures d.length > mtu ==> (f == DontFragment <==> d.df)
    ensures d.length > mtu && !d.df ==> (f == TooLong <==> OffsetOverflows(d))
    ensures f == DontFragment || f == TooLong ==> sent == []
    ensures d.length > mtu && !d.df && !OffsetOverflows(d) ==> SentPart(sent, d, mtu, f)
    ensures f == NoMemory || f == SendFailed ==> f == failure && |sent| == good
    ensures d.length > mtu && !d.df && !OffsetOverflows(d) ==> (f == failure <==> Fails(good, failure, |Pieces(d, 0, mtu)|))
    ensures d.length > mtu && !d.df && !OffsetOverflows(d) && f != failure ==> f == AllSent
  {
    if d.length <= mtu {
      if good > 0 || failure == NoMemory {
        return [d], AllSent;
      }
      return [], SendFailed;
    }
    if d.df {
      return [], DontFragment;
    }
    if d.off + |d.data| / 8 > MAX_OFFSET {
      return [], TooLong;
    }
    sent, f := SendPieces(d, mtu, good, failure);
  }

  /** The fragmenting loop. */
  method SendPieces(d: Dgram, mtu: nat, good: nat, failure: Failure) returns (sent: seq<Dgram>, f: Failure)
    requires mtu >= HEADER + 8 && (failure == NoMemory || failure == SendFailed)
    ensures f == AllSent || f == failure
    ensures SentPart(sent, d, mtu, f)
    ensures f != AllSent <==> Fails(good, failure, |Pieces(d, 0, mtu)|)
    ensures f != AllSent ==> |sent| == good
  {
    hide Pieces, Piece;
    sent := [];
    var at := 0;
    ghost var n := |Pieces(d, 0, mtu)|;
    while at < |d.data|
      invariant at <= |d.data|
      invariant Pieces(d, 0, mtu) == sent + Pieces(d, at, mtu)
      invariant |sent| > good ==> !Fails(good, failure, n)
      decreases |d.data| - at
    {
      PiecesLeft(d, at, mtu);
      var p := Piece(d, at, mtu);
      if |sent| == good && (failure == SendFailed || at + |p.data| < |d.data|) {
        return sent, failure;
      }
      sent := sent + [p];
      at := at + |p.data|;
    }
    NoneLeft(d, mtu);
    return sent, AllSent;
  }

  /** What goes out when nothing fails are fragments of the datagram that all fit the interface. */
  lemma {:induction false} SentIsCut(d: Dgram, mtu: nat)
    requires mtu >= HEADER + 8 && Sound(d) && d.length > mtu && !OffsetOverflows(d)
    ensures var ps := Pieces(d, 0, mtu);
      && Cuts(ps, d) && |ps| >= 2
      && (forall p :: p in ps ==> p.length <= mtu && p.off <= MAX_OFFSET)
  {
    PiecesCut(d, 0, mtu);
    PiecesFit(d, 0, mtu);
    assert Rest(d, 0).data == d.data;
    SameCuts(Pieces(d, 0, mtu), Rest(d, 0), d);
    var p := Piece(d, 0, mtu);
    assert p in Pieces(d, 0, mtu);
    assert |Pieces(d, |p.data|, mtu)| > 0;
  }
}
