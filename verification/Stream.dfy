/** Agreement of segments with the byte stream that one user writes and the other reads. */
module Stream {
  import opened TcpTypes

  /** `data` at number `start` is the part of `str` at that place; `str` starts at number `base`. */
  ghost predicate InStream(start: int, data: seq<Byte>, base: int, str: seq<Byte>) {
    base <= start && start + |data| <= base + |str| && data == str[start - base..start - base + |data|]
  }

  /** What a packet of an honest peer may hold: stream bytes, and a FIN only at the stream's end. */
  ghost predicate Genuine(p: Packet, base: int, str: seq<Byte>, closed: bool) {
    && (p.syn ==> p.seqno + 1 == base)
    && (|p.data| > 0 ==> InStream(p.seqno + Bit(p.syn), p.data, base, str))
    && (p.fin ==> closed && p.seqno + Bit(p.syn) + |p.data| == base + |str|)
  }

  lemma InStreamGrows(start: int, data: seq<Byte>, base: int, str: seq<Byte>, more: seq<Byte>)
    requires InStream(start, data, base, str)
    ensures InStream(start, data, base, str + more)
  {
    var o := start - base;
    assert (str + more)[o..o + |data|] == str[o..o + |data|];
  }

  lemma PartOfPart(s: seq<Byte>, at: nat, n: nat, i: nat, j: nat)
    requires at + n <= |s| && i <= j <= n
    ensures s[at..at + n][i..j] == s[at + i..at + j]
  {
    var part := s[at..at + n];
    forall k | 0 <= k < j - i ensures part[i..j][k] == s[at + i..at + j][k] {
      assert part[i..j][k] == part[i + k] == s[at + i + k];
    }
  }

  lemma InStreamPart(start: int, data: seq<Byte>, base: int, str: seq<Byte>, i: nat, j: nat)
    requires InStream(start, data, base, str) && i <= j <= |data|
    ensures InStream(start + i, data[i..j], base, str)
  {
    PartOfPart(str, start - base, |data|, i, j);
  }

  lemma InStreamJoin(start: int, a: seq<Byte>, b: seq<Byte>, base: int, str: seq<Byte>)
    requires InStream(start, a, base, str) && InStream(start + |a|, b, base, str)
    ensures InStream(start, a + b, base, str)
  {
    var o := start - base;
    assert str[o..o + |a|] + str[o + |a|..o + |a| + |b|] == str[o..o + |a| + |b|];
  }

  lemma GenuineGrows(p: Packet, base: int, str: seq<Byte>, more: seq<Byte>, closed: bool)
    requires Genuine(p, base, str, false)
    ensures Genuine(p, base, str + more, closed)
  {
    if |p.data| > 0 { InStreamGrows(p.seqno + Bit(p.syn), p.data, base, str, more); }
  }
}
