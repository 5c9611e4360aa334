/** Option-free IP datagrams and the relation between a datagram and its fragments. */
module IpTypes {
  import opened TcpTypes

  const HEADER := 20
  const MAX_OFFSET := 0x1fff

  /** `length` is the header's length field; `off` counts units of eight bytes. */
  datatype Dgram = Dgram(id: nat, saddr: nat, off: nat, df: bool, mf: bool, length: nat, data: seq<Byte>)

  /** The length field tells the truth. */
  predicate Sound(d: Dgram) { d.length == HEADER + |d.data| }

  /** `ps` cuts `d` up from left to right: consecutive offsets, whole units, MF on all but the last. */
  predicate Cuts(ps: seq<Dgram>, d: Dgram) {
    && |ps| > 0 && Sound(ps[0])
    && ps[0].id == d.id && ps[0].saddr == d.saddr && ps[0].off == d.off && ps[0].df == d.df
    && if |ps| == 1 then ps[0].data == d.data && ps[0].mf == d.mf
       else
         && ps[0].mf && WholePrefix(ps[0].data, d.data)
         && Cuts(ps[1..], Rest(d, |ps[0].data|))
  }

  /** A proper, non-empty prefix that is a multiple of eight bytes long. */
  predicate WholePrefix(a: seq<Byte>, b: seq<Byte>) {
    0 < |a| < |b| && |a| % 8 == 0 && b[..|a|] == a
  }

  /** What is left of `d` after its first `n` bytes. */
  function Rest(d: Dgram, n: nat): Dgram
    requires n <= |d.data|
  {
    Dgram(d.id, d.saddr, d.off + n / 8, d.df, d.mf, HEADER + |d.data| - n, d.data[n..])
  }

  /** The payloads one after the other. */
  function Payload(ps: seq<Dgram>): seq<Byte> {
    if |ps| == 0 then [] else ps[0].data + Payload(ps[1..])
  }

  /** A datagram's fragments carry exactly its payload. */
  lemma {:induction false} CutsKeepPayload(ps: seq<Dgram>, d: Dgram)
    requires Cuts(ps, d)
    ensures Payload(ps) == d.data
  {
    if |ps| == 1 {
      assert ps[1..] == [];
    } else {
      CutsKeepPayload(ps[1..], Rest(d, |ps[0].data|));
    }
  }

  /** Fragmenting fragment `i` again yields fragments of the original datagram. */
  lemma {:induction false} RefragmentingKeepsCuts(ps: seq<Dgram>, d: Dgram, i: nat, rs: seq<Dgram>)
    requires Cuts(ps, d) && i < |ps| && Cuts(rs, ps[i])
    ensures Cuts(ps[..i] + rs + ps[i + 1..], d)
  {
    var all := ps[..i] + rs + ps[i + 1..];
    if i > 0 {
      RefragmentingKeepsCuts(ps[1..], Rest(d, |ps[0].data|), i - 1, rs);
      assert all[1..] == ps[1..][..i - 1] + rs + ps[1..][i..];
    } else {
      assert all == rs + ps[1..];
      if |ps| == 1 {
        assert all == rs;
        SameCuts(rs, ps[0], d);
      } else {
        CutsThenMore(rs, ps[0], ps[1..], d);
      }
    }
  }

  /** Cutting looks at the key, the place, the flags and the payload only. */
  lemma {:induction false} SameCuts(ps: seq<Dgram>, d: Dgram, d': Dgram)
    requires Cuts(ps, d) && d' == d.(length := d'.length)
    ensures Cuts(ps, d')
  {
  }

  /** Fragments of the first part followed by fragments of the rest. */
  lemma {:induction false} CutsThenMore(rs: seq<Dgram>, p: Dgram, more: seq<Dgram>, d: Dgram)
    requires Cuts(rs, p) && p.mf && WholePrefix(p.data, d.data)
    requires p.id == d.id && p.saddr == d.saddr && p.off == d.off && p.df == d.df
    requires Cuts(more, Rest(d, |p.data|))
    ensures Cuts(rs + more, d)
  {
    var all := rs + more;
    assert all[1..] == rs[1..] + more;
    if |rs| == 1 {
      assert all[1..] == more;
    } else {
      var n := |rs[0].data|;
      var p1, d1 := Rest(p, n), Rest(d, n);
      assert d.data[..n] == d.data[..|p.data|][..n];
      assert d1.data[..|p1.data|] == d.data[..|p.data|][n..];
      assert d1.data[|p1.data|..] == d.data[|p.data|..];
      assert Rest(d1, |p1.data|) == Rest(d, |p.data|);
      CutsThenMore(rs[1..], p1, more, d1);
      assert WholePrefix(rs[0].data, d.data);
    }
  }
}
