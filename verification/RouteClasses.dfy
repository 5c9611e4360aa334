/** Why masks must keep the class bits: a prefix mask without them covers an address that hashes elsewhere. */
module RouteClasses {
  import opened Routes

  /** Ones followed by zeros. */
  predicate Prefix(mask: bv32) { !mask & (!mask + 1) == 0 }

  /** Every address that the route covers is in the route's own bucket. */
  ghost predicate OneBucket(net: bv32, mask: bv32) {
    forall d :: Covers(net, mask, d) ==> HashBits(d) == HashBits(net)
  }

  /** The rightmost bit that the class of an address implies. */
  function LowBit(d: bv32): bv32 {
    if ClassA(d) then 0x0100_0000 else if ClassB(d) then 0x0001_0000 else if ClassC(d) then 0x0000_0100 else 1
  }

  /** A prefix mask that does not keep all class bits does not keep the rightmost one. */
  lemma {:induction false} ShortPrefix(net: bv32, mask: bv32)
    requires Prefix(mask) && !KeepsBits(net, mask)
    ensures mask & LowBit(net) == 0
  {
  }

  lemma {:induction false} FlippedMatches(net: bv32, mask: bv32, b: bv32)
    requires Covers(net, mask, net) && mask & b == 0
    ensures Covers(net, mask, net ^ b)
  {
    assert mask & (net ^ b) == (mask & net) ^ (mask & b);
  }

  /** Flipping it changes the hash and not the class. */
  lemma {:induction false} FlippedHashesElsewhere(net: bv32)
    ensures HashBits(net ^ LowBit(net)) != HashBits(net)
  {
  }

  lemma {:induction false} NotOneBucket(net: bv32, mask: bv32, d: bv32)
    requires Covers(net, mask, d) && HashBits(d) != HashBits(net)
    ensures !OneBucket(net, mask)
  {
  }

  lemma {:induction false} ClassBitsSuffice(net: bv32, mask: bv32)
    requires KeepsBits(net, mask)
    ensures OneBucket(net, mask)
  {
    forall d | Covers(net, mask, d) ensures HashBits(d) == HashBits(net) {
      MatchingShareBucket(net, mask, d);
    }
  }

  lemma {:induction false} ShortPrefixFlips(net: bv32, mask: bv32, b: bv32)
    requires b == LowBit(net)
    requires Covers(net, mask, net) && Prefix(mask) && !KeepsBits(net, mask)
    ensures Covers(net, mask, net ^ b) && HashBits(net ^ b) != HashBits(net)
  {
    ShortPrefix(net, mask);
    FlippedHashesElsewhere(net);
    FlippedMatches(net, mask, b);
  }

  /** A shorter prefix covers an address that hashes elsewhere. */
  lemma {:induction false} ShortPrefixIsNotEnough(net: bv32, mask: bv32) returns (d: bv32)
    requires Covers(net, mask, net) && Prefix(mask) && !KeepsBits(net, mask)
    ensures Covers(net, mask, d) && HashBits(d) != HashBits(net)
  {
    var b: bv32 :| b == LowBit(net);
    ShortPrefixFlips(net, mask, b);
    d := net ^ b;
  }

  /** For a prefix mask the class bits are exactly what it takes. */
  lemma {:induction false} ClassBitsAreNeeded(net: bv32, mask: bv32)
    requires Covers(net, mask, net) && Prefix(mask)
    ensures OneBucket(net, mask) <==> KeepsBits(net, mask)
  {
    if KeepsBits(net, mask) {
      ClassBitsSuffice(net, mask);
    } else {
      var d := ShortPrefixIsNotEnough(net, mask);
      NotOneBucket(net, mask, d);
    }
  }

  /** For other masks they are not: this one lacks the first bit, yet stays in one bucket. */
  lemma {:induction false} HoledMaskMayDo(net: bv32, mask: bv32)
    requires net == 0x0a80_0000 && mask == 0x7fff_ffff
    ensures Covers(net, mask, net) && !Prefix(mask) && !KeepsBits(net, mask) && OneBucket(net, mask)
  {
    forall d | Covers(net, mask, d) ensures HashBits(d) == HashBits(net) {
      OnlyTwo(d);
    }
  }

  lemma {:induction false} OnlyTwo(d: bv32)
    requires 0x7fff_ffff & d == 0x0a80_0000
    ensures HashBits(d) == 0x0a && HashBits(0x0a80_0000) == 0x0a
  {
    assert d == 0x0a80_0000 || d == 0x8a80_0000;
  }
}
