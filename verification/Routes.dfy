/** The hashed routing table (kernel/route.c). */
module Routes {
  datatype Route = Route(net: bv32, mask: bv32, gway: bv32, nif: nat, ttl: int, up: bool, host: bool, static_: bool, local: bool)

  const BUCKETS := 256

  // ---------------------------------------------------------------- hashing

  predicate ClassA(d: bv32) { d & 0x8000_0000 == 0 }

  predicate ClassB(d: bv32) { d & 0xc000_0000 == 0x8000_0000 }

  predicate ClassC(d: bv32) { d & 0xe000_0000 == 0xc000_0000 }

  /** The bits of the network number that an address class implies; all bits for other addresses. */
  function ClassMask(d: bv32): bv32 {
    if ClassA(d) then 0xff00_0000 else if ClassB(d) then 0xffff_0000 else if ClassC(d) then 0xffff_ff00 else 0xffff_ffff
  }

  function HashBits(d: bv32): bv32 {
    (if ClassA(d) then d >> 24
     else if ClassB(d) then (d >> 16) ^ (d >> 24)
     else if ClassC(d) then (d >> 8) ^ (d >> 16) ^ (d >> 24)
     else d ^ (d >> 8) ^ (d >> 16) ^ (d >> 24)) & 0xff
  }

  function Hash(d: bv32): (h: nat)
    ensures h < BUCKETS
  {
    assert HashBits(d) < 256;
    HashBits(d) as nat
  }

  /** The network covers the address. */
  predicate Covers(net: bv32, mask: bv32, d: bv32) { mask & d == net }

  /** The mask keeps all bits that the class of the network implies. */
  predicate KeepsBits(net: bv32, mask: bv32) { mask & ClassMask(net) == ClassMask(net) }

  /** A network mask that keeps the class bits only lets addresses of the same bucket through. */
  lemma {:induction false} MatchingShareBucket(net: bv32, mask: bv32, d: bv32)
    requires KeepsBits(net, mask) && Covers(net, mask, d)
    ensures HashBits(d) == HashBits(net)
  {
    SameClassBits(net, mask, d);
    HashUsesClassBits(net, d);
  }

  lemma {:induction false} SameClassBits(net: bv32, mask: bv32, d: bv32)
    requires mask & ClassMask(net) == ClassMask(net) && mask & d == net
    ensures Agree(d, net, ClassMask(net))
  {
    var c := ClassMask(net);
    assert (mask & d) & c == d & (mask & c);
  }

  /** Two addresses agree in the bits of `m`. */
  predicate Agree(d: bv32, e: bv32, m: bv32) { d & m == e & m }

  lemma {:induction false} MaskOf(net: bv32)
    ensures ClassA(net) ==> ClassMask(net) == 0xff00_0000
    ensures !ClassA(net) && ClassB(net) ==> ClassMask(net) == 0xffff_0000
    ensures !ClassA(net) && !ClassB(net) && ClassC(net) ==> ClassMask(net) == 0xffff_ff00
    ensures !ClassA(net) && !ClassB(net) && !ClassC(net) ==> ClassMask(net) == 0xffff_ffff
  {
  }

  lemma {:induction false} HashUsesClassBits(net: bv32, d: bv32)
    requires Agree(d, net, ClassMask(net))
    ensures HashBits(d) == HashBits(net)
  {
    MaskOf(net);
    if ClassA(net) {
      CaseA(net, d);
    } else if ClassB(net) {
      CaseB(net, d);
    } else if ClassC(net) {
      CaseC(net, d);
    } else {
      OtherClass(d, net);
    }
  }

  lemma {:induction false} CaseA(net: bv32, d: bv32)
    requires ClassA(net) && Agree(d, net, 0xff00_0000)
    ensures HashBits(d) == HashBits(net)
  {
    assert ClassA(d);
    SameHashA(d, net);
  }

  lemma {:induction false} CaseB(net: bv32, d: bv32)
    requires ClassB(net) && Agree(d, net, 0xffff_0000)
    ensures HashBits(d) == HashBits(net)
  {
    assert ClassB(d);
    SameHashB(d, net);
  }

  lemma {:induction false} CaseC(net: bv32, d: bv32)
    requires ClassC(net) && Agree(d, net, 0xffff_ff00)
    ensures HashBits(d) == HashBits(net)
  {
    assert ClassC(d);
    SameHashC(d, net);
  }

  lemma {:induction false} OtherClass(d: bv32, e: bv32)
    requires Agree(d, e, 0xffff_ffff)
    ensures HashBits(d) == HashBits(e)
  {
    AllBits(d, e);
  }

  lemma {:induction false} SameHashA(d: bv32, e: bv32)
    requires ClassA(d) && ClassA(e) && d & 0xff00_0000 == e & 0xff00_0000
    ensures HashBits(d) == HashBits(e)
  {
    TopByte(d, e);
    assert HashBits(d) == Byte3(d) && HashBits(e) == Byte3(e);
  }

  lemma {:induction false} SameHashB(d: bv32, e: bv32)
    requires ClassB(d) && ClassB(e) && d & 0xffff_0000 == e & 0xffff_0000
    ensures HashBits(d) == HashBits(e)
  {
    TopOfTwo(d, e);
    NextOfTwo(d, e);
    HashOfB(d);
    HashOfB(e);
  }

  lemma {:induction false} SameHashC(d: bv32, e: bv32)
    requires ClassC(d) && ClassC(e) && d & 0xffff_ff00 == e & 0xffff_ff00
    ensures HashBits(d) == HashBits(e)
  {
    TopOfThree(d, e);
    NextOfThree(d, e);
    LastOfThree(d, e);
    HashOfC(d);
    HashOfC(e);
  }

  lemma {:induction false} AllBits(d: bv32, e: bv32)
    requires d & 0xffff_ffff == e & 0xffff_ffff
    ensures d == e
  {
  }

  lemma {:induction false} TopByte(d: bv32, e: bv32)
    requires d & 0xff00_0000 == e & 0xff00_0000
    ensures Byte3(d) == Byte3(e)
  {
    assert (d >> 24) & 0xff == ((d & 0xff00_0000) >> 24) & 0xff;
    assert (e >> 24) & 0xff == ((e & 0xff00_0000) >> 24) & 0xff;
  }

  lemma {:induction false} TopOfTwo(d: bv32, e: bv32)
    requires d & 0xffff_0000 == e & 0xffff_0000
    ensures Byte3(d) == Byte3(e)
  {
    assert (d >> 24) & 0xff == ((d & 0xffff_0000) >> 24) & 0xff;
    assert (e >> 24) & 0xff == ((e & 0xffff_0000) >> 24) & 0xff;
  }

  lemma {:induction false} NextOfTwo(d: bv32, e: bv32)
    requires d & 0xffff_0000 == e & 0xffff_0000
    ensures Byte2(d) == Byte2(e)
  {
    assert (d >> 16) & 0xff == ((d & 0xffff_0000) >> 16) & 0xff;
    assert (e >> 16) & 0xff == ((e & 0xffff_0000) >> 16) & 0xff;
  }

  lemma {:induction false} TopOfThree(d: bv32, e: bv32)
    requires d & 0xffff_ff00 == e & 0xffff_ff00
    ensures Byte3(d) == Byte3(e)
  {
    assert (d >> 24) & 0xff == ((d & 0xffff_ff00) >> 24) & 0xff;
    assert (e >> 24) & 0xff == ((e & 0xffff_ff00) >> 24) & 0xff;
  }

  lemma {:induction false} NextOfThree(d: bv32, e: bv32)
    requires d & 0xffff_ff00 == e & 0xffff_ff00
    ensures Byte2(d) == Byte2(e)
  {
    assert (d >> 16) & 0xff == ((d & 0xffff_ff00) >> 16) & 0xff;
    assert (e >> 16) & 0xff == ((e & 0xffff_ff00) >> 16) & 0xff;
  }

  lemma {:induction false} LastOfThree(d: bv32, e: bv32)
    requires d & 0xffff_ff00 == e & 0xffff_ff00
    ensures Byte1(d) == Byte1(e)
  {
    assert (d >> 8) & 0xff == ((d & 0xffff_ff00) >> 8) & 0xff;
    assert (e >> 8) & 0xff == ((e & 0xffff_ff00) >> 8) & 0xff;
  }

  function Byte1(d: bv32): bv32 { (d >> 8) & 0xff }

  function Byte2(d: bv32): bv32 { (d >> 16) & 0xff }

  function Byte3(d: bv32): bv32 { (d >> 24) & 0xff }

  lemma {:induction false} XorMask(x: bv32, y: bv32)
    ensures (x ^ y) & 0xff == (x & 0xff) ^ (y & 0xff)
  {
  }

  lemma {:induction false} HashOfB(d: bv32)
    requires ClassB(d)
    ensures HashBits(d) == Byte2(d) ^ Byte3(d)
  {
    XorMask(d >> 16, d >> 24);
    assert !ClassA(d);
  }

  lemma {:induction false} HashOfC(d: bv32)
    requires ClassC(d)
    ensures HashBits(d) == (Byte1(d) ^ Byte2(d)) ^ Byte3(d)
  {
    XorMask(d >> 8, d >> 16);
    XorMask((d >> 8) ^ (d >> 16), d >> 24);
    assert !ClassA(d) && !ClassB(d);
  }
}
