/** Sequence numbers as 32-bit words: the signed comparison of differences against integer order. */
module SeqSpace {
  import opened Common

  /** The low 32 bits, read as a signed `long`. */
  function Signed(x: int): (r: int)
    ensures -HALF <= r < HALF && (r - x) % WORD == 0
  {
    (x + HALF) % WORD - HALF
  }

  /** The comparators work on the wrapped difference of two wrapped numbers. */
  function Diff(x: int, y: int): int { Signed(Signed(x) - Signed(y)) }

  predicate SeqLt(x: int, y: int) { Diff(x, y) < 0 }

  predicate SeqLe(x: int, y: int) { Diff(x, y) <= 0 }

  predicate SeqEq(x: int, y: int) { Signed(x) == Signed(y) }

  /** Two words of the signed range that are congruent are equal. */
  lemma {:induction false} SignedIsUnique(a: int, b: int)
    requires -HALF <= a < HALF && -HALF <= b < HALF && (a - b) % WORD == 0
    ensures a == b
  {
  }

  /** Congruences add up. */
  lemma {:induction false} Congruent(a: int, b: int)
    requires a % WORD == 0 && b % WORD == 0
    ensures (a - b) % WORD == 0 && (a + b) % WORD == 0
  {
    assert a == WORD * (a / WORD) && b == WORD * (b / WORD);
    assert a - b == WORD * (a / WORD - b / WORD);
    assert a + b == WORD * (a / WORD + b / WORD);
  }

  /** The wrapped difference is congruent to the true one. */
  lemma {:induction false} DiffIsCongruent(x: int, y: int)
    ensures (Diff(x, y) - (x - y)) % WORD == 0
  {
    var d := Signed(x) - Signed(y);
    Congruent(Signed(x) - x, Signed(y) - y);
    Congruent(Signed(d) - d, (Signed(x) - x) - (Signed(y) - y));
    assert Signed(d) - (x - y) == (Signed(d) - d) + ((Signed(x) - x) - (Signed(y) - y));
  }

  /** The word comparators agree with integer order exactly when the numbers are less than half the space apart. */
  lemma {:induction false} ComparatorsAgree(x: int, y: int)
    ensures Diff(x, y) == x - y <==> -HALF <= x - y < HALF
    ensures -HALF <= x - y < HALF ==>
      (SeqLt(x, y) <==> x < y) && (SeqLe(x, y) <==> x <= y) && (SeqEq(x, y) <==> x == y)
  {
    DiffIsCongruent(x, y);
    if -HALF <= x - y < HALF {
      SignedIsUnique(Diff(x, y), x - y);
      if SeqEq(x, y) {
        assert Diff(x, y) == 0;
      }
    }
  }

  /** Inside one window of half the space, the word order is the order of the numbers, hence transitive. */
  lemma {:induction false} WindowIsOrdered(base: int, x: int, y: int, z: int)
    requires base <= x < base + HALF && base <= y < base + HALF && base <= z < base + HALF
    ensures SeqLe(x, y) && SeqLe(y, z) ==> SeqLe(x, z)
    ensures SeqLe(x, y) || SeqLe(y, x)
    ensures SeqLe(x, y) && SeqLe(y, x) ==> x == y
  {
    ComparatorsAgree(x, y);
    ComparatorsAgree(y, x);
    ComparatorsAgree(y, z);
    ComparatorsAgree(x, z);
  }

  /** Half the space apart each number is before the other: the comparators are no order there. */
  lemma {:induction false} HalfApartIsCircular(x: int)
    ensures SeqLt(x, x + HALF) && SeqLt(x + HALF, x)
  {
    ComparatorsAgree(x, x + HALF);
    DiffIsCongruent(x + HALF, x);
    SignedIsUnique(Diff(x + HALF, x), -HALF);
  }

  /** Only the words matter: numbers that agree modulo 2^32 compare alike. */
  lemma {:induction false} OnlyWordsMatter(x: int, x': int, y: int)
    requires (x - x') % WORD == 0
    ensures Signed(x) == Signed(x')
    ensures (SeqLt(x, y) <==> SeqLt(x', y)) && (SeqLe(x, y) <==> SeqLe(x', y))
  {
    Congruent(Signed(x) - x, Signed(x') - x');
    Congruent((Signed(x) - x) - (Signed(x') - x'), x - x');
    assert ((Signed(x) - x) - (Signed(x') - x')) + (x - x') == Signed(x) - Signed(x');
    SignedIsUnique(Signed(x), Signed(x'));
  }
}
