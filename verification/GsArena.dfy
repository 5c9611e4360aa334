/** The arena as the program runs it, and resizing (gluestik/gs_mem.c). */
module GsArena {
  import opened Common
  import opened TcpTypes
  import opened GsMem

  // ---------------------------------------------------------------- addresses

  /** Chunk `i` has its memory at address `a`. */
  predicate IsAt(cs: seq<Chunk>, i: nat, a: nat) { i < |cs| && Address(cs, i) == a }

  lemma {:induction false} AddressRises(cs: seq<Chunk>, i: nat, j: nat)
    requires i < j <= |cs|
    ensures Address(cs, i) + |cs[i].data| + HEADER <= Address(cs, j)
    decreases j
  {
    assert cs[..j] == cs[..j - 1] + [cs[j - 1]];
    TotalJoins(cs[..j - 1], [cs[j - 1]]);
    assert [cs[j - 1]][1..] == [];
    if i < j - 1 { AddressRises(cs, i, j - 1); }
  }

  /** Allocated memory is what used chunks hold. */
  lemma {:induction false} LiveIsUsed(cs: seq<Chunk>, i: nat)
    requires i < |cs| && cs[i].used
    ensures (Address(cs, i), cs[i].data) in Live(cs, 0)
  {
    assert cs == cs[..i] + cs[i..];
    LiveJoins(cs[..i], cs[i..], 0);
    assert cs[i..][0] == cs[i];
  }

  lemma {:induction false} LiveComesFrom(cs: seq<Chunk>, a: nat, d: seq<Byte>)
    requires (a, d) in Live(cs, 0)
    ensures exists i: nat :: IsAt(cs, i, a) && cs[i].used && cs[i].data == d
    decreases |cs|
  {
    var n := |cs| - 1;
    if n >= 0 {
      assert cs == cs[..n] + [cs[n]];
      LiveJoins(cs[..n], [cs[n]], 0);
      assert [cs[n]][1..] == [];
      if (a, d) in Live(cs[..n], 0) {
        LiveComesFrom(cs[..n], a, d);
        var i: nat :| IsAt(cs[..n], i, a) && cs[..n][i].used && cs[..n][i].data == d;
        assert cs[..n][..i] == cs[..i];
        assert IsAt(cs, i, a);
      } else {
        assert IsAt(cs, n, a);
      }
    }
  }

  // ---------------------------------------------------------------- writing

  /** The first bytes of chunk `i` are overwritten with `d`. */
  function Write(cs: seq<Chunk>, i: nat, d: seq<Byte>): seq<Chunk>
    requires i < |cs| && |d| <= |cs[i].data|
  {
    cs[i := Chunk(cs[i].used, d + cs[i].data[|d|..])]
  }

  /** Writing into a chunk in use changes that memory only. */
  lemma {:induction false} WriteMeans(cs: seq<Chunk>, i: nat, d: seq<Byte>)
    requires i < |cs| && |d| <= |cs[i].data| && Tidy(cs) && cs[i].used
    ensures Replaced(cs, Write(cs, i, d), i)
  {
    var c := Chunk(true, d + cs[i].data[|d|..]);
    var s, at := [c] + cs[i + 1..], Total(cs[..i]);
    CutAt(cs, i);
    OneChunk(cs[i], cs[i + 1..], at);
    OneChunk(c, cs[i + 1..], at);
    InPlace(cs, i, s);
    assert Write(cs, i, d) == cs[..i] + s;
  }

  // ---------------------------------------------------------------- resizing in place

  /** Chunk `i` is cut or grown to `n` bytes where it is: its memory keeps as many first bytes as fit. */
  ghost predicate Resized(cs: seq<Chunk>, cs': seq<Chunk>, i: nat, n: nat)
    requires i < |cs|
  {
    Replaced(cs, cs', i) && n <= |cs'[i].data| < n + MIN_CHUNK && Keeps(cs[i].data, cs'[i].data)
  }

  /** The memory of chunk `i` has a new content or length; all else is the same. */
  ghost predicate Replaced(cs: seq<Chunk>, cs': seq<Chunk>, i: nat)
    requires i < |cs|
  {
    && i < |cs'| && Address(cs', i) == Address(cs, i) && Total(cs') == Total(cs) && Tidy(cs')
    && Live(cs', 0) == Live(cs, 0) - {(Address(cs, i), cs[i].data)} + {(Address(cs, i), cs'[i].data)}
  }

  /** The shorter of the two is a prefix of the longer. */
  predicate Keeps(d: seq<Byte>, d': seq<Byte>) {
    if |d'| <= |d| then d[..|d'|] == d' else d'[..|d|] == d
  }

  function Shrink(cs: seq<Chunk>, i: nat, n: nat, junk: seq<Byte>): seq<Chunk>
    requires i < |cs| && n <= |cs[i].data|
  {
    cs[..i] + Split(cs[i..], n, junk)
  }

  predicate CanGrow(cs: seq<Chunk>, i: nat, n: nat) {
    i + 1 < |cs| && !cs[i + 1].used && n <= |cs[i].data| + |cs[i + 1].data| + HEADER
  }

  function Grow(cs: seq<Chunk>, i: nat, n: nat, junk: seq<Byte>): seq<Chunk>
    requires CanGrow(cs, i, n) && |junk| == HEADER
  {
    cs[..i] + Split(Join(cs[i..], true, junk), n, junk)
  }

  lemma {:induction false} ShrinkMeans(cs: seq<Chunk>, i: nat, n: nat, junk: seq<Byte>)
    requires Tidy(cs) && i < |cs| && cs[i].used && n <= |cs[i].data| && |junk| == HEADER
    ensures Resized(cs, Shrink(cs, i, n, junk), i, n)
  {
    var s, at := Split(cs[i..], n, junk), Total(cs[..i]);
    CutAt(cs, i);
    assert cs[i..][0] == cs[i];
    SplitMeans(cs[i..], n, junk, at);
    InPlace(cs, i, s);
  }

  lemma {:induction false} GrowMeans(cs: seq<Chunk>, i: nat, n: nat, junk: seq<Byte>)
    requires Tidy(cs) && CanGrow(cs, i, n) && cs[i].used && |cs[i].data| < n && |junk| == HEADER
    ensures Resized(cs, Grow(cs, i, n, junk), i, n)
  {
    CutAt(cs, i);
    GrowHead(cs[i..], n, junk, Total(cs[..i]));
    assert cs[i..][0] == cs[i] && cs[i..][1] == cs[i + 1];
    InPlace(cs, i, Split(Join(cs[i..], true, junk), n, junk));
  }

  /** The first chunk grows into its free successor. */
  lemma {:induction false} GrowHead(cs: seq<Chunk>, n: nat, junk: seq<Byte>, at: nat)
    requires Tidy(cs) && |cs| >= 2 && cs[0].used && !cs[1].used && |junk| == HEADER
    requires |cs[0].data| < n <= |cs[0].data| + |cs[1].data| + HEADER
    ensures var s := Split(Join(cs, true, junk), n, junk);
      && Total(s) == Total(cs) && Tidy(s) && |s| > 0 && s[0].used && n <= |s[0].data| < n + MIN_CHUNK && Keeps(cs[0].data, s[0].data)
      && Live(s, at) == {(at + HEADER, s[0].data)} + Live(cs[1..], at + HEADER + |cs[0].data|)
  {
    var j, d := Join(cs, true, junk), cs[0].data + junk + cs[1].data;
    JoinedHead(cs, junk, at);
    SplitMeans(j, n, junk, at);
    assert d == cs[0].data + (junk + cs[1].data);
    PrefixOfPrefix(cs[0].data, junk + cs[1].data, d, |Split(j, n, junk)[0].data|);
  }

  lemma {:induction false} JoinedHead(cs: seq<Chunk>, junk: seq<Byte>, at: nat)
    requires Tidy(cs) && |cs| >= 2 && !cs[1].used && |junk| == HEADER
    ensures var j, d := Join(cs, true, junk), cs[0].data + junk + cs[1].data;
      && Total(j) == Total(cs) && j[0].data == d && Tidy(j[1..])
      && Live(j[1..], at + HEADER + |d|) == Live(cs[1..], at + HEADER + |cs[0].data|)
  {
    var j := Join(cs, true, junk);
    CutAt(cs, 1);
    assert j[1..] == cs[2..] && cs[1..] == [cs[1]] + cs[2..];
    OneChunk(cs[1], cs[2..], at + HEADER + |cs[0].data|);
    JoinMeans(cs, true, junk, at);
  }

  lemma {:induction false} PrefixOfPrefix(a: seq<Byte>, b: seq<Byte>, d: seq<Byte>, n: nat)
    requires d == a + b && |a| <= n <= |d|
    ensures Keeps(a, d[..n])
  {
  }

  /** Replacing chunk `i` and what follows by `s`, whose first chunk stands for chunk `i`. */
  lemma {:induction false} InPlace(cs: seq<Chunk>, i: nat, s: seq<Chunk>)
    requires Tidy(cs) && i < |cs| && cs[i].used && Tidy(s) && Total(s) == Total(cs[i..]) && |s| > 0 && s[0].used
    requires Live(s, Total(cs[..i])) ==
      {(Address(cs, i), s[0].data)} + Live(cs[i + 1..], Total(cs[..i]) + HEADER + |cs[i].data|)
    ensures Replaced(cs, cs[..i] + s, i) && (cs[..i] + s)[i] == s[0]
  {
    CutAt(cs, i);
    Window(cs[..i], cs[i..], s);
    OneLess(cs, i);
    var cs' := cs[..i] + s;
    assert cs'[..i] == cs[..i] && cs'[i] == s[0];
  }

  // ---------------------------------------------------------------- where memory goes

  /** The address of chunk `i`; null stands for no chunk. */
  function AddressOrNull(cs: seq<Chunk>, i: nat): nat
    requires i <= |cs|
  {
    if i < |cs| then Address(cs, i) else 0
  }

  /**
   * Where the memory of chunk `i` is after resizing to `n` bytes: where it was if the chunk holds them, alone or with a
   * free successor and the header between them; else at the first fit, if there is one. Free memory is not resized.
   */
  function ResizedTo(cs: seq<Chunk>, i: nat, n: nat): nat
    requires i < |cs|
  {
    if !cs[i].used then 0
    else if n <= |cs[i].data| || (i + 1 < |cs| && !cs[i + 1].used && n <= |cs[i].data| + HEADER + |cs[i + 1].data|) then Address(cs, i)
    else AddressOrNull(cs, Place(cs, n))
  }

  // ---------------------------------------------------------------- the program

  class Arena {
    var chunks: seq<Chunk>
    const poolsize: nat

    ghost predicate Valid()
      reads this
    {
      GsMem.Valid(chunks, poolsize)
    }

    ghost function Memory(): set<(nat, seq<Byte>)>
      reads this
    {
      Live(chunks, 0)
    }

    /** The pool starts as one free chunk. */
    constructor (pool: seq<Byte>)
      requires HEADER < |pool| < LIMIT
      ensures Valid() && poolsize == |pool| && Memory() == {}
    {
      chunks := [Chunk(false, pool[HEADER..])];
      poolsize := |pool|;
      new;
      OneChunk(chunks[0], [], 0);
      assert chunks == [chunks[0]] + [];
    }

    /** First fit; 0 stands for failure. */
    method Alloc(size: nat, junk: seq<Byte>) returns (r: nat)
      requires Valid() && |junk| == HEADER
      modifies `chunks
      ensures Valid() && (r == 0 <==> Place(old(chunks), size) == |old(chunks)|)
      ensures r == 0 ==> chunks == old(chunks)
      ensures r > 0 ==> chunks == Allocate(old(chunks), size, junk)
      ensures r > 0 ==> var i := Place(old(chunks), size); r == Address(old(chunks), i) && Taken(old(chunks), chunks, i, Round(size))
    {
      AllocateMeans(chunks, size, junk, poolsize);
      var n := Round(size);
      if n >= LIMIT || n == 0 {
        return 0;
      }
      var i, at := FindFit(n);
      if i == |chunks| {
        return 0;
      }
      chunks := chunks[..i] + Split(chunks[i..], n, junk);
      return at;
    }

    /** The first free chunk that is big enough, with its address. */
    method FindFit(n: nat) returns (i: nat, at: nat)
      ensures i == FirstFit(chunks, n) && at == Address(chunks, i)
    {
      i, at := 0, HEADER;
      while i < |chunks| && (chunks[i].used || |chunks[i].data| < n)
        invariant i <= |chunks| && at == Address(chunks, i)
        invariant FirstFit(chunks, n) == i + FirstFit(chunks[i..], n)
      {
        assert chunks[i..][1..] == chunks[i + 1..];
        NextAddress(chunks, i);
        at := at + HEADER + |chunks[i].data|;
        i := i + 1;
      }
    }

    /** The chunk at an address, found from the start of the arena as the predecessor search does. */
    method Find(a: nat) returns (i: nat)
      ensures i <= |chunks| && (i < |chunks| ==> IsAt(chunks, i, a))
      ensures i == |chunks| ==> forall j: nat :: !IsAt(chunks, j, a)
    {
      i := 0;
      var at := HEADER;
      while i < |chunks| && at != a
        invariant i <= |chunks| && at == Address(chunks, i)
        invariant forall j :: 0 <= j < i ==> !IsAt(chunks, j, a)
      {
        NextAddress(chunks, i);
        at := at + HEADER + |chunks[i].data|;
        i := i + 1;
      }
    }

    /** Frees memory; null and memory that is not in use are left alone. */
    method FreeMem(a: nat, junk: seq<Byte>)
      requires Valid() && |junk| == HEADER && (a == 0 || exists i: nat :: IsAt(chunks, i, a))
      modifies `chunks
      ensures Valid()
      ensures Memory() == set p | p in old(Memory()) && p.0 != a
    {
      var i := Find(a);
      NoneAtNull(chunks, a);
      if i < |chunks| && chunks[i].used {
        FreeMeans(chunks, i, junk, poolsize);
        OnlyOneAt(chunks, i, a);
        chunks := Free(chunks, i, junk);
      } else if i < |chunks| {
        NoneUsedAt(chunks, i, a);
      }
    }

    /** Resizes memory, in place if possible; the first bytes stay. 0 stands for failure or for nothing left. */
    method Realloc(a: nat, newsize: nat, junk: seq<Byte>) returns (r: nat)
      requires Valid() && |junk| == HEADER && newsize < WORD && (a == 0 || exists i: nat :: IsAt(chunks, i, a))
      modifies `chunks
      ensures Valid()
      ensures a != 0 && newsize == 0 ==> r == 0 && Memory() == set p | p in old(Memory()) && p.0 != a
      ensures a != 0 && newsize > 0 && r == 0 ==> Memory() == old(Memory())
      ensures a == 0 && r == 0 ==> Memory() == old(Memory())
      ensures a == 0 && r > 0 ==> exists d ::
        Memory() == old(Memory()) + {(r, d)} && newsize <= |d| && d[..newsize] == Zeros(newsize)
      ensures a != 0 && newsize > 0 && r > 0 ==> exists d, d' :: Moved(old(Memory()), Memory(), a, r, d, d', Round(newsize))
      ensures a == 0 ==> r == AddressOrNull(old(chunks), Place(old(chunks), newsize))
      ensures a != 0 && newsize > 0 ==> forall i: nat :: IsAt(old(chunks), i, a) ==> r == ResizedTo(old(chunks), i, Round(newsize))
    {
      if a == 0 {
        r := AllocZeroed(newsize, junk);
        return;
      }
      if newsize == 0 {
        FreeMem(a, junk);
        return 0;
      }
      var i := Find(a);
      OnlyIndex(chunks, i, a);
      if !chunks[i].used {
        return 0;
      }
      LiveIsUsed(chunks, i);
      var n := Round(newsize);
      ghost var was, before := chunks, Memory();
      if n <= |chunks[i].data| {
        ShrinkMeans(chunks, i, n, junk);
        chunks := Shrink(chunks, i, n, junk);
        assert Moved(before, Memory(), a, a, was[i].data, chunks[i].data, n);
        return a;
      }
      if CanGrow(chunks, i, n) {
        GrowMeans(chunks, i, n, junk);
        chunks := Grow(chunks, i, n, junk);
        assert Moved(before, Memory(), a, a, was[i].data, chunks[i].data, n);
        return a;
      }
      r := Move(a, i, n, junk);
    }

    method AllocZeroed(size: nat, junk: seq<Byte>) returns (r: nat)
      requires Valid() && |junk| == HEADER && size < WORD
      modifies `chunks
      ensures Valid() && r == AddressOrNull(old(chunks), Place(old(chunks), size))
      ensures r == 0 ==> Memory() == old(Memory())
      ensures r > 0 ==> exists d ::
        Memory() == old(Memory()) + {(r, d)} && size <= |d| && d[..size] == Zeros(size)
    {
      ghost var was, k := chunks, Place(chunks, size);
      r := Alloc(size, junk);
      if r > 0 {
        var z := Zeros(size);
        var copy := CopyTo(was, k, r, z);
        assert copy[..size] == z;
      }
    }

    /** Copies memory to a new place and frees the old one. */
    method Move(a: nat, i: nat, n: nat, junk: seq<Byte>) returns (r: nat)
      requires Valid() && |junk| == HEADER && IsAt(chunks, i, a) && chunks[i].used && |chunks[i].data| < n
      requires n % 8 == 0 && n < WORD
      modifies `chunks
      ensures Valid() && r == AddressOrNull(old(chunks), Place(old(chunks), n))
      ensures r == 0 ==> Memory() == old(Memory())
      ensures r > 0 ==> exists d, d' :: Moved(old(Memory()), Memory(), a, r, d, d', n)
    {
      ghost var was, before, k := chunks, Memory(), Place(chunks, n);
      var d := chunks[i].data;
      LiveIsUsed(chunks, i);
      OldIsAlone(chunks, a, d);
      RoundedStays(n);
      r := Alloc(n, junk);
      if r > 0 {
        NewIsNew(was, k);
        var copy := CopyTo(was, k, r, d);
        LiveComesFrom(chunks, a, d);
        FreeMem(a, junk);
        assert Moved(before, Memory(), a, r, d, copy, n);
      }
    }

    /** Copies `d` to the chunk that was just taken. */
    method CopyTo(ghost was: seq<Chunk>, ghost k: nat, r: nat, d: seq<Byte>) returns (copy: seq<Byte>)
      requires Valid() && k < |was| && !was[k].used && r == Address(was, k)
      requires exists n :: Taken(was, chunks, k, n) && |d| <= n
      modifies `chunks
      ensures Valid() && Memory() == Live(was, 0) + {(r, copy)}
      ensures |d| <= |copy| == |old(chunks)[k].data| && copy[..|d|] == d
    {
      var at := Find(r);
      SamePlace(was, chunks, k, at, r);
      NewIsNew(was, k);
      WriteMeans(chunks, at, d);
      chunks := Write(chunks, at, d);
      copy := chunks[at].data;
    }

    /** The largest free chunk, or all free bytes. */
    method GetFree(largest: bool) returns (size: nat)
      requires Valid()
      ensures !largest ==> size == Sum(chunks, false) && size + Sum(chunks, true) + HEADER * |chunks| == poolsize
      ensures largest ==> forall i :: 0 <= i < |chunks| && !chunks[i].used ==> |chunks[i].data| <= size
      ensures largest && size > 0 ==> exists i :: 0 <= i < |chunks| && !chunks[i].used && |chunks[i].data| == size
    {
      size := 0;
      var rest := chunks;
      ghost var n: nat := 0;
      while |rest| > 0
        invariant n <= |chunks| && rest == chunks[n..]
        invariant !largest ==> size + Sum(rest, false) == Sum(chunks, false)
        invariant largest ==> forall i :: 0 <= i < n && !chunks[i].used ==> |chunks[i].data| <= size
        invariant largest && size > 0 ==> exists i :: 0 <= i < |chunks| && !chunks[i].used && |chunks[i].data| == size
        decreases |rest|
      {
        if !rest[0].used && (!largest || |rest[0].data| > size) {
          size := if largest then |rest[0].data| else size + |rest[0].data|;
        }
        rest := rest[1..];
        n := n + 1;
      }
      SumsAndHeaders(chunks);
    }
  }

  function Zeros(n: nat): (z: seq<Byte>)
    ensures |z| == n
  {
    seq(n, _ => 0)
  }

  /** The memory at `a` holding `d` has become memory at `r` holding d', no longer than it must be; first bytes stay. */
  ghost predicate Moved(was: set<(nat, seq<Byte>)>, now: set<(nat, seq<Byte>)>, a: nat, r: nat, d: seq<Byte>, d': seq<Byte>, n: nat) {
    && (a, d) in was && now == was - {(a, d)} + {(r, d')} && n <= |d'| < n + MIN_CHUNK && Keeps(d, d')
  }

  lemma {:induction false} NextAddress(cs: seq<Chunk>, i: nat)
    requires i < |cs|
    ensures Address(cs, i + 1) == Address(cs, i) + HEADER + |cs[i].data|
  {
    assert cs[..i + 1] == cs[..i] + [cs[i]];
    TotalJoins(cs[..i], [cs[i]]);
    assert [cs[i]][1..] == [];
  }

  lemma {:induction false} NoneAtNull(cs: seq<Chunk>, a: nat)
    ensures a == 0 ==> forall i: nat :: !IsAt(cs, i, a)
    ensures a == 0 ==> forall p :: p in Live(cs, 0) ==> p.0 != a
  {
    LiveInside(cs, 0);
  }

  /** Addresses name chunks. */
  lemma {:induction false} OneAddress(cs: seq<Chunk>, i: nat, j: nat, a: nat)
    requires IsAt(cs, i, a) && IsAt(cs, j, a)
    ensures i == j
  {
    if i < j { AddressRises(cs, i, j); }
    if j < i { AddressRises(cs, j, i); }
  }

  lemma {:induction false} OnlyIndex(cs: seq<Chunk>, i: nat, a: nat)
    requires IsAt(cs, i, a)
    ensures forall j: nat :: IsAt(cs, j, a) ==> j == i
  {
    forall j: nat | IsAt(cs, j, a) ensures j == i {
      OneAddress(cs, i, j, a);
    }
  }

  lemma {:induction false} OnlyOneAt(cs: seq<Chunk>, i: nat, a: nat)
    requires IsAt(cs, i, a)
    ensures forall p :: p in Live(cs, 0) && p.0 == a ==> p == (a, cs[i].data) && cs[i].used
  {
    forall p | p in Live(cs, 0) && p.0 == a ensures p == (a, cs[i].data) && cs[i].used {
      LiveComesFrom(cs, p.0, p.1);
      var j: nat :| IsAt(cs, j, a) && cs[j].used && cs[j].data == p.1;
      OneAddress(cs, i, j, a);
    }
  }

  lemma {:induction false} NoneUsedAt(cs: seq<Chunk>, i: nat, a: nat)
    requires IsAt(cs, i, a) && !cs[i].used
    ensures forall p :: p in Live(cs, 0) ==> p.0 != a
  {
    OnlyOneAt(cs, i, a);
  }

  lemma {:induction false} OldIsAlone(cs: seq<Chunk>, a: nat, d: seq<Byte>)
    requires (a, d) in Live(cs, 0)
    ensures forall p :: p in Live(cs, 0) && p.0 == a ==> p == (a, d)
  {
    LiveComesFrom(cs, a, d);
    var i: nat :| IsAt(cs, i, a) && cs[i].used && cs[i].data == d;
    OnlyOneAt(cs, i, a);
  }

  /** New memory was not in use before. */
  lemma {:induction false} NewIsNew(cs: seq<Chunk>, k: nat)
    requires k < |cs| && !cs[k].used
    ensures forall p :: p in Live(cs, 0) ==> p.0 != Address(cs, k)
  {
    NoneUsedAt(cs, k, Address(cs, k));
  }

  /** The chunk found at the new address is the one that was taken. */
  lemma {:induction false} SamePlace(was: seq<Chunk>, now: seq<Chunk>, k: nat, i: nat, r: nat)
    requires k < |was| && k < |now| && now[..k] == was[..k] && r == Address(was, k)
    requires i == |now| ==> forall j: nat :: !IsAt(now, j, r)
    requires i < |now| ==> IsAt(now, i, r)
    requires i <= |now|
    ensures i == k
  {
    assert IsAt(now, k, r);
    if i < |now| { OneAddress(now, i, k, r); }
  }

  lemma {:induction false} RoundedStays(n: nat)
    requires n % 8 == 0 && n < WORD
    ensures Round(n) == n
  {
  }

  /**
   * Cutting keeps the first min(old, new) bytes exactly if rounding the new size does not wrap around, or the
   * chunk is too small to be cut at all.
   */
  lemma {:induction false} ResizeKeepsUnlessWrapped(cs: seq<Chunk>, i: nat, newsize: nat, junk: seq<Byte>)
    requires Tidy(cs) && i < |cs| && cs[i].used && |junk| == HEADER
    requires 0 < newsize < WORD && Round(newsize) <= |cs[i].data|
    ensures var cs' := Shrink(cs, i, Round(newsize), junk);
      && Resized(cs, cs', i, Round(newsize))
      && (Min(|cs[i].data|, newsize) <= |cs'[i].data| <==> newsize <= WORD - 8 || |cs[i].data| < MIN_CHUNK)
  {
    ShrinkMeans(cs, i, Round(newsize), junk);
    if newsize > WORD - 8 && |cs[i].data| >= MIN_CHUNK {
      assert Split(cs[i..], 0, junk)[0] == Chunk(true, cs[i].data[..0]);
    }
  }
}
