/** What every allocator operation keeps, and what it does to the buffers in use. */
module BufFacts {
  import opened BufPool

  // ---------------------------------------------------------------- tiling

  /** Two buffers of one block do not overlap. */
  lemma {:induction false} NoOverlap(hdr: map<Addr, Hdr>, a: Addr, b: Addr, x: Ptr)
    requires Tags(hdr, x) && a in hdr && b in hdr && a.block == b.block && a.off < b.off
    ensures a.off + hdr[a].len <= b.off
    decreases b.off
  {
    assert Good(hdr, b, x);
    var p := hdr[b].p.a;
    assert Good(hdr, p, x);
    if a.off < p.off {
      NoOverlap(hdr, a, p, x);
    } else if p.off < a.off {
      NoOverlap(hdr, p, a, x);
    }
  }

  /** Every byte of a block lies in exactly one buffer. */
  ghost predicate Inside(hdr: map<Addr, Hdr>, block: nat, x: nat, a: Addr) {
    a in hdr && a.block == block && a.off <= x < a.off + hdr[a].len
  }

  lemma {:induction false} Tiled(hdr: map<Addr, Hdr>, block: nat, x: nat)
    requires Tags(hdr, Null) && Addr(block, 0) in hdr && x < BLOCK
    ensures exists a :: Inside(hdr, block, x, a)
    ensures forall a, b :: Inside(hdr, block, x, a) && Inside(hdr, block, x, b) ==> a == b
  {
    FromLeft(hdr, Addr(block, 0), x);
    forall a, b | Inside(hdr, block, x, a) && Inside(hdr, block, x, b) ensures a == b {
      if a.off < b.off { NoOverlap(hdr, a, b, Null); }
      if b.off < a.off { NoOverlap(hdr, b, a, Null); }
    }
  }

  lemma {:induction false} FromLeft(hdr: map<Addr, Hdr>, a: Addr, x: nat)
    requires Tags(hdr, Null) && a in hdr && a.off <= x < BLOCK
    ensures exists b :: Inside(hdr, a.block, x, b)
    decreases BLOCK - a.off
  {
    assert Good(hdr, a, Null);
    if x < a.off + hdr[a].len {
      assert Inside(hdr, a.block, x, a);
    } else {
      FromLeft(hdr, hdr[a].n.a, x);
    }
  }

  // ---------------------------------------------------------------- taking a buffer

  lemma {:induction false} SplitPlaceIsNew(hdr: map<Addr, Hdr>, a: Addr, need: nat)
    requires Tags(hdr, Null) && a in hdr && 0 < need < hdr[a].len
    ensures Addr(a.block, a.off + need) !in hdr
  {
    if Addr(a.block, a.off + need) in hdr { NoOverlap(hdr, a, Addr(a.block, a.off + need), Null); }
  }

  lemma {:induction false} SplitKeepsTags(hdr: map<Addr, Hdr>, a: Addr, need: nat)
    requires Tags(hdr, Null) && a in hdr && hdr[a].links == 0
    requires SMALLEST <= need && need + SMALLEST <= hdr[a].len
    ensures Tags(Split(hdr, a, need), Null)
  {
    var m := Split(hdr, a, need);
    var x := Addr(a.block, a.off + need);
    SplitPlaceIsNew(hdr, a, need);
    assert Good(hdr, a, Null);
    forall y | y in m ensures Good(m, y, Null) {
      if y == a {
      } else if y == x {
      } else {
        assert Good(hdr, y, Null);
      }
    }
  }

  lemma {:induction false} TakeKeepsTags(hdr: map<Addr, Hdr>, a: Addr)
    requires Tags(hdr, Null) && a in hdr
    ensures Tags(hdr[a := hdr[a].(links := 1)], Null)
  {
    var m := hdr[a := hdr[a].(links := 1)];
    forall y | y in m ensures Good(m, y, Null) {
      assert Good(hdr, y, Null);
    }
  }

  lemma {:induction false} RemoveKeepsNoDup(s: seq<Addr>, a: Addr)
    requires NoDup(s)
    ensures NoDup(Remove(s, a))
    ensures a !in s ==> Remove(s, a) == s
    ensures a in s ==> |Remove(s, a)| == |s| - 1
  {
    hide NoDup;
    if |s| > 0 {
      HeadOnce(s);
      RemoveKeepsNoDup(s[1..], a);
      var r := Remove(s[1..], a);
      if s[0] != a {
        NoDupBehind(s[0], r);
      } else {
        assert r == s[1..];
      }
      assert a in s <==> s[0] == a || a in s[1..];
      assert s == [s[0]] + s[1..];
    }
  }

  lemma {:induction false} HeadOnce(s: seq<Addr>)
    requires NoDup(s) && |s| > 0
    ensures NoDup(s[1..]) && s[0] !in s[1..]
  {
  }

  lemma {:induction false} NoDupBehind(x: Addr, s: seq<Addr>)
    requires NoDup(s) && x !in s
    ensures NoDup([x] + s)
  {
    assert forall j :: 0 <= j < |s| ==> s[j] in s;
  }

  lemma {:induction false} UnlinkKeepsNoDup(pool: seq<seq<Addr>>, a: Addr)
    requires forall i :: 0 <= i < |pool| ==> NoDup(pool[i])
    ensures forall i :: 0 <= i < |pool| ==> NoDup(Unlink(pool, a)[i])
  {
    forall i | 0 <= i < |pool| ensures NoDup(Unlink(pool, a)[i]) {
      RemoveKeepsNoDup(pool[i], a);
    }
  }

  /** Lists after `a` stopped being free (or became the buffer at hand) while all else stayed. */
  lemma {:induction false} ListsWithout(hdr: map<Addr, Hdr>, pool: seq<seq<Addr>>, a: Addr, m: map<Addr, Hdr>, x: Ptr)
    requires Lists(hdr, pool, Null)
    requires forall b, i: nat :: i <= NSPLIT ==> (FreeIn(m, i, b) && x != At(b) <==> FreeIn(hdr, i, b) && b != a)
    ensures Lists(m, Unlink(pool, a), x)
  {
    UnlinkKeepsNoDup(pool, a);
  }

  /** Lists after `a` became free. */
  lemma {:induction false} ListsWith(hdr: map<Addr, Hdr>, pool: seq<seq<Addr>>, a: Addr, c: nat, m: map<Addr, Hdr>, x: Ptr)
    requires Lists(hdr, pool, x) && FreeIn(m, c, a) && (a !in hdr || hdr[a].links > 0 || x == At(a))
    requires forall b, i: nat :: b != a ==> (FreeIn(m, i, b) <==> FreeIn(hdr, i, b) && x != At(b))
    ensures Lists(m, Push(pool, c, a), Null)
  {
    forall i: nat, b | i <= NSPLIT ensures b in Push(pool, c, a)[i] <==> FreeIn(m, i, b) {
      assert b in pool[i] <==> FreeIn(hdr, i, b) && x != At(b);
      if b == a && FreeIn(m, i, a) { OneClass(m[a].len, i, c); }
    }
    assert a in pool[c] <==> FreeIn(hdr, c, a) && x != At(a);
    assert forall j :: 0 <= j < |pool[c]| ==> pool[c][j] in pool[c];
  }

  /** The same buffers are in use, with the same sizes and reference counts. */
  ghost predicate SameLive(h: Heap, h': Heap) {
    forall b :: (Live(h', b) <==> Live(h, b)) && (Live(h, b) ==> h'.hdr[b].len == h.hdr[b].len && h'.hdr[b].links == h.hdr[b].links)
  }

  /** `a` came into use with at least `need` bytes, less than a smallest buffer wasted; no other buffer changed. */
  ghost predicate Took(h: Heap, h': Heap, a: Addr, need: nat) {
    && Live(h', a) && !Live(h, a) && h'.hdr[a].links == 1 && need <= h'.hdr[a].len < need + SMALLEST
    && (forall b :: Live(h', b) <==> Live(h, b) || b == a)
    && (forall b :: Live(h, b) ==> h'.hdr[b].len == h.hdr[b].len && h'.hdr[b].links == h.hdr[b].links)
  }

  lemma {:induction false} TookFromSame(h: Heap, h1: Heap, h2: Heap, a: Addr, need: nat)
    requires SameLive(h, h1) && Took(h1, h2, a, need)
    ensures Took(h, h2, a, need)
  {
  }

  /** Taking a buffer that is big enough keeps everything in order and changes no buffer in use. */
  lemma {:induction false} TakeKeeps(h: Heap, a: Addr, need: nat)
    requires Valid(h) && a in h.hdr && h.hdr[a].links == 0 && SMALLEST <= need <= h.hdr[a].len
    ensures Valid(Take(h, a, need)) && Took(h, Take(h, a, need), a, need)
  {
    if h.hdr[a].len - need >= SMALLEST {
      TakePart(h, a, need);
      TakePartLive(h, a, need);
    } else {
      TakeWhole(h, a);
    }
  }

  lemma {:induction false} TakeWhole(h: Heap, a: Addr)
    requires Valid(h) && a in h.hdr && h.hdr[a].links == 0
    ensures var h' := h.(hdr := h.hdr[a := h.hdr[a].(links := 1)], pool := Unlink(h.pool, a));
      Valid(h') && (forall b :: Live(h', b) <==> Live(h, b) || b == a)
  {
    var m := h.hdr[a := h.hdr[a].(links := 1)];
    TakeKeepsTags(h.hdr, a);
    ListsWithout(h.hdr, h.pool, a, m, Null);
    assert Blocks(m) == Blocks(h.hdr);
  }

  lemma {:induction false} TakePart(h: Heap, a: Addr, need: nat)
    requires Valid(h) && a in h.hdr && h.hdr[a].links == 0 && SMALLEST <= need && need + SMALLEST <= h.hdr[a].len
    ensures Valid(Take(h, a, need))
  {
    SplitPlaceIsNew(h.hdr, a, need);
    SplitKeepsOthers(h.hdr, a, need);
    SplitKeepsTags(h.hdr, a, need);
    SplitKeepsLists(h.hdr, h.pool, a, need);
    TakePartIs(h, a, need);
  }

  lemma {:induction false} TakePartIs(h: Heap, a: Addr, need: nat)
    requires a in h.hdr && need + SMALLEST <= h.hdr[a].len && |h.pool| == NSPLIT + 1
    ensures Take(h, a, need) ==
      Heap(Split(h.hdr, a, need), Push(Unlink(h.pool, a), Class(h.hdr[a].len - need), Addr(a.block, a.off + need)), h.used)
  {
  }

  lemma {:induction false} TakePartLive(h: Heap, a: Addr, need: nat)
    requires Valid(h) && a in h.hdr && h.hdr[a].links == 0 && SMALLEST <= need && need + SMALLEST <= h.hdr[a].len
    ensures var h' := Take(h, a, need);
      && a in h'.hdr && h'.hdr[a].links == 1 && h'.hdr[a].len == need
      && (forall b :: Live(h', b) <==> Live(h, b) || b == a)
      && (forall b :: Live(h, b) ==> h'.hdr[b].len == h.hdr[b].len && h'.hdr[b].links == h.hdr[b].links)
  {
    SplitPlaceIsNew(h.hdr, a, need);
    SplitKeepsOthers(h.hdr, a, need);
  }

  /** Splitting changes headers as little as it can. */
  lemma {:induction false} SplitKeepsOthers(hdr: map<Addr, Hdr>, a: Addr, need: nat)
    requires Tags(hdr, Null) && a in hdr && hdr[a].links == 0 && need <= hdr[a].len
    requires Addr(a.block, a.off + need) !in hdr && 0 < need
    ensures var m, x := Split(hdr, a, need), Addr(a.block, a.off + need);
      && m.Keys == hdr.Keys + {x} && m[a].links == 1 && m[a].len == need
      && m[x].links == 0 && m[x].len == hdr[a].len - need
      && (forall b :: b in hdr && b != a ==> m[b].len == hdr[b].len && m[b].links == hdr[b].links)
      && Blocks(m) == Blocks(hdr)
  {
    assert Good(hdr, a, Null);
  }

  lemma {:induction false} SplitKeepsLists(hdr: map<Addr, Hdr>, pool: seq<seq<Addr>>, a: Addr, need: nat)
    requires Tags(hdr, Null) && Lists(hdr, pool, Null) && a in hdr && hdr[a].links == 0
    requires SMALLEST <= need && need + SMALLEST <= hdr[a].len && Addr(a.block, a.off + need) !in hdr
    ensures Lists(Split(hdr, a, need), Push(Unlink(pool, a), Class(hdr[a].len - need), Addr(a.block, a.off + need)), Null)
  {
    var mid := hdr[a := hdr[a].(links := 1)];
    ListsWithout(hdr, pool, a, mid, Null);
    SplitKeepsOthers(hdr, a, need);
    var m, x := Split(hdr, a, need), Addr(a.block, a.off + need);
    var c := Class(hdr[a].len - need);
    assert !FreeIn(mid, c, x);
    ListsWith(mid, Unlink(pool, a), x, c, m, Null);
  }

  // ---------------------------------------------------------------- giving a buffer back

  /** `b` and its right neighbour `c`, one of them at hand and the other free, become one buffer at hand. */
  lemma {:induction false} JoinKeepsTags(hdr: map<Addr, Hdr>, b: Addr, c: Addr, x: Addr)
    requires Tags(hdr, At(x)) && b in hdr && c in hdr && hdr[b].n == At(c) && (x == b || x == c)
    ensures Tags(Join(hdr, b, c), At(b))
  {
    var m := Join(hdr, b, c);
    assert Good(hdr, b, At(x)) && Good(hdr, c, At(x));
    forall y | y in m ensures Good(m, y, At(b)) {
      assert Good(hdr, y, At(x));
    }
  }

  lemma {:induction false} JoinKeepsLists(hdr: map<Addr, Hdr>, pool: seq<seq<Addr>>, b: Addr, c: Addr, x: Addr)
    requires Tags(hdr, At(x)) && Lists(hdr, pool, At(x)) && b in hdr && c in hdr && hdr[b].n == At(c) && (x == b || x == c)
    ensures Lists(Join(hdr, b, c), Unlink(pool, if x == b then c else b), At(b))
  {
    var m := Join(hdr, b, c);
    assert Good(hdr, b, At(x)) && Good(hdr, c, At(x));
    UnlinkKeepsNoDup(pool, if x == b then c else b);
    assert b != c;
    forall i: nat, y | i <= NSPLIT ensures FreeIn(m, i, y) && y != b <==> FreeIn(hdr, i, y) && y != b && y != c {
    }
  }

  lemma {:induction false} JoinKeepsBlocks(hdr: map<Addr, Hdr>, b: Addr, c: Addr, x: Addr)
    requires Tags(hdr, At(x)) && b in hdr && c in hdr && hdr[b].n == At(c)
    ensures Blocks(Join(hdr, b, c)) == Blocks(hdr)
  {
    assert Good(hdr, b, At(x)) && Good(hdr, c, At(x));
  }

  /** Buffers in use other than `a` are the same in both heaps. */
  ghost predicate SameOthers(h: Heap, h': Heap, a: Addr) {
    forall b :: b != a ==>
      (Live(h', b) <==> Live(h, b)) && (Live(h, b) ==> h'.hdr[b].len == h.hdr[b].len && h'.hdr[b].links == h.hdr[b].links)
  }

  /** The buffer at hand is `x`: in order but for it. */
  ghost predicate AtHand(h: Heap, x: Addr) {
    x in h.hdr && Tags(h.hdr, At(x)) && Lists(h.hdr, h.pool, At(x)) && h.used == BLOCK * |Blocks(h.hdr)|
  }

  lemma {:induction false} JoinKeepsOthers(h: Heap, h': Heap, b: Addr, c: Addr)
    requires b in h.hdr && c in h.hdr && b != c && h'.hdr == Join(h.hdr, b, c)
    requires h.hdr[c].n != At(c)
    ensures b in h'.hdr && c !in h'.hdr && h'.hdr[b].links == h.hdr[b].links && h'.hdr[b].p == h.hdr[b].p
    ensures h'.hdr[b].n == h.hdr[c].n
    ensures forall y :: y in h.hdr && y != c ==> y in h'.hdr && h'.hdr[y].links == h.hdr[y].links
    ensures h.hdr[c].links == 0 ==> SameOthers(h, h', b)
    ensures h.hdr[b].links == 0 ==> SameOthers(h, h', c)
  {
  }

  lemma {:induction false} JoinLeftKeeps(h: Heap, a: Addr)
    requires AtHand(h, a)
    ensures var (h', x) := JoinLeft(h, a);
      && AtHand(h', x) && !FreeAt(h'.hdr, h'.hdr[x].p)
      && (x != a ==> a !in h'.hdr && !Live(h', x) && !Live(h, x))
      && (x == a ==> h' == h)
      && SameOthers(h, h', a)
  {
    assert Good(h.hdr, a, At(a));
    var p := h.hdr[a].p;
    if FreeAt(h.hdr, p) {
      JoinKeepsTags(h.hdr, p.a, a, a);
      JoinKeepsLists(h.hdr, h.pool, p.a, a, a);
      JoinKeepsBlocks(h.hdr, p.a, a, a);
      assert Good(h.hdr, p.a, At(a));
      JoinKeepsOthers(h, JoinLeft(h, a).0, p.a, a);
      var q := h.hdr[p.a].p;
      if q.At? { assert Good(h.hdr, q.a, At(a)); }
    }
  }

  lemma {:induction false} JoinRightKeeps(h: Heap, a: Addr)
    requires AtHand(h, a) && !FreeAt(h.hdr, h.hdr[a].p)
    ensures var h' := JoinRight(h, a);
      && AtHand(h', a) && !FreeAt(h'.hdr, h'.hdr[a].p) && !FreeAt(h'.hdr, h'.hdr[a].n)
      && h'.hdr[a].links == h.hdr[a].links
      && SameOthers(h, h', a)
  {
    assert Good(h.hdr, a, At(a));
    var n := h.hdr[a].n;
    if FreeAt(h.hdr, n) {
      JoinKeepsTags(h.hdr, a, n.a, a);
      JoinKeepsLists(h.hdr, h.pool, a, n.a, a);
      JoinKeepsBlocks(h.hdr, a, n.a, a);
      assert Good(h.hdr, n.a, At(a));
      JoinKeepsOthers(h, JoinRight(h, a), a, n.a);
    }
  }

  lemma {:induction false} ReleaseKeepsTags(hdr: map<Addr, Hdr>, a: Addr)
    requires a in hdr && Tags(hdr, At(a)) && !FreeAt(hdr, hdr[a].p) && !FreeAt(hdr, hdr[a].n)
    ensures Tags(hdr[a := hdr[a].(links := 0)], Null)
  {
    var m := hdr[a := hdr[a].(links := 0)];
    assert Good(hdr, a, At(a));
    forall y | y in m ensures Good(m, y, Null) {
      assert Good(hdr, y, At(a));
    }
  }

  lemma {:induction false} ReleaseKeepsLists(hdr: map<Addr, Hdr>, pool: seq<seq<Addr>>, a: Addr)
    requires a in hdr && Lists(hdr, pool, At(a)) && SMALLEST <= hdr[a].len
    ensures Lists(hdr[a := hdr[a].(links := 0)], Push(pool, Class(hdr[a].len), a), Null)
  {
    var m := hdr[a := hdr[a].(links := 0)];
    ListsWith(hdr, pool, a, Class(hdr[a].len), m, At(a));
  }

  lemma {:induction false} ReleaseKeeps(h: Heap, a: Addr)
    requires AtHand(h, a) && !FreeAt(h.hdr, h.hdr[a].p) && !FreeAt(h.hdr, h.hdr[a].n)
    requires SMALLEST <= h.hdr[a].len
    ensures var h' := Release(h, a); Valid(h') && SameOthers(h, h', a) && !Live(h', a)
  {
    var m := h.hdr[a := h.hdr[a].(links := 0)];
    ReleaseKeepsTags(h.hdr, a);
    ReleaseKeepsLists(h.hdr, h.pool, a);
    assert Blocks(m) == Blocks(h.hdr);
  }

  /** Freeing: join left, join right, put on the list. */
  ghost function Free(h: Heap, a: Addr): Heap
    requires AtHand(h, a)
  {
    JoinLeftKeeps(h, a);
    var (h1, x) := JoinLeft(h, a);
    JoinRightKeeps(h1, x);
    var h2 := JoinRight(h1, x);
    assert Good(h2.hdr, x, At(x));
    Release(h2, x)
  }

  /** Freeing a buffer in use keeps everything in order and takes exactly that buffer out of use. */
  lemma {:induction false} FreeKeeps(h: Heap, a: Addr)
    requires AtHand(h, a)
    ensures Valid(Free(h, a)) && !Live(Free(h, a), a) && SameOthers(h, Free(h, a), a)
  {
    JoinLeftKeeps(h, a);
    var (h1, x) := JoinLeft(h, a);
    JoinRightKeeps(h1, x);
    var h2 := JoinRight(h1, x);
    assert Good(h2.hdr, x, At(x));
    ReleaseKeeps(h2, x);
  }

  /** A buffer in use, or one whose last reference was just dropped, can be freed. */
  lemma {:induction false} InUseIsAtHand(h: Heap, a: Addr, links: nat)
    requires Valid(h) && Live(h, a)
    ensures AtHand(h.(hdr := h.hdr[a := h.hdr[a].(links := links)]), a)
  {
    var m := h.hdr[a := h.hdr[a].(links := links)];
    forall y | y in m ensures Good(m, y, At(a)) {
      assert Good(h.hdr, y, Null);
    }
    assert Blocks(m) == Blocks(h.hdr);
    forall i: nat, y ensures FreeIn(m, i, y) && y != a <==> FreeIn(h.hdr, i, y) {
    }
  }

  // ---------------------------------------------------------------- blocks

  lemma {:induction false} NewBlockTags(hdr: map<Addr, Hdr>, block: nat)
    requires Tags(hdr, Null) && forall a :: a in hdr ==> a.block != block
    ensures Tags(hdr[Addr(block, 0) := Hdr(BLOCK, 0, Null, Null)], Null)
  {
    var m := hdr[Addr(block, 0) := Hdr(BLOCK, 0, Null, Null)];
    forall y | y in m ensures Good(m, y, Null) {
      if y != Addr(block, 0) { assert Good(hdr, y, Null); }
    }
  }

  lemma {:induction false} AddBlockKeeps(h: Heap, block: nat)
    requires Valid(h) && forall a :: a in h.hdr ==> a.block != block
    ensures var h' := AddBlock(h, block); Valid(h') && SameLive(h, h') && |h'.pool[0]| > 0
  {
    var a := Addr(block, 0);
    var h' := AddBlock(h, block);
    NewBlockTags(h.hdr, block);
    assert InClass(BLOCK, 0);
    assert !FreeIn(h.hdr, 0, a);
    ListsWith(h.hdr, h.pool, a, 0, h'.hdr, Null);
    assert Blocks(h'.hdr) == Blocks(h.hdr) + {a};
  }

  /** Only wholly free blocks are on the first list. */
  lemma {:induction false} FirstListIsWholeBlocks(h: Heap, a: Addr)
    requires Valid(h) && a in h.pool[0]
    ensures a in h.hdr && a.off == 0 && h.hdr[a] == Hdr(BLOCK, 0, Null, Null)
  {
    assert FreeIn(h.hdr, 0, a);
    assert Good(h.hdr, a, Null);
  }

  lemma {:induction false} FreeBlockKeeps(h: Heap)
    requires Valid(h) && |h.pool[0]| >= 2 && h.pool[0][0] in h.hdr
    ensures var h' := FreeBlock(h);
      && Valid(h') && |h'.pool[0]| == |h.pool[0]| - 1 && h'.used == h.used - BLOCK
      && SameLive(h, h')
  {
    var a := h.pool[0][0];
    FirstListIsWholeBlocks(h, a);
    var m := h.hdr - {a};
    forall y | y in m ensures Good(m, y, Null) {
      assert Good(h.hdr, y, Null);
    }
    ListsWithout(h.hdr, h.pool, a, m, Null);
    assert Blocks(m) == Blocks(h.hdr) - {a};
    RemoveKeepsNoDup(h.pool[0], a);
  }
}
