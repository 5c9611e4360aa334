/** Runs of the allocator: every operation as a step on values, and what all steps keep. */
module BufRuns {
  import opened Common
  import opened BufPool
  import opened BufFacts

  /** What the kernel's allocator answers: blocks it has not handed out yet. */
  datatype Kernel = Refuses | Gives(block: nat)

  datatype Mode = Normal | Atomic

  /** When an allocation of `need` bytes fails. */
  predicate Fails(pool: seq<seq<Addr>>, need: nat, mode: Mode, k: Kernel)
    requires |pool| == NSPLIT + 1
  {
    need > BLOCK || (Search(pool, Fitting(need, NSPLIT)) == 0 && (mode == Atomic || k.Refuses?))
  }

  lemma {:induction false} AddBlockIfGiven(h: Heap, k: Kernel)
    requires Valid(h) && (k.Gives? ==> forall a :: a in h.hdr ==> a.block != k.block)
    ensures k.Gives? ==>
      var h' := BufPool.AddBlock(h, k.block); Valid(h') && SameLive(h, h') && |h'.pool[0]| > 0
  {
    if k.Gives? { AddBlockKeeps(h, k.block); }
  }

  lemma {:induction false} FewerLinksKeeps(h: Heap, a: Addr, links: nat)
    requires Valid(h) && Live(h, a) && links > 0
    ensures var h' := h.(hdr := h.hdr[a := h.hdr[a].(links := links)]); Valid(h') && SameOthers(h, h', a)
  {
    var m := h.hdr[a := h.hdr[a].(links := links)];
    forall y | y in m ensures Good(m, y, Null) {
      assert Good(h.hdr, y, Null);
    }
    assert Blocks(m) == Blocks(h.hdr);
    forall i: nat, y ensures FreeIn(m, i, y) <==> FreeIn(h.hdr, i, y) {
    }
  }

  // ---------------------------------------------------------------- steps

  /** The heap after the kernel has been asked for a block, if that was necessary and possible. */
  function Supplied(h: Heap, idx: nat, mode: Mode, k: Kernel): Heap
    requires idx < |h.pool| == NSPLIT + 1
  {
    if Search(h.pool, idx) == 0 && mode == Normal && k.Gives? then AddBlock(h, k.block) else h
  }

  ghost predicate FreshBlock(h: Heap, k: Kernel) { k.Gives? ==> forall a :: a in h.hdr ==> a.block != k.block }

  lemma {:induction false} SuppliedKeeps(h: Heap, idx: nat, mode: Mode, k: Kernel)
    requires Valid(h) && FreshBlock(h, k) && idx <= NSPLIT
    ensures Valid(Supplied(h, idx, mode, k)) && SameLive(h, Supplied(h, idx, mode, k))
  {
    AddBlockIfGiven(h, k);
  }

  /** The head of list `i - 1`, if it is long enough. */
  lemma {:induction false} HeadFits(h: Heap, need: nat, i: nat, idx: nat)
    requires Valid(h) && 0 < i <= idx + 1 <= NSPLIT + 1 && |h.pool[i - 1]| > 0 && need <= Size(idx)
    ensures var a := h.pool[i - 1][0]; a in h.hdr && h.hdr[a].links == 0 && need <= h.hdr[a].len
  {
    assert FreeIn(h.hdr, i - 1, h.pool[i - 1][0]);
    SizesFall(i - 1, idx);
  }

  ghost function Allocate(h: Heap, size: nat, mode: Mode, k: Kernel): Heap
    requires Valid(h) && FreshBlock(h, k)
  {
    var need := Need(size);
    if need > BLOCK then h else
    var idx := Fitting(need, NSPLIT);
    SuppliedKeeps(h, idx, mode, k);
    var h1 := Supplied(h, idx, mode, k);
    var i := Search(h1.pool, idx);
    if i == 0 then h1 else
    HeadFits(h1, need, i, idx);
    Take(h1, h1.pool[i - 1][0], need)
  }

  /** An allocation in terms of the steps that make it up. */
  lemma {:induction false} AllocateInSteps(h: Heap, size: nat, mode: Mode, k: Kernel, h1: Heap, i: nat)
    requires Valid(h) && FreshBlock(h, k) && Need(size) <= BLOCK
    requires h1 == Supplied(h, Fitting(Need(size), NSPLIT), mode, k) && Valid(h1)
    requires i == Search(h1.pool, Fitting(Need(size), NSPLIT))
    ensures i == 0 ==> Allocate(h, size, mode, k) == h1 == h && Fails(h.pool, Need(size), mode, k)
    ensures i > 0 ==> !Fails(h.pool, Need(size), mode, k)
    ensures i > 0 ==> var a := h1.pool[i - 1][0];
      && a in h1.hdr && h1.hdr[a].links == 0 && SMALLEST <= Need(size) <= h1.hdr[a].len
      && Allocate(h, size, mode, k) == Take(h1, a, Need(size))
  {
    hide FreeIn, Good, Take;
    var idx := Fitting(Need(size), NSPLIT);
    SearchAfterSupply(h, idx, mode, k);
    if i > 0 {
      HeadFits(h1, Need(size), i, idx);
      assert Allocate(h, size, mode, k) == Take(h1, h1.pool[i - 1][0], Need(size));
    }
  }

  /** Nothing is found in the end exactly if nothing was there and no block could be had. */
  lemma {:induction false} SearchAfterSupply(h: Heap, idx: nat, mode: Mode, k: Kernel)
    requires idx < |h.pool| == NSPLIT + 1
    ensures Search(Supplied(h, idx, mode, k).pool, idx) == 0 <==> Search(h.pool, idx) == 0 && (mode == Atomic || k.Refuses?)
    ensures Search(Supplied(h, idx, mode, k).pool, idx) == 0 ==> Supplied(h, idx, mode, k) == h
  {
    if Search(h.pool, idx) == 0 && mode == Normal && k.Gives? {
      assert |AddBlock(h, k.block).pool[0]| > 0;
    }
  }

  ghost function Drop(h: Heap, a: Addr): Heap
    requires Valid(h) && Live(h, a)
  {
    var h1 := h.(hdr := h.hdr[a := h.hdr[a].(links := h.hdr[a].links - 1)]);
    if h.hdr[a].links > 1 then h1 else
    InUseIsAtHand(h, a, 0);
    Free(h1, a)
  }

  datatype Op = Alloc(size: nat, mode: Mode, k: Kernel) | FreeNow(a: Addr) | Deref(a: Addr) | Ref(a: Addr) | Shrink

  /** What callers must respect: blocks are new, buffers are in use. */
  ghost predicate Proper(h: Heap, op: Op) {
    match op
    case Alloc(_, _, k) => FreshBlock(h, k)
    case FreeNow(a) => Live(h, a)
    case Deref(a) => Live(h, a)
    case Ref(a) => Live(h, a)
    case Shrink => true
  }

  ghost function Step(h: Heap, op: Op): Heap
    requires Valid(h) && Proper(h, op)
  {
    match op
    case Alloc(size, mode, k) => Allocate(h, size, mode, k)
    case FreeNow(a) => InUseIsAtHand(h, a, h.hdr[a].links); assert h.hdr[a := h.hdr[a]] == h.hdr; Free(h, a)
    case Deref(a) => Drop(h, a)
    case Ref(a) => h.(hdr := h.hdr[a := h.hdr[a].(links := h.hdr[a].links + 1)])
    case Shrink =>
      if |h.pool[0]| >= 2 then
        FirstListIsWholeBlocks(h, h.pool[0][0]);
        FreeBlock(h)
      else h
  }

  lemma {:induction false} AllocateKeeps(h: Heap, size: nat, mode: Mode, k: Kernel)
    requires Valid(h) && FreshBlock(h, k)
    ensures Valid(Allocate(h, size, mode, k))
  {
    var need := Need(size);
    if need <= BLOCK {
      var idx := Fitting(need, NSPLIT);
      SuppliedKeeps(h, idx, mode, k);
      var h1 := Supplied(h, idx, mode, k);
      var i := Search(h1.pool, idx);
      if i > 0 {
        HeadFits(h1, need, i, idx);
        TakeKeeps(h1, h1.pool[i - 1][0], need);
      }
    }
  }

  /** Every operation keeps the heap in order. */
  lemma {:induction false} StepKeepsValid(h: Heap, op: Op)
    requires Valid(h) && Proper(h, op)
    ensures Valid(Step(h, op))
  {
    match op
    case Alloc(size, mode, k) => AllocateKeeps(h, size, mode, k);
    case FreeNow(a) =>
      InUseIsAtHand(h, a, h.hdr[a].links);
      assert h.hdr[a := h.hdr[a]] == h.hdr;
      FreeKeeps(h, a);
    case Deref(a) => DropKeeps(h, a);
    case Ref(a) => FewerLinksKeeps(h, a, h.hdr[a].links + 1);
    case Shrink =>
      if |h.pool[0]| >= 2 {
        FirstListIsWholeBlocks(h, h.pool[0][0]);
        FreeBlockKeeps(h);
      }
  }

  lemma {:induction false} DropKeeps(h: Heap, a: Addr)
    requires Valid(h) && Live(h, a)
    ensures Valid(Drop(h, a)) && SameOthers(h, Drop(h, a), a)
    ensures Live(Drop(h, a), a) <==> h.hdr[a].links > 1
  {
    if h.hdr[a].links > 1 {
      FewerLinksKeeps(h, a, h.hdr[a].links - 1);
    } else {
      InUseIsAtHand(h, a, 0);
      FreeKeeps(h.(hdr := h.hdr[a := h.hdr[a].(links := h.hdr[a].links - 1)]), a);
    }
  }

  /** A run of operations each of which its caller was entitled to. */
  ghost predicate Runs(hs: seq<Heap>, ops: seq<Op>) {
    && |hs| == |ops| + 1
    && forall i :: 0 <= i < |ops| ==> Valid(hs[i]) ==> Proper(hs[i], ops[i]) && hs[i + 1] == Step(hs[i], ops[i])
  }

  /** In every heap of a run, blocks are tiled, live buffers are disjoint and the lists are right. */
  lemma {:induction false} AlwaysInOrder(hs: seq<Heap>, ops: seq<Op>, n: nat)
    requires Runs(hs, ops) && n < |hs| && Valid(hs[0])
    ensures Valid(hs[n])
    ensures forall a, b :: Live(hs[n], a) && Live(hs[n], b) && a.block == b.block && a.off < b.off ==>
      a.off + hs[n].hdr[a].len <= b.off
    ensures forall a :: Live(hs[n], a) ==> a.off + hs[n].hdr[a].len <= BLOCK
  {
    if n > 0 {
      AlwaysInOrder(hs, ops, n - 1);
      StepKeepsValid(hs[n - 1], ops[n - 1]);
    }
    forall a, b | Live(hs[n], a) && Live(hs[n], b) && a.block == b.block && a.off < b.off
      ensures a.off + hs[n].hdr[a].len <= b.off
    {
      NoOverlap(hs[n].hdr, a, b, Null);
    }
    forall a | Live(hs[n], a) ensures a.off + hs[n].hdr[a].len <= BLOCK {
      assert Good(hs[n].hdr, a, Null);
    }
  }

  // ---------------------------------------------------------------- references

  /** References taken less references dropped among the first `n` operations. */
  function Balance(ops: seq<Op>, a: Addr, n: nat): int
    requires n <= |ops|
  {
    if n == 0 then 0
    else Balance(ops, a, n - 1) + (if ops[n - 1] == Ref(a) then 1 else if ops[n - 1] == Deref(a) then -1 else 0)
  }

  /** Operation `n` does not free the buffer and leaves it a reference, of `links` at the start. */
  predicate Referenced(links: int, ops: seq<Op>, a: Addr, n: nat)
    requires n < |ops|
  {
    ops[n] != FreeNow(a) && links + Balance(ops, a, n + 1) > 0
  }

  /** An allocation leaves every buffer in use alone. */
  lemma {:induction false} AllocateSpares(h: Heap, size: nat, mode: Mode, k: Kernel, a: Addr)
    requires Valid(h) && FreshBlock(h, k) && Live(h, a)
    ensures var h' := Allocate(h, size, mode, k); Live(h', a) && h'.hdr[a].len == h.hdr[a].len && h'.hdr[a].links == h.hdr[a].links
  {
    hide FreeIn, Good, Take;
    if Need(size) <= BLOCK {
      var idx := Fitting(Need(size), NSPLIT);
      SuppliedKeeps(h, idx, mode, k);
      var h1 := Supplied(h, idx, mode, k);
      var i := Search(h1.pool, idx);
      AllocateInSteps(h, size, mode, k, h1, i);
      if i > 0 { TakeKeeps(h1, h1.pool[i - 1][0], Need(size)); }
    }
  }

  /** What one operation does to a buffer in use: it goes exactly if it is freed or loses its last reference. */
  lemma {:induction false} StepCounts(h: Heap, op: Op, a: Addr)
    requires Valid(h) && Proper(h, op) && Live(h, a)
    ensures var h', links := Step(h, op), h.hdr[a].links + Balance([op], a, 1);
      && (Live(h', a) <==> op != FreeNow(a) && links > 0)
      && (Live(h', a) ==> h'.hdr[a].links == links && h'.hdr[a].len == h.hdr[a].len)
  {
    hide FreeIn, Good, Allocate, FreeBlock;
    assert Balance([op], a, 0) == 0;
    match op
    case Alloc(size, mode, k) => AllocateSpares(h, size, mode, k, a);
    case FreeNow(b) =>
      InUseIsAtHand(h, b, h.hdr[b].links);
      assert h.hdr[b := h.hdr[b]] == h.hdr;
      FreeKeeps(h, b);
    case Deref(b) => DropKeeps(h, b);
    case Ref(b) => FewerLinksKeeps(h, b, h.hdr[b].links + 1);
    case Shrink =>
      if |h.pool[0]| >= 2 {
        FirstListIsWholeBlocks(h, h.pool[0][0]);
        FreeBlockKeeps(h);
      }
  }

  /**
   * A buffer stays in use, with its size, as long as nobody frees it and more references were taken than dropped; the
   * operation that breaks this takes it out of use, whatever else the run allocates, frees and collects.
   */
  lemma {:induction false} InUseWhileReferenced(hs: seq<Heap>, ops: seq<Op>, a: Addr, n: nat)
    requires Runs(hs, ops) && n < |ops| && Valid(hs[0]) && Live(hs[0], a)
    requires forall m :: 0 <= m < n ==> Referenced(hs[0].hdr[a].links, ops, a, m)
    ensures Live(hs[n], a) && hs[n].hdr[a].links == hs[0].hdr[a].links + Balance(ops, a, n) && hs[n].hdr[a].len == hs[0].hdr[a].len
    ensures Live(hs[n + 1], a) <==> Referenced(hs[0].hdr[a].links, ops, a, n)
    ensures Live(hs[n + 1], a) ==>
      hs[n + 1].hdr[a].links == hs[0].hdr[a].links + Balance(ops, a, n + 1) && hs[n + 1].hdr[a].len == hs[0].hdr[a].len
  {
    if n > 0 { InUseWhileReferenced(hs, ops, a, n - 1); }
    AlwaysInOrder(hs, ops, n);
    assert Proper(hs[n], ops[n]) && hs[n + 1] == Step(hs[n], ops[n]);
    StepCounts(hs[n], ops[n], a);
    assert Balance([ops[n]], a, 1) == Balance([ops[n]], a, 0) + (if ops[n] == Ref(a) then 1 else if ops[n] == Deref(a) then -1 else 0);
  }

  // ---------------------------------------------------------------- the requested room

  /** Header, rounded-up reserve, and what the request asks for beyond the reserve, if anything. */
  function Room(size: nat, reserve: nat): nat {
    HEADER + (reserve + reserve % 2) + if reserve <= size then size - reserve else 0
  }

  /**
   * A request gets room for its bytes after the rounded-up reserve exactly unless the size wraps around; a reserve
   * larger than the size fits, without wrapping around, exactly if rounding or the smallest buffer leaves that much.
   */
  lemma {:induction false} RequestFits(size: nat, reserve: nat)
    requires size < WORD
    ensures reserve <= size ==> (Room(size, reserve) <= Need(size) <==> size + HEADER + 2 < WORD)
    ensures reserve > size && size + HEADER + 2 < WORD ==>
      (Room(size, reserve) <= Need(size) <==> reserve <= size - size % 2 + 2 || reserve <= SMALLEST - HEADER)
  {
  }
}
