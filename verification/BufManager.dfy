/** The allocator as the program runs it. */
module BufManager {
  import opened BufPool
  import opened BufFacts
  import opened BufRuns

  class Manager {
    var hdr: map<Addr, Hdr>
    var pool: seq<seq<Addr>>
    var memUsed: int
    var failedAllocs: nat

    ghost function View(): Heap
      reads this
    {
      Heap(hdr, pool, memUsed)
    }

    constructor ()
      ensures Valid(View()) && hdr == map[] && failedAllocs == 0
    {
      hdr, pool, memUsed, failedAllocs := map[], seq(NSPLIT + 1, _ => []), 0, 0;
    }

    /** Gets a block from the kernel and puts it on the first list; true means failure. */
    method AddBlock(k: Kernel) returns (failed: bool)
      requires Valid(View()) && (k.Gives? ==> forall a :: a in hdr ==> a.block != k.block)
      modifies this
      ensures failed == k.Refuses? && failedAllocs == old(failedAllocs)
      ensures View() == if failed then old(View()) else BufPool.AddBlock(old(View()), k.block)
      ensures Valid(View())
    {
      if k.Refuses? {
        return true;
      }
      AddBlockKeeps(View(), k.block);
      var a := Addr(k.block, 0);
      hdr := hdr[a := Hdr(BLOCK, 0, Null, Null)];
      pool := pool[0 := [a] + pool[0]];
      memUsed := memUsed + BLOCK;
      return false;
    }

    /** The last size class all of whose buffers are big enough; `none` if no block is. */
    method FindClass(need: nat) returns (none: bool, idx: nat)
      ensures none <==> BLOCK < need
      ensures !none ==> idx == Fitting(need, NSPLIT)
    {
      idx := NSPLIT;
      while idx > 0 && Size(idx) < need
        invariant idx <= NSPLIT
        invariant need <= BLOCK ==> Fitting(need, NSPLIT) == Fitting(need, idx)
      {
        idx := idx - 1;
      }
      none := Size(idx) < need;
      SizesFall(0, idx);
    }

    /** One more than the number of the list to take from, or 0. */
    method FindList(idx: nat) returns (i: nat)
      requires idx < |pool|
      ensures i == Search(pool, idx)
    {
      i := idx + 1;
      while i > 0 && |pool[i - 1]| == 0
        invariant i <= idx + 1
        invariant i > 0 ==> Search(pool, idx) == Search(pool, i - 1)
        invariant i == 0 ==> Search(pool, idx) == 0
      {
        i := i - 1;
      }
    }

    /**
     * Allocates a buffer for `size` bytes. A request fails exactly if no block could hold it, or if no list
     * has a fitting buffer and either the call must not wait or the kernel has no memory.
     */
    method Alloc(size: nat, mode: Mode, k: Kernel) returns (r: Ptr)
      requires Valid(View()) && (k.Gives? ==> forall a :: a in hdr ==> a.block != k.block)
      modifies this
      ensures Valid(View())
      ensures r == Null <==> Fails(old(pool), Need(size), mode, k)
      ensures r == Null ==> View() == old(View())
      ensures r.At? ==> Took(old(View()), View(), r.a, Need(size))
      ensures View() == Allocate(old(View()), size, mode, k)
      ensures failedAllocs == old(failedAllocs) + (if r == Null then 1 else 0)
    {
      var need := Need(size);
      var none, idx := FindClass(need);
      if none {
        failedAllocs := failedAllocs + 1;
        return Null;
      }
      ghost var h := View();
      var i := FindOrAdd(need, idx, mode, k);
      ghost var h1 := View();
      AllocateInSteps(h, size, mode, k, h1, i);
      if i == 0 {
        failedAllocs := failedAllocs + 1;
        return Null;
      }
      r := TakeFrom(i - 1, need);
      TakeKeeps(h1, r.a, need);
      TookFromSame(h, h1, View(), r.a, need);
    }

    /** The list to take from, after asking the kernel for a block if there is none. */
    method FindOrAdd(need: nat, idx: nat, mode: Mode, k: Kernel) returns (i: nat)
      requires Valid(View()) && (k.Gives? ==> forall a :: a in hdr ==> a.block != k.block)
      requires idx <= NSPLIT && need <= Size(idx)
      modifies this
      ensures Valid(View()) && SameLive(old(View()), View()) && failedAllocs == old(failedAllocs)
      ensures i == 0 <==> Search(old(pool), idx) == 0 && (mode == Atomic || k.Refuses?)
      ensures View() == Supplied(old(View()), idx, mode, k) && i == Search(pool, idx)
      ensures i > 0 ==> i <= NSPLIT + 1 && |pool[i - 1]| > 0 && need <= Size(i - 1)
    {
      i := FindList(idx);
      if i == 0 && mode == Normal {
        AddBlockIfGiven(View(), k);
        var failed := AddBlock(k);
        if !failed {
          i := FindList(idx);
        }
      }
      if i > 0 {
        SizesFall(i - 1, idx);
      }
    }

    /** Takes the first buffer of list `i`, whose buffers all fit, and gives back what is not needed. */
    method TakeFrom(i: nat, need: nat) returns (r: Ptr)
      requires Valid(View()) && i <= NSPLIT && |pool[i]| > 0 && SMALLEST <= need <= Size(i)
      modifies `hdr, `pool
      ensures r == At(old(pool[i][0])) && r.a in old(hdr) && old(hdr)[r.a].links == 0 && need <= old(hdr)[r.a].len
      ensures View() == Take(old(View()), r.a, need)
    {
      var a := pool[i][0];
      assert FreeIn(hdr, i, a);
      pool := Unlink(pool, a);
      if hdr[a].len - need >= SMALLEST {
        SplitOff(a, need, i);
      } else {
        hdr := hdr[a := hdr[a].(links := 1)];
      }
      return At(a);
    }

    /** What is not needed of `a` becomes a free buffer of its own class. */
    method SplitOff(a: Addr, need: nat, i: nat)
      requires a in hdr && need + SMALLEST <= hdr[a].len && |pool| == NSPLIT + 1
      requires i <= NSPLIT && (i > 0 ==> hdr[a].len < Size(i - 1))
      modifies `hdr, `pool
      ensures hdr == Split(old(hdr), a, need)
      ensures pool == Push(old(pool), Class(old(hdr)[a].len - need), Addr(a.block, a.off + need))
    {
      var left := hdr[a].len - need;
      var x := Addr(a.block, a.off + need);
      hdr := Split(hdr, a, need);
      var c := ClassFrom(left, i);
      OneClass(left, c, Class(left));
      pool := pool[c := [x] + pool[c]];
    }

    /** The class of a length, searching upwards from `from`. */
    method ClassFrom(len: nat, from: nat) returns (c: nat)
      requires SMALLEST <= len && from <= NSPLIT && (from > 0 ==> len < Size(from - 1))
      ensures InClass(len, c)
    {
      c := from;
      assert Size(7) == 256;
      while len < Size(c)
        invariant c <= NSPLIT && (c > 0 ==> len < Size(c - 1))
        decreases NSPLIT - c
      {
        c := c + 1;
      }
    }

    /** Frees a buffer whatever its link count is. */
    method FreeBuf(a: Addr)
      requires AtHand(View(), a)
      modifies `hdr, `pool
      ensures View() == Free(old(View()), a)
    {
      JoinLeftKeeps(View(), a);
      ghost var h0 := View();
      var x := a;
      var p := hdr[a].p;
      if p.At? && p.a in hdr && hdr[p.a].links == 0 {
        pool := Unlink(pool, p.a);
        hdr := Join(hdr, p.a, a);
        x := p.a;
      }
      assert (View(), x) == JoinLeft(h0, a);
      ghost var h1 := View();
      JoinRightKeeps(h1, x);
      var n := hdr[x].n;
      if n.At? && n.a in hdr && hdr[n.a].links == 0 {
        pool := Unlink(pool, n.a);
        hdr := Join(hdr, x, n.a);
      }
      assert View() == JoinRight(h1, x);
      assert Good(hdr, x, At(x));
      var c := ClassFrom(hdr[x].len, 0);
      OneClass(hdr[x].len, c, Class(hdr[x].len));
      hdr := hdr[x := hdr[x].(links := 0)];
      pool := pool[c := [x] + pool[c]];
    }

    /** Drops one reference; the last one frees the buffer. */
    method Deref(a: Addr)
      requires Valid(View()) && Live(View(), a)
      modifies `hdr, `pool
      ensures Valid(View())
      ensures Live(View(), a) <==> old(hdr)[a].links > 1
      ensures Live(View(), a) ==> hdr == old(hdr)[a := old(hdr)[a].(links := old(hdr)[a].links - 1)]
      ensures SameOthers(old(View()), View(), a)
      ensures View() == Drop(old(View()), a)
    {
      InUseIsAtHand(View(), a, hdr[a].links - 1);
      if hdr[a].links > 1 {
        FewerLinksKeeps(View(), a, hdr[a].links - 1);
        hdr := hdr[a := hdr[a].(links := hdr[a].links - 1)];
        return;
      }
      hdr := hdr[a := hdr[a].(links := 0)];
      FreeKeeps(View(), a);
      FreeBuf(a);
    }

    /** Gives all wholly free blocks but one back to the kernel. */
    method Collect()
      requires Valid(View())
      modifies `hdr, `pool, `memUsed
      ensures Valid(View())
      ensures |pool[0]| == (if |old(pool)[0]| > 1 then 1 else |old(pool)[0]|)
      ensures memUsed == old(memUsed) - BLOCK * (|old(pool)[0]| - |pool[0]|)
      ensures SameLive(old(View()), View())
    {
      while |pool[0]| > 1
        invariant Valid(View())
        invariant |pool[0]| <= |old(pool)[0]| && (|old(pool)[0]| > 0 ==> |pool[0]| > 0)
        invariant memUsed == old(memUsed) - BLOCK * (|old(pool)[0]| - |pool[0]|)
        invariant SameLive(old(View()), View())
        decreases |pool[0]|
      {
        var a := pool[0][0];
        FirstListIsWholeBlocks(View(), a);
        FreeBlockKeeps(View());
        memUsed := memUsed - hdr[a].len;
        pool := Unlink(pool, a);
        hdr := hdr - {a};
      }
    }
  }
}
