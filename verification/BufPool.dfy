/** The network buffer allocator: boundary tags over 32K blocks and free lists by size class (kernel/buf.c). */
module BufPool {
  import opened Common

  const BLOCK := 32768
  const NSPLIT := 7
  const SMALLEST := 256
  const HEADER := 46

  /** A place in memory: a block obtained from the kernel and an offset into it. */
  datatype Addr = Addr(block: nat, off: nat)

  datatype Ptr = Null | At(a: Addr)

  /** A buffer header; `links == 0` marks a free buffer, `n` and `p` are its neighbours in memory. */
  datatype Hdr = Hdr(len: nat, links: nat, n: Ptr, p: Ptr)

  datatype Heap = Heap(hdr: map<Addr, Hdr>, pool: seq<seq<Addr>>, used: int)

  // ---------------------------------------------------------------- size classes

  function Size(i: nat): (s: nat)
    requires i <= NSPLIT
  {
    if i == 0 then BLOCK else Size(i - 1) / 2
  }

  /** Class `i` is the first whose size `len` reaches. */
  predicate InClass(len: nat, i: nat) { i <= NSPLIT && Size(i) <= len && (i > 0 ==> len < Size(i - 1)) }

  lemma {:induction false} SizesFall(i: nat, j: nat)
    requires i <= j <= NSPLIT
    ensures Size(j) <= Size(i)
    decreases j - i
  {
    if i < j { SizesFall(i, j - 1); }
  }

  /** Classes do not overlap. */
  lemma {:induction false} OneClass(len: nat, i: nat, j: nat)
    requires InClass(len, i) && InClass(len, j)
    ensures i == j
  {
    if i < j { SizesFall(i, j - 1); }
    if j < i { SizesFall(j, i - 1); }
  }

  lemma {:induction false} SomeClass(len: nat, from: nat)
    requires SMALLEST <= len && from <= NSPLIT && (from > 0 ==> len < Size(from - 1))
    ensures exists i: nat :: InClass(len, i)
    decreases NSPLIT - from
  {
    if Size(from) <= len {
      assert InClass(len, from);
    } else {
      assert Size(7) == 256;
      SomeClass(len, from + 1);
    }
  }

  ghost function Class(len: nat): (i: nat)
    requires SMALLEST <= len
    ensures InClass(len, i)
  {
    SomeClass(len, 0);
    var i: nat :| InClass(len, i);
    i
  }

  /** Bytes needed for a request, header included: even, at least the smallest buffer, in 32-bit arithmetic. */
  function Need(size: nat): (n: nat)
    ensures SMALLEST <= n
  {
    var s := (size + HEADER + 2) % WORD;
    var even := s - s % 2;
    if even < SMALLEST then SMALLEST else even
  }

  /** The last class all of whose buffers hold `need` bytes. */
  function Fitting(need: nat, from: nat): (i: nat)
    requires need <= BLOCK && from <= NSPLIT
    ensures i <= from && need <= Size(i) && (forall j :: i < j <= from ==> Size(j) < need)
  {
    if from == 0 || need <= Size(from) then from else Fitting(need, from - 1)
  }

  /** The non-empty list to take from: the smallest fitting class first; one more than its number, or 0. */
  function Search(pool: seq<seq<Addr>>, from: nat): (i: nat)
    requires from < |pool|
    ensures i <= from + 1 && (i > 0 ==> |pool[i - 1]| > 0)
    ensures forall j :: i <= j <= from ==> |pool[j]| == 0
  {
    if |pool[from]| > 0 then from + 1 else if from == 0 then 0 else Search(pool, from - 1)
  }

  // ---------------------------------------------------------------- free lists

  function Remove(s: seq<Addr>, a: Addr): (r: seq<Addr>)
    ensures forall x :: x in r <==> x in s && x != a
    ensures |r| <= |s|
  {
    if |s| == 0 then [] else if s[0] == a then Remove(s[1..], a) else [s[0]] + Remove(s[1..], a)
  }

  /** Takes `a` out of the list it is on. */
  function Unlink(pool: seq<seq<Addr>>, a: Addr): (r: seq<seq<Addr>>)
    ensures |r| == |pool|
    ensures forall i :: 0 <= i < |pool| ==> r[i] == Remove(pool[i], a)
  {
    seq(|pool|, i requires 0 <= i < |pool| => Remove(pool[i], a))
  }

  function Push(pool: seq<seq<Addr>>, i: nat, a: Addr): seq<seq<Addr>>
    requires i < |pool|
  {
    pool[i := [a] + pool[i]]
  }

  // ---------------------------------------------------------------- what always holds

  /** Boundary tags around one buffer: neighbours touch, know each other and are not both free, save for `x`. */
  ghost predicate Good(hdr: map<Addr, Hdr>, a: Addr, x: Ptr)
    requires a in hdr
  {
    var h := hdr[a];
    && SMALLEST <= h.len && a.off + h.len <= BLOCK
    && (h.n == Null <==> a.off + h.len == BLOCK)
    && (h.p == Null <==> a.off == 0)
    && (h.n.At? ==> h.n.a == Addr(a.block, a.off + h.len) && h.n.a in hdr && hdr[h.n.a].p == At(a))
    && (h.p.At? ==> h.p.a in hdr && h.p.a.block == a.block && h.p.a.off < a.off && hdr[h.p.a].n == At(a))
    && (h.n.At? && h.links == 0 && x != At(a) && x != h.n ==> hdr[h.n.a].links > 0)
  }

  /** `x` is a buffer that is just being freed, or null. */
  ghost predicate Tags(hdr: map<Addr, Hdr>, x: Ptr) { forall a {:trigger Good(hdr, a, x)} :: a in hdr ==> Good(hdr, a, x) }

  ghost predicate NoDup(s: seq<Addr>) { forall i, j :: 0 <= i < j < |s| ==> s[i] != s[j] }

  /** `a` is a free buffer of class `i`. */
  predicate FreeIn(hdr: map<Addr, Hdr>, i: nat, a: Addr) {
    a in hdr && hdr[a].links == 0 && InClass(hdr[a].len, i)
  }

  /** Each list holds exactly the free buffers of its size class, once; `x` is on none. */
  ghost predicate Lists(hdr: map<Addr, Hdr>, pool: seq<seq<Addr>>, x: Ptr) {
    && |pool| == NSPLIT + 1
    && (forall i :: 0 <= i <= NSPLIT ==> NoDup(pool[i]))
    && (forall i, a :: 0 <= i <= NSPLIT ==> (a in pool[i] <==> FreeIn(hdr, i, a) && x != At(a)))
  }

  ghost function Blocks(hdr: map<Addr, Hdr>): set<Addr> { set a | a in hdr && a.off == 0 }

  ghost predicate Valid(h: Heap) {
    Tags(h.hdr, Null) && Lists(h.hdr, h.pool, Null) && h.used == BLOCK * |Blocks(h.hdr)|
  }

  /** The buffers in use. */
  ghost predicate Live(h: Heap, a: Addr) { a in h.hdr && h.hdr[a].links > 0 }

  // ---------------------------------------------------------------- operations on values

  /** Makes room for a right neighbour inside free buffer `a`. */
  function Split(hdr: map<Addr, Hdr>, a: Addr, need: nat): map<Addr, Hdr>
    requires a in hdr && need <= hdr[a].len
  {
    var h := hdr[a];
    var x := Addr(a.block, a.off + need);
    var m := if h.n.At? && h.n.a in hdr then hdr[h.n.a := hdr[h.n.a].(p := At(x))] else hdr;
    m[x := Hdr(h.len - need, 0, h.n, At(a))][a := Hdr(need, 1, At(x), h.p)]
  }

  /** Takes the free buffer `a` for a request of `need` bytes. */
  ghost function Take(h: Heap, a: Addr, need: nat): Heap
    requires a in h.hdr && need <= h.hdr[a].len && |h.pool| == NSPLIT + 1
  {
    var left := h.hdr[a].len - need;
    var pool := Unlink(h.pool, a);
    if left >= SMALLEST then
      Heap(Split(h.hdr, a, need), Push(pool, Class(left), Addr(a.block, a.off + need)), h.used)
    else h.(hdr := h.hdr[a := h.hdr[a].(links := 1)], pool := pool)
  }

  /** A new block is one free buffer. */
  function AddBlock(h: Heap, block: nat): Heap
    requires |h.pool| == NSPLIT + 1
  {
    var a := Addr(block, 0);
    Heap(h.hdr[a := Hdr(BLOCK, 0, Null, Null)], Push(h.pool, 0, a), h.used + BLOCK)
  }

  /** Buffer `b` swallows its right neighbour `c`. */
  function Join(hdr: map<Addr, Hdr>, b: Addr, c: Addr): map<Addr, Hdr>
    requires b in hdr && c in hdr
  {
    var n := hdr[c].n;
    var m := if n.At? && n.a in hdr then hdr[n.a := hdr[n.a].(p := At(b))] else hdr;
    m[b := hdr[b].(n := n, len := hdr[b].len + hdr[c].len)] - {c}
  }

  /** Free or not, is there a free neighbour? */
  predicate FreeAt(hdr: map<Addr, Hdr>, p: Ptr) { p.At? && p.a in hdr && hdr[p.a].links == 0 }

  /** Joining with the left neighbour: which buffer is now the one to be freed. */
  function JoinLeft(h: Heap, a: Addr): (Heap, Addr)
    requires a in h.hdr
  {
    var p := h.hdr[a].p;
    if FreeAt(h.hdr, p) then (h.(hdr := Join(h.hdr, p.a, a), pool := Unlink(h.pool, p.a)), p.a) else (h, a)
  }

  function JoinRight(h: Heap, a: Addr): Heap
    requires a in h.hdr
  {
    var n := h.hdr[a].n;
    if FreeAt(h.hdr, n) then h.(hdr := Join(h.hdr, a, n.a), pool := Unlink(h.pool, n.a)) else h
  }

  /** Puts `a` on the list of its class. */
  ghost function Release(h: Heap, a: Addr): Heap
    requires a in h.hdr && SMALLEST <= h.hdr[a].len && |h.pool| == NSPLIT + 1
  {
    h.(hdr := h.hdr[a := h.hdr[a].(links := 0)], pool := Push(h.pool, Class(h.hdr[a].len), a))
  }

  /** The first of at least two wholly free blocks goes back to the kernel. */
  function FreeBlock(h: Heap): Heap
    requires |h.pool| == NSPLIT + 1 && |h.pool[0]| >= 2 && h.pool[0][0] in h.hdr
  {
    var a := h.pool[0][0];
    Heap(h.hdr - {a}, Unlink(h.pool, a), h.used - h.hdr[a].len)
  }
}
