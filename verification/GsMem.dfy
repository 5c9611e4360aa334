/** The first-fit arena behind the STiK interface (gluestik/gs_mem.c). */
module GsMem {
  import opened Common
  import opened TcpTypes

  const HEADER := 8
  const MIN_CHUNK := 16
  const LIMIT := 0x0100_0000

  /** A chunk without its eight header bytes. */
  datatype Chunk = Chunk(used: bool, data: seq<Byte>)

  /** `round` in 32-bit arithmetic. */
  function Round(n: nat): (r: nat)
    ensures r < WORD && r % 8 == 0
    ensures n <= WORD - 8 ==> n <= r < n + 8
    ensures WORD - 8 < n < WORD ==> r == 0
  {
    (n + 7) % WORD / 8 * 8
  }

  /** Pool bytes that a run of chunks takes up, headers included. */
  function Total(cs: seq<Chunk>): nat {
    if |cs| == 0 then 0 else HEADER + |cs[0].data| + Total(cs[1..])
  }

  /** No two neighbours are free. */
  ghost predicate Tidy(cs: seq<Chunk>) { forall i :: 0 <= i < |cs| - 1 ==> cs[i].used || cs[i + 1].used }

  /** The arena of a pool: chunks fill it exactly. */
  ghost predicate Valid(cs: seq<Chunk>, poolsize: nat) {
    Total(cs) == poolsize < LIMIT && Tidy(cs) && |cs| > 0
  }

  /** Allocated memory by address, from pool offset `base` on. */
  ghost function Live(cs: seq<Chunk>, base: nat): set<(nat, seq<Byte>)> {
    if |cs| == 0 then {} else
    (if cs[0].used then {(base + HEADER, cs[0].data)} else {}) + Live(cs[1..], base + HEADER + |cs[0].data|)
  }

  /** The address of the memory of chunk `i`. */
  function Address(cs: seq<Chunk>, i: nat): nat
    requires i <= |cs|
  {
    Total(cs[..i]) + HEADER
  }

  /** Bytes of free memory, and of allocated memory. */
  function Sum(cs: seq<Chunk>, used: bool): nat {
    if |cs| == 0 then 0 else (if cs[0].used == used then |cs[0].data| else 0) + Sum(cs[1..], used)
  }

  // ---------------------------------------------------------------- operations on the rest of the arena

  /** The first two chunks become one; `junk` is what the second header leaves behind. */
  function Join(cs: seq<Chunk>, used: bool, junk: seq<Byte>): seq<Chunk>
    requires |cs| >= 2
  {
    [Chunk(used, cs[0].data + junk + cs[1].data)] + cs[2..]
  }

  /** The first chunk is taken with `n` bytes; what is left becomes free if it is worth it. */
  function Split(cs: seq<Chunk>, n: nat, junk: seq<Byte>): seq<Chunk>
    requires |cs| > 0 && n <= |cs[0].data|
  {
    var d := cs[0].data;
    if |d| - n >= MIN_CHUNK then
      var tail := [Chunk(false, d[n + HEADER..])] + cs[1..];
      [Chunk(true, d[..n])] + if |cs| > 1 && !cs[1].used then Join(tail, false, junk) else tail
    else [Chunk(true, d)] + cs[1..]
  }

  /** The first chunk becomes free and joins a free successor. */
  function Release(cs: seq<Chunk>, junk: seq<Byte>): seq<Chunk>
    requires |cs| > 0
  {
    var tail := [Chunk(false, cs[0].data)] + cs[1..];
    if |cs| > 1 && !cs[1].used then Join(tail, false, junk) else tail
  }

  // ---------------------------------------------------------------- the whole arena

  /** The first free chunk of at least `n` bytes, or the number of chunks. */
  function FirstFit(cs: seq<Chunk>, n: nat): (i: nat)
    ensures i <= |cs|
    ensures i < |cs| ==> !cs[i].used && n <= |cs[i].data|
    ensures forall j :: 0 <= j < i ==> cs[j].used || |cs[j].data| < n
  {
    if |cs| == 0 || (!cs[0].used && n <= |cs[0].data|) then 0 else 1 + FirstFit(cs[1..], n)
  }

  /** Where an allocation finds room, or the number of chunks if it fails. */
  function Place(cs: seq<Chunk>, size: nat): (i: nat)
    ensures i <= |cs|
    ensures i < |cs| ==> !cs[i].used && Round(size) <= |cs[i].data| && 0 < Round(size) < LIMIT
  {
    var n := Round(size);
    if n >= LIMIT || n == 0 then |cs| else FirstFit(cs, n)
  }

  function Allocate(cs: seq<Chunk>, size: nat, junk: seq<Byte>): seq<Chunk> {
    var i := Place(cs, size);
    if i == |cs| then cs else cs[..i] + Split(cs[i..], Round(size), junk)
  }

  function Free(cs: seq<Chunk>, i: nat, junk: seq<Byte>): seq<Chunk>
    requires i < |cs|
  {
    if !cs[i].used then cs else
    var rest := Release(cs[i..], junk);
    if i > 0 && !cs[i - 1].used then cs[..i - 1] + Join([cs[i - 1]] + rest, false, junk) else cs[..i] + rest
  }

  // ---------------------------------------------------------------- the window lemmas

  lemma {:induction false} TotalJoins(a: seq<Chunk>, b: seq<Chunk>)
    ensures Total(a + b) == Total(a) + Total(b)
  {
    if |a| == 0 {
      assert a + b == b;
    } else {
      assert (a + b)[1..] == a[1..] + b;
      TotalJoins(a[1..], b);
    }
  }

  lemma {:induction false} LiveJoins(a: seq<Chunk>, b: seq<Chunk>, base: nat)
    ensures Live(a + b, base) == Live(a, base) + Live(b, base + Total(a))
  {
    if |a| == 0 {
      assert a + b == b;
    } else {
      assert (a + b)[1..] == a[1..] + b;
      LiveJoins(a[1..], b, base + HEADER + |a[0].data|);
    }
  }

  lemma {:induction false} TidyJoins(a: seq<Chunk>, b: seq<Chunk>)
    ensures Tidy(a + b) <==> Tidy(a) && Tidy(b) && (|a| > 0 && |b| > 0 ==> a[|a| - 1].used || b[0].used)
  {
    var c := a + b;
    if Tidy(c) {
      forall i | 0 <= i < |a| - 1 ensures a[i].used || a[i + 1].used { assert c[i] == a[i] && c[i + 1] == a[i + 1]; }
      forall i | 0 <= i < |b| - 1 ensures b[i].used || b[i + 1].used {
        assert c[|a| + i] == b[i] && c[|a| + i + 1] == b[i + 1];
      }
      if |a| > 0 && |b| > 0 { assert c[|a| - 1] == a[|a| - 1] && c[|a| - 1 + 1] == b[0]; }
    }
  }

  /** Allocated memory lies at addresses of the pool region it was cut from. */
  lemma {:induction false} LiveInside(cs: seq<Chunk>, base: nat)
    ensures forall p :: p in Live(cs, base) ==> base + HEADER <= p.0 && p.0 + |p.1| <= base + Total(cs)
  {
    if |cs| > 0 { LiveInside(cs[1..], base + HEADER + |cs[0].data|); }
  }

  /** Allocated chunks do not overlap. */
  lemma {:induction false} LiveDisjoint(cs: seq<Chunk>, base: nat)
    ensures forall p, q :: p in Live(cs, base) && q in Live(cs, base) && p != q ==> p.0 + |p.1| <= q.0 || q.0 + |q.1| <= p.0
  {
    if |cs| > 0 {
      var next := base + HEADER + |cs[0].data|;
      LiveDisjoint(cs[1..], next);
      LiveInside(cs[1..], next);
    }
  }

  lemma {:induction false} SumsAndHeaders(cs: seq<Chunk>)
    ensures Sum(cs, true) + Sum(cs, false) + HEADER * |cs| == Total(cs)
  {
    if |cs| > 0 { SumsAndHeaders(cs[1..]); }
  }

  // ---------------------------------------------------------------- what the local operations do

  lemma {:induction false} OneChunk(c: Chunk, rest: seq<Chunk>, base: nat)
    ensures Total([c] + rest) == HEADER + |c.data| + Total(rest)
    ensures Live([c] + rest, base) == (if c.used then {(base + HEADER, c.data)} else {}) + Live(rest, base + HEADER + |c.data|)
    ensures Tidy([c] + rest) <==> Tidy(rest) && (|rest| > 0 ==> c.used || rest[0].used)
  {
    assert ([c] + rest)[1..] == rest;
    TidyJoins([c], rest);
  }

  /** Joining keeps the total; the second chunk was free. */
  lemma {:induction false} JoinMeans(cs: seq<Chunk>, used: bool, junk: seq<Byte>, base: nat)
    requires |cs| >= 2 && |junk| == HEADER && !cs[1].used && Tidy(cs[1..])
    ensures var j := Join(cs, used, junk);
      && Total(j) == Total(cs) && Tidy(j) && |j| > 0 && j[0].used == used
      && Live(j, base) == (if used then {(base + HEADER, cs[0].data + junk + cs[1].data)} else {})
                          + Live(cs[1..], base + HEADER + |cs[0].data|)
  {
    var d := cs[0].data + junk + cs[1].data;
    assert cs == [cs[0]] + cs[1..] && cs[1..] == [cs[1]] + cs[2..];
    OneChunk(cs[0], cs[1..], base);
    OneChunk(cs[1], cs[2..], base + HEADER + |cs[0].data|);
    OneChunk(Chunk(used, d), cs[2..], base);
  }

  /** What is left of a chunk after its first `n` bytes and a new header: free, and joined with a free successor. */
  function Left(cs: seq<Chunk>, n: nat, junk: seq<Byte>): seq<Chunk>
    requires |cs| > 0 && n + HEADER <= |cs[0].data|
  {
    Release([cs[0].(data := cs[0].data[n + HEADER..])] + cs[1..], junk)
  }

  lemma {:induction false} SplitIs(cs: seq<Chunk>, n: nat, junk: seq<Byte>)
    requires |cs| > 0 && n + MIN_CHUNK <= |cs[0].data|
    ensures Split(cs, n, junk) == [Chunk(true, cs[0].data[..n])] + Left(cs, n, junk)
  {
    var c := [cs[0].(data := cs[0].data[n + HEADER..])] + cs[1..];
    assert c[1..] == cs[1..];
  }

  /** Taking `n` bytes of the first chunk: the memory starts at its address and keeps its first bytes. */
  lemma {:induction false} SplitMeans(cs: seq<Chunk>, n: nat, junk: seq<Byte>, base: nat)
    requires |cs| > 0 && n <= |cs[0].data| && |junk| == HEADER && Tidy(cs[1..])
    ensures var s := Split(cs, n, junk);
      && Total(s) == Total(cs) && Tidy(s) && |s| > 0 && s[0].used
      && n <= |s[0].data| < n + MIN_CHUNK && s[0].data == cs[0].data[..|s[0].data|]
      && Live(s, base) == {(base + HEADER, s[0].data)} + Live(cs[1..], base + HEADER + |cs[0].data|)
  {
    var d := cs[0].data;
    assert cs == [cs[0]] + cs[1..];
    OneChunk(cs[0], cs[1..], base);
    if |d| - n >= MIN_CHUNK {
      SplitIs(cs, n, junk);
      LeftMeans(cs, n, junk, base + HEADER + n);
      OneChunk(Chunk(true, d[..n]), Left(cs, n, junk), base);
    } else {
      OneChunk(Chunk(true, d), cs[1..], base);
      assert d[..|d|] == d;
    }
  }

  lemma {:induction false} LeftMeans(cs: seq<Chunk>, n: nat, junk: seq<Byte>, at: nat)
    requires |cs| > 0 && n + HEADER <= |cs[0].data| && |junk| == HEADER && Tidy(cs[1..])
    ensures var l := Left(cs, n, junk);
      && Total(l) == |cs[0].data| - n + Total(cs[1..]) && Tidy(l) && Live(l, at) == Live(cs[1..], at + |cs[0].data| - n)
  {
    var c := cs[0].(data := cs[0].data[n + HEADER..]);
    assert ([c] + cs[1..])[1..] == cs[1..];
    ReleaseMeans([c] + cs[1..], junk, at);
    OneChunk(c, cs[1..], at);
  }

  /** Releasing the first chunk takes exactly its memory out of use. */
  lemma {:induction false} ReleaseMeans(cs: seq<Chunk>, junk: seq<Byte>, base: nat)
    requires |cs| > 0 && |junk| == HEADER && Tidy(cs[1..])
    ensures var r := Release(cs, junk);
      && Total(r) == Total(cs) && Tidy(r) && |r| > 0 && !r[0].used
      && Live(r, base) == Live(cs[1..], base + HEADER + |cs[0].data|)
  {
    var tail := [Chunk(false, cs[0].data)] + cs[1..];
    assert cs == [cs[0]] + cs[1..];
    OneChunk(cs[0], cs[1..], base);
    OneChunk(Chunk(false, cs[0].data), cs[1..], base);
    if |cs| > 1 && !cs[1].used {
      assert tail[1..] == cs[1..];
      JoinMeans(tail, false, junk, base);
    }
  }

  // ---------------------------------------------------------------- what the operations do

  /** Replacing the arena from some place on by something of the same length. */
  lemma {:induction false} Window(before: seq<Chunk>, was: seq<Chunk>, now: seq<Chunk>)
    requires Tidy(before + was) && Tidy(now) && Total(now) == Total(was)
    requires |before| > 0 && |now| > 0 ==> before[|before| - 1].used || now[0].used
    ensures Total(before + now) == Total(before + was) && Tidy(before + now)
    ensures Live(before + now, 0) == Live(before, 0) + Live(now, Total(before))
    ensures Live(before + was, 0) == Live(before, 0) + Live(was, Total(before))
  {
    TotalJoins(before, was);
    TotalJoins(before, now);
    LiveJoins(before, was, 0);
    LiveJoins(before, now, 0);
    TidyJoins(before, was);
    TidyJoins(before, now);
  }

  lemma {:induction false} CutAt(cs: seq<Chunk>, i: nat)
    requires i < |cs| && Tidy(cs)
    ensures cs == cs[..i] + cs[i..] && cs[i..] == [cs[i]] + cs[i + 1..] && cs[i..][1..] == cs[i + 1..]
    ensures Tidy(cs[..i]) && Tidy(cs[i..]) && Tidy(cs[i + 1..])
  {
    assert cs == cs[..i] + cs[i..];
    assert Tidy(cs[..i]) && Tidy(cs[i..]) by { TidyJoins(cs[..i], cs[i..]); }
    HeadAndRest(cs, i);
    assert Tidy(cs[i + 1..]) by { TidyJoins([cs[i]], cs[i + 1..]); }
  }

  lemma {:induction false} HeadAndRest(cs: seq<Chunk>, i: nat)
    requires i < |cs|
    ensures cs[i..] == [cs[i]] + cs[i + 1..] && cs[i..][1..] == cs[i + 1..]
  {
  }

  /** A successful allocation: the chunk at place `i` is taken, and nothing else touched. */
  lemma {:induction false} TakeMeans(cs: seq<Chunk>, i: nat, n: nat, junk: seq<Byte>)
    requires Tidy(cs) && i < |cs| && !cs[i].used && n <= |cs[i].data| && |junk| == HEADER
    ensures var cs' := cs[..i] + Split(cs[i..], n, junk);
      && Total(cs') == Total(cs) && Tidy(cs') && i < |cs'| && cs'[..i] == cs[..i] && cs'[i].used
      && n <= |cs'[i].data| < n + MIN_CHUNK
      && Live(cs', 0) == Live(cs, 0) + {(Address(cs, i), cs'[i].data)}
  {
    var s, at := Split(cs[i..], n, junk), Total(cs[..i]);
    TakenAt(cs, i, n, junk, s, at);
    var cs' := cs[..i] + s;
    assert cs'[..i] == cs[..i] && cs'[i] == s[0];
    assert cs == cs[..i] + cs[i..];
  }

  lemma {:induction false} TakenAt(cs: seq<Chunk>, i: nat, n: nat, junk: seq<Byte>, s: seq<Chunk>, at: nat)
    requires Tidy(cs) && i < |cs| && !cs[i].used && n <= |cs[i].data| && |junk| == HEADER
    requires s == Split(cs[i..], n, junk) && at == Total(cs[..i])
    ensures Total(cs[..i] + s) == Total(cs) && Tidy(cs[..i] + s)
    ensures |s| > 0 && s[0].used && n <= |s[0].data| < n + MIN_CHUNK
    ensures Live(cs[..i] + s, 0) == Live(cs, 0) + {(at + HEADER, s[0].data)}
  {
    CutAt(cs, i);
    assert cs[i..][0] == cs[i];
    SplitMeans(cs[i..], n, junk, at);
    Window(cs[..i], cs[i..], s);
    OneChunk(cs[i], cs[i + 1..], at);
  }

  /** Allocation takes the lowest chunk that fits, or fails and changes nothing. */
  lemma {:induction false} AllocateMeans(cs: seq<Chunk>, size: nat, junk: seq<Byte>, poolsize: nat)
    requires Valid(cs, poolsize) && |junk| == HEADER
    ensures var i, cs' := Place(cs, size), Allocate(cs, size, junk);
      && Valid(cs', poolsize)
      && (i == |cs| ==> cs' == cs)
      && (i < |cs| ==> Taken(cs, cs', i, Round(size)))
  {
    var i := Place(cs, size);
    if i < |cs| {
      TakeMeans(cs, i, Round(size), junk);
    }
  }

  /** Chunk `i` has come into use with at least `n` bytes. */
  ghost predicate Taken(cs: seq<Chunk>, cs': seq<Chunk>, i: nat, n: nat)
    requires i < |cs|
  {
    && i < |cs'| && cs'[..i] == cs[..i] && cs'[i].used && n <= |cs'[i].data| < n + MIN_CHUNK
    && Live(cs', 0) == Live(cs, 0) + {(Address(cs, i), cs'[i].data)}
  }

  /** Freeing: exactly that memory goes out of use, and free neighbours become one. */
  lemma {:induction false} FreeMeans(cs: seq<Chunk>, i: nat, junk: seq<Byte>, poolsize: nat)
    requires Valid(cs, poolsize) && i < |cs| && cs[i].used && |junk| == HEADER
    ensures Valid(Free(cs, i, junk), poolsize)
    ensures Live(Free(cs, i, junk), 0) == Live(cs, 0) - {(Address(cs, i), cs[i].data)}
  {
    var at, rest := Total(cs[..i]), Release(cs[i..], junk);
    CutAt(cs, i);
    assert cs[i..][0] == cs[i];
    ReleaseMeans(cs[i..], junk, at);
    OneLess(cs, i);
    assert Live(cs[..i], 0) + Live(rest, at) == Live(cs, 0) - {(Address(cs, i), cs[i].data)};
    if i > 0 && !cs[i - 1].used {
      FreeLeft(cs, i, rest, junk);
    } else {
      Window(cs[..i], cs[i..], rest);
    }
  }

  /** The allocated memory without that of chunk `i`. */
  lemma {:induction false} OneLess(cs: seq<Chunk>, i: nat)
    requires Tidy(cs) && i < |cs| && cs[i].used
    ensures Live(cs[..i], 0) + Live(cs[i + 1..], Total(cs[..i]) + HEADER + |cs[i].data|) ==
      Live(cs, 0) - {(Address(cs, i), cs[i].data)}
  {
    CutAt(cs, i);
    var at := Total(cs[..i]);
    LiveJoins(cs[..i], cs[i..], 0);
    OneChunk(cs[i], cs[i + 1..], at);
    LiveInside(cs[..i], 0);
    LiveInside(cs[i + 1..], at + HEADER + |cs[i].data|);
    BeforeIsSmaller(cs[..i], 0);
  }

  lemma {:induction false} BeforeIsSmaller(cs: seq<Chunk>, base: nat)
    ensures forall p :: p in Live(cs, base) ==> p.0 < base + Total(cs) + HEADER
  {
    LiveInside(cs, base);
  }

  lemma {:induction false} FreeLeft(cs: seq<Chunk>, i: nat, rest: seq<Chunk>, junk: seq<Byte>)
    requires Tidy(cs) && 0 < i < |cs| && !cs[i - 1].used && |junk| == HEADER
    requires |rest| > 0 && !rest[0].used && Tidy(rest) && Total(rest) == Total(cs[i..])
    ensures var cs' := cs[..i - 1] + Join([cs[i - 1]] + rest, false, junk);
      && Total(cs') == Total(cs) && Tidy(cs') && |cs'| > 0
      && Live(cs', 0) == Live(cs[..i], 0) + Live(rest, Total(cs[..i]))
  {
    hide Join, Live, Total, Tidy;
    var before, c := cs[..i - 1], cs[i - 1];
    var j := Join([c] + rest, false, junk);
    CutAt(cs, i - 1);
    assert ([c] + rest)[1..] == rest;
    OneChunk(c, rest, Total(before));
    OneChunk(c, cs[i..], Total(before));
    JoinMeans([c] + rest, false, junk, Total(before));
    BeforeFree(cs, i - 1);
    Window(before, cs[i - 1..], j);
    AddFree(before, c);
    assert cs[..i] == before + [c];
  }

  /** The chunk before a free one is in use. */
  lemma {:induction false} BeforeFree(cs: seq<Chunk>, k: nat)
    requires Tidy(cs) && k < |cs| && !cs[k].used
    ensures k > 0 ==> cs[..k][k - 1].used
  {
    if k > 0 {
      var left, right := cs[k - 1].used, cs[k - 1 + 1].used;
      assert left || right;
    }
  }

  lemma {:induction false} AddFree(before: seq<Chunk>, c: Chunk)
    requires !c.used
    ensures Live(before + [c], 0) == Live(before, 0) && Total(before + [c]) == Total(before) + HEADER + |c.data|
  {
    LiveJoins(before, [c], 0);
    TotalJoins(before, [c]);
    assert [c][1..] == [];
  }
}
