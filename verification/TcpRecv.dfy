/** The receive side of a connection: acceptance, reassembly, reading and the receive window. */
module TcpRecv {
  import opened TcpTypes
  import opened RecvQueue

  /** Receive variables of a control block; `sync` says that the peer's SYN has been seen. */
  datatype Rcv = Rcv(
    sync: bool, nxt: int, wnd: int, finSeen: bool, seqFin: int,
    read: int, q: seq<Seg>, cur: int, max: int, mss: int)
  {
    /** The peer's FIN has been consumed in sequence (`tcp_finished`). */
    predicate Finished() { finSeen && seqFin < nxt }

    /** The frontier without the FIN's sequence number. */
    function DataNxt(): int { if Finished() then nxt - 1 else nxt }
  }

  // ---------------------------------------------------------------- window

  /** The window to advertise: free space without silly small values, never less than promised before. */
  function Window(r: Rcv, st: State): int {
    var free := r.max - r.cur;
    var space := if free < r.mss && free * 4 < r.max then 0 else free;
    if st.Synchronised() then Max(space, r.wnd - r.nxt) else space
  }

  /** Advertising a window records its right edge. */
  function Record(r: Rcv, st: State): Rcv {
    if st.Synchronised() then r.(wnd := r.nxt + Window(r, st)) else r
  }

  // ---------------------------------------------------------------- acceptance

  datatype Verdict = Verdict(ok: bool, p: Packet)

  /** Segment acceptability; a SYN left of the window and a FIN right of it are stripped. */
  function Check(r: Rcv, st: State, p: Packet): Verdict {
    if !st.Synchronised() then Verdict(true, p) else
    var window := Window(r, st);
    if window > 0 then
      var last := p.seqno + p.Len() - (if p.Len() > 0 then 1 else 0);
      var p1 := if p.syn && p.seqno < r.nxt then p.(syn := false, seqno := p.seqno + 1) else p;
      var p2 := if p1.fin && last >= r.nxt + window then p1.(fin := false) else p1;
      Verdict(r.nxt <= last && p.seqno < r.nxt + window, p2)
    else
      Verdict(p.Len() == 0 && p.seqno == r.nxt, p)
  }

  // ---------------------------------------------------------------- incoming data

  /** The first number after the run of queued segments that starts at place `k`. */
  function Walk(q: seq<Seg>, k: nat, n: int): int
    decreases |q| - k
  {
    if k < |q| && q[k].start <= n then Walk(q, k + 1, q[k].End()) else n
  }

  /** The segment that a packet contributes to the queue. */
  function Payload(p: Packet): Seg { Seg(p.seqno + Bit(p.syn), p.data, false) }

  /** The frontier after the payload alone: the walk starts at the new segment, not at the queue head. */
  ghost function NextData(r: Rcv, p: Packet): int {
    var s := Payload(p);
    var n := r.nxt + Bit(p.syn);
    if Redundant(r.q, s) then n else Walk(Insert(r.q, s), LowCut(r.q, s.start), n)
  }

  ghost function Receive(r: Rcv, p: Packet): Rcv {
    var s := Payload(p);
    var r1 := if p.fin then r.(finSeen := true, seqFin := s.End()) else r;
    var n := NextData(r, p);
    r1.(nxt := if r1.finSeen && r1.seqFin == n then n + 1 else n,
        q := Insert(r.q, s), cur := CountAfter(r.q, r.cur, s))
  }

  /** Whether an acknowledgment must go out at once: anything but a plain in-order segment. */
  ghost predicate AckNow(r: Rcv, p: Packet) {
    var s := Payload(p);
    var n := r.nxt + Bit(p.syn);
    || Redundant(r.q, s)
    || s.start != n
    || NextData(r, p) - n != |p.data|
    || Receive(r, p).nxt != NextData(r, p)
  }

  // ---------------------------------------------------------------- reading

  datatype Copied = Copied(bytes: seq<Byte>, read: int)

  /** Copies at most `size` bytes from place `k` on, stopping at a hole and passing over used segments. */
  function CopyFrom(q: seq<Seg>, k: nat, x: int, size: nat): Copied
    decreases |q| - k
  {
    if k < |q| && size > 0 && q[k].start <= x <= q[k].End() then
      if q[k].used then CopyFrom(q, k + 1, q[k].End(), size)
      else
        var n := Min(size, q[k].End() - x);
        var rest := CopyFrom(q, k + 1, x + n, size - n);
        Copied(q[k].data[x - q[k].start..][..n] + rest.bytes, rest.read)
    else Copied([], x)
  }

  /** From place `k` on, segments that end at or before `read` are used up. */
  function MarkUsed(q: seq<Seg>, k: nat, read: int): (q': seq<Seg>)
    ensures |q'| == |q|
  {
    seq(|q|, i requires 0 <= i < |q| => if k <= i && q[i].End() <= read then q[i].(used := true) else q[i])
  }

  /** Skips segments that were read out of turn. */
  function SkipUsed(q: seq<Seg>, k: nat, x: int): (int, nat)
    decreases |q| - k
  {
    if k < |q| && q[k].used && q[k].start <= x then SkipUsed(q, k + 1, q[k].End()) else (x, k)
  }

  datatype Dropped = Dropped(q: seq<Seg>, cur: int, read: int)

  /** Unlinks used-up segments at the head; the read pointer is dragged along. */
  function Drop(q: seq<Seg>, cur: int, read: int): Dropped {
    if |q| > 0 && q[0].used then
      Drop(q[1..], if |q| > 1 then cur - (q[1].start - q[0].start) else 0, Max(read, q[0].End()))
    else Dropped(q, cur, read)
  }

  datatype Read = Read(bytes: seq<Byte>, r: Rcv)

  ghost predicate Readable(r: Rcv) {
    var (x, k) := SkipUsed(r.q, HighCut(r.q, r.read), r.read);
    k < |r.q| && r.q[k].start <= x
  }

  /** One read call; nothing readable leaves the state alone. */
  ghost function ReadCall(r: Rcv, size: nat): Read {
    var (x, k) := SkipUsed(r.q, HighCut(r.q, r.read), r.read);
    if size == 0 || !Readable(r) then Read([], r) else
    var c := CopyFrom(r.q, k, x, size);
    var d := Drop(MarkUsed(r.q, k, c.read), r.cur, c.read);
    Read(c.bytes, r.(q := d.q, cur := d.cur, read := d.read))
  }

  /** Whether a drop re-opens the window enough to be announced. */
  function AnnounceWindow(r: Rcv, st: State): bool {
    var win := Window(r, st) - (r.wnd - r.nxt);
    win >= 2 * r.mss || 2 * win >= r.max
  }
}
