/** How far a segment handed down can reach. */
module SendWindow {
  import opened TcpTypes
  import opened TcpSend
  import opened SendFacts
  import opened Stream

  /**
   * A segment ends inside the range it was clipped to, or, with appended bytes, inside the peer's window, and
   * never beyond what has been queued.
   */
  lemma {:induction false} SegmentStaysInside(s: Snd, k: nat, nretrans: nat, w1: int, w2: int, str: seq<Byte>, closed: bool)
    requires QueueOk(s.q, s.isn, s.write, str, closed) && k < |s.q| && !Outside(s.q[k], w1, w2) && w1 <= w2
    ensures var p := Padded(s, k, nretrans, w1, w2);
      && w1 <= p.seqno && s.q[k].start <= p.seqno
      && p.seqno + p.Len() <= Max(w2, s.wndack + s.wnd) && p.seqno + p.Len() <= s.write
      && p.seqno + p.Len() <= s.q[k].End() + nretrans
  {
    hide InStream;
    PaddedIsGenuine(s, k, nretrans, w1, w2, str, closed);
    ChainOrder(s.q, s.write, k);
  }
}
