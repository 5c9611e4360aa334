/** The invariant of the two hosts and the network, and what follows from it for every run. */
module SystemFacts {
  import opened TcpTypes
  import opened Stream
  import opened TcpSend
  import opened SendFacts
  import opened ReceiveFacts
  import opened EndpointFacts
  import opened TcpSystem

  // ---------------------------------------------------------------- the invariant

  /** The part of the stream that has been sent at least once. */
  function Shown(h: Host): (str: seq<Byte>)
    ensures str <= h.sent
  {
    h.sent[..Max(0, Min(|h.sent|, h.ep.snd.max - h.isn - 1))]
  }

  /** The FIN has been sent at least once. */
  predicate FinShown(h: Host) { h.closed && h.ep.snd.max == h.isn + 2 + |h.sent| }

  /** The receive frontier of `q` for the peer that starts at `isn`. */
  function Front(q: Host, isn: int): int { if q.ep.rcv.sync then q.ep.rcv.nxt else isn }

  /** A packet of `p` on its way to `q`: a reset, sent stream content, or a probe left of `q`'s frontier. */
  ghost predicate OnWire(k: Packet, p: Host, q: Host) {
    if k.rst then |k.data| == 0 && !k.syn && !k.fin
    else
      && (k.ack ==> p.ep.rcv.sync && k.ackno <= p.ep.rcv.nxt)
      && (|| (k.seqno + 2 <= Front(q, p.isn) && |k.data| == 1 && !k.syn && !k.fin)
          || (Genuine(k, p.isn + 1, Shown(p), FinShown(p)) && (k.syn ==> p.isn < p.ep.snd.max)))
  }

  /** What is true of a packet on the wire does not depend on its window. */
  lemma {:induction false} CutOnWire(k: Packet, p: Host, q: Host)
    requires OnWire(k, p, q)
    ensures OnWire(Cut(k), p, q)
  {
    hide InStream;
  }

  /** What `q` has received agrees with what `p` has sent, and its user has read a prefix of it. */
  ghost predicate Heard(q: Host, p: Host) {
    && q.got <= Shown(p)
    && (q.ep.rcv.sync ==> FinAgrees(q.ep.rcv, p.isn + 1, Shown(p), FinShown(p)) && p.isn < p.ep.snd.max)
    && (q.ep.rcv.sync && !q.ep.st.Closed? && q.ep.sock ==>
         Agrees(q.ep.rcv, p.isn + 1, Shown(p), FinShown(p)) && q.ep.rcv.read == p.isn + 1 + |q.got|)
    && (!q.ep.rcv.sync ==> q.ep.rcv.q == [] && q.ep.rcv.cur == 0 && !q.ep.rcv.finSeen && q.got == [])
  }

  ghost predicate Link(p: Host, q: Host) {
    && (forall k :: k in p.wire ==> OnWire(k, p, q))
    && Heard(q, p)
    && p.ep.snd.una <= Front(q, p.isn)
  }

  /** While the SYN is unanswered it is the only queued segment and carries no acknowledgment. */
  predicate SynWait(s: Snd) {
    && s.una == s.isn && s.nxt == s.isn + 1 && |s.q| == 1 && !s.q[0].ack && s.wnd > 0
    && (s.ostate.Xmit? || s.ostate.Retrans?)
  }

  /** The closing states say what they should (section 3.5 of RFC 793). */
  predicate CloseOk(h: Host) {
    var st := h.ep.st;
    && (st.CloseWait? || st.LastAck? || st.Closing? || st.TimeWait? ==> h.ep.rcv.Finished())
    && (st.FinWait1? || st.FinWait2? || st.Closing? || st.LastAck? || st.TimeWait? ==> h.closed || h.finLost)
    && (st.FinWait2? || st.TimeWait? ==> h.ep.snd.write <= h.ep.snd.una)
    && (st.SynSent? || st.SynRcvd? || st.Established? || st.CloseWait? ==> !h.closed)
  }

  ghost predicate HostOk(h: Host) {
    && h.ep.snd.isn == h.isn && Pointers(h.ep.snd) && WriteAt(h.ep.snd, h.sent, h.closed)
    && (!h.ep.st.Closed? || h.ep.snd.write == h.isn ==> EpOk(h.ep, h.sent, h.closed))
    && (h.ep.snd.write == h.isn ==> (h.ep.st.Closed? || h.ep.st.Listen?) && !h.ep.rcv.sync && h.ep.snd.nxt == h.ep.snd.wndack == h.isn)
    && (h.ep.snd.write > h.isn ==> !h.ep.st.Listen?)
    && (h.ep.st.SynSent? ==> SynWait(h.ep.snd) && !h.ep.rcv.sync)
    && (h.ep.st.Synchronised() || h.ep.delack ==> h.ep.rcv.sync)
    && (!h.ep.sock ==> !h.ep.st.Listen? && !h.ep.st.SynSent? && !h.ep.st.SynRcvd? && !h.ep.st.Established? && !h.ep.st.CloseWait?)
    && CloseOk(h)
  }

  ghost predicate Inv(s: Sys) { HostOk(s.a) && HostOk(s.b) && Link(s.a, s.b) && Link(s.b, s.a) }

  // ---------------------------------------------------------------- the two halves of a step

  /** What a step of `h` must guarantee to its peer as a sender. */
  ghost predicate Sends(h: Host, h': Host, g: Host) {
    && h'.isn == h.isn && h.ep.snd.max <= h'.ep.snd.max
    && Shown(h) <= Shown(h') && (FinShown(h) ==> Shown(h') == Shown(h) && FinShown(h'))
    && (h.ep.rcv.sync ==> h'.ep.rcv.sync && h.ep.rcv.nxt <= h'.ep.rcv.nxt)
    && (forall k :: k in h'.wire ==> k in h.wire || OnWire(k, h', g))
    && h'.ep.snd.una <= Front(g, h.isn)
  }

  lemma {:induction false} SenderHalf(h: Host, h': Host, g: Host)
    requires Link(h, g) && Sends(h, h', g)
    ensures Link(h', g)
  {
    forall k | k in h'.wire ensures OnWire(k, h', g) {
      if k in h.wire { WireLater(k, h, h', g); }
    }
    HeardLater(g, h, h');
  }

  lemma {:induction false} WireLater(k: Packet, h: Host, h': Host, g: Host)
    requires OnWire(k, h, g) && Sends(h, h', g)
    ensures OnWire(k, h', g)
  {
    var more := Shown(h')[|Shown(h)|..];
    assert Shown(h') == Shown(h) + more;
    if !FinShown(h) && !k.rst && Genuine(k, h.isn + 1, Shown(h), FinShown(h)) {
      GenuineGrows(k, h.isn + 1, Shown(h), more, FinShown(h'));
    }
  }

  lemma {:induction false} HeardLater(g: Host, h: Host, h': Host)
    requires Heard(g, h) && Sends(h, h', g)
    ensures Heard(g, h')
  {
    var more := Shown(h')[|Shown(h)|..];
    assert Shown(h') == Shown(h) + more;
    if !FinShown(h) && g.ep.rcv.sync {
      StreamGrows(g.ep.rcv, h.isn + 1, Shown(h), more, FinShown(h'));
    }
  }

  lemma {:induction false} ReceiverHalf(g: Host, h: Host, h': Host)
    requires Link(g, h) && Heard(h', g) && Front(h, g.isn) <= Front(h', g.isn)
    ensures Link(g, h')
  {
    forall k | k in g.wire ensures OnWire(k, g, h') {
      assert OnWire(k, g, h);
    }
  }

  // ---------------------------------------------------------------- sending

  lemma {:induction false} ShownGrows(h: Host, h': Host)
    requires h'.isn == h.isn && h.ep.snd.max <= h'.ep.snd.max <= h'.ep.snd.write && h.sent <= h'.sent
    requires h.closed ==> h'.closed && h'.sent == h.sent
    requires WriteAt(h'.ep.snd, h'.sent, h'.closed) && h'.ep.snd.isn == h.isn
    ensures Shown(h) <= Shown(h') && (FinShown(h) ==> Shown(h') == Shown(h) && FinShown(h'))
  {
  }

  /** Stream content that ends at or before `snd_max` is content that has been shown. */
  lemma {:induction false} SentIsShown(k: Packet, h: Host)
    requires Genuine(k, h.isn + 1, h.sent, h.closed) && k.Len() > 0 && k.seqno + k.Len() <= h.ep.snd.max
    requires h.ep.snd.isn == h.isn && Pointers(h.ep.snd) && WriteAt(h.ep.snd, h.sent, h.closed)
    ensures Genuine(k, h.isn + 1, Shown(h), FinShown(h))
  {
    if |k.data| > 0 {
      var o := k.seqno + Bit(k.syn) - h.isn - 1;
      assert Shown(h)[o..o + |k.data|] == h.sent[o..o + |k.data|];
    }
  }

  lemma {:induction false} OutIsOnWire(k: Packet, h: Host, g: Host)
    requires OutOk(k, h.ep, h.sent, h.closed) && h.ep.snd.isn == h.isn
    requires Pointers(h.ep.snd) && WriteAt(h.ep.snd, h.sent, h.closed) && h.ep.snd.una <= Front(g, h.isn)
    requires k.ack && !k.rst ==> h.ep.rcv.sync
    ensures OnWire(k, h, g)
  {
    if !k.rst && k.Len() > 0 && Genuine(k, h.isn + 1, h.sent, h.closed) && k.seqno + k.Len() <= h.ep.snd.max {
      SentIsShown(k, h);
    }
  }

  /** From an endpoint's proper step to the host's guarantee. */
  lemma {:induction false} TookSends(h: Host, h': Host, g: Host, out: seq<Packet>)
    requires HostOk(h) && h'.isn == h.isn && h'.wire == h.wire + set i | 0 <= i < |out| :: out[i]
    requires h.sent <= h'.sent && (h.closed ==> h'.closed && h'.sent == h.sent)
    requires h'.ep.snd.isn == h.isn && Pointers(h'.ep.snd) && WriteAt(h'.ep.snd, h'.sent, h'.closed)
    requires h.ep.snd.max <= h'.ep.snd.max && h'.ep.snd.una <= Front(g, h.isn)
    requires h.ep.rcv.sync ==> h'.ep.rcv.sync && h.ep.rcv.nxt <= h'.ep.rcv.nxt
    requires AllOut(out, h'.ep, h'.sent, h'.closed)
    requires forall i :: 0 <= i < |out| && out[i].ack && !out[i].rst ==> h'.ep.rcv.sync
    ensures Sends(h, h', g)
  {
    ShownGrows(h, h');
    forall k | k in h'.wire ensures k in h.wire || OnWire(k, h', g) {
      if k !in h.wire {
        var i :| 0 <= i < |out| && k == out[i];
        assert OutOk(out[i], h'.ep, h'.sent, h'.closed);
        OutIsOnWire(k, h', g);
      }
    }
  }
}
