/** The two hosts play the same part, so what is proved of one holds of the other. */
module Symmetry {
  import opened TcpTypes
  import opened Stream
  import opened TcpRecv
  import opened TcpSystem
  import opened RunTheorems
  import opened WindowFacts
  import opened WindowRuns
  import opened WindowWire
  import opened SpanFacts

  function Swap(s: Sys): Sys { Sys(s.b, s.a) }

  function SwapEvent(e: Event): Event { Event(!e.atA, e.act) }

  function SwapRun(run: seq<Event>): (r: seq<Event>)
    ensures |r| == |run|
  {
    seq(|run|, i requires 0 <= i < |run| => SwapEvent(run[i]))
  }

  /** A run with the hosts exchanged ends in the same state with the hosts exchanged. */
  lemma {:induction false} ExecSwaps(s: Sys, run: seq<Event>)
    ensures Exec(Swap(s), SwapRun(run)) == Swap(Exec(s, run))
  {
    hide Act;
    if |run| > 0 {
      var n := |run| - 1;
      ExecSwaps(s, run[..n]);
      assert SwapRun(run)[..n] == SwapRun(run[..n]);
      assert SwapRun(run)[n] == SwapEvent(run[n]);
    }
  }

  /** The recorded right window edge of either host never moves left. */
  lemma {:induction false} EdgesNeverMoveLeft(s: Sys, before: seq<Event>, y: Sys, after: seq<Event>)
    requires Fresh(s) && y == Exec(s, before)
    ensures y.a.ep.rcv.sync ==> y.a.ep.rcv.wnd <= Exec(y, after).a.ep.rcv.wnd
    ensures y.b.ep.rcv.sync ==> y.b.ep.rcv.wnd <= Exec(y, after).b.ep.rcv.wnd
  {
    hide Act;
    if y.a.ep.rcv.sync { EdgeNeverMovesLeft(s, before, y, after); }
    if y.b.ep.rcv.sync {
      ExecSwaps(s, before);
      ExecSwaps(y, after);
      EdgeNeverMovesLeft(Swap(s), SwapRun(before), Swap(y), SwapRun(after));
    }
  }

  /** `k` is not stream content of `p`, and `q` is past the handshake. */
  ghost predicate StrangeTo(k: Packet, p: Host, q: Host) {
    k in p.wire && !k.rst && q.ep.st.Synchronised() && !Genuine(k, p.isn + 1, p.sent, p.closed)
  }

  /** Neither host ever accepts a packet that is not stream content of the other, such as a probe. */
  lemma {:induction false} NoStrangePacketAccepted(s: Sys, run: seq<Event>, t: Sys, k: Packet)
    requires Fresh(s) && t == Exec(s, run)
    ensures StrangeTo(k, t.a, t.b) ==> !Check(t.b.ep.rcv, t.b.ep.st, k).ok
    ensures StrangeTo(k, t.b, t.a) ==> !Check(t.a.ep.rcv, t.a.ep.st, k).ok
  {
    hide Act, Check;
    if StrangeTo(k, t.a, t.b) { ProbesAreNeverAccepted(s, run, t, k); }
    if StrangeTo(k, t.b, t.a) {
      ExecSwaps(s, run);
      ProbesAreNeverAccepted(Swap(s), SwapRun(run), Swap(t), k);
    }
  }

  /** Either host computes a window for a packet while its counter leaves more room than the field can tell. */
  ghost predicate StrainedSomewhere(s: Sys, run: seq<Event>) {
    || (exists k: nat :: k < |run| && Strained(CallsAt(s, run, k)))
    || (exists k: nat :: k < |run| && Strained(CallsAt(Swap(s), SwapRun(run), k)))
  }

  /** If nothing handed down is refused, exactly then a window that does not fit its field is ever on the wire. */
  lemma {:induction false} OversizedIffStrainedSomewhere(s: Sys, run: seq<Event>)
    requires Fresh(s) && forall k :: 0 <= k < |run| ==> WillingAct(run[k].act)
    ensures Oversized(Exec(s, run).a) || Oversized(Exec(s, run).b) <==> StrainedSomewhere(s, run)
  {
    hide Act, CallsAt, Strained, Oversized;
    OversizedIffStrained(s, run);
    OversizedIffStrained(Swap(s), SwapRun(run));
    ExecSwaps(s, run);
  }

  /** No segment that either host took in during the run grew both ends of its receive queue. */
  ghost predicate OneEndEverywhere(s: Sys, run: seq<Event>) {
    OneEndAlways(s, run) && OneEndAlways(Swap(s), SwapRun(run))
  }

  /** Then every window that either host ever advertised fits its 16-bit field. */
  lemma {:induction false} AllWindowsFit(s: Sys, run: seq<Event>)
    requires Fresh(s) && OneEndEverywhere(s, run)
    ensures forall p :: p in Exec(s, run).a.wire || p in Exec(s, run).b.wire ==> 0 <= p.window <= MAX_SPACE
  {
    hide Act, OneEndAlways;
    WindowsFitUnlessBothEndsGrow(s, run);
    WindowsFitUnlessBothEndsGrow(Swap(s), SwapRun(run));
    ExecSwaps(s, run);
  }
}
