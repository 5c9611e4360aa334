# A verified model of the MagiC-Net TCP/IP stack

This project models the parts of the stack in which something can go subtly wrong, and proves what they promise:

- **TCP.** The receive queue of overlapping out-of-order segments, acceptance of segments, reading and the
  receive window; the retransmission queue, clipping and padding of segments and the four-state output machine; the
  eleven-state input machine; and two hosts joined by a network that loses, duplicates, delays and reorders. The
  theorems about whole runs are in `RunTheorems`, `Acceptance`, `Transitions`, `OutputRuns`, `Congestion`, `Progress`,
  `Handshake`, `Release`, `Resting`, `Freeing`, `SpanFacts`, `WindowFacts`, `Symmetry`, `WindowRuns`, `WindowWire`,
  `CountRuns` and `ReversalRuns`. What single operations mean, apart from how they are computed, is in `Acceptance` (which segments are
  acceptable, and what an acknowledgment does), `Transitions` (the state diagram), `Sending`, `OutputMeaning` and
  `Congestion` (what is sent and resent when, and how much), `Queueing` (what a write takes) and `Acknowledging` (what
  the peer is told).
- **Network buffers.** Boundary tags over 32K blocks with free lists by size class.
- **IP fragmentation and reassembly.**
- **Timers.** Two delta lists that stand for sets of absolute deadlines.
- **Routing table, packet filter, interface queue, scatter/gather copying, and the GlueSTiK arena.** For the filter there
  is also what its instructions mean (`BpfMeaning`) and a compiler from conditions on packets (`BpfCompile`).

Each part comes in two layers. Functions on values say what an operation does, and lemmas prove what that means.
Classes with fields that are updated in place, and methods with the program's own loops, are proved to compute
exactly these functions (`ReceiveSide`, `SendSide`, `ControlBlock`, `BufManager`, `IpReassembly`, `Timers`,
`RootTimeouts`, `RouteTable`, `IfQueue`, `GsArena`). For TCP the two layers meet in `Stations`: a control block has one
method for everything that can happen to it, each of them is the model's action, and a run of two blocks is a run of
the model, so the invariant of every run is an invariant of the blocks (`Stations.Pair.Play`).

`dafny verify dfyconfig.toml` checks the whole project. Where a proof does not need the body of a definition it says
so with a `hide` statement, which keeps the solver's work small.

## What turned out to be false, and when it holds

- The counter `curdatalen` is the span of the receive queue after an insertion exactly if the segment does not reach
  past both ends of the queue at once (`RecvQueue.CountTracksSpan`); over a run it is the span in every state exactly if
  no such segment is taken in (`CountRuns.CounterIsSpanIffOneEnd`). Two fresh hosts of this stack get there although
  nothing fails: the sender cuts a segment to its congestion window and pads the retransmission of an earlier one
  (`TcpLimits.BothEndsLoseCount`).
- Later in that run a read takes more off the counter than it holds, and the receiver computes a window of 65540, of
  which its 16-bit field tells 4 (`TcpLimits.WindowCanOverflow`). A window fits its field exactly if buffer size less
  counter does (`WindowFacts.WindowFits`). Over a run every window computed for a packet fits exactly if none is computed
  while buffer size less counter exceeds 65535 (`WindowRuns.TooWideIffStrained`); if the layers below refuse nothing,
  that is exactly when none that does not fit goes on the wire (`WindowWire.OversizedIffStrained`). A packet that is
  refused leaves the promise of its window without the packet, which is why the first of the two is about windows
  computed. It is so in every run in which no segment grows both ends (`Symmetry.AllWindowsFit`).
- A read gives back every segment that it has read to its end, with one exception: bytes that were read before and are
  sent again with the FIN right behind them stay queued until the connection ends (`Freeing.StaleSegmentStays`). A queue
  never holds anything that has been read exactly if no such segment is taken in (`Freeing.LeanIffNeverStale`).
- A closing call changes the state before it queues the FIN, so the FIN is lost if no segment can be had. It is queued
  exactly if the last segment has room or an allocation succeeds (`UserFacts.FinNeedsMemory`); the closing theorem is
  about hosts whose FIN was not lost.
- Clipping a segment to a reversed window copies a negative number of bytes, and only then
  (`SendFacts.CopyCountIsNegativeWhenReversed`). The window of a retransmission is reversed when the acknowledgment of
  padding passes `snd_nxt`. An acknowledgment whose window is taken over never leaves it so: the window event of the
  same segment sends, or makes the machine wait for a window (`Reversal.NewerNeverTurns`). It stays reversed exactly if
  the window is not taken over (it is older than the last one, or the state does not look at windows) and sending does
  not catch up (`ReversalRuns.TurnedIffPassedUnseen`, over all runs); in the model, which sends nothing then, each
  further timeout only counts until the connection is given up (`Reversal.TurnedOnlyCounts`). Two fresh hosts get there in LAST-ACK although nothing fails
  (`TcpLimits.RetransmissionCanUnderrun`).
- Fragments of two different cuts of one datagram can block each other, whatever is repeated
  (`MixedCuts.MixedCutsBlock`). The payload comes out exactly if the first fragments to arrive at each offset tile it
  (`MixedCuts.ArrivesIffTiled`); whatever comes out is the original payload.
- A buffer request near 2^32 bytes wraps around and gets a small buffer; it is big enough exactly if the size plus 48
  stays below 2^32 (`BufRuns.RequestFits`). The same happens in `gs_mem_realloc`: the first bytes are kept exactly if the
  new size is at most 2^32 - 8, or if the chunk is too small to be split (`GsArena.ResizeKeepsUnlessWrapped`).
- The packet filter's program check overlooks backward and overflowing plain jumps and scratch indexes of the index
  register. An accepted instruction is safe in every state exactly if it is none of these (`Bpf.SafeIffTame`). Packet
  reads stay inside exactly if the bound computation does not wrap around (`Bpf.CheckedReadIsInside`).
- The packet filter compares words as signed numbers, so the order of two unsigned fields is right exactly if both are
  in the same half of the range (`BpfMeaning.SignedOrderIffSameHalf`).
- The one-bucket route search misses routes whose mask is shorter than their address class
  (`RouteLimits.ShortMaskIsMissed`). For a mask that is a prefix, as network masks are, the search of one bucket is
  right for every destination exactly if the mask keeps the class bits (`RouteLimits.RightIffClassKept`,
  `RouteClasses.ClassBitsAreNeeded`); it is right for every table built from such routes (`RouteRuns.OneBucketAlways`).
  For masks with holes the class bits are enough but not necessary (`RouteClasses.HoledMaskMayDo`).

## Model

| member | source | states |
|---|---|---|
| `RunTheorems.ReadIsPrefixOfWritten` | kernel/tcp.c:621-806 | over every run of two hosts and a network that loses, duplicates and reorders, the bytes a user has read are a prefix of the bytes the other user has written, also if windows do not fit their field and arrive cut to 16 bits; a retransmission with a reversed window sends nothing in these runs |
| `RunTheorems.NumbersStayInOrder` | kernel/tcpin.c:928-985 | in every reachable state acknowledged <= received <= sent <= written: `snd_una` never passes the peer's `rcv_nxt`, which never passes `snd_max` |
| `RunTheorems.ProbesAreNeverAccepted` | kernel/tcpout.c:856-927 | a packet on the wire that is not stream content, such as the probe with its bogus byte, fails the acceptance test of a synchronised peer whenever it arrives |
| `RunTheorems.QueueAndTimerAlways` | kernel/tcpout.c:81-393 | in every reachable state of a live connection the retransmission queue is a contiguous run ending at `seq_write` that agrees with the written stream, the pointers are in order, the byte count is exact and within its limit, the congestion window is at least one segment, and the machine is idle with no timer exactly if the queue is empty |
| `RunTheorems.ClosingMeansWhatItSays` | kernel/tcpin.c:377-594 | in every reachable state, if no FIN was lost for want of a segment, the closing states imply that the peer's FIN was consumed in sequence, that the own FIN was queued, and that it was acknowledged, as section 3.5 of RFC 793 has it |
| `RunTheorems.InvAlways` | kernel/tcp.c:886-952 | the invariant that ties both hosts and everything on the wire to the two byte streams holds after every run |
| `Acceptance.AcceptedIffAcceptable` | kernel/tcputil.c:291-329 | the acceptance test is the table of section 3.3 of RFC 793: an empty segment is accepted exactly if it starts in the window, or at the frontier if the window is closed, any other exactly if the window is open and the segment occupies a number inside it |
| `Acceptance.HeaderEdits` | kernel/tcputil.c:307-323 | what the test edits: the data keeps its numbers, a SYN goes exactly if it lies left of the window, a FIN exactly if it lies right of it |
| `Acceptance.UnsynchronisedTakesAll` | kernel/tcputil.c:291-329 | a host that has no connection yet takes every segment as it is |
| `Acceptance.AcknowledgmentsAreHeard` | kernel/tcpin.c:928-985 | in every reachable state the delivery of an acceptable acknowledging segment makes `snd_una` its number if that lies between `snd_una` and `snd_max`, and leaves it alone otherwise |
| `Acceptance.PureAcksAreHeard` | kernel/tcputil.c:325-326 | in particular a segment that only acknowledges, from the peer's own position, is heard also while the receive window is closed |
| `Acceptance.HandlerMovesEdge` | kernel/tcpin.c:221-598 | for every state: the handler moves `snd_una` so if it heeds the segment, and not otherwise |
| `Transitions.StateAfter` | kernel/tcpin.c:300-598 | the state after a segment that is acted on is exactly that of the state diagram of RFC 793, section 3.2: with the peer's FIN consumed and our own acknowledged or not, all four cases in FIN-WAIT-1, and exactly the acknowledgment of everything in CLOSING and LAST-ACK |
| `Transitions.StateElse` | kernel/tcpin.c:300-598 | any other acceptable segment ends the connection if the handler does not heed it, and changes nothing if it lacks an acknowledgment |
| `Transitions.StateAfterSyn` | kernel/tcpin.c:221-298 | the answer to the own SYN establishes the connection if it acknowledges the SYN, and leaves it half open if the SYNs cross |
| `Transitions.FinishedIffHasAll` | kernel/tcpin.c:702-760 | the peer's FIN counts as consumed exactly if the peer has closed and everything it wrote, and the FIN, has been received |
| `Transitions.DeliveriesFollowTheDiagram` | kernel/tcpin.c:300-598 | in every reachable state the delivery of an acceptable acknowledging segment changes the state exactly as the diagram says |
| `Transitions.FinsAreHeard` | kernel/tcpin.c:657-760 | in every reachable state a FIN in sequence and inside the window is consumed on arrival, and the state says so |
| `Resting.TimeWaitIsQuiet` | kernel/tcputil.c:136-157 | in every reachable state a connection in TIME-WAIT has nothing queued, no output timer and no delayed acknowledgment: it waits for its end only |
| `Transitions.ClosedHostResets` | kernel/tcputil.c:199-243 | a closed host answers a segment with one reset, which the host that sent the segment accepts and believes |
| `Transitions.ResetsAreNotAnswered` | kernel/tcputil.c:199-289 | nobody answers a reset |
| `Sending.HeadIsGreedy` | kernel/tcpout.c:733-851 | the sending routine hands down everything from `snd_nxt` on that the windows allow, in order and without a gap or an overlap, and stops only where all is sent or the next segment does not fit and no large part of it does |
| `Sending.RunCovers` | kernel/tcpout.c:775-830 | in order and without a gap means: every number sent is in a packet, and no other |
| `OutputMeaning.PushSendsAll` | kernel/tcpout.c:81-393 | the events that push (a send, a window that opens, the acknowledgment after a retransmission) send all of that |
| `OutputMeaning.NoPushNoPacket` | kernel/tcpout.c:81-393 | every other event but a timeout or a duplicate acknowledgment sends nothing |
| `OutputMeaning.MachineMoves` | kernel/tcpout.c:81-393 | the state of the output machine after every event: idle exactly once all is acknowledged, waiting for a window while nothing can be retransmitted, retransmitting from a timeout on until all that was sent is acknowledged |
| `OutputMeaning.DuplicateResends` | kernel/tcpout.c:248-262 | from the third duplicate acknowledgment on, each sends exactly one more of the segments under way, from `snd_una` or its start to its end or beyond |
| `OutputMeaning.OtherDuplicatesSilent` | kernel/tcpout.c:248-262 | below three, or if the segment that the count points at was not sent to its end, a duplicate sends nothing and changes nothing |
| `OutputMeaning.TimeoutResends` | kernel/tcpout.c:932-985 | a timeout sends the first segment again as far as it was sent, counts, leaves a congestion window of one segment and half the threshold, at least two segments |
| `OutputMeaning.RetransmissionsTellApart` | kernel/tcpout.c:529-574 | the n-th retransmission of a segment ends n numbers further exactly if the next segment can lend them |
| `OutputMeaning.PersistTimeoutSends` | kernel/tcpout.c:331-360 | the persist timer sends what an open window allows, else one probe, or gives up a silent peer |
| `OutputMeaning.GivesUpIff` | kernel/tcpout.c:932-945 | the connection is given up exactly at the sixteenth retransmission, or when a probe finds the peer silent for too long |
| `OutputMeaning.NagleHoldsLast` | kernel/tcpout.c:745-765 | Nagle's rule holds back the last segment while anything is under way or queued before it, and nothing else |
| `OutputMeaning.WindowIsTakenIff` | kernel/tcpin.c:886-923 | a segment's window counts exactly if the segment is not older than the last one looked at; what it does to `snd_nxt`, and which event follows |
| `OutputMeaning.WindowGrowth` | kernel/tcpout.c:716-717 | below the threshold every acknowledged segment opens the congestion window by one, above it a whole window of them opens it by one at most, and by less only for rounding |
| `OutputRuns.DuplicatesResend` | kernel/tcpout.c:248-262 | in every reachable state: the delivery of a third or later duplicate acknowledgment puts a packet on the wire that holds the segment the count points at |
| `OutputRuns.WritesGoOut` | kernel/tcp.c:469-563 | in every reachable state a write puts on the wire everything that the windows allow |
| `OutputRuns.FinsGoOut` | kernel/tcp.c:808-827 | in every reachable state a half close whose FIN found a segment puts it on the wire, as far as the windows let it |
| `Congestion.RestartsSmall` | kernel/tcpout.c:94-105 | after a rest, and once a retransmission is through, what goes out ends within one segment of the last acknowledgment, and the threshold remembers the window there was |
| `Congestion.AcksOpen` | kernel/tcpout.c:672-727 | every segment that an acknowledgment covers whole opens the congestion window, and one is enough to give all tries back; once all that was sent again is acknowledged the window is one segment instead |
| `Congestion.FloorAlways` | kernel/tcpout.c:962-967 | in every reachable state the congestion window is at least one segment and the threshold at least two |
| `Congestion.ActFirm` | kernel/tcpout.c:932-985 | of everything that can happen at a host only an expiring timer lowers the threshold |
| `Queueing.TakesWhatFits` | kernel/tcpout.c:1086-1199 | the queueing loop takes exactly as many bytes as the last segment and the memory for new ones have room for |
| `Queueing.SentSegmentsStay` | kernel/tcpout.c:1113-1130 | segments that have been sent, at least in part, are never changed by queueing more |
| `Queueing.CanWriteMeans` | kernel/tcp.c:469-563 | the user may write in ESTABLISHED and CLOSE-WAIT, and then what the send buffer has room for, unless that is a silly small piece |
| `Queueing.WriteIsTaken` | kernel/tcp.c:498-560 | of a write exactly the smaller of that, the data and what can be queued joins the stream |
| `Acknowledging.DataIsAcknowledged` | kernel/tcpin.c:702-760 | a segment with data or FIN is acknowledged at once, unless it is plainly the next one of an established connection and none is being delayed; the acknowledgment names the frontier and the window |
| `Acknowledging.DelayedAckGoesOut` | kernel/tcpin.c:644-650 | the delayed acknowledgment goes out when it is due |
| `Acknowledging.RefusedIsAnswered` | kernel/tcputil.c:245-289 | a segment that is not acceptable is answered with frontier and window |
| `Acknowledging.SegmentsAcknowledge` | kernel/tcpout.c:576-604 | every segment an output event sends acknowledges and offers the current window, which is then on record, and settles a delayed acknowledgment |
| `Acknowledging.GivenUpIsQuiet` | kernel/tcputil.c:159-179 | a connection that is given up waits for nothing and has nothing queued |
| `Acknowledging.WindowMeans` | kernel/tcpout.c:1264-1284 | the window is the promise or the free space, whichever is more, and free space below a segment and a quarter of the buffer is not offered |
| `Acknowledging.ReadsAnnounce` | kernel/tcp.c:605-617 | a read tells the peer exactly if the window has opened by two segments or half the buffer |
| `Acknowledging.ReadingAllAnnounces` | kernel/tcp.c:567-619 | reading everything while at most half the buffer was promised puts the whole buffer on offer on the wire |
| `Acknowledging.BufferSizeMeans` | kernel/inet.c:572-585 | a new receive buffer size is taken as it is within its limits, else the nearest limit, but never below what is queued |
| `Freeing.ReadFrees` | kernel/tcp.c:567-602 | if every queued segment holds something unread, a read takes exactly the segments that it has read to their end, leaves the others as they are, and the counter follows |
| `Freeing.ReadsGiveBack` | kernel/tcp.c:621-806 | in every reachable state before the peer's FIN is consumed a read does so, and nothing that was read earlier is still queued |
| `Freeing.WindowReopens` | kernel/tcp.c:567-619 | in every reachable state before the FIN: whoever reads everything, while nothing is queued out of order, has the whole buffer on offer again |
| `Freeing.LeanIffNeverStale` | kernel/tcp.c:567-602 | over a run a host's queue never holds a segment that has been read to its end if and only if the host never takes in bytes it has read with the FIN right behind them |
| `Freeing.ActLeanIff` | kernel/tcpin.c:657-760 | of everything that can happen at a host exactly such a delivery leaves one in the queue |
| `Freeing.StaleSegmentStays` | kernel/tcp.c:567-602 | such a segment, which passes the acceptance test and which no read takes |
| `Acknowledging.UnreadIsDiscarded` | kernel/tcp.c:139-177 | when the user goes, everything received is thrown away, and the peer is told exactly if that opens the window by two segments or half the buffer |
| `Acknowledging.DetachMeans` | kernel/tcp.c:139-177 | a full close takes the socket away, after a half close if there is a connection; if there is none it ends everything at once |
| `Handshake.HandshakeCompletes` | kernel/tcpin.c:105-375 | from any two fresh hosts, with whatever segment sizes they agree on, connect, listen, SYN, SYN and ACK, and ACK establish the connection at both ends, each with an open window of the other |
| `Handshake.SynSettles` | kernel/tcpin.c:246-298 | the peer's SYN, whether it answers or crosses ours, settles the segment size and the first congestion window; the segment that establishes the connection is the first whose window counts |
| `Handshake.AckSettles` | kernel/tcpin.c:333-375 | so it is for the end whose SYN the segment acknowledges |
| `Release.ReleaseCompletes` | kernel/tcpin.c:377-546 | from every reachable state in which both ends are established and at rest, FIN, ACK, FIN and ACK lead to TIME-WAIT and CLOSED |
| `Handshake.OpenedAndClosed` | kernel/tcp.c:179-275 | so from any two fresh hosts there is a run that opens the connection at both ends and closes it at both ends again, the wait in TIME-WAIT included |
| `Progress.SomethingArrives` | kernel/tcpout.c:856-985 | from every reachable state in which data waits for an open host (unread in sequence, on the wire, in what the timer of its peer would send, again while tries are left or for the first time when the window has opened, or in what the answer to a probe of the closed window would let out), at most five events, timers, deliveries and a read, make its user get more |
| `Progress.StartBrings` | kernel/tcpout.c:331-360 | when the persist timer finds an open window and everything acknowledged, the first byte that is queued goes out |
| `Progress.ProbeHelps` | kernel/tcpout.c:856-927 | probe, answer and window event: if the answer is acceptable and its window counts, the first queued byte goes out and the receiver is as before |
| `Progress.ResendBrings` | kernel/tcpout.c:932-985 | a retransmission carries every byte of the first queued segment that was sent |
| `Progress.FrontierMoves` | kernel/tcpin.c:702-738 | taking in a packet that holds the byte at the frontier moves the frontier, whatever is queued behind it |
| `Progress.TakenIn` | kernel/tcpin.c:300-500 | in every state an open host that still expects data takes such a packet in and stays open |
| `SpanFacts.CounterIsSpan` | kernel/tcpin.c:773-881 | in every state of a run in which no segment that is taken in grows both ends of the queue, `curdatalen` is the distance between the ends of the queue |
| `CountRuns.CounterIsSpanIffOneEnd` | kernel/tcpin.c:773-881 | over a run from fresh hosts the counter is the span in every state if and only if no segment that is taken in grows both ends |
| `CountRuns.ActCounts` | kernel/tcpin.c:773-881 | from a state with a right counter an action leaves it right if and only if it does not take in such a segment |
| `SpanFacts.WindowsFitUnlessBothEndsGrow` | kernel/tcpout.c:1264-1284 | in such a run every window a host ever advertised lies in 0..65535 |
| `Symmetry.AllWindowsFit` | kernel/tcpout.c:1264-1284 | the same for both hosts at once |
| `WindowFacts.WindowFits` | kernel/tcpout.c:1264-1284 | while no promise exceeds the field, a window fits its 16-bit field if and only if buffer size less counter does |
| `WindowRuns.CallsFit` | kernel/tcpout.c:1264-1284 | an action computes a window for a packet that does not fit if and only if it computes one while buffer size less counter exceeds the field, before or after the payload as the code has it |
| `WindowRuns.TooWideIffStrained` | kernel/tcpout.c:1264-1284 | over a run from fresh hosts a window that does not fit is ever computed for a packet if and only if one is ever computed while buffer size less counter exceeds the field |
| `WindowRuns.WindowsFit` | kernel/tcpout.c:1264-1284 | in a run without such a computation every window a host ever put on the wire arrives whole |
| `WindowRuns.WindowsFitWhileCounted` | kernel/tcpout.c:1264-1284 | in particular while the byte counter is never negative |
| `WindowWire.ActSends` | kernel/tcpout.c:576-600 | if nothing handed down is refused, what is computed too wide goes out too wide |
| `WindowWire.OversizedIffStrained` | kernel/tcpout.c:1264-1284 | in a run in which nothing handed down is refused, a window that does not fit is ever on the wire if and only if one is ever computed while buffer size less counter exceeds the field |
| `Symmetry.OversizedIffStrainedSomewhere` | kernel/tcpout.c:1264-1284 | the same for both hosts at once |
| `Symmetry.EdgesNeverMoveLeft` | kernel/tcpout.c:1264-1284 | once a host has seen its peer's SYN, no interleaving of arrivals, reads, acknowledgments and buffer changes moves its recorded right window edge left |
| `Symmetry.NoStrangePacketAccepted` | kernel/tcputil.c:291-329 | neither host ever accepts a packet on the wire that is not stream content of the other |
| `Symmetry.ExecSwaps` | kernel/tcpin.c:43-60 | exchanging the hosts commutes with every run |
| `WindowFacts.EdgeNeverMovesLeft` | kernel/tcpout.c:1264-1284 | window edge monotonicity for one host over a whole run |
| `RecvQueue.InsertKeepsNormal` | kernel/tcpin.c:773-881 | after any insertion starts and ends of the queued segments still increase strictly, and every segment is an old one or the new one |
| `RecvQueue.InsertCoversUnion` | kernel/tcpin.c:773-881 | the covered sequence numbers are exactly the old ones and the new segment's, whether it is inserted, swallows neighbours or is dropped |
| `RecvQueue.CountTracksSpan` | kernel/tcpin.c:800-826 | the counter stays the span of the queue if and only if the segment does not grow both ends |
| `RecvQueue.NoHoleMeansRedundant` | kernel/tcpin.c:827-860 | a segment inside the queue that meets no hole brings nothing new: the backward search drops exactly duplicates |
| `RecvQueue.InQueue.AddSeg` | kernel/tcpin.c:773-881 | the in-place algorithm computes the insertion, the counter, the place of the new segment, and whether it was new |
| `RecvQueue.InQueue.FindPlace` | kernel/tcpin.c:800-860 | end, front, or rightmost hole; a duplicate exactly if none of these applies |
| `RecvQueue.InQueue.FindHole` | kernel/tcpin.c:834-860 | the backward search finds a hole the segment reaches into, or the segment is redundant |
| `RecvQueue.InQueue.Relink` | kernel/tcpin.c:862-879 | linking in and freeing contained neighbours forwards and backwards gives the insertion |
| `ReceiveFacts.FrontierIsFirstHole` | kernel/tcpin.c:702-738 | walking from the new segment alone leaves `rcv_nxt` at the first uncovered number of the whole queue, and never moves it back |
| `ReceiveFacts.CheckedReachesFrontier` | kernel/tcputil.c:291-329 | a non-empty segment that passes the acceptance test reaches the frontier |
| `ReceiveFacts.ReceiveAgrees` | kernel/tcpin.c:657-760 | an accepted packet of an honest peer keeps the queue, the frontier and the FIN bookkeeping in agreement with the peer's stream, also if the FIN came out of order |
| `ReceiveFacts.ReadCallFollowsStream` | kernel/tcp.c:621-806 | a read returns exactly the next stream bytes, as many as are there and fit, and keeps the agreement |
| `ReceiveFacts.DropTracksSpan` | kernel/tcp.c:567-589 | dropping read segments keeps the counter equal to the span |
| `ReceiveFacts.DropKeepsUnread` | kernel/tcp.c:567-602 | dropping removes a run of finished segments at the head and nothing unread |
| `ReceiveSide.RecvSide.RcvData` | kernel/tcpin.c:657-760 | the imperative receive path computes the new receive state and whether to acknowledge at once |
| `ReceiveSide.RecvSide.RcvWnd` | kernel/tcpout.c:1264-1284 | the window and, on update, the recorded right edge |
| `ReceiveSide.RecvSide.Recv` | kernel/tcp.c:621-806 | the copying loop, the marking and the dropping together are one read call |
| `ReceiveSide.RecvSide.CopyOut` | kernel/tcp.c:735-780 | bytes copied up to a hole or the buffer's end; exactly the segments read to their end are marked |
| `ReceiveSide.RecvSide.DropSegs` | kernel/tcp.c:567-606 | the used-up head of the queue is unlinked, counter and read position follow |
| `ReceiveSide.RecvSide.CanRead` | kernel/tcp.c:1047-1098 | the number of bytes: a read call of any size returns exactly the smaller of its size and this number; without marked segments it is the distance to the first hole |
| `SendFacts.ClipIsIntersection` | kernel/tcpout.c:452-510 | number by number, the clipped segment holds exactly the elements of the segment inside the window, SYN and FIN included |
| `SendFacts.CopyCountIsNegativeWhenReversed` | kernel/tcpout.c:452-510 | the number of bytes copied is negative if and only if the window is reversed |
| `Reversal.NewerNeverTurns` | kernel/tcpin.c:928-985 | an acknowledgment whose window is taken over never leaves a machine that would retransmit with a reversed window |
| `Reversal.TakeAckTurns` | kernel/tcpin.c:928-985 | an acknowledgment reverses the window if and only if it passes `snd_nxt`, its window is not taken over, and, after a retransmission, sending does not catch up |
| `Reversal.TurnedOnlyCounts` | kernel/tcpout.c:932-985 | with a reversed window a timeout sends nothing and counts, and the connection is given up exactly at the sixteenth |
| `Reversal.CatchesUpUnlessStuck` | kernel/tcpout.c:733-851 | after such an acknowledgment the sending loop catches up unless the windows are too small for the first segment or it finds no memory, and exactly then it does not |
| `ReversalRuns.ActTurns` | kernel/tcp.c:886-952 | of everything that can happen to a host in order, exactly the delivery of such a segment reverses the window |
| `ReversalRuns.TurnedIffPassedUnseen` | kernel/tcpout.c:932-985 | in a run from fresh hosts a host's window is ever reversed if and only if such a segment is ever delivered to it |
| `ReversalRuns.NoUnderrunUnlessPassed` | kernel/tcpout.c:452-510 | without one, every retransmission of the run copies exactly the bytes of the clipped segment |
| `SendFacts.PaddedIsGenuine` | kernel/tcpout.c:529-574 | what is handed down, appended bytes included, is stream content, and ends where the clipped part or the appended bytes end |
| `SendWindow.SegmentStaysInside` | kernel/tcpout.c:544-574 | a segment ends inside the range it was clipped to or inside the peer's window, and never beyond what is queued |
| `SendFacts.SendFromMoves` | kernel/tcpout.c:775-830 | the sending loop moves `snd_nxt` and `snd_max` forward within what is queued and emits stream content only |
| `SendFacts.DropDataKeeps` | kernel/tcpout.c:672-727 | after an acknowledgment the queue starts at the oldest unacknowledged number and the byte count is exact |
| `SendFacts.OutputFine` | kernel/tcpout.c:81-393 | every state/event pair of the output machine keeps the queue invariant, emits only stream content and probes, and loses no timer |
| `SendFacts.RetransmitFine` | kernel/tcpout.c:932-985 | a retransmission restarts the timer or gives the connection up |
| `SendFacts.EnqueueKeeps` | kernel/tcpout.c:1086-1199 | the queueing loop puts exactly the accepted bytes at the end of the stream |
| `SendFacts.SynKeeps` | kernel/tcpout.c:1131-1152 | the SYN opens the queue with one sequence number |
| `SendFacts.FinKeeps` | kernel/tcpout.c:1184-1196 | the FIN closes the stream whenever a segment can be had |
| `SendFacts.SndWndKeeps` | kernel/tcpin.c:886-923 | taking over the peer's window keeps the send invariant |
| `SendSide.OutQueue.SendSeg` | kernel/tcpout.c:432-612 | the imperative clipping and padding computes the packet, `snd_max` and the outcome |
| `SendSide.OutQueue.SendHead` | kernel/tcpout.c:733-851 | the two loops of the sending routine |
| `SendSide.OutQueue.SendAll` | kernel/tcpout.c:775-830 | the sending loop computes the same state and packets as the recursive definition |
| `SendSide.OutQueue.Acknowledge` | kernel/tcpout.c:672-727 | the dropping loop unlinks exactly the acknowledged segments, and each opens the congestion window |
| `SendSide.OutQueue.BackOff` | kernel/tcpout.c:962-967 | a timeout leaves a congestion window of one segment and half the threshold, at least two segments |
| `SendSide.OutQueue.Restart` | kernel/tcpout.c:301-303 | sending starts again with one segment and keeps the threshold above the old window |
| `SendSide.OutQueue.Append` | kernel/tcpout.c:1086-1199 | the queueing loop, with allocation failures |
| `SendSide.OutQueue.Step` | kernel/tcpout.c:81-393 | one event of the four-state machine |
| `SendSide.OutQueue.UpdateWindow` | kernel/tcpin.c:886-923 | the window update and the event it causes |
| `EndpointFacts.TakeAckCarries` | kernel/tcpin.c:928-985 | an acknowledgment moves the left edge at most to its number and keeps everything else in order |
| `EndpointFacts.SynRcvdHandled` | kernel/tcpin.c:300-375 | what one segment does in this state: invariant kept, pointers forward only, state changes justified |
| `EndpointFacts.EstablishedHandled` | kernel/tcpin.c:377-415 | the same for an established connection |
| `EndpointFacts.FinWait1Handled` | kernel/tcpin.c:417-468 | the same after the own FIN |
| `EndpointFacts.FinWait2Handled` | kernel/tcpin.c:470-500 | the same after its acknowledgment |
| `EndpointFacts.CloseWaitHandled` | kernel/tcpin.c:502-517 | the same after the peer's FIN |
| `EndpointFacts.LastAckHandled` | kernel/tcpin.c:519-546 | the same for the last acknowledgment |
| `EndpointFacts.ClosingHandled` | kernel/tcpin.c:548-576 | the same for a simultaneous close |
| `EndpointFacts.TimeWaitHandled` | kernel/tcpin.c:578-598 | the same for the waiting state |
| `OpenFacts.ListenCarries` | kernel/tcpin.c:105-219 | a passive open takes data on the SYN, queues SYN and ACK and keeps the invariant |
| `OpenFacts.SynSentCarries` | kernel/tcpin.c:221-298 | the answer to the own SYN, or a crossing SYN, synchronises the connection |
| `OpenFacts.FirstSyn` | kernel/tcpout.c:81-126 | the first SYN goes out or counts as sent, so the machine waits to retransmit it |
| `RunFacts.AcceptedIsGenuine` | kernel/tcputil.c:291-329 | what a synchronised host accepts is stream content that reaches its frontier, after a stray SYN or FIN has been stripped |
| `UserFacts.FinNeedsMemory` | kernel/tcpout.c:1086-1130 | the FIN of a closing call is queued if and only if the last segment has room or a segment can be allocated |
| `UserFacts.WriteSafe` | kernel/tcp.c:469-563 | a write keeps the invariant: exactly the bytes reported as taken join the stream |
| `UserFacts.ReadSafe` | kernel/tcp.c:621-806 | a read keeps the invariant: exactly the bytes returned join the bytes read |
| `UserFacts.ShutdownSafe` | kernel/tcp.c:808-827 | a half close keeps the invariant whether or not the FIN finds a segment |
| `UserFacts.DetachSafe` | kernel/tcp.c:139-177 | so does a full close, which throws unread data away |
| `UserFacts.TimerSafe` | kernel/tcpout.c:214-400 | so does an expiring timer: retransmission, probe or giving up |
| `ControlBlock.Tcb.Handle` | kernel/tcp.c:886-952 | the imperative input path, from acceptance test to handler, computes the model's new state and answers |
| `ControlBlock.Tcb.Acceptable` | kernel/tcputil.c:291-329 | the acceptance test with its header edits |
| `ControlBlock.Tcb.HandleAck` | kernel/tcpin.c:928-985 | window update, acknowledgment number, then window event |
| `ControlBlock.Tcb.HandleData` | kernel/tcpin.c:657-760 | data and FIN, with immediate or delayed acknowledgment |
| `ControlBlock.Tcb.WhenListen` | kernel/tcpin.c:105-219 | the handler of the listening state |
| `ControlBlock.Tcb.WhenSynSent` | kernel/tcpin.c:221-298 | the handler after an active open |
| `ControlBlock.Tcb.WhenSynRcvd` | kernel/tcpin.c:300-375 | the handler after the peer's SYN |
| `ControlBlock.Tcb.WhenEstablished` | kernel/tcpin.c:377-415 | the handler of an established connection |
| `ControlBlock.Tcb.WhenFinWait1` | kernel/tcpin.c:417-468 | the handler after the own FIN |
| `ControlBlock.Tcb.WhenFinWait2` | kernel/tcpin.c:470-500 | the handler after its acknowledgment |
| `ControlBlock.Tcb.WhenClosing` | kernel/tcpin.c:502-576 | the handlers of the three states that only look at acknowledgments |
| `ControlBlock.Tcb.WhenTimeWait` | kernel/tcpin.c:578-598 | the handler of the waiting state |
| `ControlBlock.Tcb.Transmit` | kernel/tcpout.c:81-612 | an output event; every segment acknowledges and advertises, and the edge is recorded |
| `ControlBlock.Tcb.GiveUp` | kernel/tcputil.c:159-179 | resetting stops timers and flushes both queues |
| `ControlBlock.Tcb.Answer` | kernel/tcputil.c:245-289 | the answer to an unacceptable segment |
| `ControlBlock.Tcb.ShutDown` | kernel/tcp.c:808-827 | half close: state first, then FIN |
| `ControlBlock.Tcb.Close` | kernel/tcp.c:139-177 | full close |
| `ControlBlock.Tcb.Read` | kernel/tcp.c:621-806 | one read and its window update, or nothing if nothing is readable |
| `ControlBlock.Tcb.WriteSome` | kernel/tcp.c:498-560 | one round of the write call |
| `ControlBlock.Tcb.OpenActively` | kernel/tcp.c:179-235 | an active open of a fresh block queues and sends the SYN |
| `ControlBlock.Tcb.StartListening` | kernel/tcp.c:259-275 | a passive open of a fresh block |
| `ControlBlock.Tcb.TimerGoesOff` | kernel/tcpout.c:989-992 | the output timer: retransmission, probe or giving up |
| `ControlBlock.Tcb.DelayedAckDue` | kernel/tcpin.c:644-650 | the delayed acknowledgment goes out unless something else has acknowledged |
| `ControlBlock.Tcb.DeleteDue` | kernel/tcputil.c:120-134 | the last timer ends a connection that waits for its peer |
| `ControlBlock.Tcb.SetReceiveBuffer` | kernel/inet.c:572-585 | another receive buffer size, within its limits and never below what is queued |
| `Stations.Station.Do` | kernel/tcp.c:886-952 | everything that can happen at a host, performed in place, is the model's action, and the receive queue stays in order |
| `Stations.Pair.Happen` | kernel/tcp.c:886-952 | one event of two blocks and the network is one step of the model and keeps the invariant of every run |
| `Stations.Pair.Play` | kernel/tcp.c:886-952 | a run of two blocks is a run of the model, keeps its invariant, and each user has read a prefix of what the other has written |
| `Stations.StaysNormal` | kernel/tcpin.c:773-881 | no action ever leaves a receive queue in which a segment contains another |
| `TcpLimits.BothEndsLoseCount` | kernel/tcpin.c:808-817 | a run of two fresh hosts, in which nothing fails, where the sender's padded segment reaches past both ends of the receiver's queue: 23 queued bytes are counted as 6 |
| `TcpLimits.WindowCanOverflow` | kernel/tcpout.c:1269-1278 | a run of two fresh hosts, in which nothing fails, after which the counter is negative and a packet on the wire was given a window of 65540, of which its field tells 4 |
| `TcpLimits.RetransmissionCanUnderrun` | kernel/tcpout.c:932-985 | a run of two fresh hosts, in which nothing fails, after which the output timer is pending and the retransmission would copy a negative number of bytes |
| `SeqSpace.ComparatorsAgree` | kernel/tcp.h:123-129 | the signed 32-bit difference is the true difference if and only if the numbers are less than half the space apart, and then the comparators agree with integer order |
| `SeqSpace.WindowIsOrdered` | kernel/tcp.h:123-129 | inside a window of half the space the comparators are a total order |
| `SeqSpace.HalfApartIsCircular` | kernel/tcp.h:123-129 | half the space apart, each number is before the other |
| `SeqSpace.OnlyWordsMatter` | kernel/tcp.h:123-129 | numbers that agree modulo 2^32 compare alike |
| `BufRuns.AlwaysInOrder` | kernel/buf.c:292-564 | over any run of allocations, frees, dereferences, references and garbage collection: tags and lists stay in order, live buffers never overlap and lie inside their blocks |
| `BufRuns.StepKeepsValid` | kernel/buf.c:292-564 | every operation keeps the heap in order |
| `BufRuns.InUseWhileReferenced` | kernel/buf.c:483-588 | over any run a buffer stays in use, with its size and the right count, as long as nobody frees it and more references were taken than dropped; the operation that breaks this, and no other, takes it out of use |
| `BufRuns.RequestFits` | kernel/buf.c:299-308 | a request gets room for its bytes after the rounded-up reserve if and only if the size does not wrap around, and for a reserve larger than the size if and only if rounding or the smallest buffer leaves that much |
| `BufFacts.Tiled` | kernel/buf.c:365-386 | every byte of a block lies in exactly one buffer of the neighbour chain |
| `BufFacts.NoOverlap` | kernel/buf.c:365-386 | buffers of a block do not overlap |
| `BufFacts.TakeKeeps` | kernel/buf.c:359-391 | taking a buffer keeps tags and lists right, wastes less than a smallest buffer and changes no other buffer in use |
| `BufFacts.FreeKeeps` | kernel/buf.c:412-469 | freeing merges with free neighbours, keeps everything in order and takes exactly that buffer out of use |
| `BufFacts.FreeBlockKeeps` | kernel/buf.c:88-113 | giving a block back removes a wholly free block and accounts for it |
| `BufFacts.FirstListIsWholeBlocks` | kernel/buf.c:88-113 | the first list holds exactly whole free blocks |
| `BufPool.OneClass` | kernel/buf.c:27-28 | size classes do not overlap |
| `BufManager.Manager.Alloc` | kernel/buf.c:292-409 | a request fails exactly if no block could hold it, or no fitting buffer is listed and the call must not wait or the kernel has no memory; otherwise a new buffer of sufficient size comes into use and nothing else changes |
| `BufManager.Manager.TakeFrom` | kernel/buf.c:359-391 | taking the head of any list at or below the fitting class needs no size check |
| `BufManager.Manager.FindClass` | kernel/buf.c:310-322 | the class search |
| `BufManager.Manager.FreeBuf` | kernel/buf.c:412-469 | the merging and the class search, in place |
| `BufManager.Manager.Deref` | kernel/buf.c:483-564 | the last reference frees the buffer, any other only counts down |
| `BufManager.Manager.Collect` | kernel/buf.c:118-134 | garbage collection leaves one wholly free block if there was one, frees the others and accounts for them |
| `BufManager.Manager.AddBlock` | kernel/buf.c:41-75 | a new block is one free buffer and is accounted for |
| `IpFragment.Send` | kernel/ip.c:702-802 | the datagram itself if it fits, an error exactly for DF or an offset overflow, otherwise its fragments, or exactly the first ones if memory or the layers below fail |
| `IpFragment.OverflowsPast64K` | kernel/ip.c:738-743 | the overflow check fails exactly if offset and payload together reach 65536 bytes |
| `IpFragment.SentIsCut` | kernel/ip.c:722-800 | the fragments cut the datagram up in whole units, at least two, each fitting the interface, with offsets that never carry into the flag bits |
| `IpTypes.RefragmentingKeepsCuts` | kernel/ip.c:702-802 | fragmenting a fragment again yields fragments of the original datagram |
| `IpTypes.CutsKeepPayload` | kernel/ip.c:740-800 | the fragments carry exactly the payload |
| `ReassemblyFacts.LastMissingCompletes` | kernel/ip.c:932-971 | in any order, with duplicates and arbitrary other traffic, the original payload comes out exactly at the arrival of the last missing fragment, and the slot is free again |
| `ReassemblyFacts.CollectsWhatIsSeen` | kernel/ip.c:896-930 | a slot holds exactly the fragments seen so far, in order |
| `ReassemblyFacts.FirstFragment` | kernel/ip.c:952-962 | the first fragment to arrive takes the last free slot |
| `ReassemblyFacts.NextFragment` | kernel/ip.c:896-930 | a further fragment completes the datagram exactly if it was the last one missing |
| `ReassemblyFacts.CompleteIffAllThere` | kernel/ip.c:846-856 | comparing the two lengths detects completeness |
| `ReassemblyFacts.OnlyTheOriginalEver` | kernel/ip.c:846-971 | over any run with genuine parts of a payload, however cut, lost, repeated, timed out or short of memory, only the original payload comes out |
| `RoundTrip.RoundTrip` | kernel/ip.c:932-971 | the round trip: from any table with a free slot and none for the datagram, over other traffic, a first own fragment and any order and repetition of the others, the datagram comes out exactly if the last missing fragment arrives, with its payload |
| `RoundTrip.CutAgain` | kernel/ip.c:702-802 | cutting any fragment of any fragmentation again, for a smaller interface, gives a fragmentation of the same datagram |
| `RoundTrip.SentThenCutOnTheWay` | kernel/ip.c:702-802 | what is sent, and cut again any number of times on the way, is fit for reassembly |
| `RoundTrip.FragmentsDoNotOverflow` | kernel/ip.c:738-743 | no fragment of a datagram that fits the offset field fails the overflow check when it is cut again |
| `MixedCuts.DefragIffTiled` | kernel/ip.c:846-971 | for genuine parts of a payload, however cut, the payload comes out with an arrival if and only if the parts then held tile it |
| `MixedCuts.HoldsFirstArrivals` | kernel/ip.c:896-930 | over any run a slot holds the arrivals, sorted, without those whose offset was already there |
| `MixedCuts.SortedKeepsFirsts` | kernel/ip.c:896-930 | that is, for each offset the first fragment to arrive |
| `MixedCuts.ComesOutIffTiled` | kernel/ip.c:846-971 | over any run until a slot is emptied, the payload comes out with an arrival if and only if the first arrivals at each offset tile it |
| `MixedCuts.ArrivesIffTiled` | kernel/ip.c:846-971 | the same from any table with a free slot and none for the datagram, over other traffic and a first part |
| `MixedCuts.FirstPart` | kernel/ip.c:952-962 | the first part to arrive takes a free slot and completes nothing |
| `MixedCuts.ClashIsProper` | kernel/ip.c:740-800 | the three fragments that block each other are genuine, non-empty parts of the payload with the right flags |
| `MixedCuts.TwoPartsClash` | kernel/ip.c:896-930 | two parts of different cuts, from a table with a free slot, leave the slot blocked |
| `MixedCuts.MixedCutsBlock` | kernel/ip.c:896-930 | a slot so blocked stays blocked under any repetition of the fragments of either cut, and nothing comes out |
| `IpReassembly.Reassembler.Take` | kernel/ip.c:932-971 | the slot search, insertion and assembly in place |
| `IpReassembly.CompleteFreesSlot` | kernel/ip.c:858-894 | a slot whose lengths agree is freed whatever comes of it, and the datagram comes out exactly if its fragments are contiguous and memory can be had |
| `IpReassembly.Reassembler.FragInsert` | kernel/ip.c:896-930 | the list walk inserts in order, drops duplicates and keeps both lengths |
| `IpReassembly.Reassembler.FragPullup` | kernel/ip.c:846-894 | the copying loop assembles contiguous fragments or throws them away |
| `DeltaList.InsertMeans` | kernel/timer.c:118-131 | insertion gives the new event its due time, keeps all others and sorts it in behind (timer) or before (timeout) equal ones |
| `DeltaList.TiesInOrder` | kernel/timeout.c:142-190 | among events due at the same time a new timer event goes last, a new timeout first |
| `DeltaList.RemoveMeans` | kernel/timer.c:148-168 | removal keeps the due times of all others |
| `DeltaList.InsertAddsDeadline` | kernel/timer.c:104-145 | insertion refines adding one absolute deadline |
| `DeltaList.RemoveDropsDeadline` | kernel/timer.c:148-168 | removal refines dropping exactly that event's deadline |
| `DeltaList.ShiftKeepsDeadlines` | kernel/timer.c:17-34 | moving origin and head together changes no deadline |
| `Timers.NoHalfTickLost` | kernel/timer.c:17-34 | after any number of readings of a clock that does not fall the origin is where one single update would have put it |
| `Timers.OriginIsCurrent` | kernel/timer.c:17-34 | after any readings, also of a clock that is set back, the origin is less than one tick behind the last reading |
| `Timers.SearchOn` | kernel/timer.c:215-266 | searching on from the place an event was taken from finds the same slot as searching from the start |
| `Timers.EventTimer.UpdateHead` | kernel/timer.c:17-34 | no deadline changes while the clock does not run backwards |
| `Timers.EventTimer.EventInsert` | kernel/timer.c:104-145 | one more deadline, or the event fires at once |
| `Timers.EventTimer.EventRemove` | kernel/timer.c:148-168 | exactly that event's deadline goes |
| `Timers.EventTimer.EventAdd` | kernel/timer.c:170-179 | setting an event changes its deadline only |
| `Timers.EventTimer.EventDelta` | kernel/timer.c:193-208 | the time until an event is its deadline less the origin |
| `Timers.EventTimer.EventReset` | kernel/timer.c:215-266 | the fast path gives the event its new deadline and changes no other; it fires at once exactly if the new deadline has come and is before the old one |
| `Timers.EventTimer.CheckEvents` | kernel/timer.c:57-102 | exactly the due events fire, in order of their deadlines, and exactly the later ones remain |
| `Timers.EventTimer.PopDue` | kernel/timer.c:72-83 | one round: an event with the earliest deadline, if that is past |
| `RootTimeouts.TimeoutQueue.Insert` | kernel/timeout.c:142-190 | one more deadline, before equal ones |
| `RootTimeouts.TimeoutQueue.AddRoot` | kernel/timeout.c:211-253 | an expired entry of the same function is reused, otherwise a new one; fails exactly if neither is there |
| `RootTimeouts.TimeoutQueue.Cancel` | kernel/timeout.c:351-397 | exactly that entry goes, from either list |
| `RootTimeouts.TimeoutQueue.CheckAlarms` | kernel/timeout.c:448-540 | exactly the due timeouts run, in list order, and old expired entries are gone |
| `RootTimeouts.TimeoutQueue.DisposeOld` | kernel/timeout.c:92-139 | exactly the old entries are disposed of |
| `RootTimeouts.OldAreLast` | kernel/timeout.c:106-135 | because the list falls, the old entries are those from the first old one on |
| `RouteTable.OneBucketIsEnough` | kernel/route.c:49-112 | with masks that keep the class bits, the search of one bucket answers as a search of all |
| `RouteRuns.OneBucketAlways` | kernel/route.c:49-259 | however a table came about, if the mask of every added route keeps the class bits, the search of one bucket answers as a search of all |
| `RouteRuns.BuiltIsValid` | kernel/route.c:148-259 | every table built by additions, deletions and flushes has each route in its bucket and unique keys, and class masks if those added had them |
| `RouteTable.ScanMeans` | kernel/route.c:56-69 | the first matching host route, else the last matching net route |
| `RouteTable.SearchMeans` | kernel/route.c:49-112 | a match goes before the default route: the answer of a search is the first matching host route, else the last matching net route, else the default route if it is up, else none |
| `RouteTable.BestIsUnique` | kernel/route.c:49-112 | that condition allows exactly one answer |
| `RouteTable.ScanPicks` | kernel/route.c:56-69 | only routes that are up, have not expired and cover the destination are taken, and if there is one, one is taken |
| `RouteTable.PutKeepsPlace` | kernel/route.c:148-190 | a replaced route keeps its place, a new one goes to the end |
| `RouteTable.AddedMeans` | kernel/route.c:148-190 | route by route what a table holds after an addition |
| `RouteTable.DeletedMeans` | kernel/route.c:192-225 | route by route what it holds after a deletion |
| `RouteTable.FlushedMeans` | kernel/route.c:230-259 | route by route what it holds after a flush |
| `Routes.MatchingShareBucket` | kernel/route.c:29-43 | an address that such a route covers hashes to the route's bucket |
| `RouteClasses.ClassBitsAreNeeded` | kernel/route.c:29-43 | for a mask that is a prefix, all covered addresses share the route's bucket if and only if the mask keeps the class bits |
| `RouteClasses.HoledMaskMayDo` | kernel/route.c:29-43 | a mask with a hole that does not keep the class bits and whose addresses share one bucket all the same |
| `RouteLimits.RightIffClassKept` | kernel/route.c:49-112 | for the table of one route with a prefix mask, the search of one bucket answers as a search of all for every destination if and only if the mask keeps the class bits |
| `RouteLimits.StrayIsMissed` | kernel/route.c:49-112 | in any valid table, a matching route of another bucket is missed if nothing in the destination's bucket matches and there is no default route |
| `RouteLimits.ShortMaskIsMissed` | kernel/route.c:49-112 | a valid table and a destination for which the search of one bucket finds nothing and a search of all finds the route |
| `RouteTable.Router.Get` | kernel/route.c:49-112 | the first matching host route of the destination's bucket, else the last matching net route, else the default route if it is up, else none; the same for the whole table if all masks keep the class bits |
| `RouteTable.Router.Add` | kernel/route.c:114-190 | fails without memory or a gateway address, with nothing changed; otherwise the new route, its gateway kept only if asked for, is linked in |
| `RouteTable.Router.Link` | kernel/route.c:148-190 | replaces the route with the same key or appends; static routes are protected; keys stay unique |
| `RouteTable.Router.Delete` | kernel/route.c:192-225 | exactly the route with that key goes, or the default route |
| `RouteTable.Router.Flush` | kernel/route.c:230-259 | exactly the non-local routes over an interface go |
| `Bpf.Halts` | kernel/bpf_filt.c:76-305 | an accepted, tame program halts within as many steps as it has instructions, inside the program and its scratch memory and without dividing by zero |
| `Bpf.SafeIffTame` | kernel/bpf_filt.c:317-356 | for an accepted program an instruction is safe in every machine state if and only if it is tame |
| `Bpf.CheckedReadIsInside` | kernel/bpf_filt.c:107-155 | a packet read that passes its check is inside if and only if the check's addition does not wrap around |
| `Bpf.Validate` | kernel/bpf_filt.c:317-356 | the checking loop accepts exactly the programs that satisfy the declared rules |
| `Bpf.Filter` | kernel/bpf_filt.c:76-305 | the interpreter loop computes the run of the program, whose steps mean what `BpfMeaning.StepMeans` says |
| `BpfMeaning.StepMeans` | kernel/bpf_filt.c:86-305 | one step does what the fields of the code say, for every code and every state: loads are the big-endian value at the offset or end the run, a conditional jump goes to the one or the other place exactly if its relation holds of the words, arithmetic is that of 32-bit words |
| `BpfMeaning.StepKeepsWords` | kernel/bpf_filt.c:86-305 | words stay words, so that this is the meaning of every step of every run |
| `BpfMeaning.SignedOrderIffSameHalf` | kernel/bpf_filt.c:194-224 | comparing as signed words is comparing the unsigned values exactly if both lie in the same half of the range |
| `BpfCompile.AcceptsExactly` | kernel/bpf_filt.c:76-305 | for every boolean condition on packet fields there is a program for which the filter returns the length asked for exactly for the packets that meet the condition, and 0 for all others |
| `BpfCompile.ProgramIsAccepted` | kernel/bpf_filt.c:317-356 | the checking routine accepts that program, and it is tame |
| `BpfCompile.EvalIsFormula` | kernel/bpf_filt.c:194-224 | evaluated left to right as far as needed, a condition is its formula wherever the fields are in the packet |
| `Bpf.BackwardJumpLoops` | kernel/bpf_filt.c:330-337 | an accepted program that never halts |
| `Bpf.AcceptedFaults` | kernel/bpf_filt.c:340-346 | accepted programs that leave the scratch memory and the packet |
| `IfQueue.Fairness` | kernel/if.c:118-163 | while the first queue has packets it is served in any three consecutive dequeues, and the second in any two, whatever is queued in between |
| `IfQueue.UrgentIsServed` | kernel/if.c:69-163 | a packet of priority 0, accepted when none of that priority waits, is handed out by one of the next three dequeues, however much is queued behind it; one of any other priority by one of the next two |
| `IfQueue.FirstInFirstOut` | kernel/if.c:69-163 | without putting back each priority is first in, first out |
| `IfQueue.PacketsConserved` | kernel/if.c:69-206 | nothing is lost or made up, with or without putting back |
| `IfQueue.WrapKeepsTurn` | kernel/if.c:26-28 | 16-bit wrap-around does not disturb whose turn it is |
| `IfQueue.RunIsValid` | kernel/if.c:69-206 | `qlen` is the total length in every state of a run |
| `IfQueue.Ifq.Append` | kernel/if.c:69-115 | accepted at the end of its priority, or dropped if full |
| `IfQueue.Ifq.Next` | kernel/if.c:118-163 | the round-robin loop |
| `IfQueue.Ifq.PutFirst` | kernel/if.c:165-206 | put back at the head of its priority |
| `IfQueue.Ifq.Flush` | kernel/if.c:208-238 | all packets go, the turn stays |
| `GsMem.AllocateMeans` | gluestik/gs_mem.c:142-173 | first fit: new memory at the lowest fitting chunk, nothing else touched, chunks still tile the pool with no two free neighbours |
| `GsMem.FreeMeans` | gluestik/gs_mem.c:176-233 | exactly that memory goes out of use and free neighbours become one |
| `GsMem.SumsAndHeaders` | gluestik/gs_mem.c:236-274 | free, live and header bytes add up to the pool |
| `GsMem.LiveDisjoint` | gluestik/gs_mem.c:117-140 | allocated memory never overlaps |
| `GsArena.Arena.Alloc` | gluestik/gs_mem.c:142-173 | the first-fit loop |
| `GsArena.Arena.FreeMem` | gluestik/gs_mem.c:176-233 | freeing, with null and unused memory left alone |
| `GsArena.Arena.Realloc` | gluestik/gs_mem.c:277-349 | memory in use stays where it is exactly if its chunk holds the rounded size, alone or with a free successor and the header between them; else it moves to the first fit, and the call fails exactly if there is none; the first bytes are kept, what is not needed is given back, and failure changes nothing |
| `GsArena.Arena.GetFree` | gluestik/gs_mem.c:236-274 | the largest free chunk or the free total |
| `GsArena.ResizeKeepsUnlessWrapped` | gluestik/gs_mem.c:304-312 | the first min(old, new) bytes are kept if and only if rounding the new size does not wrap around or the chunk is too small to be split |
| `Iov.Gather` | kernel/iov.c:16-44 | exactly the slice of the concatenated buffers |
| `Iov.Scatter` | kernel/iov.c:47-75 | exactly that slice is overwritten, buffer lengths and all other bytes stay |
| `Iov.WrittenReadsBack` | kernel/iov.c:16-75 | reading back what was written gives the same bytes |

## Left out

- Urgent data, `MSG_PEEK`, ICMP errors to TCP, and TCP options other than the segment size.
- Progress.SomethingArrives: progress is shown from the stated states only; a host that has used up its retransmissions, whose probe is answered by a segment it does not accept, or whose peer has acknowledged more than it has heard of is outside. With a reversed window there is none by the timer (`Reversal.TurnedOnlyCounts`).
- Sequence numbers in the connection model are unbounded integers; `SeqSpace` relates them to 32-bit words.
- Round-trip measurement and backoff, and the slow start after a source quench: Nagle's decision, whether a connection has rested, segment sizes from 32 on, allocation and send failures and when timers expire are free choices of the environment in every step.
- A control block is used for one connection: re-use after closing, the accept queue, and dropping SYNs to broadcast addresses are not modelled; a SYN that finds no memory is ignored.
- A reset is believed as the code believes it; that resets come from the peer is not a claim of this model.
- ControlBlock.Tcb.Read: sleeping, signals and the error returns of a blocked call are outside.
- ControlBlock.Tcb.WhenListen: the listening block itself becomes the connection; the new block and the accept queue are outside.
- SendSide.OutQueue.SendSeg: for a reversed window, where the program would copy a negative number of bytes, the model sends nothing.
- SpanFacts.WindowsFitUnlessBothEndsGrow: a sufficient condition on arrivals; the exact condition is in `WindowWire.OversizedIffStrained`.
- Symmetry.AllWindowsFit: the same for both hosts.
- Linked lists are sequences: the pointer surgery of insertion and removal is modelled by its effect on the order of elements; the neighbour pointers of network buffers are modelled as pointers.
- Buffers: `buf_reserve`, `buf_clone`, the deferred block of an atomic request and the addresses of `dstart` and `dend` beyond `BufRuns.RequestFits`.
- IpFragment.Send: interfaces whose mtu is under 28, for which the fragmenting loop of the code does not advance.
- Bpf.Filter: programs that were not accepted or are not tame, which may loop or leave their memory (`Bpf.BackwardJumpLoops`, `Bpf.AcceptedFaults`).
- IP: options, checksums, forwarding and the timeout's ICMP message; the assembled header's length field counts the payload only, as in the code.
- Timers.EventTimer.CheckEvents: callbacks that set timers while `check_events` runs; `Timers.EventTimer.PopDue` is the round between two callbacks. The root timeout that drives it is outside too.
- RootTimeouts.TimeoutQueue.CheckAlarms: callbacks that add timeouts while it runs.
- Routes: reference and use counts.
- Packet filter: shift counts are taken modulo 64 and the smallest word divided by -1 wraps around, as on the processor; C leaves both open.
- Scatter and gather: user buffers that overlap each other.
- ARP, ICMP, IGMP, UDP, raw IP, masquerading, drivers, ioctls and the socket layer.
