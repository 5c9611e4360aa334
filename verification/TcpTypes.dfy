/** Values shared by the receive side, the send side and the connection model. */
module TcpTypes {
  newtype Byte = x: int | 0 <= x < 256

  /** The eleven connection states (kernel/tcp.h). */
  datatype State =
    | Closed | Listen | SynSent | SynRcvd | Established
    | FinWait1 | FinWait2 | CloseWait | LastAck | Closing | TimeWait
  {
    /** The source compares state numbers: `state >= TCBS_SYNRCVD`. */
    predicate Synchronised() { !Closed? && !Listen? && !SynSent? }

    predicate Connected() { Established? || CloseWait? }
  }

  /** A TCP segment on the wire; sequence numbers are unbounded integers. */
  datatype Packet = Packet(
    seqno: int, data: seq<Byte>, syn: bool, fin: bool, rst: bool,
    ack: bool, ackno: int, window: int)
  {
    function Len(): nat { Bit(syn) + |data| + Bit(fin) }
  }

  function Bit(b: bool): nat { if b then 1 else 0 }

  function Min(x: int, y: int): int { if x <= y then x else y }

  function Max(x: int, y: int): int { if x >= y then x else y }

  const DEFAULT_MSS := 1460
  const MAX_RETRY := 15
  const DUP_THRESHOLD := 3
  const MAX_SPACE := 65535
  const FIRST_THRESH := 65536
}
