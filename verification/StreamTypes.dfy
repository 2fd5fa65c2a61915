/** The values the stream protocol works on: states, segments and packets.
    Sequence numbers and logical stamps are unbounded integers here; module
    SequenceNumbers relates them to the 32 bit words of the C code. */
module StreamTypes {
  import opened AckGaps
  import opened Basics

  datatype State =
    | Idle | Accept | WaitAccept | SynSent | SynRcvd | Established
    | FinWait1 | FinWait2 | Closing | TimeWait | CloseWait | LastAck
    | Closed | Aborted | AbortedRst

  datatype Payload = Data(bytes: seq<byte>) | Fin

  /** What a sequence number stands for; never changes once it is queued. */
  datatype Segment = Segment(num: int, payload: Payload)

  const DATA_OVERHEAD: nat := 8
  const MAX_RECV_SEGMENTS: nat := 10000
  const MAX_SEND_LIST_SIZE: nat := 100
  const MAX_FLIGHT_SIZE: nat := 10000

  function Used(s: Segment): nat {
    if s.payload.Data? then |s.payload.bytes| else 0
  }

  ghost predicate Sorted(segs: seq<Segment>) {
    forall i, j :: 0 <= i < j < |segs| ==> segs[i].num < segs[j].num
  }

  /** An ack extension. */
  datatype AckExtension = AckExtension(maxAcked: int, windowSize: int, timestampEcho: int, gaps: seq<Gap>)

  /** A packet as its receiver acts on it: the ack extensions in order and,
      for an ack packet, the data and fin extensions in order. */
  datatype Packet =
    | Syn(stamp: int, start: int, maxSend: nat, maxRecv: nat)
    | SynAck(stamp: int, acks: seq<AckExtension>, start: int, maxSend: nat, maxRecv: nat)
    | Ack(stamp: int, acks: seq<AckExtension>, segments: seq<Segment>)
    | Rst(stamp: int)

  function Bytes(segs: seq<Segment>): seq<byte> {
    if segs == [] then [] else
      Bytes(segs[..|segs| - 1]) + (if segs[|segs| - 1].payload.Data? then segs[|segs| - 1].payload.bytes else [])
  }

  lemma {:induction false} BytesConcat(a: seq<Segment>, b: seq<Segment>)
    ensures Bytes(a + b) == Bytes(a) + Bytes(b)
    decreases |b|
  {
    if b == [] {
      assert a + b == a;
    } else {
      assert (a + b)[..|a + b| - 1] == a + b[..|b| - 1];
      BytesConcat(a, b[..|b| - 1]);
    }
  }
}
