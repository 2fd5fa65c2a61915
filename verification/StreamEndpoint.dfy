/** One end of a stream: the connection state machine over the sending and the
    receiving half, as functions from the state before to the state after. */
module StreamEndpoint {
  import opened AckGaps
  import opened Basics
  import opened StreamTypes
  import opened StreamSender
  import opened StreamReceiver

  datatype Endpoint = Endpoint(
    state: State,
    tx: Sender,
    rx: Receiver,
    timestampToEcho: int,
    logicalTimestamp: int)

  datatype Status = StatusOk | StatusClosed | StatusAborted | StatusEof | StatusInvalidState

  function Init(start: int, maxSend: nat, maxRecv: nat): Endpoint {
    Endpoint(State.Idle, Sender(start, 0, [], [], [], 0, false, 0, false, maxSend, false, false),
             Receiver(0, 0, 0, [], [], false, maxRecv), 0, 0)
  }

  predicate Ended(state: State) {
    state == Closed || state == Aborted || state == AbortedRst
  }

  predicate Opening(state: State) {
    state == State.Idle || state == Accept || state == WaitAccept || state == SynSent || state == SynRcvd
  }

  /** After the handshake began and before the end: data may be pending. */
  predicate Connected(state: State) {
    state == SynRcvd || (!Opening(state) && !Ended(state))
  }

  predicate AcceptsData(state: State) {
    state == Established || state == CloseWait || state == FinWait1 || state == FinWait2
  }

  predicate AcceptsFin(state: State) {
    state == Established || state == FinWait1 || state == FinWait2
  }

  predicate SendsData(state: State) {
    state == Established || state == FinWait1 || state == CloseWait || state == LastAck || state == Closing
  }

  predicate SendsAcks(state: State) {
    SendsData(state) || state == FinWait2 || state == TimeWait
  }

  predicate AcceptsWrites(state: State) {
    state == Established || state == CloseWait || state == SynRcvd
  }

  // ------------------------------------------------------------ application

  function Open(e: Endpoint): Endpoint {
    e.(state := SynSent, tx := e.tx.(xmitMax := e.tx.start))
  }

  function AcceptStream(e: Endpoint, sendAvailable: nat, recvAvailable: nat): Endpoint {
    if e.state == WaitAccept || e.state == Accept then
      e.(state := SynRcvd,
         tx := AllocateSend(e.tx.(xmitMax := e.tx.start), sendAvailable),
         rx := AllocateRecv(e.rx, recvAvailable))
    else e
  }

  function WriteStatus(e: Endpoint): Status {
    if e.state == Aborted || e.state == AbortedRst then StatusAborted
    else if !AcceptsWrites(e.state) then StatusClosed
    else StatusOk
  }

  /** The segments a write call queues. */
  function Written(e: Endpoint, bytes: seq<byte>, cwnd: real, cwndMax: real, available: nat): seq<Segment> {
    if WriteStatus(e) == StatusOk && CanWrite(e.tx, cwnd, cwndMax) > 0 then Queued(e.tx, bytes, available) else []
  }

  function Write(e: Endpoint, bytes: seq<byte>, cwnd: real, cwndMax: real, available: nat): Endpoint {
    if WriteStatus(e) == StatusOk && CanWrite(e.tx, cwnd, cwndMax) > 0
    then e.(tx := SenderAfterWrite(e.tx, bytes, available)) else e
  }

  function ReadStatus(e: Endpoint): Status {
    if e.state == Aborted || e.state == AbortedRst then StatusAborted
    else if e.rx.recvRead == [] then (if Ended(e.state) then StatusClosed else StatusOk)
    else if e.rx.recvRead[0].seg.payload.Fin? then StatusEof
    else StatusOk
  }

  /** The bytes a read call returns. */
  function ReadBytes(e: Endpoint, room: nat): seq<byte>
    requires ReadListOk(e.rx.recvRead)
  {
    if ReadStatus(e) != StatusOk then [] else
      var available := Available(e.rx.recvRead);
      if |available| <= room then available else available[..room]
  }

  function Read(e: Endpoint, room: nat): Endpoint
    requires ReadListOk(e.rx.recvRead)
  {
    if ReadStatus(e) != StatusOk then e
    else e.(rx := e.rx.(recvRead := Consume(e.rx.recvRead, |ReadBytes(e, room)|)))
  }

  function Close(e: Endpoint): Endpoint {
    if e.state == CloseWait || e.state == Established then
      e.(tx := if e.tx.unacked == [] && e.tx.sendList == [] then AddFin(e.tx) else e.tx,
         state := if e.state == CloseWait then LastAck else FinWait1)
    else if Opening(e.state) && e.state != State.Idle then e.(state := Aborted)
    else e
  }

  function CloseStatus(e: Endpoint): Status {
    if e.state == State.Idle then StatusInvalidState
    else if e.state == Aborted || e.state == AbortedRst then StatusAborted
    else if e.state == Closed || e.state == FinWait2 || e.state == TimeWait then StatusClosed
    else StatusOk
  }

  // ------------------------------------------------------- received packets

  function MinNat(a: nat, b: nat): nat { if a < b then a else b }

  /** Settles the segment sizes and the receive numbers on the first packet
      from the peer. */
  function Join(e: Endpoint, state: State, stamp: int, start: int, maxSend: nat, maxRecv: nat): Endpoint {
    e.(state := state,
       tx := e.tx.(maxSendSegmentSize := MinNat(e.tx.maxSendSegmentSize, maxRecv)),
       rx := e.rx.(maxRecvSegmentSize := MinNat(e.rx.maxRecvSegmentSize, maxSend),
                   recvMax := start, recvMaxAllocated := start, recvTop := start),
       timestampToEcho := stamp)
  }

  function HandleAck(e: Endpoint, ack: AckExtension, stamp: int): Endpoint {
    var state := if e.state == SynRcvd then Established else e.state;
    var tx := if e.timestampToEcho <= stamp then Advertise(e.tx, ack.maxAcked + ack.windowSize) else e.tx;
    e.(state := StateAfterAck(state, tx, ack), tx := SenderAfterAck(state, tx, ack))
  }

  function HandleAcks(e: Endpoint, acks: seq<AckExtension>, stamp: int): (e': Endpoint)
    ensures e'.rx == e.rx && e'.timestampToEcho == e.timestampToEcho && e'.logicalTimestamp == e.logicalTimestamp
    decreases |acks|
  {
    if acks == [] then e else HandleAcks(HandleAck(e, acks[0], stamp), acks[1..], stamp)
  }

  function HandleData(e: Endpoint, num: int, bytes: seq<byte>, available: nat): (e': Endpoint)
    requires ReceiverInv(e.rx)
    ensures ReceiverInv(e'.rx)
  {
    if |bytes| > e.rx.maxRecvSegmentSize || !AcceptsData(e.state) then e
    else
      DataKeepsInv(e.rx, num, bytes, available);
      e.(rx := AfterData(e.rx, num, bytes, available))
  }

  function OnFin(state: State): State {
    match state
    case Established => CloseWait
    case FinWait1 => Closing
    case FinWait2 => TimeWait
    case _ => state
  }

  function HandleFin(e: Endpoint, num: int, available: nat): (e': Endpoint)
    requires ReceiverInv(e.rx)
    ensures ReceiverInv(e'.rx)
  {
    if !AcceptsFin(e.state) then e
    else
      FinKeepsInv(e.rx, num, available);
      e.(rx := AfterFin(e.rx, num, available),
         state := if Found(e.rx, num, available) then OnFin(e.state) else e.state)
  }

  function HandleSegment(e: Endpoint, s: Segment, available: nat): (e': Endpoint)
    requires ReceiverInv(e.rx)
    ensures ReceiverInv(e'.rx)
  {
    if s.payload.Fin? then HandleFin(e, s.num, available) else HandleData(e, s.num, s.payload.bytes, available)
  }

  /** The data and fin extensions in order; available(i) is what the allocator
      has left when the i-th of them is handled. */
  function HandleSegments(e: Endpoint, segments: seq<Segment>, available: seq<nat>): (e': Endpoint)
    requires ReceiverInv(e.rx)
    ensures ReceiverInv(e'.rx)
    decreases |segments|
  {
    if segments == [] then e
    else if available == [] then HandleSegments(HandleSegment(e, segments[0], 0), segments[1..], [])
    else HandleSegments(HandleSegment(e, segments[0], available[0]), segments[1..], available[1..])
  }

  function HandleRst(e: Endpoint): Endpoint {
    if Ended(e.state) then e
    else if (e.state == LastAck || e.state == Closing) &&
            ((e.tx.unacked == [] && e.tx.sendList == []) ||
             (e.tx.unacked != [] && e.tx.unacked[0].seg.payload.Fin?))
    then e.(state := Closed)
    else if e.state == TimeWait then e.(state := Closed)
    else e.(state := AbortedRst)
  }

  function HandleSyn(e: Endpoint, p: Packet): Endpoint
    requires p.Syn?
  {
    if e.state == State.Idle then Join(e, Accept, p.stamp, p.start, p.maxSend, p.maxRecv) else e
  }

  /** What the allocator has left while a packet is handled. */
  datatype Budget = Budget(send: nat, recv: nat, segments: seq<nat>)

  function HandleSynAck(e: Endpoint, p: Packet, budget: Budget): (e': Endpoint)
    requires p.SynAck?
  {
    if e.state == SynSent then
      var j := Join(e, Established, p.stamp, p.start, p.maxSend, p.maxRecv);
      j.(tx := AllocateSend(j.tx, budget.send), rx := AllocateRecv(j.rx, budget.recv))
    else e
  }

  function Hear(e: Endpoint, stamp: int): Endpoint {
    e.(timestampToEcho := if e.timestampToEcho < stamp then stamp else e.timestampToEcho)
  }

  function HandlePacket(e: Endpoint, p: Packet, budget: Budget): Endpoint
    requires ReceiverInv(e.rx)
  {
    var h := Hear(e, p.stamp);
    match p
    case Syn(_, _, _, _) => HandleSyn(h, p)
    case SynAck(stamp, acks, _, _, _) => HandleAcks(HandleSynAck(h, p, budget), acks, stamp)
    case Ack(stamp, acks, segments) => HandleSegments(HandleAcks(h, acks, stamp), segments, budget.segments)
    case Rst(_) => HandleRst(h)
  }

  // --------------------------------------------------------- created packets

  function NextStamp(e: Endpoint): Endpoint {
    e.(logicalTimestamp := e.logicalTimestamp + 1)
  }

  function SynPacket(e: Endpoint): Packet {
    Syn(e.logicalTimestamp, e.tx.start, e.tx.maxSendSegmentSize, e.rx.maxRecvSegmentSize)
  }

  function SynAckPacket(e: Endpoint, maxBlocks: nat): Packet
    requires maxBlocks >= 2
  {
    SynAck(e.logicalTimestamp, [AckOf(e.rx, e.timestampToEcho, maxBlocks)],
           e.tx.start, e.tx.maxSendSegmentSize, e.rx.maxRecvSegmentSize)
  }

  function AckPacket(e: Endpoint, room: int, maxBlocks: nat): Packet
    requires maxBlocks >= 2
  {
    Ack(e.logicalTimestamp, [AckOf(e.rx, e.timestampToEcho, maxBlocks)], SentSegments(e.tx, room))
  }

  /** After an ack packet has been created and, as a data event, handled. */
  function AfterAckPacket(e: Endpoint, room: int, dataEvent: bool): Endpoint {
    var tx := SenderAfterSend(e.tx, room, e.logicalTimestamp);
    NextStamp(e).(tx := if dataEvent then tx.(segmentSentAfterTimeout := true) else tx)
  }

  // ------------------------------------------------------------------ events

  function Timeout(e: Endpoint): Endpoint {
    e.(tx := SenderAfterTimeout(e.tx))
  }

  function ConnectionDied(e: Endpoint): Endpoint {
    if e.state == LastAck then e.(state := Closed)
    else if !Ended(e.state) then e.(state := AbortedRst)
    else e
  }

  function RetrySend(e: Endpoint, available: nat): Endpoint {
    if e.tx.allocationPending then e.(tx := AllocateSend(e.tx, available)) else e
  }

  function RetryRecv(e: Endpoint, available: nat): Endpoint {
    if e.rx.allocationPending then e.(rx := AllocateRecv(e.rx, available)) else e
  }

  function SendSegmentAvailable(e: Endpoint, available: nat): Endpoint {
    if Connected(e.state) && !e.tx.haveUnfilled then e.(tx := AllocateSend(e.tx, available)) else e
  }

  function RecvSegmentAvailable(e: Endpoint, available: nat): Endpoint {
    if Connected(e.state) && e.rx.recvMaxAllocated == e.rx.recvMax then e.(rx := AllocateRecv(e.rx, available)) else e
  }
}
