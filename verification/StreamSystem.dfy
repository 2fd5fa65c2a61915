/** Two connected streams over a network that loses, duplicates and reorders
    packets, as a state machine: a node is one end with its history, and the
    packets a node has created stay deliverable forever. */
module StreamSystem {
  import opened AckGaps
  import opened Basics
  import opened StreamTypes
  import opened StreamSender
  import opened StreamReceiver
  import opened StreamEndpoint

  datatype Side = Initiator | Responder

  /** One end and its history: every segment it has queued, the bytes its
      writes accepted and its reads returned, the packets it has created and
      those it has handled, the numbers acks have taken off its unacked list, and
      whether it has learned the peer's numbers. */
  datatype Node = Node(
    side: Side,
    e: Endpoint,
    log: seq<Segment>,
    accepted: seq<byte>,
    got: seq<byte>,
    sent: set<Packet>,
    heard: set<Packet>,
    acked: set<int>,
    joined: bool)

  datatype Action =
    | DoOpen
    | DoAccept(sendAvailable: nat, recvAvailable: nat)
    | DoAcceptHandled
    | DoWrite(bytes: seq<byte>, cwnd: real, cwndMax: real, available: nat)
    | DoRead(count: nat)
    | DoClose
    | DoSendSyn
    | DoSendSynAck(maxBlocks: nat)
    | DoSendAck(room: int, maxBlocks: nat, dataEvent: bool)
    | DoSendRst
    | DoCreateFails
    | DoTimeout
    | DoTimeWaitOver
    | DoConnectionDied
    | DoRetrySend(available: nat)
    | DoRetryRecv(available: nat)
    | DoSendSegmentAvailable(available: nat)
    | DoRecvSegmentAvailable(available: nat)
    | DoDeliver(packet: Packet, budget: Budget)

  function InitNode(side: Side, start: int, maxSend: nat, maxRecv: nat): Node {
    Node(side, Init(start, maxSend, maxRecv), [], [], [], {}, {}, {}, false)
  }

  predicate Joins(x: Node, p: Packet) {
    (p.Syn? && x.e.state == State.Idle) || (p.SynAck? && x.e.state == SynSent)
  }

  /** The numbers an ack takes off the unacked list: those in flight under the
      window in use that it acknowledges. */
  function Taken(e: Endpoint, ack: AckExtension, stamp: int): set<int> {
    var tx := if e.timestampToEcho <= stamp then Advertise(e.tx, Edge(ack)) else e.tx;
    set i | 0 <= i < |tx.unacked| && Acked(tx.unacked[i].seg.num, ack.maxAcked, ack.gaps) :: tx.unacked[i].seg.num
  }

  function AllTaken(e: Endpoint, acks: seq<AckExtension>, stamp: int): set<int>
    decreases |acks|
  {
    if acks == [] then {} else Taken(e, acks[0], stamp) + AllTaken(HandleAck(e, acks[0], stamp), acks[1..], stamp)
  }

  /** The numbers a packet takes off the unacked list. */
  function TakenBy(e: Endpoint, p: Packet, budget: Budget): set<int> {
    var h := Hear(e, p.stamp);
    match p
    case SynAck(stamp, acks, _, _, _) => AllTaken(HandleSynAck(h, p, budget), acks, stamp)
    case Ack(stamp, acks, _) => AllTaken(h, acks, stamp)
    case _ => {}
  }

  function Deliver(x: Node, p: Packet, budget: Budget): Node
    requires ReceiverInv(x.e.rx)
  {
    var e := HandlePacket(x.e, p, budget);
    x.(e := e, log := LogAfter(x, e), heard := x.heard + {p}, acked := x.acked + TakenBy(x.e, p, budget),
       joined := x.joined || Joins(x, p))
  }

  /** FIN enters the log when it is queued. */
  function LogAfter(x: Node, e: Endpoint): seq<Segment> {
    if e.tx.finQueued && !x.e.tx.finQueued then x.log + [Segment(e.tx.xmitMax, Fin)] else x.log
  }

  /** The node after an action; an action that is not enabled changes nothing. */
  function NodeStep(x: Node, peer: Node, act: Action): Node
    requires ReceiverInv(x.e.rx) && ReadListOk(x.e.rx.recvRead)
  {
    var e := x.e;
    match act
    case DoOpen => if x.side == Initiator && e.state == State.Idle then x.(e := Open(e)) else x
    case DoAccept(s, r) => x.(e := AcceptStream(e, s, r))
    case DoAcceptHandled => if e.state == Accept then x.(e := e.(state := WaitAccept)) else x
    case DoWrite(bytes, cwnd, cwndMax, available) =>
      var queued := Written(e, bytes, cwnd, cwndMax, available);
      x.(e := Write(e, bytes, cwnd, cwndMax, available), log := x.log + queued, accepted := x.accepted + Bytes(queued))
    case DoRead(count) => x.(e := Read(e, count), got := x.got + ReadBytes(e, count))
    case DoClose => x.(e := Close(e), log := LogAfter(x, Close(e)))
    case DoSendSyn => if e.state == SynSent then x.(e := NextStamp(e), sent := x.sent + {SynPacket(e)}) else x
    case DoSendSynAck(maxBlocks) =>
      if e.state == SynRcvd && 2 <= maxBlocks <= MAX_ACK_GAP_BLOCKS
      then x.(e := NextStamp(e), sent := x.sent + {SynAckPacket(e, maxBlocks)}) else x
    case DoSendAck(room, maxBlocks, dataEvent) =>
      if (if dataEvent then SendsData(e.state) else SendsAcks(e.state)) && 2 <= maxBlocks <= MAX_ACK_GAP_BLOCKS
      then x.(e := AfterAckPacket(e, room, dataEvent), sent := x.sent + {AckPacket(e, room, maxBlocks)}) else x
    case DoSendRst => if e.state == Aborted then x.(e := e.(state := AbortedRst), sent := x.sent + {Rst(0)}) else x
    case DoCreateFails => x.(e := NextStamp(e))
    case DoTimeout => if SendsData(e.state) && e.tx.unacked != [] then x.(e := Timeout(e)) else x
    case DoTimeWaitOver => if e.state == TimeWait then x.(e := e.(state := Closed)) else x
    case DoConnectionDied => x.(e := ConnectionDied(e))
    case DoRetrySend(available) => x.(e := RetrySend(e, available))
    case DoRetryRecv(available) => x.(e := RetryRecv(e, available))
    case DoSendSegmentAvailable(available) => x.(e := SendSegmentAvailable(e, available))
    case DoRecvSegmentAvailable(available) => x.(e := RecvSegmentAvailable(e, available))
    case DoDeliver(p, budget) => if p in peer.sent then Deliver(x, p, budget) else x
  }

  function Edge(ack: AckExtension): int { ack.maxAcked + ack.windowSize }

  /** Where the gaps of an ack end. */
  function Bottom(ack: AckExtension): int { ack.maxAcked - Span(ack.gaps) }

  // -------------------------------------------------------------- invariant

  predicate NotClosedYet(state: State) {
    Opening(state) || state == Established || state == CloseWait
  }

  /** The sending half agrees with the log: what is outstanding is in the log,
      nothing but FIN is outstanding once it is queued, and after close FIN is
      queued or waits for something that is still outstanding. */
  ghost predicate TxOk(e: Endpoint, log: seq<Segment>) {
    var tx := e.tx;
    && SenderInv(tx)
    && LogInv(log, tx)
    && Logged(Outstanding(tx), log, tx.start)
    && (log != [] || (!Opening(e.state) && !Ended(e.state)) || e.state == SynSent || e.state == SynRcvd
        ==> tx.xmitMax == tx.start + |log|)
    && (e.state == State.Idle || e.state == Accept || e.state == WaitAccept || e.state == SynSent ==> log == [])
    && (tx.finQueued ==> forall s :: s in Outstanding(tx) ==> s.payload.Fin?)
    && (NotClosedYet(e.state) ==> !tx.finQueued)
    && (AwaitsFinAck(e.state) ==> Outstanding(tx) != [])
    && (e.state == FinWait2 || e.state == TimeWait ==> tx.finQueued && Outstanding(tx) == [])
  }

  ghost predicate JoinOk(x: Node) {
    && (x.joined ==> x.e.state != State.Idle && x.e.state != SynSent)
    && (!x.joined ==>
        && (x.e.state == State.Idle || x.e.state == SynSent || x.e.state == Aborted || x.e.state == AbortedRst)
        && x.e.rx.window == [] && x.e.rx.recvRead == [] && x.got == [] && x.log == []
        && x.e.rx.recvMax == x.e.rx.recvTop == x.e.rx.recvMaxAllocated && !x.e.rx.allocationPending)
    && (x.side == Initiator ==> x.e.state != Accept && x.e.state != WaitAccept && x.e.state != SynRcvd)
    && (x.side == Responder ==> x.e.state != SynSent)
    && (x.e.state == Accept || x.e.state == WaitAccept ==>
          x.e.rx.recvMax == x.e.rx.recvMaxAllocated && !x.e.rx.allocationPending)
  }

  /** A packet tells the truth about the node that created it, from then on. */
  ghost predicate PacketOk(p: Packet, x: Node) {
    && (p.Syn? ==> x.side == Initiator && p.start == x.e.tx.start &&
                   (!x.joined ==> p.maxSend == x.e.tx.maxSendSegmentSize && p.maxRecv == x.e.rx.maxRecvSegmentSize))
    && (p.SynAck? ==> x.side == Responder && x.joined && p.start == x.e.tx.start &&
                      p.maxSend == x.e.tx.maxSendSegmentSize && p.maxRecv == x.e.rx.maxRecvSegmentSize)
    && (p.Ack? ==> x.joined && Logged(p.segments, x.log, x.e.tx.start))
    && (p.SynAck? || p.Ack? ==> |p.acks| == 1 && AckTrue(p.acks[0], x.e.rx))
    && (!p.Rst? ==> 0 <= p.stamp < x.e.logicalTimestamp && x.e.state != State.Idle)
    && (p.Rst? ==> p.stamp == 0)
  }

  /** An ack is of what has been received, its gaps end no higher than that is
      complete, and its window reaches no further than one receive window from there. */
  ghost predicate AckTrue(ack: AckExtension, rx: Receiver) {
    && (forall q :: Acked(q, ack.maxAcked, ack.gaps) ==> Has(rx, q))
    && Bottom(ack) <= rx.recvTop
    && ack.maxAcked <= Edge(ack) <= Bottom(ack) + MAX_RECV_SEGMENTS
  }

  ghost predicate SentOk(x: Node) {
    && 0 <= x.e.logicalTimestamp
    && (forall p :: p in x.sent ==> PacketOk(p, x))
    && (forall p, q :: p in x.sent && q in x.sent && !p.Rst? && !q.Rst? && p.stamp == q.stamp ==> p == q)
  }

  /** The newest packet heard decides the advertised window. */
  ghost predicate HeardOk(x: Node, peer: Node) {
    && x.heard <= peer.sent
    && 0 <= x.e.timestampToEcho
    && (forall p :: p in x.heard ==> p.stamp <= x.e.timestampToEcho)
    && (x.e.timestampToEcho == 0 || exists p :: p in x.heard && !p.Rst? && p.stamp == x.e.timestampToEcho)
    && (forall p :: p in x.heard && (p.SynAck? || p.Ack?) && p.stamp == x.e.timestampToEcho ==>
          |p.acks| == 1 && x.e.tx.maxAdvertised == Edge(p.acks[0]))
  }

  ghost predicate LocalOk(x: Node) {
    && ReceiverInv(x.e.rx)
    && ReadListOk(x.e.rx.recvRead)
    && TxOk(x.e, x.log)
    && JoinOk(x)
    && SentOk(x)
    && Bytes(x.log) == x.accepted
  }

  /** The receiving half holds segments of the peer's log, all of them up to
      recvTop, and what has been read is the front of it. */
  ghost predicate ContentOk(rx: Receiver, got: seq<byte>, log: seq<Segment>, start: int) {
    && start <= rx.recvTop <= start + |log|
    && (forall i :: 0 <= i < |rx.window| && rx.window[i].content.Some? ==>
          rx.window[i].content.value.Data? && InLog(Segment(rx.window[i].num, rx.window[i].content.value), log, start))
    && ReadOk(rx.recvRead, got, log, rx.recvTop - start)
  }

  ghost predicate InLog(s: Segment, log: seq<Segment>, start: int) {
    start < s.num <= start + |log| && log[s.num - start - 1] == s
  }

  /** The read list is the last part of the first n segments of the log. */
  ghost predicate ReadOk(list: seq<ReadSegment>, got: seq<byte>, log: seq<Segment>, n: nat)
    requires n <= |log|
  {
    var m := |list|;
    && m <= n
    && (forall i :: 0 <= i < m ==> list[i].seg == log[n - m + i])
    && (forall i :: 1 <= i < m ==> list[i].used == 0)
    && (m > 0 ==> list[0].used <= Used(list[0].seg))
    && got == FrontBytes(log, n - m) +
              (if m > 0 && list[0].seg.payload.Data? && list[0].used > 0 then list[0].seg.payload.bytes[..list[0].used] else [])
  }

  /** The bytes of the first n segments. */
  function FrontBytes(log: seq<Segment>, n: nat): seq<byte>
    requires n <= |log|
  {
    if n == 0 then [] else Bytes(log[..n])
  }

  /** Nothing accepted is lost: a segment is outstanding or has been received. */
  ghost predicate Conserved(tx: Sender, log: seq<Segment>, peer: Node) {
    forall i :: 0 <= i < |log| ==> log[i] in Outstanding(tx) || (peer.joined && Has(peer.e.rx, log[i].num))
  }

  predicate BeforeFin(state: State) {
    state == Accept || state == WaitAccept || state == SynRcvd || AcceptsFin(state)
  }

  predicate AfterFinReceived(state: State) {
    state == CloseWait || state == Closing || state == TimeWait || state == LastAck || state == Closed
  }

  /** A FIN that has been received stays to be read. */
  predicate EndsWithFin(list: seq<ReadSegment>) {
    list != [] && list[|list| - 1].seg.payload.Fin?
  }

  /** The state tells whether the peer's FIN, and with it everything the peer
      has queued, has been received. */
  ghost predicate FinOk(state: State, rx: Receiver, finQueued: bool, log: seq<Segment>, start: int) {
    && (BeforeFin(state) ==> !(finQueued && rx.recvTop == start + |log|))
    && (AfterFinReceived(state) ==> finQueued && rx.recvTop == start + |log| && EndsWithFin(rx.recvRead))
  }

  /** What node r knows about the node s it receives from. */
  ghost predicate FlowOk(s: Node, r: Node) {
    && (r.joined ==>
        && ContentOk(r.e.rx, r.got, s.log, s.e.tx.start)
        && FinOk(r.e.state, r.e.rx, s.e.tx.finQueued, s.log, s.e.tx.start))
    && Conserved(s.e.tx, s.log, r)
  }

  ghost predicate SizesOk(x: Node, y: Node) {
    && (x.side == Initiator && x.joined ==> y.joined)
    && (x.joined && y.joined ==> x.e.tx.maxSendSegmentSize == y.e.rx.maxRecvSegmentSize)
    && (x.side == Responder && x.joined && !y.joined ==>
          x.e.tx.maxSendSegmentSize <= y.e.rx.maxRecvSegmentSize && x.e.rx.maxRecvSegmentSize <= y.e.tx.maxSendSegmentSize)
  }

  /** The handshake goes one way: the peer joins on this node's packets, and
      nothing but the packet to join on arrives before. */
  ghost predicate HandshakeOk(x: Node, y: Node) {
    && (y.joined ==> x.e.state != State.Idle)
    && (x.e.state == State.Idle || x.e.state == SynSent ==> x.heard == {})
    && (x.side == Initiator && !x.joined ==>
        && (Connected(y.e.state) ==> y.e.state == SynRcvd)
        && (forall p :: p in y.sent ==> !p.Ack?))
  }

  /** What holds between the steps of handling one packet. */
  ghost predicate CoreOk(x: Node, y: Node) {
    && x.side != y.side
    && LocalOk(x) && LocalOk(y)
    && FlowOk(x, y) && FlowOk(y, x)
    && SizesOk(x, y) && SizesOk(y, x)
  }

  ghost predicate PairOk(x: Node, y: Node) {
    && CoreOk(x, y)
    && HeardOk(x, y) && HeardOk(y, x)
    && HandshakeOk(x, y) && HandshakeOk(y, x)
  }
}
