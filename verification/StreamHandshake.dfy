/** Opening, accepting and handling packets keep the invariant. */
module StreamHandshake {
  import opened AckGaps
  import opened Basics
  import opened StreamTypes
  import opened StreamSender
  import opened StreamReceiver
  import opened StreamEndpoint
  import opened StreamSystem
  import opened StreamSteps
  import opened StreamDelivery
  import opened StreamNode
  import opened StreamActions

  lemma EmptyLog(e: Endpoint, log: seq<Segment>)
    requires TxOk(e, log) && log == []
    ensures Outstanding(e.tx) == [] && !e.tx.finQueued
  {
    hide SenderInv;
    forall s ensures s !in Outstanding(e.tx) {
      assert s in Outstanding(e.tx) ==> InLog(s, log, e.tx.start);
    }
    SomeElement(Outstanding(e.tx));
  }

  /** A sender with nothing queued, whatever its sizes. */
  lemma FreshTxOk(e: Endpoint, e': Endpoint, log: seq<Segment>)
    requires TxOk(e, log) && log == []
    requires e'.tx.unacked == e.tx.unacked && e'.tx.sendList == e.tx.sendList && e'.tx.resend == e.tx.resend
    requires e'.tx.flightSize == e.tx.flightSize && e'.tx.finQueued == e.tx.finQueued
    requires e'.state in {Accept, SynSent, SynRcvd, Established}
    requires e'.state != Accept ==> e'.tx.xmitMax == e'.tx.start
    ensures TxOk(e', log)
  {
    hide SenderInv, Outstanding;
    EmptyLog(e, log);
    SameQueues(e.tx, e'.tx);
    assert Logged(Outstanding(e'.tx), log, e'.tx.start);
  }

  lemma SameQueues(tx: Sender, tx': Sender)
    requires SenderInv(tx)
    requires tx'.unacked == tx.unacked && tx'.sendList == tx.sendList && tx'.resend == tx.resend
    requires tx'.flightSize == tx.flightSize
    ensures SenderInv(tx') && Outstanding(tx') == Outstanding(tx)
  {
  }

  lemma IdleLog(e: Endpoint, log: seq<Segment>)
    requires TxOk(e, log) && (e.state == State.Idle || e.state == WaitAccept || e.state == Accept)
    ensures log == []
  {
    hide SenderInv, LogInv, Logged, Outstanding;
  }

  lemma OpenStep(x: Node, y: Node)
    requires CoreOk(x, y)
    ensures CoreOk(NodeStep(x, y, DoOpen), y)
  {
    hide SentOk, ContentOk, FinOk, ReceiverInv, ReadListOk, Bytes, SenderInv, SizesOk, TxOk, Outstanding, Conserved;
    var x' := NodeStep(x, y, DoOpen);
    if x' != x {
      IdleLog(x.e, x.log);
      FreshTxOk(x.e, x'.e, x.log);
      EmptyLog(x.e, x.log);
      SameReceiverEvolves(x, x');
      SentStaysOk(x, x');
      SenderStepKeeps(x, x', y);
    }
  }

  lemma AcceptHandledStep(x: Node, y: Node)
    requires CoreOk(x, y)
    ensures CoreOk(NodeStep(x, y, DoAcceptHandled), y)
  {
    hide SentOk, ContentOk, FinOk, ReceiverInv, ReadListOk, Bytes, SenderInv, SizesOk, Outstanding, Logged, LogInv;
    var x' := NodeStep(x, y, DoAcceptHandled);
    if x' != x {
      SameReceiverEvolves(x, x');
      SentStaysOk(x, x');
      SenderStepKeeps(x, x', y);
    }
  }

  lemma BeforeOpenLogEmpty(e: Endpoint, log: seq<Segment>)
    requires TxOk(e, log) && e.state in {State.Idle, Accept, WaitAccept, SynSent}
    ensures log == []
  {
  }

  /** Accepting: numbers first, then the first receive segment. */
  lemma AcceptNumbers(x: Node, y: Node, sendAvailable: nat)
    requires CoreOk(x, y) && (x.e.state == Accept || x.e.state == WaitAccept)
    ensures CoreOk(x.(e := x.e.(state := SynRcvd, tx := AllocateSend(x.e.tx.(xmitMax := x.e.tx.start), sendAvailable))), y)
    ensures x.joined && x.e.rx.recvMaxAllocated == x.e.rx.recvMax
  {
    hide SentOk, ContentOk, FinOk, ReceiverInv, ReadListOk, Bytes, SenderInv, SizesOk, TxOk;
    var x' := x.(e := x.e.(state := SynRcvd, tx := AllocateSend(x.e.tx.(xmitMax := x.e.tx.start), sendAvailable)));
    BeforeOpenLogEmpty(x.e, x.log);
    FreshTxOk(x.e, x'.e, x.log);
    SameReceiverEvolves(x, x');
    SentStaysOk(x, x');
    SenderStepKeeps(x, x', y);
  }

  lemma AcceptStep(x: Node, y: Node, sendAvailable: nat, recvAvailable: nat)
    requires CoreOk(x, y)
    ensures CoreOk(NodeStep(x, y, DoAccept(sendAvailable, recvAvailable)), y)
  {
    hide CoreOk, AllocateSend, AllocateRecv;
    if x.e.state == Accept || x.e.state == WaitAccept {
      AcceptNumbers(x, y, sendAvailable);
      var x1 := x.(e := x.e.(state := SynRcvd, tx := AllocateSend(x.e.tx.(xmitMax := x.e.tx.start), sendAvailable)));
      AllocateRecvKeeps(x1, y, recvAvailable);
    } else {
      assert x.(e := x.e) == x;
    }
  }

  // --------------------------------------------------------------- joining

  predicate JoinsOn(x: Node, p: Packet, y: Node) {
    p in y.sent && Joins(x, p)
  }

  function JoinedState(p: Packet): State {
    if p.Syn? then Accept else Established
  }

  /** The node after settling sizes and numbers on the packet it joins on. */
  function JoinedNode(x: Node, p: Packet): Node
    requires p.Syn? || p.SynAck?
  {
    x.(e := Join(x.e, JoinedState(p), p.stamp, p.start, p.maxSend, p.maxRecv), joined := true)
  }

  lemma JoinFacts(x: Node, p: Packet, y: Node)
    requires CoreOk(x, y) && JoinsOn(x, p, y)
    ensures !x.joined && x.log == [] && x.got == [] && p.start == y.e.tx.start
    ensures p.Syn? ==> !y.joined && y.side == Initiator && p.maxSend == y.e.tx.maxSendSegmentSize && p.maxRecv == y.e.rx.maxRecvSegmentSize
    ensures p.SynAck? ==> y.joined && y.side == Responder && p.maxSend == y.e.tx.maxSendSegmentSize && p.maxRecv == y.e.rx.maxRecvSegmentSize
    ensures p.SynAck? ==> x.e.tx.xmitMax == x.e.tx.start
  {
    hide ContentOk, FinOk, ReceiverInv, ReadListOk, Bytes, SenderInv, Outstanding, Logged, LogInv;
    assert PacketOk(p, y);
  }

  lemma NothingReceivedYet(rx: Receiver, log: seq<Segment>, start: int)
    requires rx.window == [] && rx.recvRead == [] && rx.recvTop == start
    ensures ContentOk(rx, [], log, start)
  {
    assert log[..0] == [];
  }

  lemma JoinedLocal(x: Node, p: Packet, y: Node)
    requires CoreOk(x, y) && JoinsOn(x, p, y)
    ensures LocalOk(JoinedNode(x, p))
  {
    hide ContentOk, FinOk, Bytes, SenderInv, Outstanding, Logged, LogInv, TxOk, SentOk;
    var x' := JoinedNode(x, p);
    JoinFacts(x, p, y);
    FreshTxOk(x.e, x'.e, x.log);
    assert Evolves(x, x');
    SentStaysOk(x, x');
  }

  lemma NoFinYet(y: Node, start: int)
    requires TxOk(y.e, y.log)
    ensures !(y.e.tx.finQueued && start == start + |y.log|)
  {
    hide SenderInv, Outstanding, Logged;
  }

  lemma JoinedFlow(x: Node, p: Packet, y: Node)
    requires CoreOk(x, y) && JoinsOn(x, p, y)
    ensures FlowOk(JoinedNode(x, p), y) && FlowOk(y, JoinedNode(x, p))
  {
    hide Bytes, SenderInv, Logged, LogInv, TxOk, SentOk, ReceiverInv, ReadListOk, ContentOk, SizesOk;
    var x' := JoinedNode(x, p);
    JoinFacts(x, p, y);
    NothingReceivedYet(x'.e.rx, y.log, y.e.tx.start);
    NoFinYet(y, y.e.tx.start);
    assert Outstanding(x'.e.tx) == Outstanding(x.e.tx);
  }

  lemma JoinStep(x: Node, p: Packet, y: Node)
    requires CoreOk(x, y) && JoinsOn(x, p, y)
    ensures CoreOk(JoinedNode(x, p), y)
  {
    hide FlowOk, Bytes, TxOk, SentOk, ReceiverInv, ReadListOk;
    JoinFacts(x, p, y);
    JoinedLocal(x, p, y);
    JoinedFlow(x, p, y);
  }

  // --------------------------------------------------------------- delivery

  lemma HearStep(x: Node, y: Node, stamp: int)
    requires CoreOk(x, y)
    ensures CoreOk(x.(e := Hear(x.e, stamp)), y)
  {
    hide FlowOk, ReceiverInv, ReadListOk, Bytes, SizesOk, Outstanding;
    SameQueueKeeps(x, Hear(x.e, stamp), y);
  }

  lemma RstStep(x: Node, y: Node)
    requires CoreOk(x, y)
    ensures CoreOk(x.(e := HandleRst(x.e)), y)
  {
    hide CoreOk;
    var e' := HandleRst(x.e);
    if e' != x.e {
      EndKeeps(x, y, e'.state);
    } else {
      assert x.(e := e') == x;
    }
  }

  lemma SynAckAllocations(x: Node, y: Node, sendAvailable: nat, recvAvailable: nat)
    requires CoreOk(x, y) && x.joined && x.e.state == Established && x.e.rx.recvMaxAllocated == x.e.rx.recvMax
    ensures CoreOk(x.(e := x.e.(tx := AllocateSend(x.e.tx, sendAvailable), rx := AllocateRecv(x.e.rx, recvAvailable))), y)
  {
    hide FlowOk, Bytes, TxOk, SentOk, ReceiverInv, ReadListOk, SizesOk, AllocateSend, AllocateRecv, SameQueue;
    TxOkSender(x.e, x.log);
    AllocateSendSame(x.e, sendAvailable);
    var x1 := x.(e := x.e.(tx := AllocateSend(x.e.tx, sendAvailable)));
    SameQueueKeeps(x, x1.e, y);
    AllocateRecvKeeps(x1, y, recvAvailable);
  }

  lemma SynStep(x: Node, y: Node, p: Packet)
    requires CoreOk(x, y) && p in y.sent && p.Syn?
    ensures CoreOk(x.(e := HandleSyn(x.e, p), joined := x.joined || Joins(x, p)), y)
  {
    hide CoreOk;
    if Joins(x, p) {
      JoinStep(x, p, y);
    } else {
      assert x.(e := HandleSyn(x.e, p), joined := x.joined || Joins(x, p)) == x;
    }
  }

  lemma SynAckStep(x: Node, y: Node, p: Packet, budget: Budget)
    requires CoreOk(x, y) && p in y.sent && p.SynAck?
    ensures CoreOk(x.(e := HandleSynAck(x.e, p, budget), joined := x.joined || Joins(x, p)), y)
  {
    hide CoreOk, AllocateSend, AllocateRecv;
    if Joins(x, p) {
      JoinStep(x, p, y);
      SynAckAllocations(JoinedNode(x, p), y, budget.send, budget.recv);
    } else {
      assert x.(e := HandleSynAck(x.e, p, budget), joined := x.joined || Joins(x, p)) == x;
    }
  }

  lemma OneAck(e: Endpoint, ack: AckExtension, stamp: int)
    ensures HandleAcks(e, [ack], stamp) == HandleAck(e, ack, stamp)
  {
    hide HandleAck;
    assert [ack][1..] == [];
  }

  lemma AcksStep(x: Node, y: Node, p: Packet)
    requires CoreOk(x, y) && p in y.sent && (p.SynAck? || p.Ack?)
    ensures |p.acks| == 1 && HandleAcks(x.e, p.acks, p.stamp) == AckedNode(x, p.acks[0], p.stamp).e
    ensures CoreOk(AckedNode(x, p.acks[0], p.stamp), y)
  {
    hide FlowOk, Bytes, TxOk, JoinOk, ReceiverInv, ReadListOk, SizesOk, HandleAck;
    assert PacketOk(p, y);
    assert p.acks == [p.acks[0]];
    OneAck(x.e, p.acks[0], p.stamp);
    AckStep(x, y, p.acks[0], p.stamp);
  }

  lemma {:induction false} SegmentsKeepSender(e: Endpoint, segments: seq<Segment>, available: seq<nat>)
    requires ReceiverInv(e.rx)
    ensures HandleSegments(e, segments, available).tx == e.tx
    ensures HandleSegments(e, segments, available).timestampToEcho == e.timestampToEcho
    ensures HandleSegments(e, segments, available).logicalTimestamp == e.logicalTimestamp
    decreases |segments|
  {
    hide ReceiverInv, AfterData, AfterFin, Found;
    if segments != [] {
      var first := if available == [] then 0 else available[0];
      SegmentsKeepSender(HandleSegment(e, segments[0], first), segments[1..], if available == [] then [] else available[1..]);
    }
  }

  lemma AcksLogAfter(x: Node, x1: Node, ack: AckExtension, stamp: int, e': Endpoint)
    requires x1.e.tx.finQueued == x.e.tx.finQueued && x1.log == x.log
    requires e'.tx == AckedNode(x1, ack, stamp).e.tx
    ensures LogAfter(x, e') == AckedNode(x1, ack, stamp).log
  {
    hide HandleAck;
  }

  lemma DeliverCore(x: Node, y: Node, p: Packet, budget: Budget)
    requires CoreOk(x, y) && p in y.sent
    ensures CoreOk(Deliver(x, p, budget), y)
  {
    hide TxOk, JoinOk, FlowOk, SizesOk, Bytes, ReadListOk, ReceiverInv;
    hide HandleAcks, HandleSegments, HandleSyn, HandleSynAck, HandleRst, AckedNode, Joins, TakenBy;
    var x' := Deliver(x, p, budget);
    var h := x.(e := Hear(x.e, p.stamp));
    HearStep(x, y, p.stamp);
    HearJoins(x, p);
    match p
    case Syn(_, _, _, _) =>
      SynStep(h, y, p);
      SynKeepsFin(h.e, p);
      HeardIrrelevant(h.(e := HandleSyn(h.e, p), joined := h.joined || Joins(h, p)), x', y);
    case SynAck(stamp, acks, _, _, _) =>
      SynAckStep(h, y, p, budget);
      var x1 := h.(e := HandleSynAck(h.e, p, budget), joined := h.joined || Joins(h, p));
      AcksStep(x1, y, p);
      SynAckKeepsFin(h.e, p, budget);
      AcksLogAfter(x, x1, acks[0], stamp, x'.e);
      AckedNodeFields(x1, acks[0], stamp);
      HeardIrrelevant(AckedNode(x1, acks[0], stamp), x', y);
    case Ack(stamp, acks, segments) =>
      AcksStep(h, y, p);
      var x1 := AckedNode(h, acks[0], stamp);
      AckedNodeFields(h, acks[0], stamp);
      assert PacketOk(p, y);
      SegmentsStep(x1, y, segments, budget.segments);
      SegmentsKeepSender(x1.e, segments, budget.segments);
      AcksLogAfter(x, h, acks[0], stamp, x'.e);
      NoJoinOnAck(x, p);
      HeardIrrelevant(x1.(e := x'.e), x', y);
    case Rst(_) =>
      RstStep(h, y);
      RstKeepsFin(h.e);
      NoJoinOnAck(x, p);
      HeardIrrelevant(h.(e := HandleRst(h.e)), x', y);
  }

  lemma AckedNodeFields(x: Node, ack: AckExtension, stamp: int)
    ensures var x' := AckedNode(x, ack, stamp);
            && x' == x.(e := x'.e, log := x'.log) && x'.e == HandleAck(x.e, ack, stamp) && x'.e.rx == x.e.rx
  {
  }

  lemma HearJoins(x: Node, p: Packet)
    ensures Joins(x.(e := Hear(x.e, p.stamp)), p) == Joins(x, p)
  {
  }

  lemma NoJoinOnAck(x: Node, p: Packet)
    requires p.Ack? || p.Rst?
    ensures !Joins(x, p)
  {
  }

  lemma SynKeepsFin(e: Endpoint, p: Packet)
    requires p.Syn?
    ensures HandleSyn(e, p).tx.finQueued == e.tx.finQueued
  {
  }

  lemma SynAckKeepsFin(e: Endpoint, p: Packet, budget: Budget)
    requires p.SynAck?
    ensures HandleSynAck(e, p, budget).tx.finQueued == e.tx.finQueued
  {
  }

  lemma RstKeepsFin(e: Endpoint)
    ensures HandleRst(e).tx == e.tx
  {
  }

  /** What has been heard and acknowledged plays no part in CoreOk. */
  lemma HeardIrrelevant(x: Node, x': Node, y: Node)
    requires CoreOk(x, y) && x' == x.(heard := x'.heard, acked := x'.acked)
    ensures CoreOk(x', y)
  {
    hide TxOk, ContentOk, FinOk, ReceiverInv, ReadListOk, Bytes, SizesOk, Conserved;
    assert Evolves(x, x') by {
      assert x'.log == x.log;
    }
    SentStaysOk(x, x');
    ConservedHeard(y, x, x');
    SizesHeard(x, x', y);
  }

  lemma ConservedHeard(y: Node, x: Node, x': Node)
    requires Conserved(y.e.tx, y.log, x) && x'.e == x.e && x'.joined == x.joined
    ensures Conserved(y.e.tx, y.log, x')
  {
  }

  lemma SizesHeard(x: Node, x': Node, y: Node)
    requires SizesOk(x, y) && SizesOk(y, x) && x'.e == x.e && x'.joined == x.joined && x'.side == x.side
    ensures SizesOk(x', y) && SizesOk(y, x')
  {
  }
}
