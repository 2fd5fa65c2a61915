/** Runs of two connected streams, and what holds after every run. */
module StreamRun {
  import opened AckGaps
  import opened Basics
  import opened StreamTypes
  import opened StreamSender
  import opened StreamReceiver
  import opened StreamEndpoint
  import opened StreamSystem
  import opened StreamSteps
  import opened StreamDelivery
  import opened StreamNode
  import opened StreamActions
  import opened StreamHandshake
  import opened StreamAcked

  // ------------------------------------------------------ one node, one step

  lemma ActionCore(x: Node, y: Node, act: Action)
    requires CoreOk(x, y)
    ensures CoreOk(NodeStep(x, y, act), y)
  {
    hide TxOk, JoinOk, SentOk, FlowOk, SizesOk, Bytes, Deliver;
    match act
    case DoOpen => OpenStep(x, y);
    case DoAccept(s, r) => AcceptStep(x, y, s, r);
    case DoAcceptHandled => AcceptHandledStep(x, y);
    case DoWrite(bytes, cwnd, cwndMax, available) => WriteStep(x, y, bytes, cwnd, cwndMax, available);
    case DoRead(count) => ReadStepKeeps(x, y, count);
    case DoClose => CloseStep(x, y);
    case DoSendSyn => SendSynStep(x, y);
    case DoSendSynAck(maxBlocks) => SendSynAckStep(x, y, maxBlocks);
    case DoSendAck(room, maxBlocks, dataEvent) => SendAckStep(x, y, room, maxBlocks, dataEvent);
    case DoSendRst => SendRstStep(x, y);
    case DoCreateFails => SenderEventStep(x, y, act);
    case DoTimeout => SenderEventStep(x, y, act);
    case DoTimeWaitOver => if x.e.state == TimeWait { EndKeeps(x, y, Closed); }
    case DoConnectionDied => ConnectionDiedStep(x, y);
    case DoRetrySend(available) => SenderEventStep(x, y, act);
    case DoRetryRecv(available) => ReceiverEventStep(x, y, act);
    case DoSendSegmentAvailable(available) => SenderEventStep(x, y, act);
    case DoRecvSegmentAvailable(available) => ReceiverEventStep(x, y, act);
    case DoDeliver(p, budget) => if p in y.sent { DeliverCore(x, y, p, budget); }
  }

  lemma ConnectionDiedStep(x: Node, y: Node)
    requires CoreOk(x, y)
    ensures CoreOk(NodeStep(x, y, DoConnectionDied), y)
  {
    hide TxOk, JoinOk, SentOk, FlowOk, SizesOk, Bytes;
    var e' := ConnectionDied(x.e);
    if e' != x.e {
      EndKeeps(x, y, e'.state);
    } else {
      assert x.(e := e') == x;
    }
  }

  predicate Running(state: State) {
    Connected(state) && state != SynRcvd
  }

  /** What an action other than a delivery leaves as it is. */
  ghost predicate Quiet(x: Node, x': Node) {
    && x'.heard == x.heard && x'.joined == x.joined && x'.side == x.side
    && x'.e.timestampToEcho == x.e.timestampToEcho
    && x'.e.tx.maxAdvertised == x.e.tx.maxAdvertised
    && x.sent <= x'.sent
    && (x'.e.state == State.Idle ==> x.e.state == State.Idle)
    && (x'.e.state == SynSent ==> x.e.state == State.Idle || x.e.state == SynSent)
    && (Running(x'.e.state) ==> Running(x.e.state))
    && (forall p :: p in x'.sent && p !in x.sent && p.Ack? ==> Running(x.e.state))
  }

  lemma SendIsQuiet(x: Node, y: Node, act: Action)
    requires LocalOk(x)
    requires act.DoSendSyn? || act.DoSendSynAck? || act.DoSendAck? || act.DoSendRst?
    ensures Quiet(x, NodeStep(x, y, act))
  {
    hide TxOk, JoinOk, SentOk, Bytes, Batch, Consume, ReadStatus, SentSegments, AckOf, CanWrite, Queued, ReadBytes;
    hide ReceiverInv, ReadListOk, StampWhere, StampAll, IdleSlots;
  }

  lemma TransferIsQuiet(x: Node, y: Node, act: Action)
    requires LocalOk(x)
    requires act.DoWrite? || act.DoRead? || act.DoClose?
    ensures Quiet(x, NodeStep(x, y, act))
  {
    hide TxOk, JoinOk, SentOk, Bytes, Batch, Consume, ReadStatus, SentSegments, AckOf, CanWrite, Queued, ReadBytes;
    hide ReceiverInv, ReadListOk, StampWhere, StampAll, IdleSlots;
  }

  lemma OpeningIsQuiet(x: Node, y: Node, act: Action)
    requires LocalOk(x)
    requires act.DoOpen? || act.DoAccept? || act.DoAcceptHandled? || act.DoConnectionDied?
    ensures Quiet(x, NodeStep(x, y, act))
  {
    hide TxOk, JoinOk, SentOk, Bytes, Batch, Consume, ReadStatus, SentSegments, AckOf, CanWrite, Queued, ReadBytes;
    hide ReceiverInv, ReadListOk, StampWhere, StampAll, IdleSlots;
  }

  lemma EventIsQuiet(x: Node, y: Node, act: Action)
    requires LocalOk(x)
    requires act.DoCreateFails? || act.DoTimeout? || act.DoTimeWaitOver? || act.DoRetrySend? ||
             act.DoRetryRecv? || act.DoSendSegmentAvailable? || act.DoRecvSegmentAvailable?
    ensures Quiet(x, NodeStep(x, y, act))
  {
    hide TxOk, JoinOk, SentOk, Bytes, Batch, Consume, ReadStatus, SentSegments, AckOf, CanWrite, Queued, ReadBytes;
    hide ReceiverInv, ReadListOk, StampWhere, StampAll, IdleSlots;
  }

  lemma ActionIsQuiet(x: Node, y: Node, act: Action)
    requires LocalOk(x) && !act.DoDeliver?
    ensures Quiet(x, NodeStep(x, y, act))
  {
    hide LocalOk, NodeStep, Quiet;
    if act.DoSendSyn? || act.DoSendSynAck? || act.DoSendAck? || act.DoSendRst? {
      SendIsQuiet(x, y, act);
    } else if act.DoWrite? || act.DoRead? || act.DoClose? {
      TransferIsQuiet(x, y, act);
    } else if act.DoOpen? || act.DoAccept? || act.DoAcceptHandled? || act.DoConnectionDied? {
      OpeningIsQuiet(x, y, act);
    } else {
      EventIsQuiet(x, y, act);
    }
  }

  lemma QuietKeeps(x: Node, x': Node, y: Node)
    requires PairOk(x, y) && CoreOk(x', y) && Quiet(x, x')
    ensures PairOk(x', y)
  {
    hide CoreOk;
  }

  // ----------------------------------------------------------- one delivery

  /** What a packet does to the stamps, the window and the state. */
  lemma AckFields(e: Endpoint, ack: AckExtension, stamp: int)
    ensures var e' := HandleAck(e, ack, stamp);
            && e'.timestampToEcho == e.timestampToEcho
            && e'.tx.maxAdvertised == (if e.timestampToEcho <= stamp then Edge(ack) else e.tx.maxAdvertised)
            && (e'.state == State.Idle ==> e.state == State.Idle) && (e'.state == SynSent ==> e.state == SynSent)
  {
    hide FinAcked, Remaining, Resending, Acked;
  }

  lemma {:induction false} SegmentsState(e: Endpoint, segments: seq<Segment>, available: seq<nat>)
    requires ReceiverInv(e.rx)
    ensures var e' := HandleSegments(e, segments, available);
            (e'.state == State.Idle ==> e.state == State.Idle) && (e'.state == SynSent ==> e.state == SynSent)
    decreases |segments|
  {
    hide ReceiverInv, AfterData, AfterFin, Found;
    if segments != [] {
      var first := if available == [] then 0 else available[0];
      SegmentsState(HandleSegment(e, segments[0], first), segments[1..], if available == [] then [] else available[1..]);
    }
  }

  function NewestStamp(e: Endpoint, p: Packet): int {
    if e.timestampToEcho < p.stamp then p.stamp else e.timestampToEcho
  }

  lemma DeliveredFields(x: Node, y: Node, p: Packet, budget: Budget)
    requires PairOk(x, y) && p in y.sent
    ensures var e' := HandlePacket(x.e, p, budget);
            && e'.timestampToEcho == NewestStamp(x.e, p)
            && e'.tx.maxAdvertised ==
                 (if (p.SynAck? || p.Ack?) && NewestStamp(x.e, p) <= p.stamp then Edge(p.acks[0]) else x.e.tx.maxAdvertised)
            && e'.state != State.Idle && e'.state != SynSent
    ensures p.SynAck? || p.Ack? ==> |p.acks| == 1
  {
    hide TxOk, FlowOk, SizesOk, Bytes, ReadListOk, ReceiverInv, HandleAck, HandleSegments, AllocateSend, AllocateRecv;
    assert PacketOk(p, y);
    var h := Hear(x.e, p.stamp);
    match p
    case Syn(_, _, _, _) =>
    case SynAck(stamp, acks, _, _, _) =>
      var e1 := HandleSynAck(h, p, budget);
      AllocateFields(h, p, budget);
      assert acks == [acks[0]];
      OneAck(e1, acks[0], stamp);
      AckFields(e1, acks[0], stamp);
    case Ack(stamp, acks, segments) =>
      assert acks == [acks[0]];
      OneAck(h, acks[0], stamp);
      AckFields(h, acks[0], stamp);
      AcksKeepReceiver(h, acks[0], stamp);
      SegmentsKeepSender(HandleAck(h, acks[0], stamp), segments, budget.segments);
      SegmentsState(HandleAck(h, acks[0], stamp), segments, budget.segments);
    case Rst(_) =>
  }

  lemma AcksKeepReceiver(e: Endpoint, ack: AckExtension, stamp: int)
    ensures HandleAck(e, ack, stamp).rx == e.rx
  {
  }

  lemma AllocateFields(e: Endpoint, p: Packet, budget: Budget)
    requires p.SynAck?
    ensures var e' := HandleSynAck(e, p, budget);
            && e'.tx.maxAdvertised == e.tx.maxAdvertised
            && e'.timestampToEcho == (if e.state == SynSent then p.stamp else e.timestampToEcho)
            && e'.state == (if e.state == SynSent then Established else e.state)
  {
  }

  lemma DeliveredHeard(x: Node, y: Node, p: Packet, budget: Budget)
    requires PairOk(x, y) && p in y.sent
    ensures HeardOk(Deliver(x, p, budget), y)
  {
    hide TxOk, JoinOk, SentOk, Bytes, ReceiverInv, ReadListOk, FlowOk, SizesOk, HandlePacket, HandshakeOk;
    var x' := Deliver(x, p, budget);
    DeliveredFields(x, y, p, budget);
    StampsAreUnique(y, p);
    if NewestStamp(x.e, p) != x.e.timestampToEcho {
      assert !p.Rst? && p in x'.heard;
    }
  }

  lemma StampsAreUnique(y: Node, p: Packet)
    requires LocalOk(y) && p in y.sent
    ensures p.Rst? ==> p.stamp == 0
    ensures p.stamp >= 0
    ensures forall q :: q in y.sent && !q.Rst? && !p.Rst? && q.stamp == p.stamp ==> q == p
  {
    hide TxOk, JoinOk, ReceiverInv, ReadListOk, Bytes;
    assert PacketOk(p, y);
  }

  lemma DeliveredHandshake(x: Node, y: Node, p: Packet, budget: Budget)
    requires PairOk(x, y) && p in y.sent
    ensures HandshakeOk(Deliver(x, p, budget), y) && HandshakeOk(y, Deliver(x, p, budget))
  {
    hide TxOk, FlowOk, SizesOk, Bytes, ReadListOk, ReceiverInv, HandleAcks, HandleSegments, HandleSynAck;
    DeliveredFields(x, y, p, budget);
    assert PacketOk(p, y);
  }

  /** Every step of a node keeps the invariant it has with its peer. */
  lemma NodeStepKeeps(x: Node, y: Node, act: Action)
    requires PairOk(x, y)
    ensures PairOk(NodeStep(x, y, act), y)
  {
    hide CoreOk, HeardOk, HandshakeOk, HandlePacket;
    assert LocalOk(x) by { CoreLocal(x, y); }
    ActionCore(x, y, act);
    if act.DoDeliver? {
      if act.packet in y.sent {
        DeliveredHeard(x, y, act.packet, act.budget);
        DeliveredHandshake(x, y, act.packet, act.budget);
        PeerHeard(x, Deliver(x, act.packet, act.budget), y);
      }
    } else {
      ActionIsQuiet(x, y, act);
      QuietKeeps(x, NodeStep(x, y, act), y);
    }
  }

  lemma CoreLocal(x: Node, y: Node)
    requires CoreOk(x, y)
    ensures LocalOk(x)
  {
  }

  lemma PeerHeard(x: Node, x': Node, y: Node)
    requires HeardOk(y, x) && x'.sent == x.sent
    ensures HeardOk(y, x')
  {
  }

  // ---------------------------------------------------------- acks and requests

  ghost predicate HeardAck(x: Node) {
    exists p :: p in x.heard && (p.Ack? || p.SynAck?)
  }

  /** A node with anything in flight has heard an ack, and its requests to connect
      are older than its acks. */
  ghost predicate Acquainted(x: Node) {
    && (Running(x.e.state) || x.e.tx.unacked != [] ==> HeardAck(x))
    && (forall p, q :: p in x.sent && q in x.sent && p.Syn? && (q.Ack? || q.SynAck?) ==> p.stamp < q.stamp)
  }

  lemma SendKeepsAcquainted(x: Node, y: Node, act: Action)
    requires LocalOk(x) && Acquainted(x)
    requires act.DoSendSyn? || act.DoSendSynAck? || act.DoSendAck? || act.DoSendRst?
    ensures Acquainted(NodeStep(x, y, act))
  {
    hide TxOk, Bytes, SentSegments, AckOf, AckTrue, ReceiverInv, ReadListOk, SenderAfterSend, PacketOk, SentOk;
    hide JoinOk, WindowSize;
    var x' := NodeStep(x, y, act);
    SentStamps(x);
    assert x'.heard == x.heard;
    assert HeardAck(x) ==> HeardAck(x');
  }

  lemma SentStamps(x: Node)
    requires SentOk(x) && JoinOk(x)
    ensures forall p :: p in x.sent && !p.Rst? ==> p.stamp < x.e.logicalTimestamp
    ensures x.e.state == SynSent ==> forall p :: p in x.sent ==> !p.Ack? && !p.SynAck?
  {
    hide AckTrue, Logged;
    forall p | p in x.sent
      ensures !p.Rst? ==> p.stamp < x.e.logicalTimestamp
      ensures x.e.state == SynSent ==> !p.Ack? && !p.SynAck?
    {
      assert PacketOk(p, x);
    }
  }

  lemma OtherKeepsAcquainted(x: Node, y: Node, act: Action)
    requires LocalOk(x) && Acquainted(x) && !act.DoDeliver?
    requires !act.DoSendSyn? && !act.DoSendSynAck? && !act.DoSendAck? && !act.DoSendRst?
    ensures Acquainted(NodeStep(x, y, act))
  {
    hide LocalOk, NodeStep;
    ActionIsQuiet(x, y, act);
    OtherKeepsFlight(x, y, act);
  }

  lemma OtherKeepsFlight(x: Node, y: Node, act: Action)
    requires LocalOk(x) && !act.DoDeliver?
    requires !act.DoSendSyn? && !act.DoSendSynAck? && !act.DoSendAck? && !act.DoSendRst?
    ensures var x' := NodeStep(x, y, act); x'.e.tx.unacked == x.e.tx.unacked && x'.sent == x.sent
  {
    hide NodeStep, TxOk, JoinOk, SentOk, Bytes, ReceiverInv, ReadListOk;
    if act.DoWrite? || act.DoRead? || act.DoClose? {
      TransferKeepsFlight(x, y, act);
    } else {
      EventKeepsFlight(x, y, act);
    }
  }

  lemma TransferKeepsFlight(x: Node, y: Node, act: Action)
    requires LocalOk(x) && (act.DoWrite? || act.DoRead? || act.DoClose?)
    ensures var x' := NodeStep(x, y, act); x'.e.tx.unacked == x.e.tx.unacked && x'.sent == x.sent
  {
    hide TxOk, JoinOk, SentOk, Bytes, Consume, ReadStatus, CanWrite, Queued, ReadBytes, ReceiverInv, ReadListOk;
  }

  lemma EventKeepsFlight(x: Node, y: Node, act: Action)
    requires LocalOk(x) && !act.DoDeliver? && !act.DoWrite? && !act.DoRead? && !act.DoClose?
    requires !act.DoSendSyn? && !act.DoSendSynAck? && !act.DoSendAck? && !act.DoSendRst?
    ensures var x' := NodeStep(x, y, act); x'.e.tx.unacked == x.e.tx.unacked && x'.sent == x.sent
  {
    hide TxOk, JoinOk, SentOk, Bytes, ReceiverInv, ReadListOk, IdleSlots;
  }

  lemma DeliverKeepsAcquainted(x: Node, p: Packet, budget: Budget)
    requires ReceiverInv(x.e.rx) && Acquainted(x)
    ensures Acquainted(Deliver(x, p, budget))
  {
    hide ReceiverInv, HandleAcks, HandleSegments, HandleSynAck, TakenBy;
    var x' := Deliver(x, p, budget);
    assert p in x'.heard;
    assert HeardAck(x) ==> HeardAck(x');
  }

  lemma StepKeepsAcquainted(x: Node, y: Node, act: Action)
    requires LocalOk(x) && Acquainted(x)
    ensures Acquainted(NodeStep(x, y, act))
  {
    hide TxOk, JoinOk, SentOk, Bytes, ReadListOk, Acquainted, Deliver;
    if act.DoDeliver? {
      DeliverKeepsAcquainted(x, act.packet, act.budget);
    } else if act.DoSendSyn? || act.DoSendSynAck? || act.DoSendAck? || act.DoSendRst? {
      SendKeepsAcquainted(x, y, act);
    } else {
      OtherKeepsAcquainted(x, y, act);
    }
  }

  // -------------------------------------------------------------------- runs

  datatype System = System(a: Node, b: Node)

  datatype Move = Move(side: Side, act: Action)

  ghost predicate HistoryOk(x: Node) {
    AckedOk(x) && Acquainted(x)
  }

  ghost predicate SystemOk(s: System) {
    s.a.side == Initiator && s.b.side == Responder && PairOk(s.a, s.b) && HistoryOk(s.a) && HistoryOk(s.b)
  }

  /** Start numbers and segment sizes of the two ends. */
  datatype Config = Config(startA: int, sendA: nat, recvA: nat, startB: int, sendB: nat, recvB: nat)

  function Start(c: Config): System {
    System(InitNode(Initiator, c.startA, c.sendA, c.recvA), InitNode(Responder, c.startB, c.sendB, c.recvB))
  }

  lemma NodeStart(side: Side, start: int, maxSend: nat, maxRecv: nat)
    ensures LocalOk(InitNode(side, start, maxSend, maxRecv))
  {
    hide TxOk, ReceiverInv, JoinOk;
    var x := InitNode(side, start, maxSend, maxRecv);
    TxStart(x.e);
    ReceiverStart(x);
  }

  lemma TxStart(e: Endpoint)
    requires e == Init(e.tx.start, e.tx.maxSendSegmentSize, e.rx.maxRecvSegmentSize)
    ensures TxOk(e, [])
  {
    assert Outstanding(e.tx) == [];
  }

  lemma ReceiverStart(x: Node)
    requires x == InitNode(x.side, x.e.tx.start, x.e.tx.maxSendSegmentSize, x.e.rx.maxRecvSegmentSize)
    ensures ReceiverInv(x.e.rx) && JoinOk(x)
  {
  }

  lemma StartOk(c: Config)
    ensures SystemOk(Start(c))
  {
    hide LocalOk, AckedOk;
    NodeStart(Initiator, c.startA, c.sendA, c.recvA);
    NodeStart(Responder, c.startB, c.sendB, c.recvB);
    StartAcked(Initiator, c.startA, c.sendA, c.recvA);
    StartAcked(Responder, c.startB, c.sendB, c.recvB);
  }

  lemma Swap(x: Node, y: Node)
    requires PairOk(x, y)
    ensures PairOk(y, x)
  {
    hide LocalOk, HeardOk, HandshakeOk, FlowOk, SizesOk;
  }

  lemma StepDefined(s: System)
    requires SystemOk(s)
    ensures ReceiverInv(s.a.e.rx) && ReadListOk(s.a.e.rx.recvRead) && ReceiverInv(s.b.e.rx) && ReadListOk(s.b.e.rx.recvRead)
  {
  }

  lemma SideStays(x: Node, y: Node, act: Action)
    requires ReceiverInv(x.e.rx) && ReadListOk(x.e.rx.recvRead)
    ensures NodeStep(x, y, act).side == x.side
  {
    hide HandlePacket, Read, Write, Close, ReadBytes, Written;
  }

  ghost function Step(s: System, m: Move): System
    requires SystemOk(s)
  {
    StepDefined(s);
    if m.side == Initiator then s.(a := NodeStep(s.a, s.b, m.act)) else s.(b := NodeStep(s.b, s.a, m.act))
  }

  lemma StepKeeps(s: System, m: Move)
    requires SystemOk(s)
    ensures SystemOk(Step(s, m))
  {
    hide PairOk, NodeStep, HistoryOk;
    StepDefined(s);
    SideStays(s.a, s.b, m.act);
    SideStays(s.b, s.a, m.act);
    Swap(s.a, s.b);
    PairStep(s.a, s.b, m.act);
    PairStep(s.b, s.a, m.act);
    Swap(NodeStep(s.b, s.a, m.act), s.a);
  }

  lemma PairStep(x: Node, y: Node, act: Action)
    requires PairOk(x, y) && HistoryOk(x)
    ensures PairOk(NodeStep(x, y, act), y) && HistoryOk(NodeStep(x, y, act))
  {
    hide TxOk, JoinOk, SentOk, Bytes, ReceiverInv, ReadListOk, HeardOk, HandshakeOk, FlowOk, SizesOk;
    hide AckedOk, Acquainted, NodeStep;
    NodeStepKeeps(x, y, act);
    StepKeepsAcked(x, y, act);
    StepKeepsAcquainted(x, y, act);
  }

  /** The system after any moves of either end: application calls, timeouts,
      allocation failures and deliveries of any packet ever created, in any
      order, any number of times. */
  ghost function Run(s: System, moves: seq<Move>): System
    requires SystemOk(s)
    decreases |moves|
  {
    if moves == [] then s else
      StepKeeps(s, moves[0]);
      Run(Step(s, moves[0]), moves[1..])
  }

  /** The invariant holds after every run. */
  lemma {:induction false} RunKeeps(s: System, moves: seq<Move>)
    requires SystemOk(s)
    ensures SystemOk(Run(s, moves))
    decreases |moves|
  {
    hide PairOk, Step;
    if moves != [] {
      StepKeeps(s, moves[0]);
      RunKeeps(Step(s, moves[0]), moves[1..]);
    }
  }

  ghost function After(c: Config, moves: seq<Move>): System {
    StartOk(c);
    Run(Start(c), moves)
  }

  lemma AfterKeeps(c: Config, moves: seq<Move>)
    ensures SystemOk(After(c, moves))
  {
    hide PairOk, Run;
    StartOk(c);
    RunKeeps(Start(c), moves);
  }
}
