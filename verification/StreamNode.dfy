/** Every step of a node keeps the invariant it has with its peer. */
module StreamNode {
  import opened AckGaps
  import opened Basics
  import opened StreamTypes
  import opened StreamSender
  import opened StreamReceiver
  import opened StreamEndpoint
  import opened StreamSystem
  import opened StreamSteps
  import opened StreamDelivery

  // ------------------------------------------------- steps of the sending half

  /** A step of the sending half or the state leaves the receiving half alone
      and does not change whether the state is before or after the peer's FIN. */
  ghost predicate SenderStep(x: Node, x': Node) {
    && x'.side == x.side && x'.joined == x.joined && x'.got == x.got
    && x'.e.rx == x.e.rx
    && (x.e.state != State.Idle ==> x'.e.state != State.Idle)
    && x'.e.tx.start == x.e.tx.start && x'.e.tx.maxSendSegmentSize == x.e.tx.maxSendSegmentSize
    && (BeforeFin(x'.e.state) ==> BeforeFin(x.e.state))
    && (AfterFinReceived(x'.e.state) ==> AfterFinReceived(x.e.state))
    && x.log <= x'.log
    && (x'.log == x.log ==> x'.e.tx.finQueued == x.e.tx.finQueued)
    && (x'.log != x.log ==> !x.e.tx.finQueued)
    && x.e.logicalTimestamp <= x'.e.logicalTimestamp
  }

  lemma SenderStepKeeps(x: Node, x': Node, y: Node)
    requires CoreOk(x, y) && SenderStep(x, x')
    requires TxOk(x'.e, x'.log) && Bytes(x'.log) == x'.accepted && JoinOk(x') && SentOk(x')
    requires Conserved(x'.e.tx, x'.log, y)
    ensures CoreOk(x', y)
  {
    if y.joined {
      ContentMonotone(y.e.rx, y.got, x.log, x'.log, x.e.tx.start);
    }
  }

  lemma SameReceiverEvolves(x: Node, x': Node)
    requires SenderStep(x, x')
    ensures Evolves(x, x')
  {
  }

  lemma SameOutstandingConserved(tx: Sender, tx': Sender, log: seq<Segment>, peer: Node)
    requires Conserved(tx, log, peer) && Outstanding(tx') == Outstanding(tx)
    ensures Conserved(tx', log, peer)
  {
  }

  lemma InEither(s: Segment, tx: Sender)
    ensures s in Outstanding(tx) <==> s in Segs(tx.unacked) || s in Segs(tx.sendList)
  {
  }

  lemma OutstandingFin(left: Sender, tx': Sender)
    requires tx' == AddFin(left)
    ensures Outstanding(tx') == Outstanding(left) + [Segment(left.xmitMax + 1, Fin)]
  {
    var fin := Segment(left.xmitMax + 1, Fin);
    SegsConcat(left.sendList, [SendSegment(fin, 0, 0)]);
    assert Segs([SendSegment(fin, 0, 0)]) == [fin];
  }

  /** What an honest ack takes off the lists the peer has. */
  lemma AckConserved(e: Endpoint, log: seq<Segment>, ack: AckExtension, y: Node)
    requires TxOk(e, log) && Conserved(e.tx, log, y) && y.joined && AckTrue(ack, y.e.rx)
    ensures Conserved(AckedEndpoint(e, ack).tx, LogAfterAck(e, log, ack), y)
  {
    hide Outstanding, SenderInv, LogInv, TxOk;
    var left, tx' := WithoutAcked(e.tx, ack), AckedEndpoint(e, ack).tx;
    QueuesFinShape(e, ack);
    RemainingIsFilter(e.tx.unacked, ack);
    forall i | 0 <= i < |log| ensures log[i] in Outstanding(left) || Has(y.e.rx, log[i].num) {
      InEither(log[i], e.tx);
      InEither(log[i], left);
    }
    if QueuesFin(e, ack) {
      var fin := Segment(e.tx.xmitMax + 1, Fin);
      OutstandingFin(left, tx');
    }
  }

  /** The endpoint an ack is applied to: established, with the new window. */
  function Advertised(e: Endpoint, ack: AckExtension, stamp: int): Endpoint {
    e.(state := if e.state == SynRcvd then Established else e.state,
       tx := if e.timestampToEcho <= stamp then Advertise(e.tx, ack.maxAcked + ack.windowSize) else e.tx)
  }

  lemma AdvertisedOk(e: Endpoint, log: seq<Segment>, ack: AckExtension, stamp: int)
    requires TxOk(e, log)
    ensures TxOk(Advertised(e, ack, stamp), log)
    ensures Outstanding(Advertised(e, ack, stamp).tx) == Outstanding(e.tx)
    ensures Advertised(e, ack, stamp).tx.finQueued == e.tx.finQueued
  {
    hide SenderInv, LogInv, Logged, Outstanding;
    var e' := e.(tx := Advertised(e, ack, stamp).tx);
    if e.timestampToEcho <= stamp {
      AdvertiseOk(e, log, ack.maxAcked + ack.windowSize);
    }
    assert TxOk(e', log);
    if e.state == SynRcvd {
      SynRcvdEstablished(e', log);
    }
  }

  function AckedNode(x: Node, ack: AckExtension, stamp: int): Node {
    var e := HandleAck(x.e, ack, stamp);
    x.(e := e, log := LogAfter(x, e))
  }

  lemma AckedNodeShape(x: Node, ack: AckExtension, stamp: int)
    requires TxOk(x.e, x.log)
    ensures AckedNode(x, ack, stamp).e == AckedEndpoint(Advertised(x.e, ack, stamp), ack)
    ensures AckedNode(x, ack, stamp).log == LogAfterAck(Advertised(x.e, ack, stamp), x.log, ack)
  {
    AdvertisedOk(x.e, x.log, ack, stamp);
  }

  lemma LogAfterAckShape(e: Endpoint, log: seq<Segment>, ack: AckExtension)
    requires TxOk(e, log)
    ensures var log' := LogAfterAck(e, log, ack);
            && log <= log' && Bytes(log') == Bytes(log)
            && (log' == log <==> AckedEndpoint(e, ack).tx.finQueued == e.tx.finQueued)
            && (log' != log ==> !e.tx.finQueued && AwaitsFinAck(e.state))
  {
    QueuesFinShape(e, ack);
    if QueuesFin(e, ack) {
      AckFinOk(e, log, ack);
      var fin := Segment(e.tx.xmitMax + 1, Fin);
      assert (log + [fin])[..|log|] == log;
    }
  }

  lemma AckedNodeStep(x: Node, ack: AckExtension, stamp: int)
    requires TxOk(x.e, x.log) && JoinOk(x)
    ensures SenderStep(x, AckedNode(x, ack, stamp)) && JoinOk(AckedNode(x, ack, stamp))
    ensures Bytes(AckedNode(x, ack, stamp).log) == Bytes(x.log)
  {
    hide TxOk, Advertise, Bytes, SenderAfterAck, StateAfterAck, LogAfterAck, HandleAck, AckedEndpoint;
    var e1 := Advertised(x.e, ack, stamp);
    AckedNodeShape(x, ack, stamp);
    AdvertisedOk(x.e, x.log, ack, stamp);
    LogAfterAckShape(e1, x.log, ack);
    assert e1.tx.start == x.e.tx.start && e1.tx.maxSendSegmentSize == x.e.tx.maxSendSegmentSize by {
      AdvertiseFields(x.e.tx, ack.maxAcked + ack.windowSize, x.log);
    }
    AckedConstants(e1, ack);
  }

  lemma AckedConstants(e: Endpoint, ack: AckExtension)
    ensures var e' := AckedEndpoint(e, ack);
            && e'.state in {e.state, OnFinAcked(e.state)} && e'.rx == e.rx
            && e'.logicalTimestamp == e.logicalTimestamp
            && e'.tx.start == e.tx.start && e'.tx.maxSendSegmentSize == e.tx.maxSendSegmentSize
  {
    hide FinAcked, Remaining, Resending;
  }

  lemma AckStep(x: Node, y: Node, ack: AckExtension, stamp: int)
    requires CoreOk(x, y) && y.joined && AckTrue(ack, y.e.rx)
    ensures CoreOk(AckedNode(x, ack, stamp), y)
  {
    hide TxOk, JoinOk, SentOk, ContentOk, Conserved, AckTrue, SizesOk, ReceiverInv, ReadListOk, FinOk;
    hide Advertised, HandleAck, SenderStep, LogAfterAck, AckedEndpoint, Bytes, Outstanding;
    var x' := AckedNode(x, ack, stamp);
    var e1 := Advertised(x.e, ack, stamp);
    AckedNodeShape(x, ack, stamp);
    AdvertisedOk(x.e, x.log, ack, stamp);
    SameOutstandingConserved(x.e.tx, e1.tx, x.log, y);
    AckOk(e1, x.log, ack);
    AckConserved(e1, x.log, ack, y);
    AckedNodeStep(x, ack, stamp);
    SameReceiverEvolves(x, x');
    SentStaysOk(x, x');
    SenderStepKeeps(x, x', y);
  }

  // ----------------------------------------------- steps of the receiving half

  ghost predicate ReceiverStep(x: Node, x': Node) {
    && x'.side == x.side && x'.joined == x.joined
    && x'.e.tx == x.e.tx && x'.log == x.log && x'.accepted == x.accepted && x'.sent == x.sent
    && x'.e.logicalTimestamp == x.e.logicalTimestamp
    && (x.e.state != State.Idle ==> x'.e.state != State.Idle)
    && Grows(x.e.rx, x'.e.rx)
  }

  lemma GrowsConserved(tx: Sender, log: seq<Segment>, x: Node, x': Node)
    requires Conserved(tx, log, x) && Grows(x.e.rx, x'.e.rx) && x'.joined == x.joined
    ensures Conserved(tx, log, x')
  {
  }

  lemma ReceiverStepKeeps(x: Node, x': Node, y: Node)
    requires CoreOk(x, y) && ReceiverStep(x, x')
    requires ReceiverInv(x'.e.rx) && ReadListOk(x'.e.rx.recvRead) && TxOk(x'.e, x'.log) && JoinOk(x')
    requires x.joined ==>
      ContentOk(x'.e.rx, x'.got, y.log, y.e.tx.start) && FinOk(x'.e.state, x'.e.rx, y.e.tx.finQueued, y.log, y.e.tx.start)
    ensures CoreOk(x', y)
  {
    hide TxOk, JoinOk, ContentOk, FinOk, Conserved, ReceiverInv, ReadListOk, SentOk, Bytes;
    SentStaysOk(x, x');
    GrowsConserved(y.e.tx, y.log, x, x');
  }

  function SegmentNode(x: Node, s: Segment, available: nat): Node
    requires ReceiverInv(x.e.rx)
  {
    x.(e := HandleSegment(x.e, s, available))
  }

  lemma LogDataNonEmpty(log: seq<Segment>, tx: Sender)
    requires LogInv(log, tx)
    ensures DataNonEmpty(log)
  {
  }

  lemma CompleteStays(rx: Receiver, num: int, bytes: seq<byte>, available: nat)
    requires ReceiverInv(rx) && num <= rx.recvTop
    ensures AfterData(rx, num, bytes, available) == rx
  {
  }

  lemma DataStep(x: Node, y: Node, s: Segment, available: nat)
    requires CoreOk(x, y) && s.payload.Data? && InLog(s, y.log, y.e.tx.start)
    ensures CoreOk(SegmentNode(x, s, available), y)
  {
    hide ReceiverInv, ReadListOk, SentOk, Conserved, SizesOk, ContentOk, Bytes, AfterData, SenderInv, LogInv;
    var x' := SegmentNode(x, s, available);
    if x'.e != x.e {
      assert x.joined;
      var rx := x.e.rx;
      DataKeepsInv(rx, s.num, s.payload.bytes, available);
      LogDataNonEmpty(y.log, y.e.tx);
      DataContent(rx, x.got, y.log, y.e.tx.start, s, available);
      if y.e.tx.finQueued {
        if rx.recvTop != y.e.tx.start + |y.log| {
          DataLeavesFin(rx, x.got, y.log, y.e.tx, s, available);
        } else {
          CompleteStays(rx, s.num, s.payload.bytes, available);
        }
      }
      ReceiverStepKeeps(x, x', y);
    }
  }

  lemma FinStateOk(e: Endpoint, log: seq<Segment>, rx: Receiver)
    requires TxOk(e, log) && AcceptsFin(e.state)
    ensures TxOk(e.(state := OnFin(e.state), rx := rx), log)
  {
    hide SenderInv, LogInv, Logged, Outstanding;
  }

  lemma NotFound(rx: Receiver, num: int, available: nat)
    requires ReceiverInv(rx) && !Found(rx, num, available)
    ensures AfterFin(rx, num, available) == AfterFind(rx, num, available)
    ensures AfterFind(rx, num, available).recvTop == rx.recvTop && AfterFind(rx, num, available).recvRead == rx.recvRead
  {
  }

  lemma FinStep(x: Node, y: Node, s: Segment, available: nat)
    requires CoreOk(x, y) && s.payload.Fin? && InLog(s, y.log, y.e.tx.start)
    ensures CoreOk(SegmentNode(x, s, available), y)
  {
    hide TxOk, ReceiverInv, ReadListOk, SentOk, Conserved, SizesOk, ContentOk, Bytes, AfterFin, AfterFind, Found;
    var x' := SegmentNode(x, s, available);
    if AcceptsFin(x.e.state) {
      assert x.joined;
      var rx := x.e.rx;
      FinKeepsInv(rx, s.num, available);
      if Found(rx, s.num, available) {
        FinContent(y, x, s, available);
        FinStateOk(x.e, x.log, x'.e.rx);
      } else {
        NotFound(rx, s.num, available);
        FindContent(rx, x.got, y.log, y.e.tx.start, s.num, available);
        FindKeepsInv(rx, s.num, available);
        SameSender(x.e, x'.e, x.log);
      }
      ReceiverStepKeeps(x, x', y);
    }
  }

  /** TxOk looks at the state and the sending half only. */
  lemma SameSender(e: Endpoint, e': Endpoint, log: seq<Segment>)
    requires TxOk(e, log) && e'.state == e.state && e'.tx == e.tx
    ensures TxOk(e', log)
  {
    hide SenderInv, LogInv, Logged, Outstanding;
  }

  lemma SegmentStep(x: Node, y: Node, s: Segment, available: nat)
    requires CoreOk(x, y) && InLog(s, y.log, y.e.tx.start)
    ensures CoreOk(SegmentNode(x, s, available), y)
  {
    hide CoreOk, InLog, SegmentNode;
    if s.payload.Fin? {
      FinStep(x, y, s, available);
    } else {
      DataStep(x, y, s, available);
    }
  }

  lemma {:induction false} SegmentsStep(x: Node, y: Node, segments: seq<Segment>, available: seq<nat>)
    requires CoreOk(x, y) && Logged(segments, y.log, y.e.tx.start)
    ensures CoreOk(x.(e := HandleSegments(x.e, segments, available)), y)
    decreases |segments|
  {
    hide TxOk, JoinOk, SentOk, FlowOk, SizesOk, HandleSegment, ReadListOk, ReceiverInv, Bytes;
    if segments == [] {
      assert x.(e := x.e) == x;
    } else {
      var first := if available == [] then 0 else available[0];
      assert segments[0] in segments;
      SegmentStep(x, y, segments[0], first);
      var x1 := SegmentNode(x, segments[0], first);
      SegmentsStep(x1, y, segments[1..], if available == [] then [] else available[1..]);
    }
  }
}
