/** How far apart the numbers in use can come: what is outstanding is never long
    behind the last number, and neither is the window in use, in every run whose
    writes queue less than about half the number space each. */
module StreamBounds {
  import opened AckGaps
  import opened Basics
  import opened SequenceNumbers
  import opened StreamTypes
  import opened StreamSender
  import opened StreamReceiver
  import opened StreamEndpoint
  import opened StreamSystem
  import opened StreamSteps
  import opened StreamNode
  import opened StreamActions
  import opened StreamHandshake
  import opened StreamAcked
  import opened StreamRun
  import opened StreamTheorems

  /** The most segments a single write queues. */
  const MAX_WRITE: nat := 0x7FFF_0000

  /** The most segments outstanding at any time. */
  const MAX_OUTSTANDING: nat := MAX_FLIGHT_SIZE + MAX_SEND_LIST_SIZE + MAX_WRITE

  /** A write that is that short, or finds so few segments to fill. */
  predicate Modest(act: Action) {
    act.DoWrite? ==> |act.bytes| <= MAX_WRITE || act.available < MAX_WRITE
  }

  predicate IsAck(p: Packet) { p.Ack? || p.SynAck? }

  /** The last number of the log. */
  function Top(x: Node): int { x.e.tx.start + |x.log| }

  function BottomOf(p: Packet): int
    requires IsAck(p)
  {
    if p.acks == [] then 0 else Bottom(p.acks[0])
  }

  // -------------------------------------------------------------- invariant

  /** Less than a receive window lies between what has been acknowledged and what
      is outstanding below it. */
  ghost predicate Tight(x: Node) {
    forall n, s :: n in x.acked && s in Outstanding(x.e.tx) ==> n - s.num < MAX_RECV_SEGMENTS
  }

  /** The last number is not far above an ack that has been heard. */
  predicate Reaches(x: Node, p: Packet) {
    && p in x.heard && IsAck(p)
    && Top(x) <= BottomOf(p) + MAX_OUTSTANDING + (if x.e.tx.finQueued then 1 else 0)
  }

  ghost predicate Within(x: Node) {
    && Tight(x)
    && |x.e.tx.unacked| + |x.e.tx.sendList| <= MAX_OUTSTANDING
    && (HeardAck(x) ==> exists p :: Reaches(x, p))
    && (!HeardAck(x) ==>
          x.e.tx.maxAdvertised == 0 && |x.log| == |x.e.tx.sendList| && (x.log == [] || Top(x) <= MAX_WRITE))
  }

  /** The acks a node has sent end no lower than the peer's numbers start, and
      later ones no lower than earlier ones. */
  ghost predicate Ascending(y: Node, start: int) {
    && (forall p :: p in y.sent && IsAck(p) ==> start <= BottomOf(p))
    && (forall p, q :: p in y.sent && q in y.sent && IsAck(p) && IsAck(q) && p.stamp <= q.stamp ==> BottomOf(p) <= BottomOf(q))
  }

  // ------------------------------------------------- steps without an ack

  lemma AckedBelowTop(x: Node)
    requires AckedOk(x) && TxOk(x.e, x.log)
    ensures forall n :: n in x.acked ==> n <= Top(x)
    ensures forall i :: 0 <= i < |x.log| ==> x.log[i].num == x.e.tx.start + 1 + i
  {
    hide Outstanding, SenderInv, Logged;
  }

  lemma QueuesClose(x: Node, x': Node)
    requires AckedOk(x) && TxOk(x.e, x.log) && TxOk(x'.e, x'.log) && Queues(x, x') && Tight(x)
    ensures Tight(x')
  {
    hide TxOk, SenderInv, Outstanding;
    AckedBelowTop(x);
    NumbersInLog(x'.e, x'.log);
    var queued := x'.log[|x.log|..];
    forall n, s | n in x'.acked && s in Outstanding(x'.e.tx) ensures n - s.num < MAX_RECV_SEGMENTS {
      if s !in Outstanding(x.e.tx) {
        assert s in queued;
        var i :| 0 <= i < |queued| && queued[i] == s;
        assert x'.log[|x.log| + i] == s;
      }
    }
  }

  lemma FinStaysQueued(x: Node, x': Node)
    requires LogInv(x.log, x.e.tx) && LogInv(x'.log, x'.e.tx) && x.log <= x'.log
    ensures x.e.tx.finQueued ==> x'.e.tx.finQueued && x'.log == x.log
  {
    if x.e.tx.finQueued {
      assert x'.log[|x.log| - 1].payload.Fin?;
    }
  }

  lemma QueuesLength(x: Node, x': Node)
    requires Queues(x, x')
    ensures |x'.e.tx.unacked| + |x'.e.tx.sendList| == |x.e.tx.unacked| + |x.e.tx.sendList| + (|x'.log| - |x.log|)
    ensures |x.log| <= |x'.log| && x'.e.tx.start == x.e.tx.start && x'.acked == x.acked
  {
    assert |Outstanding(x.e.tx)| == |x.e.tx.unacked| + |x.e.tx.sendList|;
    assert |Outstanding(x'.e.tx)| == |x'.e.tx.unacked| + |x'.e.tx.sendList|;
  }

  /** What a write may add to. */
  predicate MayQueue(x: Node, count: nat) {
    && |x.e.tx.unacked| + |x.e.tx.sendList| <= MAX_FLIGHT_SIZE + MAX_SEND_LIST_SIZE
    && count <= MAX_WRITE && Top(x) <= x.e.tx.maxAdvertised
  }

  /** Nothing is queued, or a write, or FIN. */
  ghost predicate Queuing(x: Node, x': Node) {
    || x'.log == x.log
    || (|x.log| <= |x'.log| && MayQueue(x, |x'.log| - |x.log|))
    || (|x'.log| == |x.log| + 1 && x.e.tx.unacked == [] && x.e.tx.sendList == [] && x'.e.tx.finQueued && HeardAck(x))
  }

  /** The newest window is not far above the end of its ack. */
  lemma NewestEdge(x: Node, y: Node) returns (p: Packet)
    requires PairOk(x, y) && HeardAck(x) && Acquainted(y)
    ensures p in x.heard && IsAck(p) && p in y.sent && (forall q :: q in x.heard ==> q.stamp <= p.stamp)
    ensures BottomOf(p) <= x.e.tx.maxAdvertised <= BottomOf(p) + MAX_RECV_SEGMENTS
  {
    hide TxOk, ReceiverInv, ReadListOk, Bytes, HandshakeOk, FlowOk, SizesOk, HeardOk, Logged, Acquainted, JoinOk;
    WindowIsHeard(x, y);
    p :| p in x.heard && p in y.sent && IsAck(p) && |p.acks| == 1 &&
         (forall q :: q in x.heard ==> q.stamp <= p.stamp) && x.e.tx.maxAdvertised == Edge(p.acks[0]);
    assert PacketOk(p, y);
  }

  lemma QueuesWithin(x: Node, x': Node, y: Node)
    requires PairOk(x, y) && HistoryOk(x) && HistoryOk(y) && Within(x)
    requires Queues(x, x') && Queuing(x, x') && Acquainted(x') && LocalOk(x')
    requires x'.heard == x.heard && x'.e.tx.maxAdvertised == x.e.tx.maxAdvertised
    ensures Within(x')
  {
    hide PairOk, Queues, Tight, TxOk, SentOk, JoinOk, ReceiverInv, ReadListOk, Bytes, AckedOk, Reaches;
    PairParts(x, y);
    QueuesClose(x, x');
    QueuesLength(x, x');
    FinStays(x, x');
    if HeardAck(x) {
      assert HeardAck(x');
      QueuesReaches(x, x', y);
    } else {
      assert !HeardAck(x');
    }
  }

  lemma PairParts(x: Node, y: Node)
    requires PairOk(x, y)
    ensures TxOk(x.e, x.log) && ReceiverInv(x.e.rx) && ReadListOk(x.e.rx.recvRead)
    ensures LocalOk(x) && LocalOk(y) && CoreOk(x, y)
  {
    hide TxOk, LocalOk, FlowOk, SizesOk, HeardOk, HandshakeOk, ReceiverInv, ReadListOk;
    LocalTx(x);
  }

  lemma LocalTx(x: Node)
    requires LocalOk(x)
    ensures TxOk(x.e, x.log) && ReceiverInv(x.e.rx) && ReadListOk(x.e.rx.recvRead)
  {
  }

  lemma FinStays(x: Node, x': Node)
    requires TxOk(x.e, x.log) && TxOk(x'.e, x'.log) && Queues(x, x')
    ensures x.e.tx.finQueued ==> x'.e.tx.finQueued && x'.log == x.log
  {
    hide Outstanding, SenderInv, Logged;
    FinStaysQueued(x, x');
  }

  lemma QueuesReaches(x: Node, x': Node, y: Node)
    requires PairOk(x, y) && HistoryOk(y) && Within(x) && HeardAck(x)
    requires Queuing(x, x') && x'.heard == x.heard && x'.e.tx.start == x.e.tx.start && |x.log| <= |x'.log|
    requires x.e.tx.finQueued ==> x'.e.tx.finQueued && x'.log == x.log
    ensures exists p :: Reaches(x', p)
  {
    hide PairOk, Tight, Acquainted, AckedOk, HeardAck;
    if x'.log != x.log && MayQueue(x, |x'.log| - |x.log|) {
      var p := NewestEdge(x, y);
      assert Reaches(x', p);
    } else {
      var p :| Reaches(x, p);
      assert Reaches(x', p);
    }
  }

  lemma {:induction false} CutLength(bytes: seq<byte>, size: nat, next: int, count: nat)
    requires size > 0
    ensures |Cut(bytes, size, next, count)| <= |bytes|
    ensures |Cut(bytes, size, next, count)| <= count
  {
    if bytes != [] && count != 0 && |bytes| > size {
      CutLength(bytes[size..], size, next + 1, count - 1);
    }
  }

  lemma RunningTop(e: Endpoint, log: seq<Segment>)
    requires TxOk(e, log) && (AcceptsWrites(e.state) || SendsAcks(e.state))
    ensures e.tx.xmitMax == e.tx.start + |log|
    ensures e.tx.flightSize == |e.tx.unacked|
  {
    hide LogInv, Logged, Outstanding;
  }

  lemma WriteQueuing(x: Node, y: Node, act: Action)
    requires LocalOk(x) && act.DoWrite? && Modest(act)
    ensures Queuing(x, NodeStep(x, y, act))
  {
    hide TxOk, SentOk, JoinOk, ReceiverInv, ReadListOk, Bytes, Cut;
    var tx, x' := x.e.tx, NodeStep(x, y, act);
    LocalTx(x);
    if WriteStatus(x.e) == StatusOk && CanWrite(tx, act.cwnd, act.cwndMax) > 0 {
      RunningTop(x.e, x.log);
      CutLength(act.bytes, tx.maxSendSegmentSize, tx.xmitMax + 1, act.available + 1);
      assert MayQueue(x, |Queued(tx, act.bytes, act.available)|);
    }
  }

  lemma CloseQueuing(x: Node, y: Node)
    requires LocalOk(x) && Acquainted(x)
    ensures Queuing(x, NodeStep(x, y, DoClose))
  {
    hide TxOk, SentOk, JoinOk, ReceiverInv, ReadListOk, Bytes, HeardAck;
  }

  /** What an action other than a delivery queues. */
  lemma StepQueuing(x: Node, y: Node, act: Action)
    requires LocalOk(x) && Acquainted(x) && Modest(act) && !act.DoDeliver?
    ensures Queuing(x, NodeStep(x, y, act))
  {
    hide TxOk, SentOk, JoinOk, Bytes, Queuing, Acquainted, ReadBytes, ReadStatus, Consume;
    if act.DoWrite? {
      WriteQueuing(x, y, act);
    } else if act.DoClose? {
      CloseQueuing(x, y);
    } else {
      assert NodeStep(x, y, act).log == x.log;
      NothingQueuing(x, NodeStep(x, y, act));
    }
  }

  lemma NothingQueuing(x: Node, x': Node)
    requires x'.log == x.log
    ensures Queuing(x, x')
  {
  }

  lemma ActionWithin(x: Node, y: Node, act: Action)
    requires PairOk(x, y) && HistoryOk(x) && HistoryOk(y) && Within(x) && Modest(act) && !act.DoDeliver?
    ensures Within(NodeStep(x, y, act))
  {
    hide PairOk, AckedOk, Within, LocalOk, CoreOk, Queuing, Queues, NodeStep, Acquainted, TxOk, ReceiverInv, ReadListOk;
    PairParts(x, y);
    StepQueuing(x, y, act);
    ActionIsQuiet(x, y, act);
    StepQueues(x, y, act);
    StepKeepsAcquainted(x, y, act);
    ActionCore(x, y, act);
    PairLocal(NodeStep(x, y, act), y);
    QuietFields(x, NodeStep(x, y, act));
    QueuesWithin(x, NodeStep(x, y, act), y);
  }

  lemma QuietFields(x: Node, x': Node)
    requires Quiet(x, x')
    ensures x'.heard == x.heard && x'.e.tx.maxAdvertised == x.e.tx.maxAdvertised
  {
  }

  lemma PairLocal(x: Node, y: Node)
    requires CoreOk(x, y)
    ensures LocalOk(x)
  {
    hide LocalOk, FlowOk, SizesOk;
  }

  // ----------------------------------------------------------- steps with an ack

  /** What an ack acknowledges lies at or below its maximum, what it does not, and is
      not above that maximum, above its bottom. */
  lemma {:induction false} AckedRange(q: int, top: int, gaps: seq<Gap>)
    ensures Acked(q, top, gaps) ==> q <= top
    ensures !Acked(q, top, gaps) ==> q > top - Span(gaps)
    decreases |gaps|
  {
    if !Acked(q, top, gaps) && q <= top - Span(gaps) {
      AckedBelowSpan(q, top, gaps);
    }
    if gaps != [] {
      AckedRange(q, top - gaps[0].ackGap - gaps[0].nackGap, gaps[1..]);
    }
  }

  /** A segment that an ack takes and one that it leaves below it. */
  lemma TakenNear(tx: Sender, ack: AckExtension, n: int, s: Segment)
    requires SenderInv(tx) && Span(ack.gaps) <= MAX_RECV_SEGMENTS
    requires exists t :: t in Segs(tx.unacked) && t.num == n && Acked(n, ack.maxAcked, ack.gaps)
    requires s in Outstanding(WithoutAcked(tx, ack))
    ensures n - s.num < MAX_RECV_SEGMENTS
  {
    hide Acked, SenderInv;
    var left := WithoutAcked(tx, ack);
    var t :| t in Segs(tx.unacked) && t.num == n && Acked(n, ack.maxAcked, ack.gaps);
    AckedRange(n, ack.maxAcked, ack.gaps);
    InEither(s, left);
    RemainingIsFilter(tx.unacked, ack);
    if s in Segs(left.unacked) {
      AckedRange(s.num, ack.maxAcked, ack.gaps);
    } else {
      UnackedBelow(tx, t, s);
    }
  }

  lemma UnackedBelow(tx: Sender, t: Segment, s: Segment)
    requires SenderInv(tx) && t in Segs(tx.unacked) && s in Segs(tx.sendList)
    ensures t.num < s.num
  {
    SortedPrefix(Segs(tx.unacked), Segs(tx.sendList));
  }

  /** FIN, should an ack cause it to be queued, is the last number, and all else is
      no longer outstanding. */
  lemma AckLeaves(h: Node, ack: AckExtension, stamp: int, s: Segment)
    requires TxOk(h.e, h.log)
    ensures var left := AckedNode(h, ack, stamp); var e1 := Advertised(h.e, ack, stamp);
            && left.e.tx.start == h.e.tx.start
            && (s in Outstanding(left.e.tx) ==> s in Outstanding(WithoutAcked(e1.tx, ack)) || s.num > Top(h))
            && (left.log == h.log || (left.log == h.log + [Segment(Top(h) + 1, Fin)] && left.e.tx.finQueued))
            && (h.e.tx.finQueued ==> left.e.tx.finQueued)
            && |left.e.tx.unacked| + |left.e.tx.sendList| <= |h.e.tx.unacked| + |h.e.tx.sendList| + 1
            && (left.log != h.log ==> |left.e.tx.unacked| + |left.e.tx.sendList| == 1)
            && (left.log == h.log ==> |left.e.tx.unacked| + |left.e.tx.sendList| <= |h.e.tx.unacked| + |h.e.tx.sendList|)
  {
    hide TxOk, SenderInv, Logged, LogInv, Advertised, Outstanding, HandleAck, AckedEndpoint, SenderAfterAck, WithoutAcked, AddFin;
    var e1 := Advertised(h.e, ack, stamp);
    AckedNodeShape(h, ack, stamp);
    AdvertisedOk(h.e, h.log, ack, stamp);
    AdvertisedStart(h.e, ack, stamp);
    QueuesFinShape(e1, ack);
    AckedShape(e1, ack);
    Lengths(e1.tx);
    Lengths(h.e.tx);
    WithoutAckedFields(e1.tx, ack, h.log);
    RemainingLength(e1.tx.unacked, ack);
    if QueuesFin(e1, ack) {
      AckFinOk(e1, h.log, ack);
      AddFinFields(WithoutAcked(e1.tx, ack));
      OutstandingFin(WithoutAcked(e1.tx, ack), AddFin(WithoutAcked(e1.tx, ack)));
      Lengths(AddFin(WithoutAcked(e1.tx, ack)));
    }
  }

  lemma AckedShape(e: Endpoint, ack: AckExtension)
    ensures AckedEndpoint(e, ack).tx == SenderAfterAck(e.state, e.tx, ack)
    ensures SenderAfterAck(e.state, e.tx, ack).start == e.tx.start
    ensures e.tx.finQueued ==> SenderAfterAck(e.state, e.tx, ack).finQueued
  {
    hide FinAcked, Remaining, Resending;
  }

  lemma Lengths(tx: Sender)
    ensures |Outstanding(tx)| == |tx.unacked| + |tx.sendList|
  {
  }

  lemma AckTight(h: Node, ack: AckExtension, stamp: int, x': Node)
    requires AckedOk(h) && TxOk(h.e, h.log) && Tight(h) && Span(ack.gaps) <= MAX_RECV_SEGMENTS
    requires x'.e.tx == AckedNode(h, ack, stamp).e.tx && x'.acked == h.acked + Taken(h.e, ack, stamp)
    ensures Tight(x')
  {
    hide TxOk, SenderInv, Outstanding, Advertised, Taken, AckedNode, WithoutAcked, AckedOk, Acked;
    var e1 := Advertised(h.e, ack, stamp);
    AdvertisedOk(h.e, h.log, ack, stamp);
    NumbersInLog(e1, h.log);
    AckedBelowTop(h);
    WithoutAckedLogged(e1, h.log, ack);
    forall n, s | n in x'.acked && s in Outstanding(x'.e.tx) ensures n - s.num < MAX_RECV_SEGMENTS {
      AckLeaves(h, ack, stamp, s);
      TakenIs(h.e, ack, stamp, n);
      if n in h.acked {
        if s in Outstanding(WithoutAcked(e1.tx, ack)) {
          assert s in Outstanding(h.e.tx);
        }
      } else {
        TakenBelowTop(h, ack, stamp, n);
        if s in Outstanding(WithoutAcked(e1.tx, ack)) {
          TakenNear(e1.tx, ack, n, s);
        }
      }
    }
  }

  lemma TakenBelowTop(h: Node, ack: AckExtension, stamp: int, n: int)
    requires TxOk(h.e, h.log) && n in Taken(h.e, ack, stamp)
    ensures n <= Top(h)
  {
    hide TxOk, SenderInv, Outstanding, Advertised, Taken;
    var e1 := Advertised(h.e, ack, stamp);
    AdvertisedOk(h.e, h.log, ack, stamp);
    AdvertisedStart(h.e, ack, stamp);
    NumbersInLog(e1, h.log);
    TakenIs(h.e, ack, stamp, n);
    var t :| t in Segs(e1.tx.unacked) && t.num == n && Acked(n, ack.maxAcked, ack.gaps);
    InEither(t, e1.tx);
  }

  lemma UnchangedTight(x: Node, x': Node)
    requires Tight(x) && Unchanged(x, x')
    ensures Tight(x')
  {
  }

  lemma DeliverTight(x: Node, y: Node, p: Packet, budget: Budget)
    requires CoreOk(x, y) && p in y.sent && AckedOk(x) && Tight(x)
    ensures ReceiverInv(x.e.rx) && Tight(Deliver(x, p, budget))
  {
    hide FlowOk, SizesOk, Bytes, TxOk, ReceiverInv, ReadListOk, JoinOk, AckedOk, Unchanged, Tight, Deliver, AckedNode, Taken;
    var h := DeliverTakes(x, y, p, budget);
    UnchangedAcked(x, h);
    UnchangedTight(x, h);
    if IsAck(p) {
      assert PacketOk(p, y);
      AckTight(h, p.acks[0], p.stamp, Deliver(x, p, budget));
    } else {
      UnchangedTight(x, Deliver(x, p, budget));
    }
  }

  /** The lists and the last number after a delivery. */
  lemma DeliverLists(x: Node, y: Node, p: Packet, budget: Budget)
    requires CoreOk(x, y) && p in y.sent
    ensures ReceiverInv(x.e.rx)
    ensures var x' := Deliver(x, p, budget);
            && x'.e.tx.start == x.e.tx.start
            && (x.e.tx.finQueued ==> x'.e.tx.finQueued)
            && (!IsAck(p) ==> Unchanged(x, x'))
            && (x'.log == x.log || (|x'.log| == |x.log| + 1 && x'.e.tx.finQueued && IsAck(p)))
            && |x'.e.tx.unacked| + |x'.e.tx.sendList| <= MaxNat(|x.e.tx.unacked| + |x.e.tx.sendList|, 1)
  {
    hide FlowOk, SizesOk, Bytes, TxOk, ReceiverInv, ReadListOk, JoinOk, Deliver, AckedNode, Taken, SentOk;
    var h := DeliverTakes(x, y, p, budget);
    if IsAck(p) {
      AckLeaves(h, p.acks[0], p.stamp, Segment(0, Fin));
    }
  }

  function MaxNat(a: nat, b: nat): nat { if a < b then b else a }

  lemma DeliverWithin(x: Node, y: Node, p: Packet, budget: Budget)
    requires PairOk(x, y) && HistoryOk(x) && Within(x) && Ascending(y, x.e.tx.start) && p in y.sent
    ensures ReceiverInv(x.e.rx) && Within(Deliver(x, p, budget))
  {
    hide PairOk, CoreOk, AckedOk, Tight, TxOk, ReceiverInv, HandlePacket, TakenBy, Outstanding, Acquainted;
    PairParts(x, y);
    var x' := Deliver(x, p, budget);
    DeliverTight(x, y, p, budget);
    DeliverLists(x, y, p, budget);
    DeliveredFields(x, y, p, budget);
    if HeardAck(x) {
      var q :| Reaches(x, q);
      assert Reaches(x', q);
    } else if IsAck(p) {
      assert Reaches(x', p);
    } else {
      assert !HeardAck(x');
    }
  }

  // ------------------------------------------------------------- acks sent

  /** An ack of the present window ends where what is complete ends. */
  lemma BottomIsTop(rx: Receiver, timestampToEcho: int, maxBlocks: nat)
    requires ReceiverInv(rx) && maxBlocks >= 2
    ensures Bottom(AckOf(rx, timestampToEcho, maxBlocks)) == rx.recvTop
  {
    hide ReceiverInv, GapsOf, Acked;
    AckIsSound(rx, timestampToEcho, maxBlocks);
  }

  /** The packets a step adds: at most one, and an ack only of the present window. */
  lemma NewAcks(x: Node, y: Node, act: Action)
    requires LocalOk(x)
    ensures var x' := NodeStep(x, y, act);
            && x.sent <= x'.sent
            && (forall p :: p in x'.sent && p !in x.sent && IsAck(p) ==>
                  x.joined && BottomOf(p) == x.e.rx.recvTop && p.stamp == x.e.logicalTimestamp)
  {
    hide TxOk, JoinOk, SentOk, Bytes, ReceiverInv, ReadListOk, AckOf, SentSegments, AfterAckPacket, Deliver, ReadBytes, ReadStatus, Consume;
    hide AddFin, CanWrite, Queued, Bottom;
    if act.DoDeliver? {
      if act.packet in y.sent {
        DeliverSends(x, act.packet, act.budget);
      }
    } else if (act.DoSendAck? || act.DoSendSynAck?) && NodeStep(x, y, act) != x {
      SendersHaveJoined(x);
      BottomIsTop(x.e.rx, x.e.timestampToEcho, act.maxBlocks);
    }
  }

  lemma DeliverSends(x: Node, p: Packet, budget: Budget)
    requires ReceiverInv(x.e.rx)
    ensures Deliver(x, p, budget).sent == x.sent
  {
    hide HandlePacket, TakenBy, ReceiverInv;
  }

  lemma SendersHaveJoined(x: Node)
    requires LocalOk(x) && (SendsAcks(x.e.state) || x.e.state == SynRcvd)
    ensures x.joined
  {
    hide TxOk, SentOk, Bytes, ReceiverInv, ReadListOk;
  }

  /** What a node has sent so far is older, and ends no higher than is complete. */
  lemma SentBefore(x: Node, p: Packet)
    requires LocalOk(x) && p in x.sent && IsAck(p)
    ensures BottomOf(p) <= x.e.rx.recvTop && p.stamp < x.e.logicalTimestamp
  {
    hide TxOk, JoinOk, Bytes, ReceiverInv, ReadListOk, Logged, Bottom, Acked;
    assert PacketOk(p, x);
  }

  lemma JoinedAbove(x: Node, y: Node)
    requires CoreOk(x, y) && x.joined
    ensures y.e.tx.start <= x.e.rx.recvTop
  {
    hide LocalOk, SizesOk, FinOk, ReadOk, Conserved;
  }

  lemma StepAscending(x: Node, y: Node, act: Action)
    requires CoreOk(x, y) && Ascending(x, y.e.tx.start)
    ensures ReceiverInv(x.e.rx) && ReadListOk(x.e.rx.recvRead) && Ascending(NodeStep(x, y, act), y.e.tx.start)
  {
    hide CoreOk, LocalOk, NodeStep, BottomOf;
    PairLocal(x, y);
    LocalTx(x);
    NewAcks(x, y, act);
    var x' := NodeStep(x, y, act);
    if x.joined {
      JoinedAbove(x, y);
    }
    forall p | p in x.sent && IsAck(p) ensures BottomOf(p) <= x.e.rx.recvTop && p.stamp < x.e.logicalTimestamp {
      SentBefore(x, p);
    }
  }

  lemma StartStays(x: Node, y: Node, act: Action)
    requires CoreOk(x, y)
    ensures ReceiverInv(x.e.rx) && ReadListOk(x.e.rx.recvRead) && NodeStep(x, y, act).e.tx.start == x.e.tx.start
  {
    hide CoreOk, LocalOk, Queues, Deliver, Unchanged;
    PairLocal(x, y);
    LocalTx(x);
    if act.DoDeliver? {
      if act.packet in y.sent {
        DeliverLists(x, y, act.packet, act.budget);
      }
    } else {
      StepQueues(x, y, act);
      QueuesLength(x, NodeStep(x, y, act));
    }
  }

  // ------------------------------------------------------------------- runs

  ghost predicate SystemWithin(s: System) {
    && Within(s.a) && Within(s.b)
    && Ascending(s.a, s.b.e.tx.start) && Ascending(s.b, s.a.e.tx.start)
  }

  lemma NodeWithin(x: Node, y: Node, act: Action)
    requires PairOk(x, y) && HistoryOk(x) && HistoryOk(y) && Modest(act)
    requires Within(x) && Ascending(x, y.e.tx.start) && Ascending(y, x.e.tx.start)
    ensures ReceiverInv(x.e.rx) && ReadListOk(x.e.rx.recvRead)
    ensures var x' := NodeStep(x, y, act);
            Within(x') && Ascending(x', y.e.tx.start) && x'.e.tx.start == x.e.tx.start
  {
    hide PairOk, HistoryOk, Within, Ascending, CoreOk, LocalOk, Deliver;
    PairParts(x, y);
    StepAscending(x, y, act);
    StartStays(x, y, act);
    if act.DoDeliver? {
      if act.packet in y.sent {
        DeliverWithin(x, y, act.packet, act.budget);
      }
    } else {
      ActionWithin(x, y, act);
    }
  }

  lemma StepWithin(s: System, m: Move)
    requires SystemOk(s) && SystemWithin(s) && Modest(m.act)
    ensures SystemWithin(Step(s, m))
  {
    hide PairOk, HistoryOk, Within, Ascending, NodeStep, Modest;
    Swap(s.a, s.b);
    if m.side == Initiator {
      NodeWithin(s.a, s.b, m.act);
    } else {
      NodeWithin(s.b, s.a, m.act);
    }
  }

  ghost predicate AllModest(moves: seq<Move>) {
    forall m :: m in moves ==> Modest(m.act)
  }

  lemma {:induction false} RunWithin(s: System, moves: seq<Move>)
    requires SystemOk(s) && SystemWithin(s) && AllModest(moves)
    ensures SystemWithin(Run(s, moves))
    decreases |moves|
  {
    hide PairOk, Step, SystemWithin, Modest, HistoryOk;
    if moves != [] {
      assert moves[0] in moves;
      StepKeeps(s, moves[0]);
      StepWithin(s, moves[0]);
      RunWithin(Step(s, moves[0]), moves[1..]);
    }
  }

  lemma StepStarts(s: System, m: Move)
    requires SystemOk(s)
    ensures Step(s, m).a.e.tx.start == s.a.e.tx.start && Step(s, m).b.e.tx.start == s.b.e.tx.start
  {
    hide PairOk, HistoryOk, NodeStep;
    Swap(s.a, s.b);
    PairParts(s.a, s.b);
    PairParts(s.b, s.a);
    StartStays(s.a, s.b, m.act);
    StartStays(s.b, s.a, m.act);
  }

  /** The start numbers stay as they were given. */
  lemma {:induction false} RunStarts(s: System, moves: seq<Move>)
    requires SystemOk(s)
    ensures Run(s, moves).a.e.tx.start == s.a.e.tx.start && Run(s, moves).b.e.tx.start == s.b.e.tx.start
    decreases |moves|
  {
    hide PairOk, Step, HistoryOk;
    if moves != [] {
      StepKeeps(s, moves[0]);
      StepStarts(s, moves[0]);
      RunStarts(Step(s, moves[0]), moves[1..]);
    }
  }

  lemma StartWithin(c: Config)
    ensures SystemWithin(Start(c))
  {
  }

  lemma AfterWithin(c: Config, moves: seq<Move>)
    requires AllModest(moves)
    ensures SystemWithin(After(c, moves))
  {
    hide PairOk, Run, SystemWithin, AllModest;
    StartOk(c);
    StartWithin(c);
    RunWithin(Start(c), moves);
  }

  // ---------------------------------------------------------- what follows

  /** A sorted list that has every number of a stretch is as long as the stretch. */
  lemma {:induction false} StretchFits(segs: seq<Segment>, low: int, high: int)
    requires Sorted(segs) && forall n :: low <= n <= high ==> Numbered(segs, n)
    ensures high - low + 1 <= |segs|
    decreases |segs|
  {
    if low <= high {
      assert Numbered(segs, high);
      var s :| s in segs && s.num == high;
      var i :| 0 <= i < |segs| && segs[i] == s;
      forall n | low <= n <= high - 1 ensures Numbered(segs[..i], n) {
        assert Numbered(segs, n);
        var t :| t in segs && t.num == n;
        var j :| 0 <= j < |segs| && segs[j] == t;
        assert segs[..i][j] == t;
      }
      StretchFits(segs[..i], low, high - 1);
    }
  }

  /** The numbers out of reach of an outstanding one are all outstanding. */
  lemma AllOutstanding(x: Node, s: Segment, n: int)
    requires AckedOk(x) && TxOk(x.e, x.log) && Tight(x) && s in Outstanding(x.e.tx)
    requires s.num + MAX_RECV_SEGMENTS <= n <= Top(x)
    ensures Numbered(Outstanding(x.e.tx), n)
  {
    hide TxOk, SenderInv, Outstanding;
    AckedBelowTop(x);
    NumbersInLog(x.e, x.log);
    var t := x.log[n - x.e.tx.start - 1];
    assert t.num == n;
  }

  /** Nothing outstanding is far behind the last number. */
  lemma OutstandingIsNear(x: Node, s: Segment)
    requires AckedOk(x) && TxOk(x.e, x.log) && Within(x) && s in Outstanding(x.e.tx)
    ensures Top(x) - s.num < MAX_OUTSTANDING + MAX_RECV_SEGMENTS
  {
    hide TxOk, SenderInv, Outstanding, AckedOk, Tight, Sorted, Numbered;
    var all := Outstanding(x.e.tx);
    Lengths(x.e.tx);
    InOrder(x.e, x.log);
    forall n | s.num + MAX_RECV_SEGMENTS <= n <= Top(x) ensures Numbered(all, n) {
      AllOutstanding(x, s, n);
    }
    StretchFits(all, s.num + MAX_RECV_SEGMENTS, Top(x));
  }

  lemma InOrder(e: Endpoint, log: seq<Segment>)
    requires TxOk(e, log)
    ensures Sorted(Outstanding(e.tx))
  {
    hide LogInv, Logged, Outstanding;
  }

  /** Neither is the window in use, once an ack has been heard. */
  lemma WindowIsNear(x: Node, y: Node)
    requires PairOk(x, y) && HistoryOk(y) && Within(x) && Ascending(y, x.e.tx.start) && HeardAck(x)
    ensures Top(x) - x.e.tx.maxAdvertised <= MAX_OUTSTANDING + 1
  {
    hide PairOk, Tight, Acquainted, AckedOk, HeardAck, BottomOf;
    var p :| Reaches(x, p);
    var newest := NewestEdge(x, y);
    HeardIsSent(x, y, p);
  }

  lemma HeardIsSent(x: Node, y: Node, p: Packet)
    requires PairOk(x, y) && p in x.heard
    ensures p in y.sent
  {
    hide CoreOk, HandshakeOk;
  }
}
