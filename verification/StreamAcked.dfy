/** The history of acknowledgement: every number handed out has either been taken
    off the unacked list by an ack or is still outstanding. */
module StreamAcked {
  import opened AckGaps
  import opened Basics
  import opened StreamTypes
  import opened StreamSender
  import opened StreamReceiver
  import opened StreamEndpoint
  import opened StreamSystem
  import opened StreamSteps
  import opened StreamNode
  import opened StreamActions
  import opened StreamHandshake

  /** A segment of the log has been acknowledged exactly if it is no longer
      outstanding, and nothing else has been. */
  ghost predicate AckedOk(x: Node) {
    && (forall i :: 0 <= i < |x.log| ==> (x.log[i].num in x.acked <==> x.log[i] !in Outstanding(x.e.tx)))
    && (forall n :: n in x.acked ==> x.e.tx.start < n <= x.e.tx.start + |x.log|)
  }

  /** A step that acknowledges nothing: what it logs it makes outstanding. */
  ghost predicate Queues(x: Node, x': Node) {
    && x'.acked == x.acked && x'.e.tx.start == x.e.tx.start && x.log <= x'.log
    && Outstanding(x'.e.tx) == Outstanding(x.e.tx) + x'.log[|x.log|..]
  }

  lemma QueuesKeeps(x: Node, x': Node)
    requires AckedOk(x) && TxOk(x.e, x.log) && TxOk(x'.e, x'.log) && Queues(x, x')
    ensures AckedOk(x')
  {
    hide TxOk, SenderInv, Outstanding, InLog;
    NumbersInLog(x.e, x.log);
    NumbersInLog(x'.e, x'.log);
    var queued := x'.log[|x.log|..];
    forall i | 0 <= i < |x'.log| ensures x'.log[i].num in x'.acked <==> x'.log[i] !in Outstanding(x'.e.tx) {
      if i < |x.log| {
        assert x'.log[i] == x.log[i];
        OlderNotIn(queued, x'.log, |x.log|, i);
      } else {
        assert queued[i - |x.log|] == x'.log[i];
      }
    }
  }

  lemma OlderNotIn(queued: seq<Segment>, log: seq<Segment>, n: nat, i: nat)
    requires i < n <= |log| && queued == log[n..]
    requires forall j, k :: 0 <= j < k < |log| ==> log[j].num < log[k].num
    ensures log[i] !in queued
  {
    forall j | 0 <= j < |queued| ensures queued[j] != log[i] {
      assert queued[j] == log[n + j];
    }
  }

  lemma NothingQueued(x: Node, x': Node)
    requires x'.acked == x.acked && x'.log == x.log && x'.e.tx.start == x.e.tx.start
    requires Outstanding(x'.e.tx) == Outstanding(x.e.tx)
    ensures Queues(x, x')
  {
    assert x'.log[|x.log|..] == [];
    assert Outstanding(x.e.tx) + [] == Outstanding(x.e.tx);
  }

  // ------------------------------------------------------------ acknowledgement

  lemma NumbersInLog(e: Endpoint, log: seq<Segment>)
    requires TxOk(e, log)
    ensures forall s :: s in Outstanding(e.tx) ==> InLog(s, log, e.tx.start)
    ensures forall i :: 0 <= i < |log| ==> log[i].num == e.tx.start + 1 + i
    ensures SenderInv(e.tx)
  {
  }

  lemma NotBoth(tx: Sender, s: Segment)
    requires SenderInv(tx) && s in Segs(tx.unacked)
    ensures s !in Segs(tx.sendList)
  {
    SortedPrefix(Segs(tx.unacked), Segs(tx.sendList));
  }

  /** Whether an ack, with the new window in force, takes a segment off. */
  lemma TakenIs(e: Endpoint, ack: AckExtension, stamp: int, n: int)
    ensures var tx := Advertised(e, ack, stamp).tx;
            n in Taken(e, ack, stamp) <==>
              exists s :: s in Segs(tx.unacked) && s.num == n && Acked(n, ack.maxAcked, ack.gaps)
  {
    hide Advertise;
    var tx := Advertised(e, ack, stamp).tx;
    if n in Taken(e, ack, stamp) {
      var i :| 0 <= i < |tx.unacked| && Acked(tx.unacked[i].seg.num, ack.maxAcked, ack.gaps) && tx.unacked[i].seg.num == n;
      assert Segs(tx.unacked)[i].num == n;
    }
    if s :| s in Segs(tx.unacked) && s.num == n && Acked(n, ack.maxAcked, ack.gaps) {
      var i :| 0 <= i < |tx.unacked| && Segs(tx.unacked)[i] == s;
      assert tx.unacked[i].seg.num == n;
    }
  }

  /** What an ack takes off the unacked list is what is outstanding no longer. */
  lemma AckTakes(x: Node, ack: AckExtension, stamp: int)
    requires AckedOk(x) && TxOk(x.e, x.log)
    ensures AckedOk(AckedNode(x, ack, stamp).(acked := x.acked + Taken(x.e, ack, stamp)))
  {
    hide Outstanding, SenderInv, LogInv, TxOk, Taken, Advertised, HandleAck, AckedEndpoint, Acked;
    var e1 := Advertised(x.e, ack, stamp);
    var left := WithoutAcked(e1.tx, ack);
    AckedNodeShape(x, ack, stamp);
    AdvertisedOk(x.e, x.log, ack, stamp);
    NumbersInLog(e1, x.log);
    NumbersInLog(x.e, x.log);
    RemainingIsFilter(e1.tx.unacked, ack);
    AckedConstants(e1, ack);
    AdvertisedStart(x.e, ack, stamp);
    var acked := x.acked + Taken(x.e, ack, stamp);
    forall i | 0 <= i < |x.log| ensures x.log[i].num in acked <==> x.log[i] !in Outstanding(left) {
      OneTaken(x, ack, stamp, i);
    }
    forall n | n in Taken(x.e, ack, stamp) ensures x.e.tx.start < n <= x.e.tx.start + |x.log| {
      TakenIs(x.e, ack, stamp, n);
      var s :| s in Segs(e1.tx.unacked) && s.num == n && Acked(n, ack.maxAcked, ack.gaps);
      InEither(s, e1.tx);
    }
    AckOk(e1, x.log, ack);
    FinAfterAck(x.(e := e1.(tx := left), acked := acked), e1, ack);
  }

  lemma AdvertisedStart(e: Endpoint, ack: AckExtension, stamp: int)
    ensures Advertised(e, ack, stamp).tx.start == e.tx.start
  {
  }

  lemma OneTaken(x: Node, ack: AckExtension, stamp: int, i: nat)
    requires AckedOk(x) && TxOk(x.e, x.log) && i < |x.log|
    ensures var left := WithoutAcked(Advertised(x.e, ack, stamp).tx, ack);
            x.log[i].num in x.acked + Taken(x.e, ack, stamp) <==> x.log[i] !in Outstanding(left)
  {
    hide Outstanding, SenderInv, LogInv, TxOk, Taken, Advertised, Acked;
    var e1, s := Advertised(x.e, ack, stamp), x.log[i];
    var left := WithoutAcked(e1.tx, ack);
    AdvertisedOk(x.e, x.log, ack, stamp);
    AdvertisedStart(x.e, ack, stamp);
    NumbersInLog(e1, x.log);
    RemainingIsFilter(e1.tx.unacked, ack);
    TakenIs(x.e, ack, stamp, s.num);
    InEither(s, e1.tx);
    InEither(s, left);
    if s in Segs(e1.tx.unacked) {
      NotBoth(e1.tx, s);
    }
    if t :| t in Segs(e1.tx.unacked) && t.num == s.num && Acked(s.num, ack.maxAcked, ack.gaps) {
      InEither(t, e1.tx);
      assert InLog(t, x.log, x.e.tx.start);
      assert t == s;
    }
  }

  /** FIN, should the ack cause it to be queued, is outstanding. */
  lemma FinAfterAck(left: Node, e1: Endpoint, ack: AckExtension)
    requires AckedOk(left) && left.e == e1.(tx := WithoutAcked(e1.tx, ack)) && TxOk(e1, left.log)
    requires TxOk(AckedEndpoint(e1, ack), LogAfterAck(e1, left.log, ack))
    ensures AckedOk(left.(e := AckedEndpoint(e1, ack), log := LogAfterAck(e1, left.log, ack)))
  {
    hide Outstanding, SenderInv, TxOk;
    var x' := left.(e := AckedEndpoint(e1, ack), log := LogAfterAck(e1, left.log, ack));
    QueuesFinShape(e1, ack);
    NumbersInLog(x'.e, x'.log);
    if QueuesFin(e1, ack) {
      var fin := Segment(e1.tx.xmitMax + 1, Fin);
      OutstandingFin(left.e.tx, x'.e.tx);
      assert x'.log == left.log + [fin];
      forall i | 0 <= i < |x'.log| ensures x'.log[i].num in x'.acked <==> x'.log[i] !in Outstanding(x'.e.tx) {
        if i < |left.log| {
          assert x'.log[i] == left.log[i];
          assert x'.log[i].num != x'.log[|left.log|].num;
        } else {
          assert x'.log[i] == fin;
        }
      }
    }
  }

  // ------------------------------------------------------------------ one step

  lemma SameLists(x: Node, x': Node)
    requires x'.acked == x.acked && x'.log == x.log && x'.e.tx.start == x.e.tx.start
    requires x'.e.tx.unacked == x.e.tx.unacked && x'.e.tx.sendList == x.e.tx.sendList
    ensures Queues(x, x')
  {
    NothingQueued(x, x');
  }

  /** The same log, the same lists and the same history. */
  ghost predicate Unchanged(x: Node, x': Node) {
    && x'.log == x.log && x'.acked == x.acked && x'.e.tx.start == x.e.tx.start
    && x'.e.tx.unacked == x.e.tx.unacked && x'.e.tx.sendList == x.e.tx.sendList && x'.e.tx.finQueued == x.e.tx.finQueued
  }

  lemma OneTakes(e: Endpoint, acks: seq<AckExtension>, stamp: int)
    requires |acks| == 1
    ensures AllTaken(e, acks, stamp) == Taken(e, acks[0], stamp)
  {
    hide Taken, HandleAck;
    assert acks[1..] == [];
  }

  /** What a delivered packet does to the lists: a packet without an ack nothing,
      one with an ack what that ack does to the node as it was when it was heard. */
  lemma DeliverTakes(x: Node, y: Node, p: Packet, budget: Budget) returns (h: Node)
    requires CoreOk(x, y) && p in y.sent
    ensures CoreOk(h, y) && Unchanged(x, h)
    ensures ReceiverInv(x.e.rx)
    ensures p.Syn? || p.Rst? ==> Unchanged(x, Deliver(x, p, budget))
    ensures p.SynAck? || p.Ack? ==>
              && |p.acks| == 1
              && var x' := Deliver(x, p, budget); var left := AckedNode(h, p.acks[0], p.stamp);
                 x'.log == left.log && x'.e.tx == left.e.tx && x'.acked == h.acked + Taken(h.e, p.acks[0], p.stamp)
  {
    hide FlowOk, SizesOk, Bytes, ReceiverInv, ReadListOk, JoinOk, TxOk, SentOk;
    hide HandleAcks, HandleSegments, HandleSyn, HandleSynAck, HandleRst, AckedNode, AllTaken, Taken;
    var x' := Deliver(x, p, budget);
    h := x.(e := Hear(x.e, p.stamp));
    HearStep(x, y, p.stamp);
    match p
    case Syn(_, _, _, _) =>
      SynKeepsLists(h.e, p);
      SynKeepsFin(h.e, p);
    case SynAck(stamp, acks, _, _, _) =>
      SynAckStep(h, y, p, budget);
      SynAckKeepsLists(h.e, p, budget);
      SynAckKeepsFin(h.e, p, budget);
      h := h.(e := HandleSynAck(h.e, p, budget), joined := h.joined || Joins(h, p));
      AcksStep(h, y, p);
      AcksLogAfter(x, h, acks[0], stamp, x'.e);
      OneTakes(h.e, acks, stamp);
    case Ack(stamp, acks, segments) =>
      AcksStep(h, y, p);
      AckedNodeFields(h, acks[0], stamp);
      SegmentsKeepSender(HandleAcks(h.e, acks, stamp), segments, budget.segments);
      AcksLogAfter(x, h, acks[0], stamp, x'.e);
      OneTakes(h.e, acks, stamp);
    case Rst(_) =>
      RstKeepsFin(h.e);
  }

  lemma UnchangedAcked(x: Node, x': Node)
    requires AckedOk(x) && Unchanged(x, x')
    ensures AckedOk(x')
  {
  }

  lemma DeliverAcked(x: Node, y: Node, p: Packet, budget: Budget)
    requires CoreOk(x, y) && p in y.sent && AckedOk(x)
    ensures AckedOk(Deliver(x, p, budget))
  {
    hide FlowOk, SizesOk, Bytes, TxOk, ReceiverInv, ReadListOk, SentOk, AckedOk, Unchanged, Deliver, AckedNode, Taken;
    var h := DeliverTakes(x, y, p, budget);
    UnchangedAcked(x, h);
    if p.Syn? || p.Rst? {
      UnchangedAcked(x, Deliver(x, p, budget));
    } else {
      AckTakes(h, p.acks[0], p.stamp);
      SameAcked(AckedNode(h, p.acks[0], p.stamp).(acked := h.acked + Taken(h.e, p.acks[0], p.stamp)), Deliver(x, p, budget));
    }
  }

  lemma SameAcked(x: Node, x': Node)
    requires AckedOk(x) && x'.log == x.log && x'.e.tx == x.e.tx && x'.acked == x.acked
    ensures AckedOk(x')
  {
  }

  lemma SynKeepsLists(e: Endpoint, p: Packet)
    requires p.Syn?
    ensures var tx' := HandleSyn(e, p).tx;
            tx'.start == e.tx.start && tx'.unacked == e.tx.unacked && tx'.sendList == e.tx.sendList
  {
  }

  lemma SynAckKeepsLists(e: Endpoint, p: Packet, budget: Budget)
    requires p.SynAck?
    ensures var tx' := HandleSynAck(e, p, budget).tx;
            tx'.start == e.tx.start && tx'.unacked == e.tx.unacked && tx'.sendList == e.tx.sendList
  {
  }

  /** The steps that write, close and send packets. */
  lemma TransferQueues(x: Node, y: Node, act: Action)
    requires LocalOk(x) && (act.DoWrite? || act.DoClose? || act.DoSendAck?)
    ensures Queues(x, NodeStep(x, y, act))
  {
    hide Queues, Outstanding, SenderInv, LogInv, Logged, Bytes, SentOk, JoinOk, AddFin, AfterAckPacket, AckPacket;
    var e, x' := x.e, NodeStep(x, y, act);
    match act
    case DoWrite(bytes, cwnd, cwndMax, available) => WriteQueues(x, y, act);
    case DoClose =>
      if (e.state == CloseWait || e.state == Established) && e.tx.unacked == [] && e.tx.sendList == [] {
        CloseQueuesOk(e, x.log);
        AddFinFields(e.tx);
        QueuedOne(x, x', Segment(e.tx.xmitMax + 1, Fin));
      } else {
        SameLists(x, x');
      }
    case DoSendAck(room, maxBlocks, dataEvent) =>
      AfterAckPacketSame(e, room, dataEvent);
      SameQueueFields(e, AfterAckPacket(e, room, dataEvent));
      NothingQueued(x, x');
  }

  lemma QueuedOne(x: Node, x': Node, s: Segment)
    requires x'.acked == x.acked && x'.e.tx.start == x.e.tx.start && x'.log == x.log + [s]
    requires Outstanding(x'.e.tx) == Outstanding(x.e.tx) + [s]
    ensures Queues(x, x')
  {
    assert x'.log[|x.log|..] == [s];
  }

  lemma WriteQueues(x: Node, y: Node, act: Action)
    requires LocalOk(x) && act.DoWrite?
    ensures Queues(x, NodeStep(x, y, act))
  {
    hide Outstanding, SenderInv, TxOk, Bytes, SentOk, JoinOk, CanWrite, Queued;
    var x' := NodeStep(x, y, act);
    var queued := Written(x.e, act.bytes, act.cwnd, act.cwndMax, act.available);
    WriteOutstanding(x.e.tx, act.bytes, act.available);
    assert x'.log[|x.log|..] == queued;
    assert Outstanding(x.e.tx) + [] == Outstanding(x.e.tx);
  }

  lemma StepQueues(x: Node, y: Node, act: Action)
    requires LocalOk(x) && !act.DoDeliver?
    ensures Queues(x, NodeStep(x, y, act))
  {
    hide LocalOk, NodeStep, Queues;
    if act.DoWrite? || act.DoClose? || act.DoSendAck? {
      TransferQueues(x, y, act);
    } else {
      OtherQueues(x, y, act);
    }
  }

  /** Every step of a node keeps the history of acknowledgement right. */
  lemma StepKeepsAcked(x: Node, y: Node, act: Action)
    requires CoreOk(x, y) && AckedOk(x) && TxOk(NodeStep(x, y, act).e, NodeStep(x, y, act).log)
    ensures AckedOk(NodeStep(x, y, act))
  {
    hide AckedOk, FlowOk, SizesOk, Outstanding, SenderInv, LogInv, Logged, Bytes, SentOk, JoinOk, Deliver, Queues;
    var x' := NodeStep(x, y, act);
    if act.DoDeliver? {
      if act.packet in y.sent {
        DeliverAcked(x, y, act.packet, act.budget);
      }
    } else {
      StepQueues(x, y, act);
      QueuesKeeps(x, x');
    }
  }

  lemma OtherQueues(x: Node, y: Node, act: Action)
    requires LocalOk(x) && !act.DoDeliver? && !act.DoWrite? && !act.DoClose? && !act.DoSendAck?
    ensures Queues(x, NodeStep(x, y, act))
  {
    hide Outstanding, TxOk, Bytes, SentOk, JoinOk, Queues, ReceiverInv, ReadListOk, IdleSlots, Consume, Available, AckOf, Deliver;
    hide ReadBytes, ReadStatus;
    SameLists(x, NodeStep(x, y, act));
  }

  lemma StartAcked(side: Side, start: int, maxSend: nat, maxRecv: nat)
    ensures AckedOk(InitNode(side, start, maxSend, maxRecv))
  {
  }
}
