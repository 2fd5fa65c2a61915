/** The application's calls, the events and the handshake keep the invariant. */
module StreamActions {
  import opened AckGaps
  import opened Basics
  import opened StreamTypes
  import opened StreamSender
  import opened StreamReceiver
  import opened StreamEndpoint
  import opened StreamSystem
  import opened StreamSteps
  import opened StreamDelivery
  import opened StreamNode

  // ------------------------------------------------------ the sending half

  /** A step that neither queues nor acknowledges. */
  ghost predicate SameQueue(e: Endpoint, e': Endpoint) {
    && SenderInv(e'.tx)
    && Outstanding(e'.tx) == Outstanding(e.tx)
    && e'.rx == e.rx
    && e'.state == e.state
    && e'.tx.start == e.tx.start && e'.tx.xmitMax == e.tx.xmitMax
    && e'.tx.finQueued == e.tx.finQueued && e'.tx.maxSendSegmentSize == e.tx.maxSendSegmentSize
    && e'.logicalTimestamp >= e.logicalTimestamp
  }

  lemma SameQueueTxOk(e: Endpoint, e': Endpoint, log: seq<Segment>)
    requires TxOk(e, log) && SameQueue(e, e')
    ensures TxOk(e', log)
  {
    hide SenderInv, Logged, Outstanding;
  }

  lemma SameQueueKeeps(x: Node, e': Endpoint, y: Node)
    requires CoreOk(x, y) && SameQueue(x.e, e')
    ensures CoreOk(x.(e := e'), y)
  {
    hide TxOk, SentOk, ContentOk, FinOk, ReceiverInv, ReadListOk, Bytes, SenderInv;
    var x' := x.(e := e');
    SameQueueTxOk(x.e, e', x.log);
    SameOutstandingConserved(x.e.tx, e'.tx, x.log, y);
    assert SenderStep(x, x');
    SameReceiverEvolves(x, x');
    SentStaysOk(x, x');
    SenderStepKeeps(x, x', y);
  }

  /** A step that creates a packet and otherwise only sends. */
  lemma SendKeeps(x: Node, e': Endpoint, p: Packet, y: Node)
    requires CoreOk(x, y) && SameQueue(x.e, e')
    requires PacketOk(p, x.(e := e', sent := x.sent + {p}))
    requires !p.Rst? ==> p.stamp == x.e.logicalTimestamp
    ensures CoreOk(x.(e := e', sent := x.sent + {p}), y)
  {
    hide TxOk, SentOk, ContentOk, FinOk, ReceiverInv, ReadListOk, Bytes, SenderInv, PacketOk;
    var x' := x.(e := e', sent := x.sent + {p});
    SameQueueTxOk(x.e, e', x.log);
    SameOutstandingConserved(x.e.tx, e'.tx, x.log, y);
    assert SenderStep(x, x');
    SameReceiverEvolves(x, x');
    SentOneMore(x, x', p);
    SenderStepKeeps(x, x', y);
  }

  /** A step that queues a segment list and whatever state change goes with it. */
  lemma QueueKeeps(x: Node, x': Node, queued: seq<Segment>, y: Node)
    requires CoreOk(x, y) && SenderStep(x, x')
    requires x'.log == x.log + queued && x'.sent == x.sent && x'.accepted == x.accepted + Bytes(queued)
    requires Outstanding(x'.e.tx) == Outstanding(x.e.tx) + queued
    requires TxOk(x'.e, x'.log) && JoinOk(x')
    ensures CoreOk(x', y)
  {
    hide TxOk, SentOk, ContentOk, FinOk, ReceiverInv, ReadListOk, JoinOk, SenderStep, SizesOk;
    BytesConcat(x.log, queued);
    SameReceiverEvolves(x, x');
    SentStaysOk(x, x');
    QueuedConserved(x.e.tx, x'.e.tx, x.log, queued, y);
    SenderStepKeeps(x, x', y);
  }

  lemma QueuedConserved(tx: Sender, tx': Sender, log: seq<Segment>, queued: seq<Segment>, peer: Node)
    requires Conserved(tx, log, peer) && Outstanding(tx') == Outstanding(tx) + queued
    ensures Conserved(tx', log + queued, peer)
  {
    hide Outstanding;
    forall i | 0 <= i < |log + queued|
      ensures (log + queued)[i] in Outstanding(tx') || (peer.joined && Has(peer.e.rx, (log + queued)[i].num))
    {
      if i < |log| {
        assert (log + queued)[i] == log[i];
      } else {
        assert (log + queued)[i] in queued;
      }
    }
  }

  // ----------------------------------------------------------------- writes

  ghost predicate Continues(queued: seq<Segment>, log: seq<Segment>, tx: Sender) {
    && (forall i :: 0 <= i < |queued| ==> queued[i].num == tx.start + |log| + 1 + i)
    && (forall i :: 0 <= i < |queued| ==> queued[i].payload.Data?)
    && (forall i :: 0 <= i < |queued| ==> 0 < Used(queued[i]) <= tx.maxSendSegmentSize)
  }

  /** Segments numbered on from the end of the log extend it. */
  lemma ExtendLog(log: seq<Segment>, tx: Sender, tx': Sender, queued: seq<Segment>)
    requires LogInv(log, tx) && !tx.finQueued && Continues(queued, log, tx)
    requires tx'.start == tx.start && tx'.maxSendSegmentSize == tx.maxSendSegmentSize && !tx'.finQueued
    ensures LogInv(log + queued, tx')
  {
    var longer := log + queued;
    forall i | 0 <= i < |longer|
      ensures longer[i].num == tx.start + 1 + i && longer[i].payload.Data? && 0 < |longer[i].payload.bytes| <= tx.maxSendSegmentSize
    {
      if i < |log| {
        assert longer[i] == log[i];
      } else {
        assert longer[i] == queued[i - |log|];
      }
    }
  }

  lemma QueuedLogged(log: seq<Segment>, tx: Sender, queued: seq<Segment>)
    requires Continues(queued, log, tx)
    ensures Logged(queued, log + queued, tx.start)
  {
    forall s | s in queued ensures InLog(s, log + queued, tx.start) {
      var i :| 0 <= i < |queued| && queued[i] == s;
      assert (log + queued)[|log| + i] == s;
    }
  }

  lemma LoggedConcat(a: seq<Segment>, b: seq<Segment>, log: seq<Segment>, start: int)
    requires Logged(a, log, start) && Logged(b, log, start)
    ensures Logged(a + b, log, start)
  {
  }

  lemma WriteTxOk(e: Endpoint, log: seq<Segment>, bytes: seq<byte>, available: nat)
    requires TxOk(e, log) && AcceptsWrites(e.state)
    ensures TxOk(e.(tx := SenderAfterWrite(e.tx, bytes, available)), log + Queued(e.tx, bytes, available))
  {
    hide SenderInv, Outstanding, Logged, LogInv, Cut;
    var queued, tx' := Queued(e.tx, bytes, available), SenderAfterWrite(e.tx, bytes, available);
    if queued == [] {
      assert log + queued == log;
      assert e.(tx := tx') == e;
    } else {
      CutNumbers(bytes, e.tx.maxSendSegmentSize, e.tx.xmitMax + 1, available + 1);
      assert Continues(queued, log, e.tx);
      ExtendLog(log, e.tx, tx', queued);
      QueuedLogged(log, e.tx, queued);
      OutstandingBelowMax(e, log);
      WriteKeepsSenderInv(e.tx, bytes, available);
      WriteOutstanding(e.tx, bytes, available);
      LoggedMonotone(Outstanding(e.tx), log, log + queued, e.tx.start);
      LoggedConcat(Outstanding(e.tx), queued, log + queued, e.tx.start);
    }
  }

  lemma NothingBytes()
    ensures Bytes([]) == []
  {
  }

  lemma WriteStep(x: Node, y: Node, bytes: seq<byte>, cwnd: real, cwndMax: real, available: nat)
    requires CoreOk(x, y)
    ensures CoreOk(NodeStep(x, y, DoWrite(bytes, cwnd, cwndMax, available)), y)
  {
    hide TxOk, SentOk, FlowOk, SizesOk, ReceiverInv, ReadListOk, Outstanding, Queued, CanWrite;
    var queued := Written(x.e, bytes, cwnd, cwndMax, available);
    var x' := NodeStep(x, y, DoWrite(bytes, cwnd, cwndMax, available));
    if WriteStatus(x.e) == StatusOk && CanWrite(x.e.tx, cwnd, cwndMax) > 0 {
      WriteTxOk(x.e, x.log, bytes, available);
      WriteOutstanding(x.e.tx, bytes, available);
      NotFinWhileWriting(x.e, x.log);
      assert (x.log + queued)[..|x.log|] == x.log;
      QueueKeeps(x, x', queued, y);
    } else {
      NothingBytes();
      assert x.log + [] == x.log;
      assert x.accepted + [] == x.accepted;
      assert x' == x;
    }
  }

  lemma NotFinWhileWriting(e: Endpoint, log: seq<Segment>)
    requires TxOk(e, log) && AcceptsWrites(e.state)
    ensures !e.tx.finQueued
  {
    hide SenderInv, Logged, LogInv, Outstanding;
  }

  // ------------------------------------------------------------------ close

  /** After close, with data outstanding, FIN waits for its ack. */
  lemma CloseWaitsOk(e: Endpoint, log: seq<Segment>)
    requires TxOk(e, log) && (e.state == CloseWait || e.state == Established)
    requires e.tx.unacked != [] || e.tx.sendList != []
    ensures TxOk(Close(e), log)
  {
    hide SenderInv, Logged, LogInv;
    assert |Outstanding(e.tx)| == |e.tx.unacked| + |e.tx.sendList|;
  }

  lemma CloseQueuesOk(e: Endpoint, log: seq<Segment>)
    requires TxOk(e, log) && (e.state == CloseWait || e.state == Established)
    requires e.tx.unacked == [] && e.tx.sendList == []
    ensures !e.tx.finQueued && e.tx.xmitMax == e.tx.start + |log|
    ensures TxOk(Close(e), log + [Segment(e.tx.xmitMax + 1, Fin)])
    ensures Outstanding(Close(e).tx) == Outstanding(e.tx) + [Segment(e.tx.xmitMax + 1, Fin)]
  {
    hide TxOk, SenderInv, Outstanding, AddFin;
    CloseNumbers(e, log);
    OutstandingBelowMax(e, log);
    AddFinKeepsSenderInv(e.tx);
    NothingOutstanding(e.tx);
    AddFinOk(e, log, Close(e).state);
  }

  lemma CloseNumbers(e: Endpoint, log: seq<Segment>)
    requires TxOk(e, log) && (e.state == CloseWait || e.state == Established)
    ensures !e.tx.finQueued && e.tx.xmitMax == e.tx.start + |log| && SenderInv(e.tx)
  {
    hide SenderInv, LogInv, Logged, Outstanding;
  }

  lemma NothingOutstanding(tx: Sender)
    requires tx.unacked == [] && tx.sendList == []
    ensures Outstanding(tx) == []
  {
  }

  lemma FinBytes(num: int)
    ensures Bytes([Segment(num, Fin)]) == []
  {
    assert [Segment(num, Fin)][..0] == [];
  }

  lemma AbortOk(e: Endpoint, log: seq<Segment>, state: State)
    requires TxOk(e, log) && (state == Aborted || state == AbortedRst || state == Closed)
    ensures TxOk(e.(state := state), log)
  {
    hide SenderInv, Logged, LogInv, Outstanding;
  }

  /** A state that ends the stream. */
  lemma EndKeeps(x: Node, y: Node, state: State)
    requires CoreOk(x, y) && (state == Aborted || state == AbortedRst || (state == Closed && AfterFinReceived(x.e.state)))
    ensures CoreOk(x.(e := x.e.(state := state)), y)
  {
    hide TxOk, SentOk, ContentOk, FinOk, ReceiverInv, ReadListOk, Bytes, Conserved, SizesOk;
    var x' := x.(e := x.e.(state := state));
    AbortOk(x.e, x.log, state);
    assert SenderStep(x, x');
    SameReceiverEvolves(x, x');
    SentStaysOk(x, x');
    SenderStepKeeps(x, x', y);
  }

  lemma CloseStep(x: Node, y: Node)
    requires CoreOk(x, y)
    ensures CoreOk(NodeStep(x, y, DoClose), y)
  {
    hide TxOk, SentOk, FlowOk, SizesOk, ReceiverInv, ReadListOk, Outstanding, AddFin, Bytes;
    var e, x' := x.e, NodeStep(x, y, DoClose);
    if e.state == CloseWait || e.state == Established {
      if e.tx.unacked == [] && e.tx.sendList == [] {
        var fin := Segment(e.tx.xmitMax + 1, Fin);
        CloseQueuesOk(e, x.log);
        AddFinFields(e.tx);
        AddFinConstants(e.tx);
        FinBytes(e.tx.xmitMax + 1);
        assert (x.log + [fin])[..|x.log|] == x.log;
        assert x.accepted + [] == x.accepted;
        QueueKeeps(x, x', [fin], y);
      } else {
        CloseWaitsOk(e, x.log);
        assert x.log + [] == x.log;
        NothingBytes();
        assert Outstanding(e.tx) + [] == Outstanding(e.tx);
        QueueKeeps(x, x', [], y);
      }
    } else if Opening(e.state) && e.state != State.Idle {
      EndKeeps(x, y, Aborted);
    }
  }

  lemma AddFinConstants(tx: Sender)
    ensures var tx' := AddFin(tx);
            tx'.maxSendSegmentSize == tx.maxSendSegmentSize && tx'.maxAdvertised == tx.maxAdvertised
  {
  }

  // ---------------------------------------------------------------- packets

  lemma SentLogged(e: Endpoint, log: seq<Segment>, room: int)
    requires TxOk(e, log)
    ensures Logged(SentSegments(e.tx, room), log, e.tx.start)
  {
    hide SentSegments, Outstanding, SenderInv;
    SentWasOutstanding(e.tx, room);
  }

  lemma AckOfTrue(rx: Receiver, timestampToEcho: int, maxBlocks: nat)
    requires ReceiverInv(rx) && maxBlocks >= 2
    ensures AckTrue(AckOf(rx, timestampToEcho, maxBlocks), rx)
  {
    hide GapsOf;
    AckIsSound(rx, timestampToEcho, maxBlocks);
    EdgeWithinPromise(rx);
  }

  lemma AfterAckPacketSame(e: Endpoint, room: int, dataEvent: bool)
    requires SenderInv(e.tx)
    ensures SameQueue(e, AfterAckPacket(e, room, dataEvent))
    ensures AfterAckPacket(e, room, dataEvent).logicalTimestamp == e.logicalTimestamp + 1
    ensures AfterAckPacket(e, room, dataEvent).tx.maxAdvertised == e.tx.maxAdvertised
    ensures AfterAckPacket(e, room, dataEvent).timestampToEcho == e.timestampToEcho
  {
    hide Batch;
    SendKeepsSenderInv(e.tx, room, e.logicalTimestamp);
    SendOutstanding(e.tx, room, e.logicalTimestamp);
  }

  lemma SendAckStep(x: Node, y: Node, room: int, maxBlocks: nat, dataEvent: bool)
    requires CoreOk(x, y)
    ensures CoreOk(NodeStep(x, y, DoSendAck(room, maxBlocks, dataEvent)), y)
  {
    hide TxOk, FlowOk, SizesOk, ReceiverInv, ReadListOk, AckTrue, AckOf, SentSegments, AfterAckPacket, Logged;
    hide SameQueue;
    var x' := NodeStep(x, y, DoSendAck(room, maxBlocks, dataEvent));
    if x' != x {
      var e', p := AfterAckPacket(x.e, room, dataEvent), AckPacket(x.e, room, maxBlocks);
      TxOkSender(x.e, x.log);
      AfterAckPacketSame(x.e, room, dataEvent);
      SameQueueFields(x.e, e');
      SentLogged(x.e, x.log, room);
      AckOfTrue(x.e.rx, x.e.timestampToEcho, maxBlocks);
      SendKeeps(x, e', p, y);
    }
  }

  lemma TxOkSender(e: Endpoint, log: seq<Segment>)
    requires TxOk(e, log)
    ensures SenderInv(e.tx)
  {
  }

  lemma SameQueueFields(e: Endpoint, e': Endpoint)
    requires SameQueue(e, e')
    ensures e'.rx == e.rx && e'.state == e.state && e'.tx.start == e.tx.start
    ensures e'.tx.maxSendSegmentSize == e.tx.maxSendSegmentSize
  {
  }

  lemma NextStampSame(e: Endpoint)
    requires SenderInv(e.tx)
    ensures SameQueue(e, NextStamp(e))
  {
  }

  lemma SendSynStep(x: Node, y: Node)
    requires CoreOk(x, y)
    ensures CoreOk(NodeStep(x, y, DoSendSyn), y)
  {
    hide TxOk, FlowOk, SizesOk, ReceiverInv, ReadListOk, SameQueue;
    if x.e.state == SynSent {
      TxOkSender(x.e, x.log);
      NextStampSame(x.e);
      SendKeeps(x, NextStamp(x.e), SynPacket(x.e), y);
    }
  }

  lemma SendSynAckStep(x: Node, y: Node, maxBlocks: nat)
    requires CoreOk(x, y)
    ensures CoreOk(NodeStep(x, y, DoSendSynAck(maxBlocks)), y)
  {
    hide TxOk, FlowOk, SizesOk, ReceiverInv, ReadListOk, AckTrue, AckOf, SameQueue;
    var x' := NodeStep(x, y, DoSendSynAck(maxBlocks));
    if x' != x {
      TxOkSender(x.e, x.log);
      NextStampSame(x.e);
      AckOfTrue(x.e.rx, x.e.timestampToEcho, maxBlocks);
      SendKeeps(x, NextStamp(x.e), SynAckPacket(x.e, maxBlocks), y);
    }
  }

  lemma SendRstStep(x: Node, y: Node)
    requires CoreOk(x, y)
    ensures CoreOk(NodeStep(x, y, DoSendRst), y)
  {
    hide TxOk, FlowOk, SizesOk, ReceiverInv, ReadListOk, SameQueue, SentOk, JoinOk, Bytes;
    if x.e.state == Aborted {
      EndKeeps(x, y, AbortedRst);
      var x1 := x.(e := x.e.(state := AbortedRst));
      TxOkSender(x1.e, x1.log);
      SameQueueRefl(x1.e);
      SendKeeps(x1, x1.e, Rst(0), y);
    }
  }

  lemma SameQueueRefl(e: Endpoint)
    requires SenderInv(e.tx)
    ensures SameQueue(e, e)
  {
  }

  // ------------------------------------------------------------------ events

  lemma AllocateSendSame(e: Endpoint, available: nat)
    requires SenderInv(e.tx)
    ensures SameQueue(e, e.(tx := AllocateSend(e.tx, available)))
  {
  }

  lemma TimeoutSame(e: Endpoint)
    requires SenderInv(e.tx)
    ensures SameQueue(e, Timeout(e))
  {
    TimeoutKeepsSenderInv(e.tx);
  }

  lemma SenderEventStep(x: Node, y: Node, act: Action)
    requires CoreOk(x, y)
    requires act.DoCreateFails? || act.DoTimeout? || act.DoRetrySend? || act.DoSendSegmentAvailable?
    ensures CoreOk(NodeStep(x, y, act), y)
  {
    hide TxOk, FlowOk, SizesOk, ReceiverInv, ReadListOk, SameQueue, Timeout, AllocateSend;
    var e, x' := x.e, NodeStep(x, y, act);
    TxOkSender(e, x.log);
    NextStampSame(e);
    TimeoutSame(e);
    if x' != x {
      if act.DoRetrySend? || act.DoSendSegmentAvailable? {
        AllocateSendSame(e, act.available);
      }
      SameQueueKeeps(x, x'.e, y);
    }
  }

  lemma AllocateContent(rx: Receiver, got: seq<byte>, log: seq<Segment>, start: int, available: nat)
    requires ReceiverInv(rx) && ContentOk(rx, got, log, start)
    ensures ContentOk(AllocateRecv(rx, available), got, log, start)
  {
    hide ReadOk, InLog;
  }

  lemma AllocateRecvKeeps(x: Node, y: Node, available: nat)
    requires CoreOk(x, y) && x.joined
    requires x.e.rx.allocationPending || x.e.rx.recvMaxAllocated == x.e.rx.recvMax
    requires x.e.state != Accept && x.e.state != WaitAccept
    ensures CoreOk(x.(e := x.e.(rx := AllocateRecv(x.e.rx, available))), y)
  {
    hide TxOk, SentOk, ContentOk, Conserved, SizesOk, ReceiverInv, ReadListOk, Bytes;
    var x' := x.(e := x.e.(rx := AllocateRecv(x.e.rx, available)));
    AllocateKeepsInv(x.e.rx, available);
    AllocateContent(x.e.rx, x.got, y.log, y.e.tx.start, available);
    SameSender(x.e, x'.e, x.log);
    ReceiverStepKeeps(x, x', y);
  }

  lemma ReceiverEventStep(x: Node, y: Node, act: Action)
    requires CoreOk(x, y) && (act.DoRetryRecv? || act.DoRecvSegmentAvailable?)
    ensures CoreOk(NodeStep(x, y, act), y)
  {
    hide TxOk, SentOk, FlowOk, SizesOk, ReceiverInv, ReadListOk, AllocateRecv;
    var x' := NodeStep(x, y, act);
    if x'.e != x.e {
      AllocateRecvKeeps(x, y, act.available);
    }
  }

  // ------------------------------------------------------------------- reads

  /** Reading moves bytes from the read list to what has been got. */
  lemma {:induction false} ConsumeReadOk(list: seq<ReadSegment>, got: seq<byte>, log: seq<Segment>, n: nat, count: nat)
    requires ReadListOk(list) && n <= |log| && ReadOk(list, got, log, n) && count <= |StreamReceiver.Available(list)|
    ensures ReadOk(Consume(list, count), got + StreamReceiver.Available(list)[..count], log, n)
    decreases |list|
  {
    hide ReadOk;
    var available := StreamReceiver.Available(list);
    if !HasReadData(list) || count == 0 {
      assert got + available[..0] == got;
    } else {
      var bytes, used := list[0].seg.payload.bytes, list[0].used;
      var rest := |bytes| - used;
      if rest <= count {
        FinishSegment(list, got, log, n);
        ConsumeReadOk(list[1..], got + bytes[used..], log, n, count - rest);
        assert available == bytes[used..] + StreamReceiver.Available(list[1..]);
        assert available[..count] == bytes[used..] + StreamReceiver.Available(list[1..])[..count - rest];
        assert got + available[..count] == got + bytes[used..] + StreamReceiver.Available(list[1..])[..count - rest];
      } else {
        assert available[..count] == bytes[used..used + count];
        PartSegment(list, got, log, n, count);
      }
    }
  }

  lemma FinishSegment(list: seq<ReadSegment>, got: seq<byte>, log: seq<Segment>, n: nat)
    requires n <= |log| && ReadOk(list, got, log, n) && HasReadData(list) && ReadListOk(list)
    ensures ReadOk(list[1..], got + list[0].seg.payload.bytes[list[0].used..], log, n)
  {
    var m := |list|;
    var front := log[..n - m + 1];
    assert front[..n - m] == log[..n - m];
    assert front[n - m] == list[0].seg;
    var bytes, used := list[0].seg.payload.bytes, list[0].used;
    assert bytes[..used] + bytes[used..] == bytes;
    assert Bytes(front) == Bytes(log[..n - m]) + bytes;
    if m > 1 && list[1].seg.payload.Data? {
      assert list[1].seg.payload.bytes[..0] == [];
    }
  }

  lemma PartSegment(list: seq<ReadSegment>, got: seq<byte>, log: seq<Segment>, n: nat, count: nat)
    requires n <= |log| && ReadOk(list, got, log, n) && HasReadData(list)
    requires list[0].used + count <= |list[0].seg.payload.bytes|
    ensures var used := list[0].used;
            ReadOk([list[0].(used := used + count)] + list[1..], got + list[0].seg.payload.bytes[used..used + count], log, n)
  {
    hide Bytes;
    var bytes, used := list[0].seg.payload.bytes, list[0].used;
    assert bytes[..used] + bytes[used..used + count] == bytes[..used + count];
  }

  lemma ReadKeepsReceiver(e: Endpoint, room: nat)
    requires ReceiverInv(e.rx) && ReadListOk(e.rx.recvRead)
    ensures var rx' := Read(e, room).rx;
            ReceiverInv(rx') && ReadListOk(rx'.recvRead) && Grows(e.rx, rx') && rx'.window == e.rx.window &&
            rx'.recvTop == e.rx.recvTop
  {
    hide Consume, StreamReceiver.Available, ReadListOk, ReadStatus;
    ConsumeKeepsOk(e.rx.recvRead, |ReadBytes(e, room)|);
  }

  lemma {:induction false} ConsumeKeepsFin(list: seq<ReadSegment>, n: nat)
    requires ReadListOk(list) && EndsWithFin(list)
    ensures EndsWithFin(Consume(list, n))
  {
    if HasReadData(list) && n != 0 {
      var rest := |list[0].seg.payload.bytes| - list[0].used;
      assert list[1..][|list| - 2] == list[|list| - 1];
      if rest <= n {
        ConsumeKeepsFin(list[1..], n - rest);
      }
    }
  }

  lemma ReadKeepsFin(e: Endpoint, room: nat)
    requires ReadListOk(e.rx.recvRead) && EndsWithFin(e.rx.recvRead)
    ensures EndsWithFin(Read(e, room).rx.recvRead)
  {
    hide Consume, ReadStatus, ReadListOk, EndsWithFin;
    ConsumeKeepsFin(e.rx.recvRead, |ReadBytes(e, room)|);
  }

  lemma ReadContent(e: Endpoint, got: seq<byte>, log: seq<Segment>, start: int, room: nat)
    requires ReceiverInv(e.rx) && ReadListOk(e.rx.recvRead) && ContentOk(e.rx, got, log, start)
    ensures ContentOk(Read(e, room).rx, got + ReadBytes(e, room), log, start)
  {
    hide Consume, ReadListOk, ReadOk, InLog;
    if ReadStatus(e) == StatusOk {
      ConsumeReadOk(e.rx.recvRead, got, log, e.rx.recvTop - start, |ReadBytes(e, room)|);
      var available := StreamReceiver.Available(e.rx.recvRead);
      assert available[..|available|] == available;
    } else {
      assert got + [] == got;
    }
  }

  lemma NothingToRead(x: Node, room: nat)
    requires JoinOk(x) && !x.joined && ReadListOk(x.e.rx.recvRead)
    ensures Read(x.e, room) == x.e && ReadBytes(x.e, room) == []
  {
  }

  lemma ReadStepKeeps(x: Node, y: Node, room: nat)
    requires CoreOk(x, y)
    ensures CoreOk(NodeStep(x, y, DoRead(room)), y)
  {
    hide TxOk, SentOk, ContentOk, Conserved, SizesOk, ReceiverInv, ReadListOk, Bytes, Read, ReadBytes;
    var x' := NodeStep(x, y, DoRead(room));
    if x.joined {
      ReadKeepsReceiver(x.e, room);
      ReadContent(x.e, x.got, y.log, y.e.tx.start, room);
      ReadFields(x.e, room);
      if EndsWithFin(x.e.rx.recvRead) {
        ReadKeepsFin(x.e, room);
      }
      SameSender(x.e, x'.e, x.log);
      ReceiverStepKeeps(x, x', y);
    } else {
      NothingToRead(x, room);
      assert x.got + [] == x.got;
      assert x' == x;
    }
  }

  lemma ReadFields(e: Endpoint, room: nat)
    requires ReadListOk(e.rx.recvRead)
    ensures var e' := Read(e, room);
            && e' == e.(rx := e.rx.(recvRead := e'.rx.recvRead))
  {
  }
}
