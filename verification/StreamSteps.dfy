/** Every step of a node keeps the invariant it has with its peer. */
module StreamSteps {
  import opened AckGaps
  import opened Basics
  import opened StreamTypes
  import opened StreamSender
  import opened StreamReceiver
  import opened StreamEndpoint
  import opened StreamSystem

  // ------------------------------------------------------ what nodes do in time

  /** What no step of a node takes back. */
  ghost predicate Evolves(x: Node, x': Node) {
    && x'.side == x.side
    && x'.e.tx.start == x.e.tx.start
    && x.log <= x'.log
    && (x.joined ==> Grows(x.e.rx, x'.e.rx) && x'.joined)
    && (x.e.state != State.Idle ==> x'.e.state != State.Idle)
    && (x.joined || !x'.joined ==>
          x'.e.tx.maxSendSegmentSize == x.e.tx.maxSendSegmentSize && x'.e.rx.maxRecvSegmentSize == x.e.rx.maxRecvSegmentSize)
    && x.e.logicalTimestamp <= x'.e.logicalTimestamp
  }

  lemma LoggedMonotone(segs: seq<Segment>, log: seq<Segment>, log': seq<Segment>, start: int)
    requires Logged(segs, log, start) && log <= log'
    ensures Logged(segs, log', start)
  {
  }

  lemma OldPacketOk(p: Packet, x: Node, x': Node)
    requires PacketOk(p, x) && Evolves(x, x')
    ensures PacketOk(p, x')
  {
    if p.Ack? {
      LoggedMonotone(p.segments, x.log, x'.log, x.e.tx.start);
    }
  }

  /** A step that creates no packet keeps the old ones true. */
  lemma SentStaysOk(x: Node, x': Node)
    requires SentOk(x) && Evolves(x, x') && x'.sent == x.sent
    ensures SentOk(x')
  {
    forall p | p in x'.sent ensures PacketOk(p, x') {
      OldPacketOk(p, x, x');
    }
  }

  /** A step that creates a packet with the next stamp. */
  lemma SentOneMore(x: Node, x': Node, p: Packet)
    requires SentOk(x) && Evolves(x, x') && x'.sent == x.sent + {p}
    requires PacketOk(p, x')
    requires !p.Rst? ==> p.stamp == x.e.logicalTimestamp
    ensures SentOk(x')
  {
    forall q | q in x.sent ensures PacketOk(q, x') {
      OldPacketOk(q, x, x');
    }
  }

  lemma ReadOkMonotone(list: seq<ReadSegment>, got: seq<byte>, log: seq<Segment>, log': seq<Segment>, n: nat)
    requires n <= |log| && log <= log' && ReadOk(list, got, log, n)
    ensures ReadOk(list, got, log', n)
  {
    assert log'[..n - |list|] == log[..n - |list|];
  }

  /** The receiver's view survives a longer log. */
  lemma ContentMonotone(rx: Receiver, got: seq<byte>, log: seq<Segment>, log': seq<Segment>, start: int)
    requires ContentOk(rx, got, log, start) && log <= log'
    ensures ContentOk(rx, got, log', start)
  {
    ReadOkMonotone(rx.recvRead, got, log, log', rx.recvTop - start);
    forall i | 0 <= i < |rx.window| && rx.window[i].content.Some?
      ensures InLog(Segment(rx.window[i].num, rx.window[i].content.value), log', start)
    {
      assert InLog(Segment(rx.window[i].num, rx.window[i].content.value), log, start);
    }
  }

  lemma OutstandingBelowMax(e: Endpoint, log: seq<Segment>)
    requires TxOk(e, log)
    ensures forall s :: s in Outstanding(e.tx) ==> s.num <= e.tx.xmitMax
  {
    forall s | s in Outstanding(e.tx) ensures s.num <= e.tx.xmitMax {
      assert InLog(s, log, e.tx.start);
    }
  }

  lemma SomeElement(segs: seq<Segment>)
    ensures segs != [] ==> exists s :: s in segs
  {
    if segs != [] {
      assert segs[0] in segs;
    }
  }

  lemma AtMostOne(segs: seq<Segment>, s: Segment)
    requires Sorted(segs) && forall x :: x in segs ==> x == s
    ensures |segs| <= 1
  {
    assert |segs| > 1 ==> segs[0].num < segs[1].num;
    forall i | 0 <= i < |segs| ensures segs[i] == s {
      assert segs[i] in segs;
    }
  }

  /** Once FIN is queued, at most FIN is outstanding. */
  lemma OnlyFinOutstanding(e: Endpoint, log: seq<Segment>)
    requires TxOk(e, log) && e.tx.finQueued
    ensures |Outstanding(e.tx)| <= 1
    ensures forall s :: s in Outstanding(e.tx) ==> s == log[|log| - 1]
  {
    var o := Outstanding(e.tx);
    forall s | s in o ensures s == log[|log| - 1] {
      assert InLog(s, log, e.tx.start) && s.payload.Fin?;
    }
    AtMostOne(o, log[|log| - 1]);
  }

  /** A FIN outstanding means FIN has been queued. */
  lemma FinOutstanding(e: Endpoint, log: seq<Segment>, s: Segment)
    requires TxOk(e, log) && s in Outstanding(e.tx) && s.payload.Fin?
    ensures e.tx.finQueued && s == log[|log| - 1]
  {
    assert InLog(s, log, e.tx.start);
  }

  // ------------------------------------------------------- acknowledgement

  /** The tx part of handling an ack, window included. */
  lemma AdvertiseOk(e: Endpoint, log: seq<Segment>, edge: int)
    requires TxOk(e, log)
    ensures TxOk(e.(tx := Advertise(e.tx, edge)), log)
    ensures Outstanding(Advertise(e.tx, edge)) == Outstanding(e.tx)
  {
    hide SenderInv, LogInv, Logged, Outstanding, Advertise;
    AdvertiseKeepsSenderInv(e.tx, edge);
    AdvertiseFields(e.tx, edge, log);
  }

  lemma AdvertiseFields(tx: Sender, edge: int, log: seq<Segment>)
    ensures var tx' := Advertise(tx, edge);
            && tx'.start == tx.start && tx'.xmitMax == tx.xmitMax && tx'.maxSendSegmentSize == tx.maxSendSegmentSize
            && tx'.finQueued == tx.finQueued && tx'.maxAdvertised == edge
            && (LogInv(log, tx) ==> LogInv(log, tx'))
  {
  }

  lemma SynRcvdEstablished(e: Endpoint, log: seq<Segment>)
    requires TxOk(e, log) && e.state == SynRcvd
    ensures TxOk(e.(state := Established), log)
  {
  }

  lemma EmptyFromAll(e: Endpoint, ack: AckExtension)
    requires forall s :: s in Outstanding(e.tx) ==> s in Segs(e.tx.unacked) && Acked(s.num, ack.maxAcked, ack.gaps)
    ensures Remaining(e.tx.unacked, ack) == []
  {
    RemainingIsFilter(e.tx.unacked, ack);
    var rest := Remaining(e.tx.unacked, ack);
    SomeElement(Segs(rest));
  }

  /** When FIN is acknowledged nothing is left. */
  lemma FinAckedEmpties(e: Endpoint, log: seq<Segment>, ack: AckExtension)
    requires TxOk(e, log) && FinAcked(e.tx, ack)
    ensures e.tx.finQueued && e.tx.sendList == [] && Remaining(e.tx.unacked, ack) == []
  {
    var i :| 0 <= i < |e.tx.unacked| && e.tx.unacked[i].seg.payload.Fin? && Acked(e.tx.unacked[i].seg.num, ack.maxAcked, ack.gaps);
    var s := Segs(e.tx.unacked)[i];
    assert s in Outstanding(e.tx);
    FinOutstanding(e, log, s);
    OnlyFinOutstanding(e, log);
    assert |Outstanding(e.tx)| == 1;
    assert |e.tx.unacked| == 1;
    EmptyFromAll(e, ack);
  }

  /** After close, when an ack leaves nothing outstanding, FIN is queued or was
      the last thing acknowledged. */
  lemma NothingLeft(e: Endpoint, log: seq<Segment>, ack: AckExtension)
    requires TxOk(e, log) && AwaitsFinAck(e.state)
    requires Outstanding(WithoutAcked(e.tx, ack)) == []
    ensures e.tx.unacked != [] && Remaining(e.tx.unacked, ack) == [] && e.tx.sendList == []
    ensures e.tx.finQueued ==> FinAcked(e.tx, ack)
  {
    var left := WithoutAcked(e.tx, ack);
    assert |Segs(left.unacked)| == 0 && |Segs(left.sendList)| == 0;
    assert |Outstanding(e.tx)| == |e.tx.unacked|;
    if e.tx.finQueued {
      var s := Segs(e.tx.unacked)[0];
      assert s in Outstanding(e.tx);
      RemainingIsFilter(e.tx.unacked, ack);
      assert Acked(s.num, ack.maxAcked, ack.gaps);
      assert e.tx.unacked[0].seg == s;
    }
  }

  /** The sending half after an ack. */
  function AckedEndpoint(e: Endpoint, ack: AckExtension): Endpoint {
    e.(state := StateAfterAck(e.state, e.tx, ack), tx := SenderAfterAck(e.state, e.tx, ack))
  }

  function LogAfterAck(e: Endpoint, log: seq<Segment>, ack: AckExtension): seq<Segment> {
    var tx' := SenderAfterAck(e.state, e.tx, ack);
    if tx'.finQueued && !e.tx.finQueued then log + [Segment(tx'.xmitMax, Fin)] else log
  }

  predicate QueuesFin(e: Endpoint, ack: AckExtension) {
    !e.tx.finQueued && SenderAfterAck(e.state, e.tx, ack).finQueued
  }

  lemma QueuesFinShape(e: Endpoint, ack: AckExtension)
    ensures QueuesFin(e, ack) ==>
              SenderAfterAck(e.state, e.tx, ack) == AddFin(WithoutAcked(e.tx, ack)) &&
              Outstanding(WithoutAcked(e.tx, ack)) == [] && AwaitsFinAck(StateAfterAck(e.state, e.tx, ack))
    ensures !QueuesFin(e, ack) ==> SenderAfterAck(e.state, e.tx, ack) == WithoutAcked(e.tx, ack)
  {
  }

  lemma AppendFinLogged(tx: Sender, log: seq<Segment>)
    requires LogInv(log, tx) && !tx.finQueued && tx.xmitMax == tx.start + |log|
    ensures LogInv(log + [Segment(tx.xmitMax + 1, Fin)], AddFin(tx))
  {
  }

  /** Queuing FIN when nothing is outstanding, in a state that awaits its ack. */
  lemma WithoutAckedLogged(e: Endpoint, log: seq<Segment>, ack: AckExtension)
    requires TxOk(e, log)
    ensures SenderInv(WithoutAcked(e.tx, ack))
    ensures Logged(Outstanding(WithoutAcked(e.tx, ack)), log, e.tx.start)
    ensures forall s :: s in Outstanding(WithoutAcked(e.tx, ack)) ==> s in Outstanding(e.tx)
  {
    WithoutAckedInv(e.tx, ack);
  }

  lemma NotAwaitingAfterFinAck(state: State)
    ensures !AwaitsFinAck(OnFinAcked(state))
  {
  }

  lemma AckedEmptyStaysEmpty(tx: Sender, ack: AckExtension)
    requires Outstanding(tx) == []
    ensures Outstanding(WithoutAcked(tx, ack)) == [] && !FinAcked(tx, ack)
  {
    assert |Segs(tx.unacked)| == 0;
  }

  lemma AckNoFinOk(e: Endpoint, log: seq<Segment>, ack: AckExtension)
    requires TxOk(e, log) && !QueuesFin(e, ack)
    ensures TxOk(AckedEndpoint(e, ack), log)
  {
    hide FinAcked, WithoutAcked, SenderInv, Logged, Sorted;
    var e' := AckedEndpoint(e, ack);
    QueuesFinShape(e, ack);
    WithoutAckedLogged(e, log, ack);
    WithoutAckedFields(e.tx, ack, log);
    NotAwaitingAfterFinAck(e.state);
    if FinAcked(e.tx, ack) {
      FinAckedEmpties(e, log, ack);
      assert Outstanding(e'.tx) == [];
    } else if AwaitsFinAck(e.state) && Outstanding(WithoutAcked(e.tx, ack)) == [] {
      NothingLeft(e, log, ack);
    } else if Outstanding(e.tx) == [] {
      AckedEmptyStaysEmpty(e.tx, ack);
    }
  }

  lemma WithoutAckedFields(tx: Sender, ack: AckExtension, log: seq<Segment>)
    ensures var left := WithoutAcked(tx, ack);
            && left.start == tx.start && left.xmitMax == tx.xmitMax && left.finQueued == tx.finQueued
            && left.sendList == tx.sendList && left.unacked == Remaining(tx.unacked, ack)
            && (LogInv(log, tx) ==> LogInv(log, left))
  {
  }

  lemma AckFinOk(e: Endpoint, log: seq<Segment>, ack: AckExtension)
    requires TxOk(e, log) && QueuesFin(e, ack)
    ensures AckedEndpoint(e, ack) == e.(tx := AddFin(WithoutAcked(e.tx, ack)))
    ensures AwaitsFinAck(e.state) && e.tx.xmitMax == e.tx.start + |log|
    ensures TxOk(AckedEndpoint(e, ack), log + [Segment(e.tx.xmitMax + 1, Fin)])
  {
    hide FinAcked, OnFinAcked, WithoutAcked, SenderAfterAck, SenderInv, Logged, Outstanding, AddFin;
    var left := WithoutAcked(e.tx, ack);
    QueuesFinShape(e, ack);
    NotAwaitingAfterFinAck(e.state);
    WithoutAckedLogged(e, log, ack);
    WithoutAckedFields(e.tx, ack, log);
    OneFinOk(e, left, log);
  }

  lemma OneFinOk(e: Endpoint, left: Sender, log: seq<Segment>)
    requires AwaitsFinAck(e.state) && SenderInv(left) && LogInv(log, left) && !left.finQueued
    requires Outstanding(left) == [] && left.xmitMax == left.start + |log|
    ensures TxOk(e.(tx := AddFin(left)), log + [Segment(left.xmitMax + 1, Fin)])
  {
    hide SenderInv, LogInv, AddFin, Sorted;
    AddFinKeepsSenderInv(left);
    AppendFinLogged(left, log);
    AddFinFields(left);
  }

  lemma AddFinOk(e: Endpoint, log: seq<Segment>, state: State)
    requires TxOk(e, log) && !e.tx.finQueued && Outstanding(e.tx) == []
    requires e.tx.xmitMax == e.tx.start + |log|
    requires AwaitsFinAck(state)
    ensures TxOk(e.(state := state, tx := AddFin(e.tx)), log + [Segment(e.tx.xmitMax + 1, Fin)])
  {
    hide SenderInv, LogInv, AddFin, Logged, Outstanding;
    OneFinOk(e.(state := state), e.tx, log);
  }

  lemma AddFinFields(tx: Sender)
    ensures var tx' := AddFin(tx); tx'.finQueued && tx'.xmitMax == tx.xmitMax + 1 && tx'.start == tx.start
  {
  }

  lemma AckOk(e: Endpoint, log: seq<Segment>, ack: AckExtension)
    requires TxOk(e, log)
    ensures TxOk(AckedEndpoint(e, ack), LogAfterAck(e, log, ack))
  {
    QueuesFinShape(e, ack);
    if QueuesFin(e, ack) {
      AckFinOk(e, log, ack);
    } else {
      AckNoFinOk(e, log, ack);
    }
  }
}
