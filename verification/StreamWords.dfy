/** The 32 bit stream refines the stream on unbounded numbers: in every run the
    code's methods meet their preconditions, which say that no number is compared
    with one half the number space away. That holds of all numbers an end keeps, and
    has to be assumed of nothing but a delivered packet: that it is not ancient. */
module StreamWords {
  import opened AckGaps
  import opened Basics
  import opened SequenceNumbers
  import opened StreamTypes
  import opened StreamSender
  import opened StreamReceiver
  import opened StreamEndpoint
  import opened StreamSystem
  import opened StreamSteps
  import opened StreamNode
  import opened StreamHandshake
  import opened StreamRun
  import opened StreamAcked
  import opened StreamTheorems
  import opened StreamBounds
  import opened StreamWalk
  import opened StreamNear

  /** Half the number space, less a receive window at either end. */
  const SPAN: int := TWO_31 - 2 * (MAX_RECV_SEGMENTS + 1)

  predicate InReach(top: int, edge: int) {
    top - edge < SPAN && edge - top <= MAX_RECV_SEGMENTS
  }

  /** Fewer than SPAN numbers are outstanding, and the window in use ends no more
      than SPAN numbers ago and not far beyond the last number. */
  ghost predicate InSpan(tx: Sender) {
    && (forall s :: s in Outstanding(tx) ==> tx.xmitMax - s.num < SPAN)
    && (tx.unacked == [] || InReach(tx.xmitMax, tx.maxAdvertised))
  }

  predicate RecentAck(tx: Sender, ack: AckExtension) {
    tx.xmitMax - Bottom(ack) < SPAN
  }

  /** A packet of node y delivered to node x is not SPAN numbers, or half the
      number space of stamps, old. A reset may be. */
  ghost predicate Recent(p: Packet, x: Node, y: Node) {
    && (!p.Rst? ==> Comparable(x.e.timestampToEcho, p.stamp))
    && (p.SynAck? || p.Ack? ==> forall ack :: ack in p.acks ==> RecentAck(x.e.tx, ack))
    && (p.Ack? ==> forall s :: s in p.segments ==> y.e.tx.xmitMax - s.num < SPAN)
  }

  lemma OutstandingUnacked(tx: Sender, i: nat)
    requires i < |tx.unacked|
    ensures tx.unacked[i].seg in Outstanding(tx)
  {
    assert Outstanding(tx)[i] == tx.unacked[i].seg;
  }

  lemma XmitMaxIsTop(e: Endpoint, log: seq<Segment>)
    requires TxOk(e, log) && log != []
    ensures e.tx.xmitMax == e.tx.start + |log|
    ensures forall s :: s in Outstanding(e.tx) ==> s.num <= e.tx.xmitMax
  {
    hide SenderInv, LogInv;
  }

  lemma UnackedMeansLogged(e: Endpoint, log: seq<Segment>)
    requires TxOk(e, log) && e.tx.unacked != []
    ensures log != []
  {
    hide SenderInv, LogInv, Outstanding;
    OutstandingUnacked(e.tx, 0);
    assert InLog(e.tx.unacked[0].seg, log, e.tx.start);
  }

  /** The receiver has come no further than the log. */
  lemma ReceiverBehind(x: Node, y: Node)
    requires CoreOk(x, y) && y.joined && x.log != []
    ensures y.e.rx.recvTop <= x.e.tx.xmitMax
  {
    hide ReceiverInv, ReadListOk, SentOk, JoinOk, SizesOk, Bytes, Conserved, FinOk;
    XmitMaxIsTop(x.e, x.log);
  }

  lemma NearAckHolds(x: Node, y: Node, ack: AckExtension, stamp: int)
    requires CoreOk(x, y) && y.joined && AckTrue(ack, y.e.rx)
    requires InSpan(x.e.tx) && RecentAck(x.e.tx, ack) && Comparable(x.e.timestampToEcho, stamp)
    ensures NearAck(x.e, ack, stamp)
  {
    hide CoreOk, Outstanding;
    var tx := x.e.tx;
    if tx.unacked != [] {
      assert TxOk(x.e, x.log) by { CoreParts(x, y); }
      UnackedMeansLogged(x.e, x.log);
      XmitMaxIsTop(x.e, x.log);
      ReceiverBehind(x, y);
      forall i | 0 <= i < |tx.unacked| ensures tx.xmitMax - SPAN < tx.unacked[i].seg.num <= tx.xmitMax {
        OutstandingUnacked(tx, i);
      }
    }
  }

  lemma CoreParts(x: Node, y: Node)
    requires CoreOk(x, y)
    ensures TxOk(x.e, x.log) && ReceiverInv(x.e.rx) && LocalOk(x) && LocalOk(y)
  {
    hide TxOk, ReceiverInv, LocalOk;
    hide FlowOk, SizesOk;
    LocalParts(x);
  }

  lemma LocalParts(x: Node)
    requires LocalOk(x)
    ensures TxOk(x.e, x.log) && ReceiverInv(x.e.rx)
  {
  }

  /** The next number wanted is among those the peer has in use. */
  lemma NextWanted(x: Node, y: Node)
    requires CoreOk(x, y) && x.joined && InSpan(y.e.tx) && y.log != []
    ensures y.e.tx.xmitMax - x.e.rx.recvTop <= SPAN && x.e.rx.recvTop <= y.e.tx.xmitMax
  {
    hide ReadListOk, SentOk, JoinOk, SizesOk, Bytes, FinOk, Outstanding, ReadOk, SenderInv, Logged;
    var rx, n := x.e.rx, x.e.rx.recvTop - y.e.tx.start;
    XmitMaxIsTop(y.e, y.log);
    if n < |y.log| {
      assert y.log[n].num == rx.recvTop + 1;
      assert !Has(rx, rx.recvTop + 1);
      assert y.log[n] in Outstanding(y.e.tx);
    }
  }

  lemma NearSegmentHolds(x: Node, y: Node, s: Segment, low: int)
    requires CoreOk(x, y) && x.joined && InLog(s, y.log, y.e.tx.start)
    requires y.e.tx.xmitMax - s.num < SPAN && y.e.tx.xmitMax - low <= SPAN && low <= x.e.rx.recvTop
    ensures NearReceiver(x.e.rx, s.num)
  {
    hide ReadListOk, SentOk, JoinOk, SizesOk, Bytes, FinOk, Outstanding, ReadOk, SenderInv, Conserved, ReceiverInv;
    ReceiverBehind(y, x);
    XmitMaxIsTop(y.e, y.log);
  }

  lemma {:induction false} NearSegmentsHold(x: Node, y: Node, segments: seq<Segment>, available: seq<nat>, low: int)
    requires CoreOk(x, y) && x.joined && Logged(segments, y.log, y.e.tx.start)
    requires forall s :: s in segments ==> y.e.tx.xmitMax - s.num < SPAN
    requires y.e.tx.xmitMax - low <= SPAN && low <= x.e.rx.recvTop
    ensures ReceiverInv(x.e.rx) && NearSegments(x.e, segments, available)
    decreases |segments|
  {
    hide CoreOk, NearReceiver, ReceiverInv, HandleSegment;
    CoreParts(x, y);
    if segments != [] {
      var left := if available == [] then 0 else available[0];
      assert segments[0] in segments;
      NearSegmentHolds(x, y, segments[0], low);
      SegmentStep(x, y, segments[0], left);
      SegmentGrows(x.e, segments[0], left);
      NearSegmentsHold(SegmentNode(x, segments[0], left), y, segments[1..], From(available, 1), low);
    }
  }

  lemma SegmentGrows(e: Endpoint, s: Segment, available: nat)
    requires ReceiverInv(e.rx)
    ensures e.rx.recvTop <= HandleSegment(e, s, available).rx.recvTop
  {
    hide ReceiverInv, AfterData, AfterFin, Found;
    FinKeepsInv(e.rx, s.num, available);
    if s.payload.Data? {
      DataKeepsInv(e.rx, s.num, s.payload.bytes, available);
    }
  }

  lemma ReadyHolds(e: Endpoint, log: seq<Segment>)
    requires TxOk(e, log)
    ensures Ready(e.tx)
  {
    hide SenderInv;
    forall s | s in Outstanding(e.tx) ensures s.num <= e.tx.xmitMax && (s.payload.Fin? ==> e.tx.finQueued && s.num == e.tx.xmitMax) {
      assert InLog(s, log, e.tx.start);
    }
  }

  lemma OneNearAck(e: Endpoint, ack: AckExtension, stamp: int)
    requires NearAck(e, ack, stamp)
    ensures NearAcks(e, [ack], stamp)
  {
    hide NearAck, HandleAck;
    assert [ack][1..] == [];
  }

  lemma NearAckPacket(x: Node, y: Node, p: Packet, budget: Budget)
    requires CoreOk(x, y) && p in y.sent && p.Ack? && InSpan(x.e.tx) && InSpan(y.e.tx) && Recent(p, x, y) && x.joined
    ensures ReceiverInv(x.e.rx) && NearPacket(x.e, p, budget)
  {
    hide CoreOk, NearAck, NearAcks, NearSegments, HandleAck, HandleAcks, AckTrue, RecentAck, ReceiverInv, InSpan;
    hide Logged;
    var h := x.(e := Hear(x.e, p.stamp));
    CoreParts(x, y);
    SentTrue(y, p);
    HearStep(x, y, p.stamp);
    AcksStep(h, y, p);
    var ack := p.acks[0];
    assert ack in p.acks && p.acks == [ack];
    StampStaysNear(x, p);
    NearAckHolds(h, y, ack, p.stamp);
    OneNearAck(h.e, ack, p.stamp);
    var x1 := AckedNode(h, ack, p.stamp);
    AckedNodeFields(h, ack, p.stamp);
    CoreParts(x1, y);
    if p.segments != [] {
      assert p.segments[0] in p.segments;
      LoggedNonEmpty(p.segments, y.log, y.e.tx.start);
      NextWanted(x1, y);
      NearSegmentsHold(x1, y, p.segments, budget.segments, x1.e.rx.recvTop);
    } else {
      NoSegments(x1.e, budget.segments);
    }
  }

  lemma NoSegments(e: Endpoint, available: seq<nat>)
    requires ReceiverInv(e.rx)
    ensures NearSegments(e, [], available)
  {
  }

  lemma LoggedNonEmpty(segments: seq<Segment>, log: seq<Segment>, start: int)
    requires Logged(segments, log, start) && segments != []
    ensures log != []
  {
    assert segments[0] in segments;
  }

  lemma StampStaysNear(x: Node, p: Packet)
    requires Comparable(x.e.timestampToEcho, p.stamp)
    ensures Hear(x.e, p.stamp).tx == x.e.tx && Comparable(Hear(x.e, p.stamp).timestampToEcho, p.stamp)
  {
  }

  lemma SentTrue(y: Node, p: Packet)
    requires LocalOk(y) && p in y.sent
    ensures p.SynAck? || p.Ack? ==> y.joined && |p.acks| == 1 && AckTrue(p.acks[0], y.e.rx)
    ensures p.Ack? ==> Logged(p.segments, y.log, y.e.tx.start)
  {
    hide TxOk, JoinOk, ReceiverInv, ReadListOk, Bytes, AckTrue, Logged;
    assert PacketOk(p, y);
  }

  /** Joining changes neither the lists nor the numbers of the sending half. */
  lemma JoinKeepsSpan(x: Node, p: Packet, budget: Budget)
    requires p.SynAck?
    ensures var e := HandleSynAck(x.e, p, budget);
            && (InSpan(x.e.tx) ==> InSpan(e.tx)) && e.tx.xmitMax == x.e.tx.xmitMax
            && (Comparable(x.e.timestampToEcho, p.stamp) ==> Comparable(e.timestampToEcho, p.stamp))
  {
  }

  lemma NearSynAckPacket(x: Node, y: Node, p: Packet, budget: Budget)
    requires CoreOk(x, y) && p in y.sent && p.SynAck? && InSpan(x.e.tx) && Recent(p, x, y)
    ensures ReceiverInv(x.e.rx) && NearPacket(x.e, p, budget)
  {
    hide CoreOk, NearAck, NearAcks, NearSegments, HandleAcks, AckTrue, ReceiverInv, InSpan, HandleSynAck, Joins;
    var h := x.(e := Hear(x.e, p.stamp));
    CoreParts(x, y);
    SentTrue(y, p);
    HearStep(x, y, p.stamp);
    SynAckStep(h, y, p, budget);
    var x1 := h.(e := HandleSynAck(h.e, p, budget), joined := h.joined || Joins(h, p));
    var ack := p.acks[0];
    assert ack in p.acks && p.acks == [ack];
    StampStaysNear(x, p);
    JoinKeepsSpan(h, p, budget);
    NearAckHolds(x1, y, ack, p.stamp);
    OneNearAck(x1.e, ack, p.stamp);
  }

  lemma NearPacketHolds(x: Node, y: Node, p: Packet, budget: Budget)
    requires CoreOk(x, y) && p in y.sent && InSpan(x.e.tx) && InSpan(y.e.tx) && Recent(p, x, y) && (p.Ack? ==> x.joined)
    ensures ReceiverInv(x.e.rx) && Ready(x.e.tx) && NearPacket(x.e, p, budget)
  {
    hide CoreOk, TxOk, InSpan, ReceiverInv, Ready, NearAcks, NearSegments;
    CoreParts(x, y);
    ReadyHolds(x.e, x.log);
    if p.Ack? {
      NearAckPacket(x, y, p, budget);
    } else if p.SynAck? {
      NearSynAckPacket(x, y, p, budget);
    }
  }

  /** An ack packet finds its receiver joined. */
  lemma AckFindsJoined(x: Node, y: Node, p: Packet)
    requires PairOk(x, y) && p in y.sent && p.Ack?
    ensures x.joined
  {
    hide TxOk, SentOk, ReceiverInv, ReadListOk, Bytes, FlowOk, HeardOk;
    SentTrue(y, p);
  }

  /** The last number of the log is the last number handed out, once there is one. */
  lemma TopIsMax(e: Endpoint, log: seq<Segment>)
    requires TxOk(e, log) && (log != [] || Connected(e.state))
    ensures e.tx.xmitMax == e.tx.start + |log|
  {
    hide SenderInv, LogInv, Logged, Outstanding;
  }

  lemma BehindTop(x: Node, y: Node)
    requires CoreOk(x, y) && y.joined
    ensures y.e.rx.recvTop <= Top(x)
  {
    hide LocalOk, SizesOk, FinOk, ReadOk, Conserved;
  }

  /** All that an end keeps is in span. */
  lemma SpanHolds(x: Node, y: Node)
    requires PairOk(x, y) && HistoryOk(x) && HistoryOk(y) && Within(x) && Ascending(y, x.e.tx.start)
    ensures InSpan(x.e.tx)
  {
    hide PairOk, CoreOk, Outstanding, TxOk, Within, Ascending, AckedOk, HeardAck;
    PairParts(x, y);
    forall s | s in Outstanding(x.e.tx) ensures x.e.tx.xmitMax - s.num < SPAN {
      OutstandingIsNear(x, s);
      SomeMeansLogged(x.e, x.log, s);
      TopIsMax(x.e, x.log);
    }
    if x.e.tx.unacked != [] {
      OutstandingUnacked(x.e.tx, 0);
      SomeMeansLogged(x.e, x.log, x.e.tx.unacked[0].seg);
      TopIsMax(x.e, x.log);
      WindowInSpan(x, y);
    }
  }

  lemma HistoryParts(x: Node)
    requires HistoryOk(x)
    ensures AckedOk(x) && Acquainted(x)
  {
  }

  lemma SomeMeansLogged(e: Endpoint, log: seq<Segment>, s: Segment)
    requires TxOk(e, log) && s in Outstanding(e.tx)
    ensures log != []
  {
    hide SenderInv, LogInv, Outstanding;
    assert InLog(s, log, e.tx.start);
  }

  lemma WindowInSpan(x: Node, y: Node)
    requires PairOk(x, y) && HistoryOk(y) && Within(x) && Ascending(y, x.e.tx.start) && HeardAck(x)
    ensures InReach(Top(x), x.e.tx.maxAdvertised)
  {
    hide PairOk, CoreOk, HistoryOk, Within, Ascending, HeardAck, LocalOk, TxOk, ReceiverInv, ReadListOk;
    HistoryParts(y);
    PairCore(x, y);
    WindowWasPromised(x, y);
    BehindTop(x, y);
    WindowIsNear(x, y);
  }

  // ------------------------------------------------------------------- theorems

  /** Both ends after a run, with all that is known of them. */
  lemma EndsWithin(c: Config, moves: seq<Move>, side: Side)
    requires AllModest(moves)
    ensures var s := After(c, moves); var x, y := End(s, side), End(s, Peer(side));
            && PairOk(x, y) && HistoryOk(x) && HistoryOk(y)
            && Within(x) && Within(y) && Ascending(x, y.e.tx.start) && Ascending(y, x.e.tx.start)
  {
    hide PairOk, After, HistoryOk, Within, Ascending, AllModest;
    var s := After(c, moves);
    AfterKeeps(c, moves);
    AfterWithin(c, moves);
    EndsPair(s, side);
  }

  lemma PairCore(x: Node, y: Node)
    requires PairOk(x, y)
    ensures CoreOk(x, y)
  {
  }

  lemma Mirror(x: Node, y: Node)
    requires PairOk(x, y)
    ensures PairOk(y, x)
  {
    hide CoreOk, HeardOk, HandshakeOk;
    Swap(x, y);
  }

  /** In every run, a packet that is not ancient meets the preconditions under
      which the code, on 32 bit words, does what the model does. */
  lemma WordsRefineNumbers(c: Config, moves: seq<Move>, side: Side, p: Packet, budget: Budget)
    requires AllModest(moves)
    requires var s := After(c, moves); var x, y := End(s, side), End(s, Peer(side)); p in y.sent && Recent(p, x, y)
    ensures var x := End(After(c, moves), side);
            ReceiverInv(x.e.rx) && Ready(x.e.tx) && NearPacket(x.e, p, budget)
  {
    hide PairOk, After, InSpan, Recent, ReceiverInv, Ready, NearPacket, HistoryOk, Within, Ascending, AllModest;
    var s := After(c, moves);
    EndsWithin(c, moves, side);
    var x, y := End(s, side), End(s, Peer(side));
    Mirror(x, y);
    SpanHolds(x, y);
    SpanHolds(y, x);
    if p.Ack? {
      AckFindsJoined(x, y, p);
    }
    assert CoreOk(x, y) by { PairCore(x, y); }
    NearPacketHolds(x, y, p, budget);
  }

  lemma OutstandingUnsent(tx: Sender, i: nat)
    requires i < |tx.sendList|
    ensures tx.sendList[i].seg in Outstanding(tx)
  {
    assert Outstanding(tx)[|tx.unacked| + i] == tx.sendList[i].seg;
  }

  lemma NearWindowHolds(x: Node, y: Node)
    requires PairOk(x, y) && HistoryOk(x) && HistoryOk(y) && Within(x) && Ascending(y, x.e.tx.start)
    requires SendsAcks(x.e.state)
    ensures SenderInv(x.e.tx) && NearWindow(x.e.tx)
  {
    hide PairOk, CoreOk, Outstanding, TxOk, Within, Ascending, AckedOk, HeardAck, SenderInv;
    PairParts(x, y);
    SenderInOrder(x.e, x.log);
    TopIsMax(x.e, x.log);
    SpanHolds(x, y);
    RunningHasHeard(x);
    WindowInSpan(x, y);
    OutstandingBelowMax(x.e, x.log);
    forall i | 0 <= i < |x.e.tx.unacked| ensures x.e.tx.xmitMax - SPAN < x.e.tx.unacked[i].seg.num <= x.e.tx.xmitMax {
      OutstandingUnacked(x.e.tx, i);
    }
    forall i | 0 <= i < |x.e.tx.sendList| ensures x.e.tx.xmitMax - SPAN < x.e.tx.sendList[i].seg.num <= x.e.tx.xmitMax {
      OutstandingUnsent(x.e.tx, i);
    }
  }

  lemma SenderInOrder(e: Endpoint, log: seq<Segment>)
    requires TxOk(e, log)
    ensures SenderInv(e.tx)
  {
  }

  /** The same for the packets an end creates: its window comparisons are exact. */
  lemma SendingRefinesNumbers(c: Config, moves: seq<Move>, side: Side)
    requires AllModest(moves) && SendsAcks(End(After(c, moves), side).e.state)
    ensures var tx := End(After(c, moves), side).e.tx; SenderInv(tx) && NearWindow(tx)
  {
    hide PairOk, After, NearWindow, SenderInv, HistoryOk, Within, Ascending, AllModest;
    EndsWithin(c, moves, side);
    NearWindowHolds(End(After(c, moves), side), End(After(c, moves), Peer(side)));
  }

  /** And for a timeout: what is unacked is put in order by exact comparisons. */
  lemma TimeoutRefinesNumbers(c: Config, moves: seq<Move>, side: Side)
    requires AllModest(moves)
    ensures var tx := End(After(c, moves), side).e.tx; SenderInv(tx) && Pairwise(tx.unacked)
  {
    hide PairOk, After, SenderInv, HistoryOk, Within, Ascending, AllModest, TxOk, CoreOk, LocalOk, Outstanding;
    EndsWithin(c, moves, side);
    var x, y := End(After(c, moves), side), End(After(c, moves), Peer(side));
    PairParts(x, y);
    SenderInOrder(x.e, x.log);
    SpanHolds(x, y);
    OutstandingBelowMax(x.e, x.log);
    forall i | 0 <= i < |x.e.tx.unacked| ensures x.e.tx.xmitMax - SPAN < x.e.tx.unacked[i].seg.num <= x.e.tx.xmitMax {
      OutstandingUnacked(x.e.tx, i);
    }
  }

  // --------------------------------------------------------------------- writes

  function StartOf(c: Config, side: Side): int {
    if side == Initiator then c.startA else c.startB
  }

  /** A start number taken as the signed value of its word. Every word has one. */
  predicate SignedStart(start: int) {
    -TWO_31 <= start < TWO_31
  }

  lemma EveryWordHasOne(word: int)
    requires 0 <= word < TWO_32
    ensures SignedStart(AsInt32(word)) && Wrap(AsInt32(word)) == word
  {
    if word >= TWO_31 {
      DivModUnique(word - TWO_32, -1, word);
    } else {
      DivModUnique(word, 0, word);
    }
  }

  lemma EndStarts(c: Config, moves: seq<Move>, side: Side)
    ensures End(After(c, moves), side).e.tx.start == StartOf(c, side)
  {
    hide PairOk, HistoryOk, Run;
    StartOk(c);
    RunStarts(Start(c), moves);
  }

  /** Before its first ack an end has no window, and what it has written in spite of
      that ends not far above 0. */
  lemma BeforeAck(x: Node, y: Node)
    requires PairOk(x, y) && Within(x) && x.e.state == SynRcvd && !HeardAck(x)
    ensures x.e.tx.maxAdvertised == 0 && x.e.tx.start <= x.e.tx.xmitMax
    ensures x.e.tx.xmitMax == x.e.tx.start || x.e.tx.xmitMax <= MAX_WRITE
  {
    hide PairOk, Tight, TxOk, CoreOk, LocalOk;
    PairParts(x, y);
    TopIsMax(x.e, x.log);
  }

  /** And for writes: whether there is a window to write into is decided exactly,
      also before the first ack, when start numbers are taken as signed values. */
  lemma WritingRefinesNumbers(c: Config, moves: seq<Move>, side: Side)
    requires AllModest(moves) && SignedStart(StartOf(c, side)) && AcceptsWrites(End(After(c, moves), side).e.state)
    ensures var tx := End(After(c, moves), side).e.tx; Near(tx.xmitMax, tx.maxAdvertised)
  {
    hide PairOk, After, HistoryOk, Within, Ascending, AllModest, TxOk, CoreOk, LocalOk, HeardAck;
    EndsWithin(c, moves, side);
    EndStarts(c, moves, side);
    var x, y := End(After(c, moves), side), End(After(c, moves), Peer(side));
    PairParts(x, y);
    TopIsMax(x.e, x.log);
    if !HeardAck(x) {
      WritersHaveHeard(x);
      BeforeAck(x, y);
    } else {
      WindowInSpan(x, y);
    }
  }

  lemma WritersHaveHeard(x: Node)
    requires HistoryOk(x) && AcceptsWrites(x.e.state) && !HeardAck(x)
    ensures x.e.state == SynRcvd
  {
    hide AckedOk, HeardAck;
  }

  /** Taken as unsigned values the numbers do not decide as the words do: before the
      first ack they agree exactly if the start number is less than half the space. */
  lemma WriteBeforeAckAgreesExactly(c: Config, moves: seq<Move>, side: Side)
    requires AllModest(moves) && 0 <= StartOf(c, side) < TWO_32
    requires var x := End(After(c, moves), side); x.e.state == SynRcvd && !HeardAck(x)
    ensures var tx := End(After(c, moves), side).e.tx;
            (LessEqual(tx.xmitMax, tx.maxAdvertised) <==> tx.xmitMax <= tx.maxAdvertised) <==> StartOf(c, side) < TWO_31
  {
    hide PairOk, After, HistoryOk, Within, Ascending, AllModest, HeardAck;
    EndsWithin(c, moves, side);
    EndStarts(c, moves, side);
    var x, y := End(After(c, moves), side), End(After(c, moves), Peer(side));
    BeforeAck(x, y);
    if StartOf(c, side) >= TWO_31 {
      UpperHalfIsLess(x.e.tx.xmitMax);
    }
  }

  lemma UpperHalfIsLess(n: int)
    requires TWO_31 <= n < TWO_32
    ensures LessEqual(n, 0)
  {
    DivModUnique(n, 0, n);
    DivModUnique(0, 0, 0);
  }

  /** The moves of an initiator that asks to connect and a responder that accepts. */
  function Accepted(c: Config): seq<Move> {
    [Move(Initiator, DoOpen)] + ([Move(Initiator, DoSendSyn)] +
      ([Move(Responder, DoDeliver(SynOf(c), Budget(0, 0, [])))] + ([Move(Responder, DoAccept(1, 1))] + [])))
  }

  lemma RunMove(s: System, m: Move, rest: seq<Move>)
    requires SystemOk(s)
    ensures SystemOk(Step(s, m)) && Run(s, [m] + rest) == Run(Step(s, m), rest)
  {
    hide SystemOk, Step;
    StepKeeps(s, m);
    assert ([m] + rest)[1..] == rest;
  }

  lemma RunsOut(s: System)
    requires SystemOk(s)
    ensures Run(s, []) == s
  {
  }

  function SynOf(c: Config): Packet { Syn(0, c.startA, c.sendA, c.recvA) }

  /** The initiator has opened and created its packet. */
  lemma AsksToConnect(c: Config)
    ensures var a, b := Start(c).a, Start(c).b;
            && ReceiverInv(a.e.rx) && ReadListOk(a.e.rx.recvRead)
            && var a1 := NodeStep(a, b, DoOpen);
               && ReceiverInv(a1.e.rx) && ReadListOk(a1.e.rx.recvRead)
               && SynOf(c) in NodeStep(a1, b, DoSendSyn).sent
  {
  }

  /** The responder has joined on that packet and been accepted. */
  lemma Accepts(c: Config, a: Node)
    requires SynOf(c) in a.sent
    ensures var b := Start(c).b;
            && ReceiverInv(b.e.rx) && ReadListOk(b.e.rx.recvRead)
            && var b1 := NodeStep(b, a, DoDeliver(SynOf(c), Budget(0, 0, [])));
               && ReceiverInv(b1.e.rx) && ReadListOk(b1.e.rx.recvRead)
               && BeforeAnyAck(NodeStep(b1, a, DoAccept(1, 1)), c)
  {
    hide AllTaken;
  }

  ghost predicate BeforeAnyAck(x: Node, c: Config) {
    && x.e.state == SynRcvd && !HeardAck(x)
    && x.e.tx.xmitMax == c.startB && x.e.tx.maxAdvertised == 0 && x.e.tx.haveUnfilled
    && x.e.tx.sendList == [] && x.e.tx.flightSize == 0
    && x.e.tx.maxSendSegmentSize == MinNat(c.sendB, c.recvA)
  }

  lemma AcceptedState(c: Config)
    ensures BeforeAnyAck(End(After(c, Accepted(c)), Responder), c)
  {
    hide Run, SystemOk, NodeStep, BeforeAnyAck, SynOf;
    StartOk(c);
    AsksToConnect(c);
    var m2, m4 := Move(Initiator, DoSendSyn), Move(Responder, DoAccept(1, 1));
    var m3 := Move(Responder, DoDeliver(SynOf(c), Budget(0, 0, [])));
    var s0 := Start(c);
    RunMove(s0, Move(Initiator, DoOpen), [m2] + ([m3] + ([m4] + [])));
    var s1 := Step(s0, Move(Initiator, DoOpen));
    RunMove(s1, m2, [m3] + ([m4] + []));
    var s2 := Step(s1, m2);
    Accepts(c, s2.a);
    RunMove(s2, m3, [m4] + []);
    var s3 := Step(s2, m3);
    RunMove(s3, m4, []);
    RunsOut(Step(s3, m4));
  }

  /** A responder that starts at 0x80000005 and has heard no ack: its numbers, taken
      as unsigned, leave no room to write, and the words that stand for them do. */
  lemma WriteBeforeAckDiffers(sendA: nat, recvA: nat, sendB: nat, recvB: nat)
    ensures var c := Config(7, sendA, recvA, 0x8000_0005, sendB, recvB);
            var tx := End(After(c, Accepted(c)), Responder).e.tx;
            && CanWrite(tx, 1.0, 1.0) == 0
            && tx.haveUnfilled && AcceptsMoreData(tx, 1.0, 1.0) && LessEqual(tx.xmitMax, tx.maxAdvertised)
  {
    hide After;
    AcceptedState(Config(7, sendA, recvA, 0x8000_0005, sendB, recvB));
    UpperHalfIsLess(0x8000_0005);
  }

  lemma {:induction false} RunAppend(s: System, moves: seq<Move>, m: Move)
    requires SystemOk(s)
    ensures SystemOk(Run(s, moves)) && Run(s, moves + [m]) == Step(Run(s, moves), m)
    decreases |moves|
  {
    hide SystemOk, Step;
    RunKeeps(s, moves);
    if moves == [] {
      assert moves + [m] == [m] + [];
      RunMove(s, m, []);
      RunsOut(s);
      RunsOut(Step(s, m));
    } else {
      StepKeeps(s, moves[0]);
      assert (moves + [m])[1..] == moves[1..] + [m];
      RunAppend(Step(s, moves[0]), moves[1..], m);
    }
  }

  lemma {:induction false} CutInOnes(bytes: seq<byte>, next: int, count: nat)
    requires |bytes| <= count
    ensures |Cut(bytes, 1, next, count)| == |bytes|
    decreases |bytes|
  {
    if |bytes| > 1 {
      CutInOnes(bytes[1..], next + 1, count - 1);
    }
  }

  function HugeWrite(bytes: seq<byte>): Move {
    Move(Responder, DoWrite(bytes, 1.0, 1.0, |bytes|))
  }

  lemma WritesOnes(x: Node, y: Node, bytes: seq<byte>)
    requires ReceiverInv(x.e.rx) && ReadListOk(x.e.rx.recvRead) && bytes != []
    requires x.e.state == SynRcvd && x.e.tx.xmitMax == 0 && x.e.tx.maxAdvertised == 0 && x.e.tx.haveUnfilled
    requires x.e.tx.sendList == [] && x.e.tx.flightSize == 0 && x.e.tx.maxSendSegmentSize == 1
    ensures var tx := NodeStep(x, y, HugeWrite(bytes).act).e.tx; tx.xmitMax == |bytes| && tx.maxAdvertised == 0
  {
    hide ReceiverInv, ReadListOk, Cut;
    CutInOnes(bytes, 1, |bytes| + 1);
  }

  /** A single write may not be much longer: after one of as many segments as half
      the number space, words and numbers differ on whether there is a window. */
  lemma HugeWriteDiffers(bytes: seq<byte>)
    requires TWO_31 <= |bytes| < TWO_32
    ensures var c := Config(7, 1, 1, 0, 1, 1);
            var tx := End(After(c, Accepted(c) + [HugeWrite(bytes)]), Responder).e.tx;
            LessEqual(tx.xmitMax, tx.maxAdvertised) && tx.xmitMax > tx.maxAdvertised
  {
    hide SystemOk, Run, HeardAck, NodeStep, HugeWrite, Accepted;
    var c := Config(7, 1, 1, 0, 1, 1);
    var s, m := After(c, Accepted(c)), HugeWrite(bytes);
    AcceptedState(c);
    AfterKeeps(c, Accepted(c));
    StartOk(c);
    RunAppend(Start(c), Accepted(c), m);
    assert m.side == Responder by { HugeIsResponder(bytes); }
    StepDefined(s);
    WritesOnes(s.b, s.a, bytes);
    UpperHalfIsLess(|bytes|);
  }

  lemma HugeIsResponder(bytes: seq<byte>)
    ensures HugeWrite(bytes).side == Responder
  {
  }
}
