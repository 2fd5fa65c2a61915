/** What every run of two connected streams guarantees. */
module StreamTheorems {
  import opened AckGaps
  import opened Basics
  import opened StreamTypes
  import opened StreamSender
  import opened StreamReceiver
  import opened StreamEndpoint
  import opened StreamSystem
  import opened StreamSteps
  import opened StreamDelivery
  import opened StreamNode
  import opened StreamHandshake
  import opened StreamAcked
  import opened StreamRun

  /** Picks an end of a system and its peer. */
  function End(s: System, side: Side): Node {
    if side == Initiator then s.a else s.b
  }

  function Peer(side: Side): Side {
    if side == Initiator then Responder else Initiator
  }

  lemma EndsPair(s: System, side: Side)
    requires SystemOk(s)
    ensures PairOk(End(s, side), End(s, Peer(side)))
  {
    hide PairOk;
    Swap(s.a, s.b);
  }

  // ------------------------------------------------------------ the bytes

  lemma BytesSplit(log: seq<Segment>, n: nat)
    requires n <= |log|
    ensures Bytes(log) == Bytes(log[..n]) + Bytes(log[n..])
  {
    BytesConcat(log[..n], log[n..]);
    assert log[..n] + log[n..] == log;
  }

  lemma BytesFirst(log: seq<Segment>, bytes: seq<byte>)
    requires log != [] && log[0].payload == Data(bytes)
    ensures bytes <= Bytes(log)
  {
    BytesOne(log[0].num, bytes);
    BytesConcat([log[0]], log[1..]);
    assert [log[0]] + log[1..] == log;
  }

  lemma ReadIsPrefix(list: seq<ReadSegment>, got: seq<byte>, log: seq<Segment>, n: nat)
    requires n <= |log| && ReadOk(list, got, log, n)
    ensures got <= Bytes(log)
  {
    hide Bytes;
    var k := n - |list|;
    BytesSplit(log, k);
    if list != [] && list[0].seg.payload.Data? {
      BytesFirst(log[k..], list[0].seg.payload.bytes);
    }
  }

  lemma PairPrefix(x: Node, y: Node)
    requires PairOk(x, y)
    ensures y.got <= x.accepted
  {
    hide TxOk, SentOk, HeardOk, HandshakeOk, SizesOk, ReceiverInv, ReadListOk, Bytes, FinOk, ReadOk;
    if y.joined {
      ReadIsPrefix(y.e.rx.recvRead, y.got, x.log, y.e.rx.recvTop - x.e.tx.start);
    } else {
      assert y.got == [];
    }
  }

  /** Whatever the network does, what one end has read is a prefix of what the
      other end has accepted for writing. */
  lemma ReadIsPrefixOfWritten(c: Config, moves: seq<Move>, side: Side)
    ensures var s := After(c, moves); End(s, Peer(side)).got <= End(s, side).accepted
  {
    hide PairOk, After;
    var s := After(c, moves);
    AfterKeeps(c, moves);
    EndsPair(s, side);
    PairPrefix(End(s, side), End(s, Peer(side)));
  }

  // -------------------------------------------------------- nothing is lost

  /** The receiver still has this segment of the log to hand out, or its bytes
      are among those read. */
  ghost predicate BufferedOrRead(y: Node, log: seq<Segment>, i: nat)
    requires i < |log|
  {
    || (exists j :: 0 <= j < |y.e.rx.window| && y.e.rx.window[j] == Slot(log[i].num, Some(log[i].payload)))
    || (exists j :: 0 <= j < |y.e.rx.recvRead| && y.e.rx.recvRead[j].seg == log[i])
    || Bytes(log[..i + 1]) <= y.got
  }

  lemma ReadPart(list: seq<ReadSegment>, got: seq<byte>, log: seq<Segment>, n: nat, i: nat)
    requires n <= |log| && ReadOk(list, got, log, n) && i < n
    ensures i < n - |list| ==> Bytes(log[..i + 1]) <= got
    ensures i >= n - |list| ==> list[i - (n - |list|)].seg == log[i]
  {
    hide Bytes;
    var k := n - |list|;
    if i < k {
      BytesSplit(log[..k], i + 1);
      assert log[..k][..i + 1] == log[..i + 1];
    }
  }

  lemma PairConserves(x: Node, y: Node, i: nat)
    requires PairOk(x, y) && i < |x.log|
    ensures x.log[i] in Outstanding(x.e.tx) || BufferedOrRead(y, x.log, i)
  {
    hide SentOk, HeardOk, HandshakeOk, SizesOk, ReadListOk, Bytes, FinOk, ReadOk, SenderInv, Outstanding, JoinOk, Logged;
    var rx, num, start := y.e.rx, x.log[i].num, x.e.tx.start;
    if x.log[i] !in Outstanding(x.e.tx) {
      assert Has(rx, num) && num == start + 1 + i;
      if num <= rx.recvTop {
        ReadPart(rx.recvRead, y.got, x.log, rx.recvTop - start, i);
      } else {
        var j := num - rx.recvTop - 1;
        FilledInLog(rx.window, j, x.log, start);
        assert rx.window[j] == Slot(num, Some(x.log[i].payload));
      }
    }
  }

  /** Every accepted segment is still in the sender's unacked or send list, or
      in the receiver's window or read list, or has been read. */
  lemma NothingIsLost(c: Config, moves: seq<Move>, side: Side, i: nat)
    requires i < |End(After(c, moves), side).log|
    ensures var s := After(c, moves); var x := End(s, side);
            && x.accepted == Bytes(x.log)
            && (x.log[i] in Outstanding(x.e.tx) || BufferedOrRead(End(s, Peer(side)), x.log, i))
  {
    hide PairOk, After;
    var s := After(c, moves);
    AfterKeeps(c, moves);
    EndsPair(s, side);
    PairConserves(End(s, side), End(s, Peer(side)), i);
    AcceptedIsLog(End(s, side), End(s, Peer(side)));
  }

  lemma AcceptedIsLog(x: Node, y: Node)
    requires PairOk(x, y)
    ensures x.accepted == Bytes(x.log)
  {
  }

  // --------------------------------------------------------------------- FIN

  lemma FinInFront(list: seq<ReadSegment>, got: seq<byte>, log: seq<Segment>, n: nat, tx: Sender)
    requires n <= |log| && ReadOk(list, got, log, n) && LogInv(log, tx)
    requires list != [] && list[0].seg.payload.Fin?
    ensures tx.finQueued && n == |log| && got == Bytes(log)
  {
    hide Bytes;
    var k := n - |list|;
    assert log[k] == list[0].seg;
    assert k == |log| - 1;
    BytesSplit(log, k);
    assert log[k..] == [log[k]];
    FinIsNoBytes(log[k]);
  }

  lemma FinReadMeansReceived(x: Node, y: Node)
    requires PairOk(x, y) && ReadStatus(y.e) == StatusEof
    ensures AfterFinReceived(y.e.state) && y.got == x.accepted
  {
    hide SentOk, HeardOk, HandshakeOk, SizesOk, ReadListOk, SenderInv, Conserved, ReceiverInv, Bytes, Logged, ReadOk, LogInv;
    assert y.joined;
    FinInFront(y.e.rx.recvRead, y.got, x.log, y.e.rx.recvTop - x.e.tx.start, x.e.tx);
  }

  lemma FinIsNoBytes(s: Segment)
    requires s.payload.Fin?
    ensures Bytes([s]) == []
  {
    assert [s][..0] == [];
  }

  /** A data segment that is still to be read has bytes that have not been read. */
  lemma UnreadBytes(list: seq<ReadSegment>, got: seq<byte>, log: seq<Segment>, n: nat)
    requires n <= |log| && ReadOk(list, got, log, n) && ReadListOk(list)
    ensures list != [] && list[0].seg.payload.Data? ==> |got| < |Bytes(log)|
  {
    hide Bytes;
    if list != [] && list[0].seg.payload.Data? {
      var k := n - |list|;
      assert log[k] == list[0].seg;
      BytesSplit(log, k);
      BytesFirst(log[k..], list[0].seg.payload.bytes);
      assert |got| == |Bytes(log[..k])| + list[0].used;
    }
  }

  lemma AllReadMeansEof(x: Node, y: Node)
    requires PairOk(x, y) && AfterFinReceived(y.e.state) && y.got == x.accepted
    ensures ReadStatus(y.e) == StatusEof
  {
    hide SentOk, HeardOk, HandshakeOk, SizesOk, SenderInv, Conserved, ReceiverInv, Bytes, Logged, ReadOk, ReadListOk;
    assert y.joined;
    UnreadBytes(y.e.rx.recvRead, y.got, x.log, y.e.rx.recvTop - x.e.tx.start);
  }

  /** End of file is reported exactly when the peer's FIN has been received and
      every byte the peer ever accepted has been read. */
  lemma EofIsExact(c: Config, moves: seq<Move>, side: Side)
    ensures var s := After(c, moves); var y := End(s, Peer(side));
            ReadStatus(y.e) == StatusEof <==> AfterFinReceived(y.e.state) && y.got == End(s, side).accepted
  {
    hide PairOk, ReadStatus, After;
    var s := After(c, moves);
    AfterKeeps(c, moves);
    EndsPair(s, side);
    var x, y := End(s, side), End(s, Peer(side));
    if ReadStatus(y.e) == StatusEof {
      FinReadMeansReceived(x, y);
    }
    if AfterFinReceived(y.e.state) && y.got == x.accepted {
      AllReadMeansEof(x, y);
    }
  }

  /** A FIN on the network, delivered where it is acted on, is for the very next
      number: everything queued before it has been received. */
  lemma FinArrivesLast(c: Config, moves: seq<Move>, side: Side, p: Packet, fin: Segment)
    requires var s := After(c, moves);
             p in End(s, side).sent && p.Ack? && fin in p.segments && fin.payload.Fin? && AcceptsFin(End(s, Peer(side)).e.state)
    ensures var s := After(c, moves);
            fin.num == End(s, Peer(side)).e.rx.recvTop + 1 == End(s, side).e.tx.start + |End(s, side).log|
  {
    hide PairOk, After;
    var s := After(c, moves);
    AfterKeeps(c, moves);
    EndsPair(s, side);
    FinOnNetwork(End(s, side), End(s, Peer(side)), p, fin);
  }

  lemma FinOnNetwork(x: Node, y: Node, p: Packet, fin: Segment)
    requires PairOk(x, y) && p in x.sent && p.Ack? && fin in p.segments && fin.payload.Fin? && AcceptsFin(y.e.state)
    ensures fin.num == y.e.rx.recvTop + 1 == x.e.tx.start + |x.log|
  {
    hide HeardOk, HandshakeOk, SizesOk, SenderInv, FlowOk, ReadListOk, ReceiverInv, Bytes, LogInv, Outstanding;
    assert PacketOk(p, x);
    assert y.joined;
    FinIsNext(x, y, fin);
  }

  /** The states that ignore data are entered only when no data is missing. */
  lemma NoNeededDataIsIgnored(c: Config, moves: seq<Move>, side: Side, i: nat)
    requires var s := After(c, moves); AfterFinReceived(End(s, Peer(side)).e.state) && i < |End(s, side).log|
    ensures var s := After(c, moves); Has(End(s, Peer(side)).e.rx, End(s, side).log[i].num)
  {
    hide PairOk, After;
    var s := After(c, moves);
    AfterKeeps(c, moves);
    EndsPair(s, side);
    AllReceived(End(s, side), End(s, Peer(side)), i);
  }

  lemma AllReceived(x: Node, y: Node, i: nat)
    requires PairOk(x, y) && AfterFinReceived(y.e.state) && i < |x.log|
    ensures Has(y.e.rx, x.log[i].num)
  {
    hide SentOk, HeardOk, HandshakeOk, SizesOk, SenderInv, ReadListOk, ReceiverInv, Bytes, ContentOk, Conserved;
    hide Outstanding, Logged;
    assert y.joined;
  }

  /** FIN is queued at most once, behind all data, and is never forgotten: after
      close it waits for an ack, and as long as it is not queued something that
      will cause it to be queued is outstanding. */
  lemma FinIsQueuedOnce(c: Config, moves: seq<Move>, side: Side)
    ensures var x := End(After(c, moves), side);
            && (forall i :: 0 <= i < |x.log| ==> (x.log[i].payload.Fin? <==> x.e.tx.finQueued && i == |x.log| - 1))
            && (AwaitsFinAck(x.e.state) ==> Outstanding(x.e.tx) != [])
            && (x.e.tx.finQueued ==>
                 x.log != [] && (Outstanding(x.e.tx) == [] || Outstanding(x.e.tx) == [x.log[|x.log| - 1]]))
            && (x.e.state == FinWait2 || x.e.state == TimeWait ==> x.e.tx.finQueued && Outstanding(x.e.tx) == [])
  {
    hide PairOk, After;
    var s := After(c, moves);
    AfterKeeps(c, moves);
    EndsPair(s, side);
    FinFacts(End(s, side), End(s, Peer(side)));
  }

  lemma FinFacts(x: Node, y: Node)
    requires PairOk(x, y)
    ensures forall i :: 0 <= i < |x.log| ==> (x.log[i].payload.Fin? <==> x.e.tx.finQueued && i == |x.log| - 1)
    ensures AwaitsFinAck(x.e.state) ==> Outstanding(x.e.tx) != []
    ensures x.e.tx.finQueued ==>
              x.log != [] && (Outstanding(x.e.tx) == [] || Outstanding(x.e.tx) == [x.log[|x.log| - 1]])
    ensures x.e.state == FinWait2 || x.e.state == TimeWait ==> x.e.tx.finQueued && Outstanding(x.e.tx) == []
  {
    hide SentOk, HeardOk, HandshakeOk, SizesOk, FlowOk, ReadListOk, ReceiverInv, Bytes, Outstanding, SenderInv, Logged;
    if x.e.tx.finQueued {
      OnlyFinOutstanding(x.e, x.log);
      var o := Outstanding(x.e.tx);
      if o != [] {
        assert o[0] in o;
      }
    }
  }

  // ------------------------------------------------------------- the sender

  predicate Numbered(segs: seq<Segment>, n: int) {
    exists s :: s in segs && s.num == n
  }

  /** Has this number been given to a segment? */
  predicate HandedOut(x: Node, n: int) {
    x.log != [] && x.e.tx.start < n <= x.e.tx.xmitMax
  }

  /** Each number handed out has been acknowledged, or is in flight, or is yet to
      be sent, and only one of these; no other number is any of them. What has been
      acknowledged the peer has received. flightSize counts the unacked list, so it
      is never 0 when an acked segment is in flight; what is to be resent is in
      flight. */
  lemma SenderListsPartition(c: Config, moves: seq<Move>, side: Side, n: int)
    ensures var s := After(c, moves); var x := End(s, side); var y := End(s, Peer(side));
            var acked := n in x.acked; var inFlight := Numbered(Segs(x.e.tx.unacked), n);
            var unsent := Numbered(Segs(x.e.tx.sendList), n);
            && (HandedOut(x, n) <==> acked || inFlight || unsent)
            && !(acked && inFlight) && !(acked && unsent) && !(inFlight && unsent)
            && (acked ==> y.joined && Has(y.e.rx, n))
            && Sorted(Outstanding(x.e.tx)) && x.e.tx.flightSize == |x.e.tx.unacked|
            && Sorted(x.e.tx.resend) && (forall r :: r in x.e.tx.resend ==> r in Segs(x.e.tx.unacked))
            && (forall o :: o in Outstanding(x.e.tx) ==> InLog(o, x.log, x.e.tx.start))
  {
    hide PairOk, After, HistoryOk;
    var s := After(c, moves);
    AfterKeeps(c, moves);
    EndsPair(s, side);
    EndsHistory(s, side);
    SenderFacts(End(s, side), End(s, Peer(side)));
    Partition(End(s, side), n);
    if n in End(s, side).acked {
      AckedIsReceived(End(s, side), End(s, Peer(side)), n);
    }
  }

  lemma EndsHistory(s: System, side: Side)
    requires SystemOk(s)
    ensures AckedOk(End(s, side)) && Acquainted(End(s, side))
  {
    hide PairOk, AckedOk, Acquainted;
  }

  lemma Partition(x: Node, n: int)
    requires TxOk(x.e, x.log) && AckedOk(x)
    ensures var acked := n in x.acked; var inFlight := Numbered(Segs(x.e.tx.unacked), n);
            var unsent := Numbered(Segs(x.e.tx.sendList), n);
            && (HandedOut(x, n) <==> acked || inFlight || unsent)
            && !(acked && inFlight) && !(acked && unsent) && !(inFlight && unsent)
  {
    hide SenderInv, Outstanding, TxOk, LogInv, InLog, Numbered;
    var tx := x.e.tx;
    NumbersInLog(x.e, x.log);
    LoggedMax(x.e, x.log);
    forall s ensures s in Outstanding(tx) <==> s in Segs(tx.unacked) || s in Segs(tx.sendList) {
      InEither(s, tx);
    }
    ListNumbers(x.log, tx.start, Segs(tx.unacked), n);
    ListNumbers(x.log, tx.start, Segs(tx.sendList), n);
    if tx.start < n <= tx.start + |x.log| {
      var s := x.log[n - tx.start - 1];
      assert s.num == n;
      if s in Segs(tx.unacked) {
        NotBoth(tx, s);
      }
    }
  }

  lemma AckedIsReceived(x: Node, y: Node, n: int)
    requires PairOk(x, y) && AckedOk(x) && n in x.acked
    ensures y.joined && Has(y.e.rx, n)
  {
    hide SentOk, HeardOk, HandshakeOk, SizesOk, ReadListOk, ReceiverInv, Bytes, ContentOk, FinOk, SenderInv, Outstanding, Has;
    NumbersInLog(x.e, x.log);
    assert x.log[n - x.e.tx.start - 1].num == n;
  }

  lemma LoggedMax(e: Endpoint, log: seq<Segment>)
    requires TxOk(e, log)
    ensures log != [] ==> e.tx.xmitMax == e.tx.start + |log|
  {
    hide SenderInv, LogInv, Logged, Outstanding;
  }

  /** In a list of segments of the log a number is that of its segment in the log. */
  lemma ListNumbers(log: seq<Segment>, start: int, list: seq<Segment>, n: int)
    requires forall s :: s in list ==> InLog(s, log, start)
    requires forall i :: 0 <= i < |log| ==> log[i].num == start + 1 + i
    ensures Numbered(list, n) <==> start < n <= start + |log| && log[n - start - 1] in list
  {
    if start < n <= start + |log| && log[n - start - 1] in list {
      assert log[n - start - 1].num == n;
    }
  }

  lemma SenderFacts(x: Node, y: Node)
    requires PairOk(x, y)
    ensures Sorted(Outstanding(x.e.tx)) && x.e.tx.flightSize == |x.e.tx.unacked|
    ensures Sorted(x.e.tx.resend) && (forall r :: r in x.e.tx.resend ==> r in Segs(x.e.tx.unacked))
    ensures forall o :: o in Outstanding(x.e.tx) ==> InLog(o, x.log, x.e.tx.start)
    ensures TxOk(x.e, x.log)
  {
    hide SentOk, HeardOk, HandshakeOk, SizesOk, ReadListOk, ReceiverInv, Bytes, ContentOk, FinOk, FlowOk;
  }

  // ----------------------------------------------------------- the receiver

  /** The window list is always exactly the numbers above recvTop up to
      recvMaxAllocated with an idle head, recvMax is its highest filled slot,
      and never more is allocated than was promised plus one, through failed
      and retried allocations as well. */
  lemma ReceiverWindowIsExact(c: Config, moves: seq<Move>, side: Side)
    ensures var rx := End(After(c, moves), side).e.rx;
            && rx.recvTop <= rx.recvMax <= rx.recvMaxAllocated <= rx.recvTop + MAX_RECV_SEGMENTS + 1
            && |rx.window| == rx.recvMaxAllocated - rx.recvTop
            && (forall i :: 0 <= i < |rx.window| ==> rx.window[i].num == rx.recvTop + 1 + i)
            && (rx.window != [] ==> rx.window[0].content.None?)
            && TopFilled(rx.window) == rx.recvMax - rx.recvTop
  {
    hide PairOk, After;
    var s := After(c, moves);
    AfterKeeps(c, moves);
    EndsPair(s, side);
    ReceiverFacts(End(s, side), End(s, Peer(side)));
  }

  lemma ReceiverFacts(x: Node, y: Node)
    requires PairOk(x, y)
    ensures ReceiverInv(x.e.rx) && TopFilled(x.e.rx.window) == x.e.rx.recvMax - x.e.rx.recvTop
  {
    hide ReceiverInv;
    TopFilledIsRecvMax(x.e.rx);
  }

  // --------------------------------------------------------- window promises

  /** Once both ends have joined, what one end sends fits what the other takes. */
  lemma SegmentSizesAgree(c: Config, moves: seq<Move>, side: Side)
    requires var s := After(c, moves); s.a.joined && s.b.joined
    ensures var s := After(c, moves);
            End(s, side).e.tx.maxSendSegmentSize == End(s, Peer(side)).e.rx.maxRecvSegmentSize
  {
    hide PairOk, After;
    var s := After(c, moves);
    AfterKeeps(c, moves);
    EndsPair(s, side);
    SizesFacts(End(s, side), End(s, Peer(side)));
  }

  lemma SizesFacts(x: Node, y: Node)
    requires PairOk(x, y) && x.joined && y.joined
    ensures x.e.tx.maxSendSegmentSize == y.e.rx.maxRecvSegmentSize
    ensures y.e.tx.maxSendSegmentSize == x.e.rx.maxRecvSegmentSize
  {
    hide LocalOk, HeardOk, HandshakeOk, FlowOk;
  }

  /** What is left of the allocator is enough for each of the segments of a packet. */
  predicate Enough(rx: Receiver, segments: seq<Segment>, available: seq<nat>) {
    forall i :: 0 <= i < |segments| ==> segments[i].num - rx.recvMaxAllocated <= (if i < |available| then available[i] else 0)
  }

  /** A window promise is kept: after a packet has been delivered to a connected end,
      each of its segments, data or FIN, at or below any edge ever advertised has been
      received, provided that the allocator has the slots; also if the packet's own
      ack has established the stream, and whatever came before it in the packet. */
  lemma WindowPromiseIsKept(c: Config, moves: seq<Move>, side: Side, p: Packet, budget: Budget, s: Segment,
                            advert: Packet, ack: AckExtension)
    requires var sys := After(c, moves); var x, y := End(sys, side), End(sys, Peer(side));
             && p in x.sent && p.Ack? && s in p.segments
             && advert in y.sent && (advert.Ack? || advert.SynAck?) && ack in advert.acks && s.num <= Edge(ack)
             && Connected(y.e.state) && !y.e.rx.allocationPending && Enough(y.e.rx, p.segments, budget.segments)
    ensures var y := End(After(c, moves), Peer(side));
            ReceiverInv(y.e.rx) && Has(Deliver(y, p, budget).e.rx, s.num)
  {
    hide PairOk, After, Enough, Has, Deliver, CoreOk, ReceiverInv, HistoryOk;
    var sys := After(c, moves);
    AfterKeeps(c, moves);
    EndsPair(sys, side);
    EndsPair(sys, Peer(side));
    var x, y := End(sys, side), End(sys, Peer(side));
    assert CoreOk(y, x) by { CoreOfPair(y, x); }
    PromiseKept(x, y, p, budget, s, advert, ack);
  }

  lemma CoreOfPair(x: Node, y: Node)
    requires PairOk(x, y)
    ensures CoreOk(x, y)
  {
    hide CoreOk;
  }

  /** After the acks of a packet: running, or closed by the last of them. */
  predicate Settled(state: State) {
    Running(state) || state == Closed
  }

  lemma PromiseKept(x: Node, y: Node, p: Packet, budget: Budget, s: Segment, advert: Packet, ack: AckExtension)
    requires CoreOk(y, x) && p in x.sent && p.Ack? && s in p.segments
    requires advert in y.sent && (advert.Ack? || advert.SynAck?) && ack in advert.acks && s.num <= Edge(ack)
    requires Connected(y.e.state) && !y.e.rx.allocationPending && Enough(y.e.rx, p.segments, budget.segments)
    ensures ReceiverInv(y.e.rx) && Has(Deliver(y, p, budget).e.rx, s.num)
  {
    hide TxOk, FlowOk, SizesOk, Bytes, ReadListOk, ReceiverInv, JoinOk, Acked, Enough, Logged, Has, HandleAcks, HandleSegments, TakenBy;
    var h := y.(e := Hear(y.e, p.stamp));
    HearStep(y, x, p.stamp);
    AcksStep(h, x, p);
    AckedNodeFields(h, p.acks[0], p.stamp);
    var z := AckedNode(h, p.acks[0], p.stamp);
    AckSettles(h.e, p.acks[0], p.stamp);
    assert PacketOk(p, x) && PacketOk(advert, y);
    ConnectedHasJoined(y);
    SegmentsKept(z, x, p.segments, budget.segments, s);
  }

  lemma ConnectedHasJoined(x: Node)
    requires JoinOk(x) && Connected(x.e.state)
    ensures x.joined
  {
  }

  lemma AckSettles(e: Endpoint, ack: AckExtension, stamp: int)
    requires Connected(e.state)
    ensures Settled(HandleAck(e, ack, stamp).state)
  {
    hide FinAcked, Advertise, SenderAfterAck;
  }

  /** One segment after the other: what has been received stays, and what is within
      one receive window of what is complete is received. */
  lemma {:induction false} SegmentsKept(z: Node, x: Node, segments: seq<Segment>, available: seq<nat>, s: Segment)
    requires CoreOk(z, x) && z.joined && x.joined && Logged(segments, x.log, x.e.tx.start)
    requires Settled(z.e.state) && !z.e.rx.allocationPending && Enough(z.e.rx, segments, available)
    requires Has(z.e.rx, s.num) || (s in segments && s.num <= z.e.rx.recvTop + MAX_RECV_SEGMENTS)
    ensures ReceiverInv(z.e.rx) && Has(HandleSegments(z.e, segments, available).rx, s.num)
    decreases |segments|
  {
    hide CoreOk, HandleSegment, Has, Grows, Settled, ReceiverInv;
    assert ReceiverInv(z.e.rx) by { CoreReceiver(z, x); }
    if segments != [] {
      var first := if available == [] then 0 else available[0];
      assert segments[0] in segments;
      SegmentStep(z, x, segments[0], first);
      var z1 := SegmentNode(z, segments[0], first);
      SegmentMoves(z.e, segments[0], first);
      GrowsKeeps(z.e.rx, z1.e.rx, s.num);
      if s == segments[0] && !Has(z.e.rx, s.num) {
        SegmentKept(z, x, s, first);
      }
      SegmentsKept(z1, x, segments[1..], if available == [] then [] else available[1..], s);
    }
  }

  lemma CoreReceiver(x: Node, y: Node)
    requires CoreOk(x, y)
    ensures ReceiverInv(x.e.rx)
  {
    hide ReceiverInv, FlowOk, SizesOk;
  }

  lemma GrowsKeeps(rx: Receiver, rx': Receiver, num: int)
    requires Grows(rx, rx')
    ensures Has(rx, num) ==> Has(rx', num)
    ensures rx.recvTop <= rx'.recvTop
  {
    hide Has;
  }

  /** A segment there are slots for leaves the window open, and the state settled. */
  lemma SegmentMoves(e: Endpoint, s: Segment, available: nat)
    requires ReceiverInv(e.rx) && Settled(e.state)
    requires !e.rx.allocationPending && s.num - e.rx.recvMaxAllocated <= available
    ensures var e' := HandleSegment(e, s, available);
            && Settled(e'.state) && Grows(e.rx, e'.rx)
            && !e'.rx.allocationPending && e.rx.recvMaxAllocated <= e'.rx.recvMaxAllocated
  {
    hide ReceiverInv, Leading, Readable, Has;
    FinKeepsInv(e.rx, s.num, available);
    if s.payload.Data? {
      DataKeepsInv(e.rx, s.num, s.payload.bytes, available);
    }
  }

  lemma SegmentKept(z: Node, x: Node, s: Segment, available: nat)
    requires CoreOk(z, x) && z.joined && x.joined && InLog(s, x.log, x.e.tx.start) && Settled(z.e.state)
    requires !z.e.rx.allocationPending && s.num - z.e.rx.recvMaxAllocated <= available
    requires s.num <= z.e.rx.recvTop + MAX_RECV_SEGMENTS
    ensures ReceiverInv(z.e.rx) && Has(HandleSegment(z.e, s, available).rx, s.num)
  {
    hide CoreOk, Has, HandleSegment, InLog;
    if s.payload.Fin? {
      FinKept(z, x, s, available);
    } else {
      DataKept(z, x, s, available);
    }
  }

  lemma DataKept(z: Node, x: Node, s: Segment, available: nat)
    requires CoreOk(z, x) && z.joined && x.joined && InLog(s, x.log, x.e.tx.start) && Settled(z.e.state)
    requires s.payload.Data? && !z.e.rx.allocationPending && s.num - z.e.rx.recvMaxAllocated <= available
    requires s.num <= z.e.rx.recvTop + MAX_RECV_SEGMENTS
    ensures ReceiverInv(z.e.rx) && Has(HandleSegment(z.e, s, available).rx, s.num)
  {
    hide SentOk, JoinOk, SenderInv, ReadListOk, Bytes, Outstanding, AfterData, ReceiverInv, ReadOk, Conserved, Logged, Found;
    if AcceptsData(z.e.state) {
      assert |s.payload.bytes| <= z.e.rx.maxRecvSegmentSize;
      WithinPromise(z.e.rx, s.num, available);
      DataKeepsInv(z.e.rx, s.num, s.payload.bytes, available);
    } else {
      assert AfterFinReceived(z.e.state);
    }
  }

  lemma FinKept(z: Node, x: Node, s: Segment, available: nat)
    requires CoreOk(z, x) && z.joined && InLog(s, x.log, x.e.tx.start) && Settled(z.e.state)
    requires s.payload.Fin? && !z.e.rx.allocationPending && s.num - z.e.rx.recvMaxAllocated <= available
    requires s.num <= z.e.rx.recvTop + MAX_RECV_SEGMENTS
    ensures ReceiverInv(z.e.rx) && Has(HandleSegment(z.e, s, available).rx, s.num)
  {
    hide TxOk, SentOk, JoinOk, ReadListOk, Bytes, AfterFin, ReceiverInv, Found, ReadOk, Conserved, SizesOk, Has;
    if AcceptsFin(z.e.state) {
      SwapCore(z, x);
      FinIsNext(x, z, s);
      WithinPromise(z.e.rx, s.num, available);
      FinStored(z.e.rx, s.num, available);
      HasTop(AfterFin(z.e.rx, s.num, available));
    } else {
      assert AfterFinReceived(z.e.state);
      HasBelow(z.e.rx, s.num);
    }
  }

  lemma SwapCore(x: Node, y: Node)
    requires CoreOk(x, y)
    ensures CoreOk(y, x)
  {
    hide LocalOk, FlowOk, SizesOk;
  }

  lemma HasTop(rx: Receiver)
    ensures Has(rx, rx.recvTop)
  {
  }

  lemma HasBelow(rx: Receiver, num: int)
    requires num <= rx.recvTop
    ensures Has(rx, num)
  {
  }

  lemma WithinPromise(rx: Receiver, num: int, available: nat)
    requires ReceiverInv(rx) && !rx.allocationPending && num - rx.recvMaxAllocated <= available
    requires num <= rx.recvTop + MAX_RECV_SEGMENTS
    ensures num <= rx.recvTop || Found(rx, num, available)
  {
    EdgeWithinPromise(rx);
  }

  /** The advertised window an end works with, once it runs, is the one of the ack
      with the newest stamp among those delivered, in whatever order they came. */
  lemma WindowIsNewest(c: Config, moves: seq<Move>, side: Side)
    requires var x := End(After(c, moves), side); Running(x.e.state) || x.e.tx.unacked != []
    ensures var x := End(After(c, moves), side);
            exists p :: p in x.heard && (p.Ack? || p.SynAck?) && |p.acks| == 1 &&
              (forall q :: q in x.heard ==> q.stamp <= p.stamp) && x.e.tx.maxAdvertised == Edge(p.acks[0])
  {
    hide PairOk, After, HistoryOk, Acquainted;
    var s := After(c, moves);
    AfterKeeps(c, moves);
    EndsPair(s, side);
    EndsHistory(s, side);
    EndsHistory(s, Peer(side));
    RunningHasHeard(End(s, side));
    WindowIsHeard(End(s, side), End(s, Peer(side)));
  }

  lemma RunningHasHeard(x: Node)
    requires Acquainted(x) && (Running(x.e.state) || x.e.tx.unacked != [])
    ensures HeardAck(x)
  {
  }

  lemma NewestDecides(x: Node, y: Node, newest: Packet)
    requires PairOk(x, y)
    requires newest in x.heard && (newest.Ack? || newest.SynAck?) && forall p :: p in x.heard ==> p.stamp <= newest.stamp
    ensures |newest.acks| == 1 && x.e.tx.maxAdvertised == Edge(newest.acks[0])
  {
    hide TxOk, JoinOk, ReceiverInv, ReadListOk, Bytes, HandshakeOk, FlowOk, SizesOk;
    assert PacketOk(newest, y);
  }

  /** An end that has heard an ack works with the window of the newest. */
  lemma WindowIsHeard(x: Node, y: Node)
    requires PairOk(x, y) && HeardAck(x) && Acquainted(y)
    ensures exists p :: p in x.heard && p in y.sent && (p.Ack? || p.SynAck?) && |p.acks| == 1 &&
              (forall q :: q in x.heard ==> q.stamp <= p.stamp) && x.e.tx.maxAdvertised == Edge(p.acks[0])
  {
    hide TxOk, JoinOk, ReceiverInv, ReadListOk, Bytes, HandshakeOk, FlowOk, SizesOk, AckTrue, Logged;
    var p :| p in x.heard && (p.Ack? || p.SynAck?);
    assert PacketOk(p, y);
    var newest := p;
    if x.e.timestampToEcho != 0 {
      var r :| r in x.heard && !r.Rst? && r.stamp == x.e.timestampToEcho;
      assert PacketOk(r, y);
      assert !r.Syn?;
      newest := r;
    }
    NewestDecides(x, y, newest);
  }

  /** The window an end works with was never promised beyond what its peer takes. */
  lemma WindowWasPromised(x: Node, y: Node)
    requires PairOk(x, y) && HeardAck(x) && Acquainted(y)
    ensures y.joined && x.e.tx.maxAdvertised <= y.e.rx.recvTop + MAX_RECV_SEGMENTS
  {
    hide TxOk, ReceiverInv, ReadListOk, Bytes, HandshakeOk, FlowOk, SizesOk, HeardOk, Logged;
    WindowIsHeard(x, y);
    var p :| p in x.heard && p in y.sent && (p.Ack? || p.SynAck?) && |p.acks| == 1 && x.e.tx.maxAdvertised == Edge(p.acks[0]);
    assert PacketOk(p, y);
  }
}
