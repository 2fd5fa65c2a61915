/** The stream as the C code has it: one mutable structure and the functions
    that change it step by step. Each method is proved to do what the
    specification function of module StreamEndpoint says, with every comparison
    made on 32 bit words. */
module StreamCode {
  import opened AckGaps
  import opened Basics
  import opened SequenceNumbers
  import opened StreamTypes
  import opened StreamSender
  import opened StreamReceiver
  import opened StreamEndpoint
  import opened StreamWalk
  import opened StreamNear
  import opened StreamCodeSteps

  class Stream {
    var state: State
    var startSequenceNumber: int
    var xmitMaxAllocated: int
    var unacked: seq<SendSegment>
    var sendList: seq<SendSegment>
    var resendList: seq<Segment>
    var flightSize: int
    var finQueued: bool
    var maxAdvertisedWindow: int
    var segmentSentAfterTimeout: bool
    var maxSendSegmentSize: nat
    var hasUnfilledSegment: bool
    var sendAllocationPending: bool

    var recvTop: int
    var recvMax: int
    var recvMaxAllocated: int
    var recvWindow: seq<Slot>
    var recvRead: seq<ReadSegment>
    var recvAllocationPending: bool
    var maxRecvSegmentSize: nat

    var timestampToEcho: int
    var logicalTimestamp: int

    ghost function Tx(): Sender
      reads this
    {
      Sender(startSequenceNumber, xmitMaxAllocated, unacked, sendList, resendList, flightSize, finQueued,
             maxAdvertisedWindow, segmentSentAfterTimeout, maxSendSegmentSize, hasUnfilledSegment, sendAllocationPending)
    }

    ghost function Rx(): Receiver
      reads this
    {
      Receiver(recvTop, recvMax, recvMaxAllocated, recvWindow, recvRead, recvAllocationPending, maxRecvSegmentSize)
    }

    /** The abstract state the structure stands for. */
    ghost function Model(): Endpoint
      reads this
    {
      Endpoint(state, Tx(), Rx(), timestampToEcho, logicalTimestamp)
    }

    constructor (start: int, maxSend: nat, maxRecv: nat)
      ensures Model() == Init(start, maxSend, maxRecv)
    {
      state := State.Idle;
      startSequenceNumber, xmitMaxAllocated, maxAdvertisedWindow := start, 0, 0;
      unacked, sendList, resendList, flightSize := [], [], [], 0;
      finQueued, segmentSentAfterTimeout, hasUnfilledSegment, sendAllocationPending := false, false, false, false;
      maxSendSegmentSize, maxRecvSegmentSize := maxSend, maxRecv;
      recvTop, recvMax, recvMaxAllocated, recvWindow, recvRead := 0, 0, 0, [], [];
      recvAllocationPending := false;
      timestampToEcho, logicalTimestamp := 0, 0;
    }

    // ------------------------------------------------------- acknowledgement

    method AddFinSegmentToSendLists()
      modifies this
      ensures Model() == old(Model()).(tx := AddFin(old(Tx())))
    {
      xmitMaxAllocated := xmitMaxAllocated + 1;
      finQueued := true;
      sendList := sendList + [SendSegment(Segment(xmitMaxAllocated, Fin), 0, 0)];
    }

    method HandleAckOnFin()
      modifies this
      ensures Model() == old(Model()).(state := OnFinAcked(old(state)))
    {
      if state == FinWait1 {
        state := FinWait2;
      } else if state == Closing {
        state := TimeWait;
      } else if state == LastAck {
        state := Closed;
      }
    }

    method SegmentHasBeenAcked(at: nat)
      requires 0 < at <= |unacked|
      modifies this
      ensures Model() == old(Model()).(tx := TakenOff(old(Tx()), at))
    {
      resendList := Without(resendList, unacked[at - 1].seg);
      unacked := unacked[..at - 1] + unacked[at..];
      flightSize := flightSize - 1;
    }

    /** Acknowledges the segment below the position and returns the position
        below it. */
    method HandleAckIterator(at: nat) returns (below: nat)
      requires 0 < at <= |unacked|
      modifies this
      ensures Model() == StepAcked(old(Model()), at) && below == at - 1
    {
      var segment := unacked[at - 1].seg;
      if segment.payload.Fin? {
        HandleAckOnFin();
      }
      SegmentHasBeenAcked(at);
      if unacked == [] && sendList == [] {
        if (state == FinWait1 || state == LastAck || state == Closing) && !finQueued {
          AddFinSegmentToSendLists();
        }
      }
      below := at - 1;
    }

    /** Puts a segment in its place in the resend list unless it is there. */
    method MarkSegmentForRetransmission(segment: Segment)
      requires forall i :: 0 <= i < |resendList| ==> Comparable(resendList[i].num, segment.num)
      modifies this
      ensures Model() == old(Model()).(tx := old(Tx()).(resend := Marked(old(resendList), segment)))
    {
      if segment in resendList {
        return;
      }
      var at := 0;
      while at < |resendList| && Less(resendList[at].num, segment.num)
        invariant at <= |resendList| && forall i :: 0 <= i < at ==> resendList[i].num < segment.num
      {
        at := at + 1;
      }
      InsertAt(resendList, segment, at);
      resendList := resendList[..at] + [segment] + resendList[at..];
    }

    method HandleNackIterator(at: nat, timestampEcho: int) returns (below: nat)
      requires 0 < at <= |unacked|
      requires forall i :: 0 <= i < |resendList| ==> Comparable(resendList[i].num, unacked[at - 1].seg.num)
      modifies this
      ensures Model() == StepNacked(old(Model()), at, timestampEcho) && below == at - 1
    {
      var u := unacked[at - 1];
      if Wrap(u.sentStamp) < Wrap(timestampEcho) {
        var count := (u.ackedAfter + 1) % 0x10000;
        unacked := unacked[at - 1 := u.(ackedAfter := count)];
        if count == 2 {
          MarkSegmentForRetransmission(u.seg);
        }
      } else {
        assert unacked[at - 1 := u] == unacked;
      }
      below := at - 1;
    }

    /** Takes the last unacked segment out of flight. */
    method TakeOutOfFlight()
      requires unacked != []
      modifies this
      ensures Model() == old(Model()).(tx := OutOfFlight(old(Tx())))
    {
      var segment := unacked[|unacked| - 1];
      unacked := unacked[..|unacked| - 1];
      resendList := Without(resendList, segment.seg);
      flightSize := flightSize - 1;
      sendList := [segment] + sendList;
    }

    /** Takes the segments beyond the reduced window out of flight. */
    method AdvertisedWindowReduced()
      requires SenderInv(Tx()) && NearAll(unacked, maxAdvertisedWindow)
      modifies this
      ensures Model() == old(Model()).(tx := WindowReduced(old(Tx())))
    {
      hide Reducing, WindowReduced, SenderInv;
      ghost var tx := Tx();
      ghost var e := Model();
      ReduceStarts(tx);
      while unacked != [] && Less(maxAdvertisedWindow, unacked[|unacked| - 1].seg.num)
        invariant maxAdvertisedWindow == tx.maxAdvertised
        invariant Model() == e.(tx := Tx()) && Reducing(tx, Tx()) && NearAll(unacked, maxAdvertisedWindow)
        decreases |unacked|
      {
        ReduceStep(tx, Tx());
        TakeOutOfFlight();
      }
      ReduceDone(tx, Tx());
    }

    /** Acknowledges the segments above bottom. */
    method AckBlock(at: nat, bottom: int, ghost e: Endpoint, ghost ack: AckExtension) returns (below: nat)
      requires SendReady(e.tx) && Walking(e, ack, at, Model()) && NearAll(e.tx.unacked, bottom)
      requires forall i :: 0 <= i < at && e.tx.unacked[i].seg.num > bottom ==> AckedIn(e.tx.unacked[i], ack)
      modifies this
      ensures Walking(e, ack, below, Model()) && below <= at && below <= |e.tx.unacked|
      ensures below > 0 ==> e.tx.unacked[below - 1].seg.num <= bottom
    {
      hide Walking, SendReady, AckedIn, StepAcked, StepNacked, Pairwise;
      below := at;
      WalkAt(e, ack, below, Model());
      while below > 0 && Less(bottom, unacked[below - 1].seg.num)
        invariant Walking(e, ack, below, Model()) && below <= at && below <= |e.tx.unacked|
        invariant below > 0 ==> below <= |unacked| && unacked[below - 1] == e.tx.unacked[below - 1]
      {
        WalkAckedStep(e, ack, below, Model());
        below := HandleAckIterator(below);
        WalkAt(e, ack, below, Model());
      }
    }

    /** Counts the segments above bottom as nacked. */
    method NackBlock(at: nat, bottom: int, timestampEcho: int, ghost e: Endpoint, ghost ack: AckExtension)
      returns (below: nat)
      requires timestampEcho == ack.timestampEcho
      requires SendReady(e.tx) && Walking(e, ack, at, Model()) && NearAll(e.tx.unacked, bottom) && Pairwise(e.tx.unacked)
      requires forall i :: 0 <= i < at && e.tx.unacked[i].seg.num > bottom ==>
                 !AckedIn(e.tx.unacked[i], ack) && e.tx.unacked[i].seg.num <= ack.maxAcked
      modifies this
      ensures Walking(e, ack, below, Model()) && below <= at && below <= |e.tx.unacked|
      ensures below > 0 ==> e.tx.unacked[below - 1].seg.num <= bottom
    {
      hide Walking, SendReady, AckedIn, StepAcked, StepNacked, Pairwise;
      below := at;
      WalkAt(e, ack, below, Model());
      while below > 0 && Less(bottom, unacked[below - 1].seg.num)
        invariant Walking(e, ack, below, Model()) && below <= at && below <= |e.tx.unacked|
        invariant below > 0 ==> below <= |unacked| && unacked[below - 1] == e.tx.unacked[below - 1]
      {
        WalkNackedStep(e, ack, below, Model());
        below := HandleNackIterator(below, timestampEcho);
        WalkAt(e, ack, below, Model());
      }
    }

    /** The position above the highest unacked segment up to maxAcked. */
    method FindAckIterator(maxAcked: int) returns (at: nat)
      requires SenderInv(Tx()) && NearAll(unacked, maxAcked)
      ensures at <= |unacked|
      ensures forall i :: 0 <= i < |unacked| ==> (unacked[i].seg.num <= maxAcked <==> i < at)
    {
      at := 0;
      UnackedSorted(Tx());
      while at < |unacked| && LessEqual(unacked[at].seg.num, maxAcked)
        invariant at <= |unacked| && forall i :: 0 <= i < at ==> unacked[i].seg.num <= maxAcked
      {
        at := at + 1;
      }
    }

    /** Takes over the advertised window of an ack unless a newer packet has
        been heard. */
    method UpdateAdvertisedWindow(edge: int, stamp: int)
      requires SenderInv(Tx()) && Comparable(timestampToEcho, stamp)
      requires (unacked == [] || Comparable(maxAdvertisedWindow, edge)) && NearAll(unacked, edge)
      modifies this
      ensures Model() == old(Model()).(tx := if old(timestampToEcho) <= stamp then Advertise(old(Tx()), edge) else old(Tx()))
    {
      hide SenderInv, WindowReduced;
      if LessEqual(timestampToEcho, stamp) {
        var oldWindow := maxAdvertisedWindow;
        maxAdvertisedWindow := edge;
        NothingToResend(old(Tx()));
        NothingToReduce(Tx());
        if Less(maxAdvertisedWindow, oldWindow) {
          SameLists(old(Tx()), Tx());
          AdvertisedWindowReduced();
        }
      }
    }

    method ParseAckExtension(ack: AckExtension, stamp: int)
      requires SendReady(Tx()) && NearAck(Model(), ack, stamp)
      modifies this
      ensures Model() == HandleAck(old(Model()), ack, stamp)
    {
      hide SenderInv, OneFin, Walking, AckedIn, StateAfterAck, SenderAfterAck, Advertise;
      if state == SynRcvd {
        state := Established;
      }
      UpdateAdvertisedWindow(ack.maxAcked + ack.windowSize, stamp);
      ghost var e := Model();
      AdvertiseReady(old(Tx()), ack.maxAcked + ack.windowSize);
      HandleAckGaps(ack);
    }

    /** Walks down the unacked list over the blocks of the ack. */
    method HandleAckGaps(ack: AckExtension)
      requires SendReady(Tx()) && Pairwise(unacked)
      requires NearAll(unacked, ack.maxAcked) && NearAll(unacked, ack.maxAcked - Span(ack.gaps))
      modifies this
      ensures Model() == old(Model()).(state := StateAfterAck(old(state), old(Tx()), ack),
                                       tx := SenderAfterAck(old(state), old(Tx()), ack))
    {
      hide SenderInv, OneFin, Walking, AckedIn, StateAfterAck, SenderAfterAck, Span, Pairwise;
      ghost var e := Model();
      var at: nat := FindAckIterator(ack.maxAcked);
      WalkBegins(e, ack, at);
      var maxCumulativeAcked := ack.maxAcked;
      for k := 0 to |ack.gaps|
        invariant Walking(e, ack, at, Model()) && at <= |e.tx.unacked|
        invariant maxCumulativeAcked == ack.maxAcked - Span(ack.gaps[..k])
        invariant UpToTop(e.tx.unacked, at, maxCumulativeAcked)
      {
        var gap := ack.gaps[k];
        BlockMeaning(e, ack, at, k);
        at := AckBlock(at, maxCumulativeAcked - gap.ackGap, e, ack);
        BelowTop(e.tx, at, maxCumulativeAcked - gap.ackGap);
        at := NackBlock(at, maxCumulativeAcked - gap.ackGap - gap.nackGap, ack.timestampEcho, e, ack);
        BelowTop(e.tx, at, maxCumulativeAcked - gap.ackGap - gap.nackGap);
        maxCumulativeAcked := maxCumulativeAcked - gap.ackGap - gap.nackGap;
      }
      RestIsAcked(e, ack, at);
      at := AckRest(at, e, ack);
      WalkOver(e, ack, Model());
    }

    /** Everything left below the last gap block is acknowledged. */
    method AckRest(at: nat, ghost e: Endpoint, ghost ack: AckExtension) returns (below: nat)
      requires SendReady(e.tx) && Walking(e, ack, at, Model()) && at <= |e.tx.unacked|
      requires forall i :: 0 <= i < at ==> AckedIn(e.tx.unacked[i], ack)
      modifies this
      ensures Walking(e, ack, 0, Model()) && below == 0
    {
      hide Walking, SendReady, AckedIn, StepAcked;
      below := at;
      WalkAt(e, ack, below, Model());
      while below > 0
        invariant Walking(e, ack, below, Model()) && below <= at
        invariant below > 0 ==> below <= |unacked|
      {
        WalkAckedStep(e, ack, below, Model());
        below := HandleAckIterator(below);
        WalkAt(e, ack, below, Model());
      }
    }

    // ---------------------------------------------------------------- sending

    predicate FlowControlCanSend(num: int)
      reads this
    {
      LessEqual(num, maxAdvertisedWindow) || !segmentSentAfterTimeout
    }

    /** What decides what may be sent is as it was. */
    ghost predicate Window(tx: Sender)
      reads this
    {
      maxAdvertisedWindow == tx.maxAdvertised && segmentSentAfterTimeout == tx.segmentSentAfterTimeout
    }

    /** Everything unacked is to be resent. */
    method HandleTimeout()
      requires SenderInv(Tx()) && Pairwise(unacked)
      modifies this
      ensures Model() == old(Model()).(tx := SenderAfterTimeout(old(Tx())))
    {
      ghost var e := Model();
      resendList := [];
      UnackedSorted(Tx());
      for at := 0 to |unacked|
        invariant unacked == e.tx.unacked && Model() == e.(tx := e.tx.(resend := Segs(unacked[..at])))
      {
        MarkAtEnd(unacked, at);
        MarkSegmentForRetransmission(unacked[at].seg);
      }
      assert unacked[..|unacked|] == unacked;
      segmentSentAfterTimeout := false;
    }

    /** Stamps the segment, wherever it is listed as unacked, and appends it to
        the packet. */
    method ResendSegment(stamp: int, segments: seq<Segment>) returns (segments': seq<Segment>)
      requires resendList != []
      modifies this
      ensures Model() == old(Model()).(tx := old(Tx()).(unacked := StampWhere(old(unacked), [old(resendList)[0]], stamp),
                                                        resend := old(resendList)[1..]))
      ensures segments' == segments + [old(resendList)[0]]
    {
      var current := resendList[0];
      unacked := StampWhere(unacked, [current], stamp);
      resendList := resendList[1..];
      segments' := segments + [current];
    }

    method SendNewSegment(stamp: int, segments: seq<Segment>) returns (segments': seq<Segment>)
      requires sendList != []
      modifies this
      ensures Model() == old(Model()).(tx := old(Tx()).(unacked := old(unacked) + [Stamped(old(sendList)[0], stamp)],
                                                        sendList := old(sendList)[1..], flightSize := old(flightSize) + 1))
      ensures segments' == segments + [old(sendList)[0].seg]
    {
      var current := sendList[0];
      segments' := segments + [current.seg];
      flightSize := flightSize + 1;
      sendList := sendList[1..];
      unacked := unacked + [Stamped(current, stamp)];
    }

    /** Fills the room in a packet with segments to be resent and then with
        new ones, as far as the window allows. */
    method WriteDataToPacket(room: int, stamp: int) returns (segments: seq<Segment>)
      requires SenderInv(Tx()) && NearWindow(Tx())
      modifies this
      ensures Model() == old(Model()).(tx := SenderAfterSend(old(Tx()), room, stamp))
      ensures segments == SentSegments(old(Tx()), room)
    {
      hide SenderInv, FitCount, WireSize, Resent, Sent, SenderAfterSend, SentSegments, NearWindow, NearAll;
      ghost var e := Model();
      NearResend(e.tx);
      NearUnsent(e.tx);
      ghost var r;
      var roomLeft, full;
      segments, roomLeft, full, r := WriteResends(room, stamp);
      if full {
        NoneSent(e.tx, r, stamp, roomLeft);
        SentBatch(e.tx, room, r, 0, stamp);
        return;
      }
      ghost var n;
      ResentLists(e.tx, r, stamp);
      segments, n := WriteNew(e, r, segments, roomLeft, stamp);
      SentBatch(e.tx, room, r, n, stamp);
    }

    /** The first loop: what is to be resent. */
    method WriteResends(room: int, stamp: int) returns (segments: seq<Segment>, roomLeft: int, full: bool, ghost r: nat)
      requires forall i :: 0 <= i < |resendList| ==> Comparable(resendList[i].num, maxAdvertisedWindow)
      modifies this
      ensures r == FitCount(old(Tx()), old(resendList), room) && r <= |old(resendList)|
      ensures full <==> r < |old(resendList)| && CanSend(old(Tx()), old(resendList)[r].num)
      ensures Model() == old(Model()).(tx := Resent(old(Tx()), r, stamp)) && segments == old(resendList)[..r]
      ensures roomLeft == room - WireSize(segments)
    {
      hide Filling, FitCount, WireSize, Resent, Used;
      ghost var e := Model();
      roomLeft, full, r, segments := room, false, 0, [];
      ResendStarts(e.tx, room, stamp);
      while resendList != [] && FlowControlCanSend(resendList[0].num)
        invariant r <= |e.tx.resend| && Filling(e.tx, e.tx.resend, room, r, roomLeft)
        invariant Model() == e.(tx := Resent(e.tx, r, stamp)) && segments == e.tx.resend[..r]
        invariant resendList == e.tx.resend[r..] && Window(e.tx) && !full
        decreases |resendList|
      {
        FillStep(e.tx, e.tx.resend, room, r, roomLeft);
        ResentStep(e.tx, r, stamp);
        var current := resendList[0];
        if roomLeft < Used(current) + DATA_OVERHEAD {
          full := true;
          break;
        }
        segments := ResendSegment(stamp, segments);
        roomLeft := roomLeft - Used(current) - DATA_OVERHEAD;
        r := r + 1;
      }
      FillStep(e.tx, e.tx.resend, room, r, roomLeft);
      FillLeft(e.tx, e.tx.resend, room, r, roomLeft);
    }

    /** The second loop: what has not been sent. */
    method WriteNew(ghost e: Endpoint, ghost r: nat, resent: seq<Segment>, room: int, stamp: int)
      returns (segments: seq<Segment>, ghost n: nat)
      requires r <= |e.tx.resend| && Model() == e.(tx := Resent(e.tx, r, stamp)) && resent == e.tx.resend[..r]
      requires sendList == e.tx.sendList && Window(e.tx)
      requires forall i :: 0 <= i < |sendList| ==> Comparable(sendList[i].seg.num, maxAdvertisedWindow)
      modifies this
      ensures n == FitCount(e.tx, Segs(e.tx.sendList), room) && n <= |e.tx.sendList|
      ensures Model() == e.(tx := Sent(e.tx, r, n, stamp)) && segments == e.tx.resend[..r] + Segs(e.tx.sendList[..n])
    {
      hide Filling, FitCount, WireSize, Resent, Sent, Used, Stamped;
      var roomLeft := room;
      n, segments := 0, resent;
      NoneSent(e.tx, r, stamp, room);
      while sendList != [] && FlowControlCanSend(sendList[0].seg.num)
        invariant n <= |e.tx.sendList| && Filling(e.tx, Segs(e.tx.sendList), room, n, roomLeft)
        invariant Model() == e.(tx := Sent(e.tx, r, n, stamp)) && segments == e.tx.resend[..r] + Segs(e.tx.sendList[..n])
        invariant sendList == e.tx.sendList[n..] && Window(e.tx)
        decreases |sendList|
      {
        FillStep(e.tx, Segs(e.tx.sendList), room, n, roomLeft);
        SentStep(e.tx, r, n, stamp);
        var current := sendList[0].seg;
        if roomLeft < Used(current) + DATA_OVERHEAD {
          return;
        }
        segments := SendNewSegment(stamp, segments);
        roomLeft := roomLeft - Used(current) - DATA_OVERHEAD;
        n := n + 1;
      }
      FillStep(e.tx, Segs(e.tx.sendList), room, n, roomLeft);
    }

    // ---------------------------------------------------------------- writing

    method AllocateNextSendSegment(available: nat)
      modifies this
      ensures Model() == old(Model()).(tx := AllocateSend(old(Tx()), available))
    {
      if hasUnfilledSegment {
        return;
      }
      if available == 0 {
        sendAllocationPending := true;
        return;
      }
      hasUnfilledSegment, sendAllocationPending := true, false;
    }

    /** Cuts the buffer into segments at the end of the send list, as long as
        there are segments to fill. */
    method WriteBuffer(buffer: seq<byte>, cwnd: real, cwndMax: real, available: nat) returns (status: Status, written: nat)
      requires Near(xmitMaxAllocated, maxAdvertisedWindow)
      modifies this
      ensures Model() == Write(old(Model()), buffer, cwnd, cwndMax, available)
      ensures status == WriteStatus(old(Model()))
      ensures written == |Bytes(Written(old(Model()), buffer, cwnd, cwndMax, available))|
    {
      hide SenderAfterWrite, Queued;
      status, written := StatusOk, 0;
      if state == Aborted || state == AbortedRst {
        return StatusAborted, 0;
      }
      if !(state == Established || state == CloseWait || state == SynRcvd) {
        return StatusClosed, 0;
      }
      if hasUnfilledSegment && LessEqual(xmitMaxAllocated, maxAdvertisedWindow) &&
         CongestionControlAcceptsMoreData(cwnd, cwndMax) && maxSendSegmentSize > 0 {
        written := QueueBuffer(buffer, available);
      }
    }

    predicate CongestionControlAcceptsMoreData(cwnd: real, cwndMax: real)
      reads this
    {
      && |sendList| as real <= cwnd
      && (|sendList| + flightSize) as real <= cwndMax
      && |sendList| <= MAX_SEND_LIST_SIZE
      && flightSize <= MAX_FLIGHT_SIZE
    }

    method QueueBuffer(buffer: seq<byte>, available: nat) returns (written: nat)
      requires maxSendSegmentSize > 0 && hasUnfilledSegment
      modifies this
      ensures Model() == old(Model()).(tx := SenderAfterWrite(old(Tx()), buffer, available))
      ensures written == |Bytes(Queued(old(Tx()), buffer, available))|
    {
      hide Cutting, Queued, SenderAfterWrite, Bytes, AllocateSend, QueuedSoFar;
      ghost var e := Model();
      ghost var done: seq<Segment> := [];
      var rest, left := buffer, available;
      written := 0;
      CutStarts(e.tx, buffer, available);
      while rest != [] && hasUnfilledSegment
        invariant Cutting(e.tx, buffer, available, done, rest)
        invariant Model() == e.(tx := QueuedSoFar(e.tx, done, available))
        invariant hasUnfilledSegment == (available >= |done|) && (hasUnfilledSegment ==> left == available - |done|)
        invariant maxSendSegmentSize == e.tx.maxSendSegmentSize && xmitMaxAllocated == e.tx.xmitMax + |done|
        invariant written == |Bytes(done)|
        decreases |rest|
      {
        var size := if |rest| < maxSendSegmentSize then |rest| else maxSendSegmentSize;
        CutNext(e.tx, buffer, available, done, rest);
        QueuedNext(e.tx, done, available, rest[..size]);
        done := done + [Segment(xmitMaxAllocated + 1, Data(rest[..size]))];
        AddSegment(rest[..size], left);
        left := if left > 0 then left - 1 else 0;
        rest := rest[size..];
        written := written + size;
      }
      CutDone(e.tx, buffer, available, done, rest);
    }

    /** Fills the allocated segment, asks for the next one and appends it. */
    method AddSegment(bytes: seq<byte>, available: nat)
      requires hasUnfilledSegment
      modifies this
      ensures Model() == old(Model()).(tx := AddData(old(Tx()), bytes, available))
    {
      hasUnfilledSegment := false;
      AllocateNextSendSegment(available);
      xmitMaxAllocated := xmitMaxAllocated + 1;
      sendList := sendList + [SendSegment(Segment(xmitMaxAllocated, Data(bytes)), 0, 0)];
    }

    // ---------------------------------------------------------------- reading

    method HasMoreReadData() returns (more: bool)
      ensures more <==> state != Aborted && state != AbortedRst && HasReadData(recvRead)
    {
      if state == Aborted || state == AbortedRst {
        return false;
      }
      if recvRead == [] {
        return false;
      }
      more := !recvRead[0].seg.payload.Fin?;
    }

    /** Reads from the first segment of the read list. */
    method ReadBufferOnce(room: nat) returns (status: Status, bytes: seq<byte>)
      requires ReadListOk(recvRead)
      modifies this
      ensures status == ReadStatus(old(Model()))
      ensures status == StatusOk && HasReadData(old(recvRead)) ==>
                Model() == old(Model()).(rx := old(Rx()).(recvRead := ReadStep(old(recvRead), room).0)) &&
                bytes == ReadStep(old(recvRead), room).1
      ensures !(status == StatusOk && HasReadData(old(recvRead))) ==> Model() == old(Model()) && bytes == []
    {
      hide ReadListOk;
      FirstUnread(recvRead);
      bytes := [];
      if state == Aborted || state == AbortedRst {
        return StatusAborted, [];
      }
      if recvRead == [] {
        return if state == Closed then StatusClosed else StatusOk, [];
      }
      var segment := recvRead[0];
      if segment.seg.payload.Fin? {
        return StatusEof, [];
      }
      var size := |segment.seg.payload.bytes|;
      var avail := if size - segment.used < room then size - segment.used else room;
      bytes := segment.seg.payload.bytes[segment.used..segment.used + avail];
      if segment.used + avail == size {
        recvRead := recvRead[1..];
      } else {
        recvRead := [segment.(used := segment.used + avail)] + recvRead[1..];
      }
      status := StatusOk;
    }

    /** Reads segment after segment until the buffer is full, the read list has
        no more data or the end is reached. */
    method ReadBuffer(room: nat) returns (status: Status, bytes: seq<byte>)
      requires ReadListOk(recvRead)
      modifies this
      ensures Model() == Read(old(Model()), room)
      ensures status == ReadStatus(old(Model())) && bytes == ReadBytes(old(Model()), room)
    {
      hide ReadListOk, Consume, Available;
      ghost var e := Model();
      var more, left := true, room;
      status, bytes := StatusOk, [];
      ReadStarts(e.rx.recvRead, room);
      while true
        invariant ReadListOk(e.rx.recvRead) && ReadListOk(recvRead)
        invariant left == room - |bytes|
        invariant Reading(e.rx.recvRead, bytes, recvRead) && Model() == e.(rx := e.rx.(recvRead := recvRead))
        invariant bytes != [] ==> ReadStatus(e) == StatusOk && HasReadData(recvRead) && left > 0
        invariant left <= room
        decreases left
      {
        ReadOnce(e.rx.recvRead, bytes, recvRead, left);
        var part;
        status, part := ReadBufferOnce(left);
        bytes := bytes + part;
        left := left - |part|;
        more := HasMoreReadData();
        if !(status == StatusOk && more && left > 0) {
          break;
        }
      }
      ReadEnds(e, bytes, recvRead, room);
    }

    // -------------------------------------------------------------- receiving

    /** The window relative to recvMax, computed on 32 bit words. */
    method GetRecvWindowSize() returns (size: nat)
      requires ReceiverInv(Rx())
      ensures size == WindowSize(Rx())
    {
      if recvAllocationPending {
        return 0;
      }
      DivModUnique(recvMax - recvTop, 0, recvMax - recvTop);
      var used := Wrap(recvMax - recvTop);
      if used >= MAX_RECV_SEGMENTS {
        return 0;
      }
      size := MAX_RECV_SEGMENTS - used;
    }

    method AllocateNextRecvSegment(available: nat) returns (ok: bool)
      modifies this
      ensures Model() == old(Model()).(rx := AllocateRecv(old(Rx()), available)) && ok == (available > 0)
    {
      if available == 0 {
        recvAllocationPending := true;
        return false;
      }
      recvAllocationPending := false;
      recvMaxAllocated := recvMaxAllocated + 1;
      IdleOne(recvMaxAllocated);
      recvWindow := recvWindow + [Slot(recvMaxAllocated, None)];
      ok := true;
    }

    /** Finds the slot of a number, after allocating the window up to it; an
        allocation that fails ends the search. */
    method FindRecvBuffer(num: int, available: nat) returns (at: Option<nat>)
      requires ReceiverInv(Rx()) && NearReceiver(Rx(), num)
      modifies this
      ensures Model() == old(Model()).(rx := AfterFind(old(Rx()), num, available))
      ensures at.Some? <==> Found(old(Rx()), num, available)
      ensures at.Some? ==> at.value == num - recvTop - 1 && at.value < |recvWindow|
    {
      hide AfterFind;
      ghost var e := Model();
      GrownNone(e.rx, num, available);
      var size := GetRecvWindowSize();
      if Less(recvMax + size, num) {
        return None;
      }
      var left := available;
      ghost var count := 0;
      while Less(recvMaxAllocated, num)
        invariant ReceiverInv(Rx()) && Model() == e.(rx := Grown(e.rx, count))
        invariant count > 0 ==> recvMaxAllocated <= num
        invariant left == available - count
        decreases num - recvMaxAllocated
      {
        GrowStep(e.rx, count, num);
        var ok := AllocateNextRecvSegment(left);
        if !ok {
          GrowFails(e.rx, count, num, available);
          return None;
        }
        left := left - 1;
        count := count + 1;
      }
      GrowDone(e.rx, count, num, available);
      at := SearchWindow(num);
    }

    /** The slot with a number, comparing words. */
    method SearchWindow(num: int) returns (at: Option<nat>)
      requires ReceiverInv(Rx()) && NearReceiver(Rx(), num)
      ensures at.Some? <==> recvTop < num <= recvMaxAllocated
      ensures at.Some? ==> at.value == num - recvTop - 1 && at.value < |recvWindow|
    {
      var i := 0;
      while i < |recvWindow|
        invariant 0 <= i <= |recvWindow| && (recvTop < num <= recvMaxAllocated ==> i <= num - recvTop - 1)
      {
        if Same(num, recvWindow[i].num) {
          return Some(i);
        }
        i := i + 1;
      }
      at := None;
    }

    /** Moves the filled slots at the front of the window to the read list. */
    method MoveSegmentsFromRecvWindowToRecvRead()
      modifies this
      ensures Model() == old(Model()).(rx := MoveToRead(old(Rx())))
    {
      hide MoveToRead, Moved;
      ghost var e := Model();
      ghost var n := 0;
      MoveStarts(e.rx);
      while recvWindow != [] && recvWindow[0].content.Some?
        invariant n <= |e.rx.window| && recvWindow == e.rx.window[n..]
        invariant forall i :: 0 <= i < n ==> e.rx.window[i].content.Some?
        invariant Model() == e.(rx := Moved(e.rx, n))
        decreases |recvWindow|
      {
        MoveNext(e.rx, n);
        MoveHead();
        n := n + 1;
      }
      MoveEnds(e.rx, n);
    }

    method MoveHead()
      requires recvWindow != [] && recvWindow[0].content.Some?
      modifies this
      ensures Model() == old(Model()).(rx := HeadMoved(old(Rx())))
    {
      var slot := recvWindow[0];
      recvWindow := recvWindow[1..];
      recvRead := recvRead + [ReadSegment(Segment(slot.num, slot.content.value), 0)];
      recvTop := slot.num;
    }

    /** Puts what has been received into its slot. */
    method FillSlot(at: nat, num: int, payload: Payload)
      requires at < |recvWindow| && at == num - recvTop - 1 && Comparable(recvMax, num)
      modifies this
      ensures Model() == old(Model()).(rx := Store(old(Rx()), num, payload))
    {
      recvWindow := recvWindow[at := Slot(num, Some(payload))];
      recvMax := if Less(recvMax, num) then num else recvMax;
    }

    method HandleDataSegment(num: int, data: seq<byte>, available: nat)
      requires ReceiverInv(Rx()) && NearReceiver(Rx(), num)
      modifies this
      ensures Model() == HandleData(old(Model()), num, data, available)
    {
      hide ReceiverInv, AfterFind, Found, MoveToRead, Store, NearReceiver;
      if |data| > maxRecvSegmentSize {
        return;
      }
      if state == Established || state == CloseWait || state == FinWait1 || state == FinWait2 {
        NearAfterFind(Rx(), num, available);
        if Less(recvTop, num) {
          var buffer := FindRecvBuffer(num, available);
          if buffer.Some? && recvWindow[buffer.value].content.None? {
            FillSlot(buffer.value, num, Data(data));
            MoveSegmentsFromRecvWindowToRecvRead();
          }
        }
      }
    }

    method HandleFinSegment(num: int, available: nat)
      requires ReceiverInv(Rx()) && NearReceiver(Rx(), num)
      modifies this
      ensures Model() == HandleFin(old(Model()), num, available)
    {
      hide ReceiverInv, AfterFind, Found, MoveToRead, Store, NearReceiver;
      if state == Established || state == FinWait1 || state == FinWait2 {
        NearAfterFind(Rx(), num, available);
        var segment := FindRecvBuffer(num, available);
        if segment.None? {
          return;
        }
        FillSlot(segment.value, num, Fin);
        MoveSegmentsFromRecvWindowToRecvRead();
        if state == Established {
          state := CloseWait;
        } else if state == FinWait1 {
          state := Closing;
        } else if state == FinWait2 {
          state := TimeWait;
        }
      }
    }

    // ---------------------------------------------------------------- packets

    /** How many slots there are up to the last one with data. */
    method RecvMaxSegment() returns (n: nat)
      ensures n == TopFilled(recvWindow)
    {
      n := |recvWindow|;
      assert recvWindow[..n] == recvWindow;
      while n > 0 && recvWindow[n - 1].content.None?
        invariant n <= |recvWindow| && TopFilled(recvWindow[..n]) == TopFilled(recvWindow)
      {
        assert recvWindow[..n][..n - 1] == recvWindow[..n - 1];
        n := n - 1;
      }
    }

    method AddAckExtension(maxBlocks: nat) returns (ack: AckExtension)
      requires ReceiverInv(Rx()) && 2 <= maxBlocks <= MAX_ACK_GAP_BLOCKS
      ensures ack == AckOf(Rx(), timestampToEcho, maxBlocks)
    {
      hide EncodeGaps, ReceiverInv, WindowSize;
      var size := GetRecvWindowSize();
      var gaps := [];
      if recvMax != recvTop {
        var n := RecvMaxSegment();
        gaps := AddGapBlocks(FillBits(recvWindow[..n]), maxBlocks);
      }
      ack := AckExtension(recvMax, size, timestampToEcho, gaps);
    }

    method NextLogicalStamp() returns (stamp: int)
      modifies this
      ensures stamp == old(logicalTimestamp) && Model() == NextStamp(old(Model()))
    {
      stamp := logicalTimestamp;
      logicalTimestamp := logicalTimestamp + 1;
    }

    method CreateSynPacket() returns (p: Packet)
      modifies this
      ensures p == SynPacket(old(Model())) && Model() == NextStamp(old(Model()))
    {
      var stamp := NextLogicalStamp();
      p := Syn(stamp, startSequenceNumber, maxSendSegmentSize, maxRecvSegmentSize);
    }

    method CreateSynAckPacket(maxBlocks: nat) returns (p: Packet)
      requires ReceiverInv(Rx()) && 2 <= maxBlocks <= MAX_ACK_GAP_BLOCKS
      modifies this
      ensures p == SynAckPacket(old(Model()), maxBlocks) && Model() == NextStamp(old(Model()))
    {
      var stamp := NextLogicalStamp();
      var ack := AddAckExtension(maxBlocks);
      p := SynAck(stamp, [ack], startSequenceNumber, maxSendSegmentSize, maxRecvSegmentSize);
    }

    /** An ack packet with as many segments as fit the room left after the ack. */
    method CreateAckPacket(room: int, maxBlocks: nat) returns (p: Packet)
      requires ReceiverInv(Rx()) && 2 <= maxBlocks <= MAX_ACK_GAP_BLOCKS
      requires SenderInv(Tx()) && NearWindow(Tx())
      modifies this
      ensures p == AckPacket(old(Model()), room, maxBlocks) && Model() == AfterAckPacket(old(Model()), room, false)
    {
      hide ReceiverInv, SenderInv, AckOf, SenderAfterSend, SentSegments, NearWindow;
      var stamp := NextLogicalStamp();
      var ack := AddAckExtension(maxBlocks);
      var segments := WriteDataToPacket(room, stamp);
      p := Ack(stamp, [ack], segments);
    }

    /** What follows the creation of a data packet. */
    method DataEventHandled()
      modifies this
      ensures Model() == old(Model()).(tx := old(Tx()).(segmentSentAfterTimeout := true))
    {
      segmentSentAfterTimeout := true;
    }

    method HandleSynRequest(p: Packet)
      requires p.Syn?
      modifies this
      ensures Model() == HandleSyn(old(Model()), p)
    {
      hide Join;
      if state == State.Idle {
        JoinPeer(Accept, p.stamp, p.start, p.maxSend, p.maxRecv);
      }
    }

    /** Settles sizes and numbers on the first packet from the peer: what is
        sent has to fit the peer's segments, what is received the own. */
    method JoinPeer(newState: State, stamp: int, start: int, peerSend: nat, peerRecv: nat)
      modifies this
      ensures Model() == Join(old(Model()), newState, stamp, start, peerSend, peerRecv)
    {
      hide MinNat;
      SettleSizes(peerSend, peerRecv);
      StartReceiving(start);
      state := newState;
      timestampToEcho := stamp;
    }

    method SettleSizes(peerSend: nat, peerRecv: nat)
      modifies this
      ensures Model() == old(Model()).(
                tx := old(Tx()).(maxSendSegmentSize := MinNat(old(maxSendSegmentSize), peerRecv)),
                rx := old(Rx()).(maxRecvSegmentSize := MinNat(old(maxRecvSegmentSize), peerSend)))
    {
      if peerRecv <= maxSendSegmentSize {
        maxSendSegmentSize := peerRecv;
      }
      if peerSend <= maxRecvSegmentSize {
        maxRecvSegmentSize := peerSend;
      }
    }

    method StartReceiving(start: int)
      modifies this
      ensures Model() == old(Model()).(rx := old(Rx()).(recvMax := start, recvMaxAllocated := start, recvTop := start))
    {
      recvMax := start;
      recvMaxAllocated := start;
      recvTop := start;
    }

    method HandleSynAckRequest(p: Packet, sendAvailable: nat, recvAvailable: nat, ghost budget: Budget)
      requires p.SynAck? && budget.send == sendAvailable && budget.recv == recvAvailable
      modifies this
      ensures Model() == StreamEndpoint.HandleSynAck(old(Model()), p, budget)
    {
      hide Join, AllocateSend, AllocateRecv;
      if state == SynSent {
        JoinPeer(Established, p.stamp, p.start, p.maxSend, p.maxRecv);
        AllocateNextSendSegment(sendAvailable);
        var _ := AllocateNextRecvSegment(recvAvailable);
      }
    }

    method HandleReset()
      modifies this
      ensures Model() == HandleRst(old(Model()))
    {
      if state == Closed || state == Aborted || state == AbortedRst {
        return;
      }
      if (state == LastAck || state == Closing) &&
         ((unacked == [] && sendList == []) || (unacked != [] && unacked[0].seg.payload.Fin?)) {
        state := Closed;
      } else if state == TimeWait {
        state := Closed;
      } else {
        state := AbortedRst;
      }
    }

    /** The ack extensions of a packet, in order. */
    method ParseAcking(acks: seq<AckExtension>, stamp: int)
      requires Ready(Tx()) && NearAcks(Model(), acks, stamp)
      modifies this
      ensures Model() == HandleAcks(old(Model()), acks, stamp)
    {
      hide Ready, HandleAck, NearAck;
      ghost var e := Model();
      assert acks[0..] == acks;
      for i := 0 to |acks|
        invariant Ready(Tx()) && NearAcks(Model(), acks[i..], stamp)
        invariant HandleAcks(Model(), acks[i..], stamp) == HandleAcks(e, acks, stamp)
      {
        assert acks[i..][0] == acks[i] && acks[i..][1..] == acks[i + 1..];
        ReadyToSend(Tx());
        AckKeepsReady(Model(), acks[i], stamp);
        ParseAckExtension(acks[i], stamp);
      }
    }

    /** The data and fin extensions of a packet, in order. */
    method ParseSegments(segments: seq<Segment>, available: seq<nat>)
      requires ReceiverInv(Rx()) && NearSegments(Model(), segments, available)
      modifies this
      ensures Model() == HandleSegments(old(Model()), segments, available)
    {
      hide ReceiverInv, HandleData, HandleFin, NearReceiver;
      ghost var e := Model();
      assert segments[0..] == segments && From(available, 0) == available;
      for i := 0 to |segments|
        invariant ReceiverInv(Rx()) && NearSegments(Model(), segments[i..], From(available, i))
        invariant HandleSegments(Model(), segments[i..], From(available, i)) == HandleSegments(e, segments, available)
      {
        var s := segments[i];
        assert segments[i..][0] == s && segments[i..][1..] == segments[i + 1..];
        var count := if i < |available| then available[i] else 0;
        FromStep(available, i);
        if s.payload.Fin? {
          HandleFinSegment(s.num, count);
        } else {
          HandleDataSegment(s.num, s.payload.bytes, count);
        }
      }
    }

    /** The packet as the model has it; the stamp to echo is as the words compare,
        which makes a difference only for a reset, whose stamp may be ancient. */
    method HandlePacket(p: Packet, sendAvailable: nat, recvAvailable: nat, available: seq<nat>)
      requires ReceiverInv(Rx()) && Ready(Tx())
      requires NearPacket(Model(), p, Budget(sendAvailable, recvAvailable, available))
      modifies this
      ensures var e := StreamEndpoint.HandlePacket(old(Model()), p, Budget(sendAvailable, recvAvailable, available));
              Model() == if p.Rst? then e.(timestampToEcho := EchoAfter(old(timestampToEcho), p)) else e
    {
      hide ReceiverInv, Ready, HandleAcks, HandleSegments, NearAcks, NearSegments, HandleRst, HandleSyn;
      hide StreamEndpoint.HandleSynAck;
      if Less(timestampToEcho, p.stamp) {
        timestampToEcho := p.stamp;
      }
      match p
      case Syn(_, _, _, _) =>
        HandleSynRequest(p);
      case SynAck(stamp, acks, _, _, _) =>
        ghost var budget := Budget(sendAvailable, recvAvailable, available);
        SynAckKeepsReady(Model(), p, budget);
        HandleSynAckRequest(p, sendAvailable, recvAvailable, budget);
        ParseAcking(acks, stamp);
      case Ack(stamp, acks, segments) =>
        ParseAcking(acks, stamp);
        ParseSegments(segments, available);
      case Rst(_) =>
        RstIgnoresStamps(old(Model()), timestampToEcho);
        RstIgnoresStamps(old(Model()), Hear(old(Model()), p.stamp).timestampToEcho);
        HandleReset();
    }

    // ------------------------------------------------------------ application

    method OpenStream()
      modifies this
      ensures Model() == Open(old(Model()))
    {
      state := SynSent;
      xmitMaxAllocated := startSequenceNumber;
    }

    method AcceptPending(sendAvailable: nat, recvAvailable: nat)
      modifies this
      ensures Model() == AcceptStream(old(Model()), sendAvailable, recvAvailable)
    {
      if !(state == WaitAccept || state == Accept) {
        return;
      }
      xmitMaxAllocated := startSequenceNumber;
      AllocateNextSendSegment(sendAvailable);
      var _ := AllocateNextRecvSegment(recvAvailable);
      state := SynRcvd;
    }

    method CloseStream() returns (status: Status)
      modifies this
      ensures Model() == Close(old(Model())) && status == CloseStatus(old(Model()))
    {
      var was := state;
      if was == State.Idle {
        return StatusInvalidState;
      }
      if was == AbortedRst || was == Aborted {
        return StatusAborted;
      }
      if was == CloseWait || was == Established {
        if unacked == [] && sendList == [] {
          AddFinSegmentToSendLists();
        }
        state := if was == CloseWait then LastAck else FinWait1;
      } else if Opening(was) {
        state := Aborted;
      }
      status := if was == Closed || was == FinWait2 || was == TimeWait then StatusClosed else StatusOk;
    }

    method ConnectionLost()
      modifies this
      ensures Model() == ConnectionDied(old(Model()))
    {
      if state == LastAck {
        state := Closed;
      } else if !(state == Closed || state == Aborted || state == AbortedRst) {
        state := AbortedRst;
      }
    }

    // ------------------------------------------------------------- allocation

    /** Allocations that failed are tried again before the next event. */
    method RetryAllocations(sendAvailable: nat, recvAvailable: nat)
      modifies this
      ensures Model() == RetryRecv(RetrySend(old(Model()), sendAvailable), recvAvailable)
    {
      if sendAllocationPending {
        AllocateNextSendSegment(sendAvailable);
      }
      if recvAllocationPending {
        var _ := AllocateNextRecvSegment(recvAvailable);
      }
    }

    method SendSegmentIsAvailable(available: nat)
      modifies this
      ensures Model() == SendSegmentAvailable(old(Model()), available)
    {
      if Connected(state) {
        if hasUnfilledSegment {
          return;
        }
        AllocateNextSendSegment(available);
      }
    }

    method RecvSegmentIsAvailable(available: nat)
      modifies this
      ensures Model() == RecvSegmentAvailable(old(Model()), available)
    {
      if Connected(state) {
        if recvMaxAllocated != recvMax {
          return;
        }
        var _ := AllocateNextRecvSegment(available);
      }
    }
  }
}
