/** The sending half of a stream: the send, unacked and resend lists, flow
    control and the queuing of FIN, as functions from the state before to the
    state after. */
module StreamSender {
  import opened AckGaps
  import opened Basics
  import opened SequenceNumbers
  import opened StreamTypes

  /** A queued segment with the fields that change after it is queued. */
  datatype SendSegment = SendSegment(seg: Segment, sentStamp: int, ackedAfter: nat)

  datatype Sender = Sender(
    start: int,
    xmitMax: int,
    unacked: seq<SendSegment>,
    sendList: seq<SendSegment>,
    resend: seq<Segment>,
    flightSize: int,
    finQueued: bool,
    maxAdvertised: int,
    segmentSentAfterTimeout: bool,
    maxSendSegmentSize: nat,
    haveUnfilled: bool,
    allocationPending: bool)

  function Segs(list: seq<SendSegment>): (segs: seq<Segment>)
    ensures |segs| == |list|
    ensures forall i :: 0 <= i < |list| ==> segs[i] == list[i].seg
  {
    seq(|list|, i requires 0 <= i < |list| => list[i].seg)
  }

  lemma SegsConcat(a: seq<SendSegment>, b: seq<SendSegment>)
    ensures Segs(a + b) == Segs(a) + Segs(b)
  {
  }

  lemma SegsSplit(list: seq<SendSegment>, n: nat)
    requires n <= |list|
    ensures Segs(list[..n]) + Segs(list[n..]) == Segs(list)
  {
  }

  lemma Associative(a: seq<Segment>, b: seq<Segment>, c: seq<Segment>)
    ensures a + b + c == a + (b + c)
  {
  }

  /** Everything queued and not yet acknowledged, in order. */
  function Outstanding(tx: Sender): seq<Segment> {
    Segs(tx.unacked) + Segs(tx.sendList)
  }

  predicate CanSend(tx: Sender, num: int) {
    num <= tx.maxAdvertised || !tx.segmentSentAfterTimeout
  }

  // ------------------------------------------------------------- invariant

  /** Both lists are sorted with everything sent before everything unsent, the
      resend list is a sorted part of the unacked list, and flightSize counts
      the unacked list. */
  ghost predicate SenderInv(tx: Sender) {
    && Sorted(Outstanding(tx))
    && Sorted(tx.resend)
    && (forall r :: r in tx.resend ==> r in Segs(tx.unacked))
    && tx.flightSize == |tx.unacked|
  }

  /** Every segment is the one the log has at its number. */
  ghost predicate Logged(segs: seq<Segment>, log: seq<Segment>, start: int) {
    forall s :: s in segs ==> start < s.num <= start + |log| && log[s.num - start - 1] == s
  }

  /** The log numbers its segments from start + 1 on; all are data that fits a
      segment, except for FIN, which is last. */
  ghost predicate LogInv(log: seq<Segment>, tx: Sender) {
    && (forall i :: 0 <= i < |log| ==> log[i].num == tx.start + 1 + i)
    && (forall i :: 0 <= i < |log| && log[i].payload.Data? ==> 0 < |log[i].payload.bytes| <= tx.maxSendSegmentSize)
    && (forall i :: 0 <= i < |log| ==> (log[i].payload.Fin? <==> tx.finQueued && i == |log| - 1))
    && (tx.finQueued ==> log != [])
  }

  // ------------------------------------------------------- acknowledgement

  function Nacked(u: SendSegment, timestampEcho: int): SendSegment {
    if Wrap(u.sentStamp) < Wrap(timestampEcho) then u.(ackedAfter := (u.ackedAfter + 1) % 0x10000) else u
  }

  /** Does this nack make the segment count as lost? */
  predicate NowLost(u: SendSegment, timestampEcho: int) {
    Wrap(u.sentStamp) < Wrap(timestampEcho) && (u.ackedAfter + 1) % 0x10000 == 2
  }

  /** The unacked list after an ack. */
  function Remaining(list: seq<SendSegment>, ack: AckExtension): seq<SendSegment> {
    if list == [] then [] else
      var u := list[0];
      var rest := Remaining(list[1..], ack);
      if Acked(u.seg.num, ack.maxAcked, ack.gaps) then rest
      else if u.seg.num <= ack.maxAcked then [Nacked(u, ack.timestampEcho)] + rest
      else [u] + rest
  }

  /** The resend list after an ack: what was in it or is now lost, without what
      has been acknowledged. */
  function Resending(list: seq<SendSegment>, ack: AckExtension, resend: seq<Segment>): seq<Segment> {
    if list == [] then [] else
      var u := list[0];
      var rest := Resending(list[1..], ack, resend);
      if !Acked(u.seg.num, ack.maxAcked, ack.gaps) &&
         (u.seg in resend || (u.seg.num <= ack.maxAcked && NowLost(u, ack.timestampEcho)))
      then [u.seg] + rest else rest
  }

  lemma SegsCons(u: SendSegment, rest: seq<SendSegment>)
    ensures Segs([u] + rest) == [u.seg] + Segs(rest)
  {
  }

  lemma {:induction false} RemainingIsFilter(list: seq<SendSegment>, ack: AckExtension)
    ensures forall s :: s in Segs(Remaining(list, ack)) <==>
                        s in Segs(list) && !Acked(s.num, ack.maxAcked, ack.gaps)
  {
    if list != [] {
      var u, rest := list[0], Remaining(list[1..], ack);
      RemainingIsFilter(list[1..], ack);
      SegsCons(u, list[1..]);
      assert list == [u] + list[1..];
      SegsCons(u, rest);
      SegsCons(Nacked(u, ack.timestampEcho), rest);
    }
  }

  lemma {:induction false} RemainingLength(list: seq<SendSegment>, ack: AckExtension)
    ensures |Remaining(list, ack)| <= |list|
    ensures |Remaining(list, ack)| == |list| ==> Segs(Remaining(list, ack)) == Segs(list)
  {
    if list != [] {
      var u, rest := list[0], Remaining(list[1..], ack);
      RemainingLength(list[1..], ack);
      SegsCons(u, list[1..]);
      assert list == [u] + list[1..];
      SegsCons(u, rest);
      SegsCons(Nacked(u, ack.timestampEcho), rest);
    }
  }

  lemma {:induction false} RemainingSorted(list: seq<SendSegment>, ack: AckExtension)
    requires Sorted(Segs(list))
    ensures Sorted(Segs(Remaining(list, ack)))
  {
    if list != [] {
      var u, rest := list[0], Remaining(list[1..], ack);
      SegsCons(u, list[1..]);
      assert list == [u] + list[1..];
      assert Segs(list)[1..] == Segs(list[1..]);
      RemainingSorted(list[1..], ack);
      RemainingIsFilter(list[1..], ack);
      SegsCons(u, rest);
      SegsCons(Nacked(u, ack.timestampEcho), rest);
      PrependSorted(u.seg, Segs(rest), Segs(list));
    }
  }

  lemma PrependSorted(s: Segment, segs: seq<Segment>, whole: seq<Segment>)
    requires Sorted(whole) && whole != [] && whole[0] == s
    requires Sorted(segs) && forall x :: x in segs ==> x in whole[1..]
    ensures Sorted([s] + segs)
  {
    forall j | 0 <= j < |segs| ensures s.num < segs[j].num {
      assert segs[j] in whole[1..];
    }
  }

  lemma {:induction false} ResendingIsFilter(list: seq<SendSegment>, ack: AckExtension, resend: seq<Segment>)
    requires Sorted(Segs(list))
    ensures Sorted(Resending(list, ack, resend))
    ensures forall s :: s in Resending(list, ack, resend) ==>
                        s in Segs(list) && !Acked(s.num, ack.maxAcked, ack.gaps)
    ensures forall i :: 0 <= i < |list| ==>
              (list[i].seg in Resending(list, ack, resend) <==>
               !Acked(list[i].seg.num, ack.maxAcked, ack.gaps) &&
               (list[i].seg in resend || (list[i].seg.num <= ack.maxAcked && NowLost(list[i], ack.timestampEcho))))
  {
    if list != [] {
      var u, rest := list[0], Resending(list[1..], ack, resend);
      assert Segs(list)[1..] == Segs(list[1..]);
      assert Segs(list)[0] == u.seg;
      ResendingIsFilter(list[1..], ack, resend);
      PrependSorted(u.seg, rest, Segs(list));
      forall i | 1 <= i < |list| ensures list[i].seg != u.seg && list[i] == list[1..][i - 1] {
        assert Segs(list)[i] == list[i].seg;
      }
      assert forall x :: x in rest ==> x.num > u.seg.num;
    }
  }

  function OnFinAcked(state: State): State {
    match state
    case FinWait1 => FinWait2
    case Closing => TimeWait
    case LastAck => Closed
    case _ => state
  }

  function AddFin(tx: Sender): Sender {
    tx.(xmitMax := tx.xmitMax + 1, finQueued := true,
        sendList := tx.sendList + [SendSegment(Segment(tx.xmitMax + 1, Fin), 0, 0)])
  }

  /** In the states after close in which the own FIN is not acknowledged. */
  predicate AwaitsFinAck(state: State) {
    state == FinWait1 || state == LastAck || state == Closing
  }

  predicate FinAcked(tx: Sender, ack: AckExtension) {
    exists i :: 0 <= i < |tx.unacked| && tx.unacked[i].seg.payload.Fin? &&
                Acked(tx.unacked[i].seg.num, ack.maxAcked, ack.gaps)
  }

  function StateAfterAck(state: State, tx: Sender, ack: AckExtension): State {
    if FinAcked(tx, ack) then OnFinAcked(state) else state
  }

  /** The lists after an ack, before FIN is queued. */
  function WithoutAcked(tx: Sender, ack: AckExtension): Sender {
    var rest := Remaining(tx.unacked, ack);
    tx.(unacked := rest,
        resend := Resending(tx.unacked, ack, tx.resend),
        flightSize := tx.flightSize - (|tx.unacked| - |rest|))
  }

  /** An ack takes what it acknowledges out of the unacked and resend lists;
      when nothing is left after close, FIN is queued. */
  function SenderAfterAck(state: State, tx: Sender, ack: AckExtension): Sender {
    var left := WithoutAcked(tx, ack);
    if |left.unacked| < |tx.unacked| && left.unacked == [] && left.sendList == [] &&
       AwaitsFinAck(StateAfterAck(state, tx, ack)) && !tx.finQueued
    then AddFin(left) else left
  }

  // ------------------------------------------------------------ flow control

  /** How many of the unacked segments stay in flight under a window edge. */
  function InWindow(list: seq<SendSegment>, edge: int): (n: nat)
    ensures n <= |list|
    ensures n > 0 ==> list[n - 1].seg.num <= edge
    ensures forall i :: n <= i < |list| ==> list[i].seg.num > edge
  {
    if list == [] || list[|list| - 1].seg.num <= edge then |list| else InWindow(list[..|list| - 1], edge)
  }

  /** The elements numbered up to edge. */
  function UpTo(segs: seq<Segment>, edge: int): seq<Segment> {
    if segs == [] then [] else
      var rest := UpTo(segs[1..], edge);
      if segs[0].num <= edge then [segs[0]] + rest else rest
  }

  lemma {:induction false} UpToIsFilter(segs: seq<Segment>, edge: int)
    requires Sorted(segs)
    ensures Sorted(UpTo(segs, edge))
    ensures forall s :: s in UpTo(segs, edge) <==> s in segs && s.num <= edge
  {
    if segs != [] {
      assert segs == [segs[0]] + segs[1..];
      UpToIsFilter(segs[1..], edge);
      PrependSorted(segs[0], UpTo(segs[1..], edge), segs);
    }
  }

  /** A reduced window takes the segments beyond it out of flight and puts them
      back in front of the send list. */
  function WindowReduced(tx: Sender): Sender {
    var n := InWindow(tx.unacked, tx.maxAdvertised);
    tx.(unacked := tx.unacked[..n],
        sendList := tx.unacked[n..] + tx.sendList,
        resend := UpTo(tx.resend, tx.maxAdvertised),
        flightSize := tx.flightSize - (|tx.unacked| - n))
  }

  function Advertise(tx: Sender, edge: int): Sender {
    var tx' := tx.(maxAdvertised := edge);
    if edge < tx.maxAdvertised then WindowReduced(tx') else tx'
  }

  // ---------------------------------------------------------------- sending

  /** How many leading segments may be sent and fit the room. */
  function FitCount(tx: Sender, segs: seq<Segment>, room: int): (n: nat)
    ensures n <= |segs|
  {
    if segs == [] || !CanSend(tx, segs[0].num) || room < Used(segs[0]) + DATA_OVERHEAD then 0
    else 1 + FitCount(tx, segs[1..], room - Used(segs[0]) - DATA_OVERHEAD)
  }

  function WireSize(segs: seq<Segment>): nat {
    if segs == [] then 0 else Used(segs[0]) + DATA_OVERHEAD + WireSize(segs[1..])
  }

  function Stamped(u: SendSegment, stamp: int): SendSegment {
    u.(sentStamp := stamp, ackedAfter := 0)
  }

  function StampWhere(list: seq<SendSegment>, segs: seq<Segment>, stamp: int): (stamped: seq<SendSegment>)
    ensures |stamped| == |list| && Segs(stamped) == Segs(list)
  {
    seq(|list|, i requires 0 <= i < |list| => if list[i].seg in segs then Stamped(list[i], stamp) else list[i])
  }

  function StampAll(list: seq<SendSegment>, stamp: int): (stamped: seq<SendSegment>)
    ensures |stamped| == |list| && Segs(stamped) == Segs(list)
  {
    seq(|list|, i requires 0 <= i < |list| => Stamped(list[i], stamp))
  }

  /** How many segments of the resend and of the send list go into a packet. */
  function Batch(tx: Sender, room: int): (counts: (nat, nat))
    ensures counts.0 <= |tx.resend| && counts.1 <= |tx.sendList|
  {
    var r := FitCount(tx, tx.resend, room);
    if r < |tx.resend| && CanSend(tx, tx.resend[r].num) then (r, 0)
    else (r, FitCount(tx, Segs(tx.sendList), room - WireSize(tx.resend[..r])))
  }

  /** The data and fin extensions of a packet. */
  function SentSegments(tx: Sender, room: int): seq<Segment> {
    var (r, s) := Batch(tx, room);
    tx.resend[..r] + Segs(tx.sendList[..s])
  }

  /** Sending moves segments from the send list to the end of the unacked list
      and takes resent ones off the resend list. */
  function SenderAfterSend(tx: Sender, room: int, stamp: int): Sender {
    var (r, s) := Batch(tx, room);
    tx.(unacked := StampWhere(tx.unacked, tx.resend[..r], stamp) + StampAll(tx.sendList[..s], stamp),
        sendList := tx.sendList[s..],
        resend := tx.resend[r..],
        flightSize := tx.flightSize + s)
  }

  /** After a timeout everything unacked is to be resent. */
  function SenderAfterTimeout(tx: Sender): Sender {
    tx.(resend := Segs(tx.unacked), segmentSentAfterTimeout := false)
  }

  // ---------------------------------------------------------------- writing

  /** The allocation of the next send segment, with room for so many more. */
  function AllocateSend(tx: Sender, available: nat): Sender {
    if tx.haveUnfilled then tx
    else if available > 0 then tx.(haveUnfilled := true, allocationPending := false)
    else tx.(allocationPending := true)
  }

  predicate AcceptsMoreData(tx: Sender, cwnd: real, cwndMax: real) {
    && |tx.sendList| as real <= cwnd
    && (|tx.sendList| + tx.flightSize) as real <= cwndMax
    && |tx.sendList| <= MAX_SEND_LIST_SIZE
    && tx.flightSize <= MAX_FLIGHT_SIZE
  }

  function CanWrite(tx: Sender, cwnd: real, cwndMax: real): nat {
    if tx.haveUnfilled && tx.xmitMax <= tx.maxAdvertised && AcceptsMoreData(tx, cwnd, cwndMax)
    then tx.maxSendSegmentSize else 0
  }

  /** The segments a buffer is cut into while there are send segments to fill. */
  function Cut(bytes: seq<byte>, size: nat, next: int, count: nat): seq<Segment>
    requires size > 0
  {
    if bytes == [] || count == 0 then []
    else if |bytes| <= size then [Segment(next, Data(bytes))]
    else [Segment(next, Data(bytes[..size]))] + Cut(bytes[size..], size, next + 1, count - 1)
  }

  lemma {:induction false} CutNumbers(bytes: seq<byte>, size: nat, next: int, count: nat)
    requires size > 0
    ensures var c := Cut(bytes, size, next, count);
            && |c| <= count
            && (forall i :: 0 <= i < |c| ==> c[i].num == next + i && c[i].payload.Data? && 0 < |c[i].payload.bytes| <= size)
  {
    if bytes != [] && count != 0 && |bytes| > size {
      CutNumbers(bytes[size..], size, next + 1, count - 1);
    }
  }

  lemma BytesOne(num: int, bytes: seq<byte>)
    ensures Bytes([Segment(num, Data(bytes))]) == bytes
  {
    var one := [Segment(num, Data(bytes))];
    assert one[..0] == [];
    assert Bytes([]) + bytes == bytes;
  }

  /** Put together again, the segments are the front of the buffer, and all of
      it when they do not run out. */
  lemma {:induction false} CutIsPrefix(bytes: seq<byte>, size: nat, next: int, count: nat)
    requires size > 0
    ensures var c := Cut(bytes, size, next, count);
            Bytes(c) <= bytes && (|c| < count ==> Bytes(c) == bytes)
  {
    if bytes != [] && count != 0 {
      if |bytes| <= size {
        BytesOne(next, bytes);
      } else {
        var rest := Cut(bytes[size..], size, next + 1, count - 1);
        CutIsPrefix(bytes[size..], size, next + 1, count - 1);
        BytesConcat([Segment(next, Data(bytes[..size]))], rest);
        BytesOne(next, bytes[..size]);
        assert bytes == bytes[..size] + bytes[size..];
      }
    }
  }

  /** The segments a write queues. */
  function Queued(tx: Sender, bytes: seq<byte>, available: nat): seq<Segment> {
    if tx.maxSendSegmentSize == 0 || !tx.haveUnfilled then []
    else Cut(bytes, tx.maxSendSegmentSize, tx.xmitMax + 1, available + 1)
  }

  function Fresh(segs: seq<Segment>): (list: seq<SendSegment>)
    ensures |list| == |segs| && Segs(list) == segs
  {
    seq(|segs|, i requires 0 <= i < |segs| => SendSegment(segs[i], 0, 0))
  }

  /** A write takes one send segment per queued segment and asks the allocator
      for the next one each time. */
  function SenderAfterWrite(tx: Sender, bytes: seq<byte>, available: nat): Sender {
    var queued := Queued(tx, bytes, available);
    if queued == [] then tx else
      tx.(xmitMax := tx.xmitMax + |queued|,
          sendList := tx.sendList + Fresh(queued),
          haveUnfilled := available >= |queued|,
          allocationPending := available < |queued|)
  }

  // --------------------------------------------------- the invariant is kept

  lemma WithoutAckedInv(tx: Sender, ack: AckExtension)
    requires SenderInv(tx)
    ensures SenderInv(WithoutAcked(tx, ack))
    ensures forall s :: s in Outstanding(WithoutAcked(tx, ack)) ==> s in Outstanding(tx)
  {
    RemainingIsFilter(tx.unacked, ack);
    SortedPrefix(Segs(tx.unacked), Segs(tx.sendList));
    RemainingSorted(tx.unacked, ack);
    JoinSorted(Segs(Remaining(tx.unacked, ack)), Segs(tx.sendList));
    ResendingIsFilter(tx.unacked, ack, tx.resend);
  }

  lemma AckKeepsSenderInv(state: State, tx: Sender, ack: AckExtension)
    requires SenderInv(tx)
    requires forall s :: s in Outstanding(tx) ==> s.num <= tx.xmitMax
    ensures SenderInv(SenderAfterAck(state, tx, ack))
  {
    WithoutAckedInv(tx, ack);
    if SenderAfterAck(state, tx, ack) == AddFin(WithoutAcked(tx, ack)) {
      AddFinKeepsSenderInv(WithoutAcked(tx, ack));
    }
  }

  lemma JoinSorted(a: seq<Segment>, b: seq<Segment>)
    requires Sorted(a) && Sorted(b)
    requires forall x, y :: x in a && y in b ==> x.num < y.num
    ensures Sorted(a + b)
  {
  }

  lemma SortedPrefix(a: seq<Segment>, b: seq<Segment>)
    requires Sorted(a + b)
    ensures Sorted(a) && Sorted(b)
    ensures forall x, y :: x in a && y in b ==> x.num < y.num
  {
    var ab := a + b;
    forall i, j | 0 <= i < j < |a| ensures a[i].num < a[j].num {
      assert ab[i] == a[i] && ab[j] == a[j];
    }
    forall i, j | 0 <= i < j < |b| ensures b[i].num < b[j].num {
      assert ab[|a| + i] == b[i] && ab[|a| + j] == b[j];
    }
    forall x, y | x in a && y in b ensures x.num < y.num {
      var i :| 0 <= i < |a| && a[i] == x;
      var j :| 0 <= j < |b| && b[j] == y;
      assert ab[i] == x && ab[|a| + j] == y;
    }
  }

  lemma WindowReducedOutstanding(tx: Sender)
    ensures Outstanding(WindowReduced(tx)) == Outstanding(tx)
  {
    var n := InWindow(tx.unacked, tx.maxAdvertised);
    SegsSplit(tx.unacked, n);
    SegsConcat(tx.unacked[n..], tx.sendList);
    Associative(Segs(tx.unacked[..n]), Segs(tx.unacked[n..]), Segs(tx.sendList));
  }

  lemma AdvertiseKeepsSenderInv(tx: Sender, edge: int)
    requires SenderInv(tx)
    ensures SenderInv(Advertise(tx, edge))
    ensures Outstanding(Advertise(tx, edge)) == Outstanding(tx)
  {
    if edge < tx.maxAdvertised {
      WindowReducedOutstanding(tx.(maxAdvertised := edge));
      UpToIsFilter(tx.resend, edge);
      ResendStaysInFlight(tx, edge);
    }
  }

  lemma ResendStaysInFlight(tx: Sender, edge: int)
    requires SenderInv(tx)
    ensures forall r :: r in UpTo(tx.resend, edge) ==> r in Segs(tx.unacked[..InWindow(tx.unacked, edge)])
  {
    var n := InWindow(tx.unacked, edge);
    UpToIsFilter(tx.resend, edge);
    forall r | r in UpTo(tx.resend, edge) ensures r in Segs(tx.unacked[..n]) {
      var i :| 0 <= i < |tx.unacked| && Segs(tx.unacked)[i] == r;
      assert Segs(tx.unacked[..n])[i] == r;
    }
  }

  lemma SendOutstanding(tx: Sender, room: int, stamp: int)
    ensures Outstanding(SenderAfterSend(tx, room, stamp)) == Outstanding(tx)
    ensures Segs(SenderAfterSend(tx, room, stamp).unacked) == Segs(tx.unacked) + Segs(tx.sendList[..Batch(tx, room).1])
  {
    var (r, s) := Batch(tx, room);
    SegsConcat(StampWhere(tx.unacked, tx.resend[..r], stamp), StampAll(tx.sendList[..s], stamp));
    SegsSplit(tx.sendList, s);
    Associative(Segs(tx.unacked), Segs(tx.sendList[..s]), Segs(tx.sendList[s..]));
  }

  lemma SendKeepsSenderInv(tx: Sender, room: int, stamp: int)
    requires SenderInv(tx)
    ensures SenderInv(SenderAfterSend(tx, room, stamp))
  {
    SendOutstanding(tx, room, stamp);
  }

  /** What goes into a packet was outstanding. */
  lemma SentWasOutstanding(tx: Sender, room: int)
    requires SenderInv(tx)
    ensures forall x :: x in SentSegments(tx, room) ==> x in Outstanding(tx)
  {
    var (r, s) := Batch(tx, room);
    forall x | x in SentSegments(tx, room) ensures x in Outstanding(tx) {
      if x in tx.resend[..r] {
        assert x in tx.resend;
      } else {
        var i :| 0 <= i < s && Segs(tx.sendList[..s])[i] == x;
        assert Segs(tx.sendList)[i] == x;
      }
    }
  }

  lemma TimeoutKeepsSenderInv(tx: Sender)
    requires SenderInv(tx)
    ensures SenderInv(SenderAfterTimeout(tx))
    ensures Outstanding(SenderAfterTimeout(tx)) == Outstanding(tx)
  {
    SortedPrefix(Segs(tx.unacked), Segs(tx.sendList));
  }

  lemma WriteOutstanding(tx: Sender, bytes: seq<byte>, available: nat)
    ensures Outstanding(SenderAfterWrite(tx, bytes, available)) == Outstanding(tx) + Queued(tx, bytes, available)
  {
    var queued := Queued(tx, bytes, available);
    SegsConcat(tx.sendList, Fresh(queued));
    assert Outstanding(tx) + [] == Outstanding(tx);
  }

  lemma AppendSorted(a: seq<Segment>, b: seq<Segment>, top: int)
    requires Sorted(a) && Sorted(b)
    requires (forall s :: s in a ==> s.num <= top) && (forall s :: s in b ==> s.num > top)
    ensures Sorted(a + b)
  {
    JoinSorted(a, b);
  }

  lemma WriteKeepsSenderInv(tx: Sender, bytes: seq<byte>, available: nat)
    requires SenderInv(tx)
    requires forall s :: s in Outstanding(tx) ==> s.num <= tx.xmitMax
    ensures SenderInv(SenderAfterWrite(tx, bytes, available))
  {
    var queued := Queued(tx, bytes, available);
    WriteOutstanding(tx, bytes, available);
    if queued != [] {
      CutNumbers(bytes, tx.maxSendSegmentSize, tx.xmitMax + 1, available + 1);
      AppendSorted(Outstanding(tx), queued, tx.xmitMax);
    }
  }

  lemma AddFinKeepsSenderInv(tx: Sender)
    requires SenderInv(tx)
    requires forall s :: s in Outstanding(tx) ==> s.num <= tx.xmitMax
    ensures SenderInv(AddFin(tx))
    ensures Outstanding(AddFin(tx)) == Outstanding(tx) + [Segment(tx.xmitMax + 1, Fin)]
  {
    SegsConcat(tx.sendList, [SendSegment(Segment(tx.xmitMax + 1, Fin), 0, 0)]);
    var fin := [Segment(tx.xmitMax + 1, Fin)];
    assert Outstanding(AddFin(tx)) == Outstanding(tx) + fin;
    AppendSorted(Outstanding(tx), fin, tx.xmitMax);
  }
}
