/** One lemma for each step of each loop in the stream's code: what the loop has
    done so far, as a value, and how a step and the end of the loop change it. */
module StreamCodeSteps {
  import opened AckGaps
  import opened Basics
  import opened SequenceNumbers
  import opened StreamTypes
  import opened StreamSender
  import opened StreamReceiver
  import opened StreamEndpoint
  import opened StreamWalk
  import opened StreamNear

  // --------------------------------------------------- steps of the ack walk

  /** The walk has come down to index n. */
  ghost predicate Walking(e: Endpoint, ack: AckExtension, n: nat, now: Endpoint) {
    && n <= |e.tx.unacked|
    && now == Walked(e, ack, n, now.tx.resend)
    && ResendWalked(now.tx.resend, e.tx.unacked, ack, e.tx.resend, n)
  }

  lemma WalkAt(e: Endpoint, ack: AckExtension, n: nat, now: Endpoint)
    requires Walking(e, ack, n, now)
    ensures n <= |e.tx.unacked| && (n > 0 ==> n <= |now.tx.unacked| && now.tx.unacked[n - 1] == e.tx.unacked[n - 1])
  {
    hide Remaining, ResendWalked;
  }

  lemma UnackedSorted(tx: Sender)
    requires SenderInv(tx)
    ensures forall i, j :: 0 <= i < j < |tx.unacked| ==> tx.unacked[i].seg.num < tx.unacked[j].seg.num
  {
    SortedPrefix(Segs(tx.unacked), Segs(tx.sendList));
    forall i, j | 0 <= i < j < |tx.unacked| ensures tx.unacked[i].seg.num < tx.unacked[j].seg.num {
      assert Segs(tx.unacked)[i].num < Segs(tx.unacked)[j].num;
    }
  }

  lemma SameLists(tx: Sender, now: Sender)
    requires now == tx.(maxAdvertised := now.maxAdvertised)
    ensures SenderInv(tx) ==> SenderInv(now)
  {
  }

  lemma NothingToReduce(tx: Sender)
    ensures tx.unacked == [] && tx.resend == [] ==> WindowReduced(tx) == tx
  {
    assert tx.unacked == [] ==> tx.unacked[0..] + tx.sendList == tx.sendList;
  }

  lemma NothingToResend(tx: Sender)
    requires SenderInv(tx)
    ensures tx.unacked == [] ==> tx.resend == []
  {
    assert tx.resend != [] ==> tx.resend[0] in Segs(tx.unacked);
  }

  /** A changed window leaves the sending half ready, with no more in flight. */
  lemma AdvertiseReady(tx: Sender, edge: int)
    requires SendReady(tx)
    ensures SendReady(Advertise(tx, edge)) && Advertise(tx, edge).unacked <= tx.unacked
  {
    AdvertiseKeepsSenderInv(tx, edge);
  }

  /** All segments below the position are numbered up to top. */
  ghost predicate UpToTop(list: seq<SendSegment>, n: nat, top: int)
    requires n <= |list|
  {
    forall i :: 0 <= i < n ==> list[i].seg.num <= top
  }

  lemma BelowTop(tx: Sender, n: nat, top: int)
    requires SenderInv(tx) && n <= |tx.unacked| && (n > 0 ==> tx.unacked[n - 1].seg.num <= top)
    ensures UpToTop(tx.unacked, n, top)
  {
    UnackedSorted(tx);
  }

  lemma WalkBegins(e: Endpoint, ack: AckExtension, n: nat)
    requires SendReady(e.tx) && n <= |e.tx.unacked|
    requires forall i :: 0 <= i < |e.tx.unacked| ==> (e.tx.unacked[i].seg.num <= ack.maxAcked <==> i < n)
    ensures Walking(e, ack, n, e) && UpToTop(e.tx.unacked, n, ack.maxAcked) && Span(ack.gaps[..0]) == 0
  {
    WalkStarts(e, ack, n);
  }

  /** What the k-th gap block says about the segments below the position. */
  lemma BlockMeaning(e: Endpoint, ack: AckExtension, n: nat, k: nat)
    requires n <= |e.tx.unacked| && k < |ack.gaps|
    requires UpToTop(e.tx.unacked, n, ack.maxAcked - Span(ack.gaps[..k]))
    requires NearAll(e.tx.unacked, ack.maxAcked) && NearAll(e.tx.unacked, ack.maxAcked - Span(ack.gaps))
    ensures var top := ack.maxAcked - Span(ack.gaps[..k]); var gap := ack.gaps[k]; var list := e.tx.unacked;
            && ack.maxAcked - Span(ack.gaps[..k + 1]) == top - gap.ackGap - gap.nackGap
            && NearAll(list, top - gap.ackGap) && NearAll(list, top - gap.ackGap - gap.nackGap)
            && (forall i :: 0 <= i < n && list[i].seg.num > top - gap.ackGap ==> AckedIn(list[i], ack))
            && (forall i :: 0 <= i < n && top - gap.ackGap - gap.nackGap < list[i].seg.num <= top - gap.ackGap ==>
                  !AckedIn(list[i], ack) && list[i].seg.num <= ack.maxAcked)
  {
    SpanStep(ack.gaps, k);
    SpanStep(ack.gaps, k + 1);
    forall i | 0 <= i < n
      ensures e.tx.unacked[i].seg.num > ack.maxAcked - Span(ack.gaps[..k]) - ack.gaps[k].ackGap ==> AckedIn(e.tx.unacked[i], ack)
    {
      UnderGap(e.tx.unacked[i].seg.num, ack, k);
    }
    forall i | 0 <= i < n && ack.maxAcked - Span(ack.gaps[..k + 1]) < e.tx.unacked[i].seg.num <= ack.maxAcked - Span(ack.gaps[..k]) - ack.gaps[k].ackGap
      ensures !AckedIn(e.tx.unacked[i], ack)
    {
      UnderGap(e.tx.unacked[i].seg.num, ack, k);
    }
  }

  lemma RestIsAcked(e: Endpoint, ack: AckExtension, n: nat)
    requires n <= |e.tx.unacked| && UpToTop(e.tx.unacked, n, ack.maxAcked - Span(ack.gaps[..|ack.gaps|]))
    ensures forall i :: 0 <= i < n ==> AckedIn(e.tx.unacked[i], ack)
  {
    forall i | 0 <= i < n ensures AckedIn(e.tx.unacked[i], ack) {
      UnderGap(e.tx.unacked[i].seg.num, ack, |ack.gaps|);
    }
  }

  lemma WalkOver(e: Endpoint, ack: AckExtension, now: Endpoint)
    requires SendReady(e.tx) && Walking(e, ack, 0, now)
    ensures now == e.(state := StateAfterAck(e.state, e.tx, ack), tx := SenderAfterAck(e.state, e.tx, ack))
  {
    hide SenderInv, ResendWalked, Walked, StateAfterAck, SenderAfterAck;
    WalkEnds(e, ack, now.tx.resend);
  }

  lemma StepAckedResend(e: Endpoint, n: nat)
    requires 0 < n <= |e.tx.unacked|
    ensures StepAcked(e, n).tx.resend == Without(e.tx.resend, e.tx.unacked[n - 1].seg)
  {
  }

  lemma WalkAckedStep(e: Endpoint, ack: AckExtension, n: nat, now: Endpoint)
    requires SendReady(e.tx) && n > 0 && Walking(e, ack, n, now) && AckedIn(e.tx.unacked[n - 1], ack)
    ensures n <= |now.tx.unacked| && Walking(e, ack, n - 1, StepAcked(now, n))
  {
    hide ResendWalked, Walked, StepAcked, AckedIn, Without, OneFin, SenderInv;
    WalkAcked(e, ack, n, now.tx.resend);
    ResendAcked(now.tx.resend, e.tx, ack, n);
    StepAckedResend(now, n);
  }

  lemma WalkNackedStep(e: Endpoint, ack: AckExtension, n: nat, now: Endpoint)
    requires SendReady(e.tx) && Pairwise(e.tx.unacked) && n > 0 && Walking(e, ack, n, now)
    requires !AckedIn(e.tx.unacked[n - 1], ack) && e.tx.unacked[n - 1].seg.num <= ack.maxAcked
    ensures n <= |now.tx.unacked| && now.tx.unacked[n - 1] == e.tx.unacked[n - 1]
    ensures Walking(e, ack, n - 1, StepNacked(now, n, ack.timestampEcho))
    ensures forall i :: 0 <= i < |now.tx.resend| ==> Comparable(now.tx.resend[i].num, e.tx.unacked[n - 1].seg.num)
  {
    hide Walked, AckedIn, OneFin, SenderInv, Marked, NowLost;
    WalkNacked(e, ack, n, now.tx.resend);
    ResendNacked(now.tx.resend, e.tx, ack, n);
    forall i | 0 <= i < |now.tx.resend| ensures Comparable(now.tx.resend[i].num, e.tx.unacked[n - 1].seg.num) {
      assert now.tx.resend[i] in Segs(e.tx.unacked);
    }
  }

  // ----------------------------------------------- steps of window reduction

  function OutOfFlight(tx: Sender): Sender
    requires tx.unacked != []
  {
    var n := |tx.unacked| - 1;
    tx.(unacked := tx.unacked[..n], sendList := [tx.unacked[n]] + tx.sendList,
        resend := Without(tx.resend, tx.unacked[n].seg), flightSize := tx.flightSize - 1)
  }

  /** The segments from the end of what is left of the unacked list on, all
      beyond the edge, are out of flight. */
  ghost predicate Reducing(tx: Sender, now: Sender) {
    var n := |now.unacked|;
    && n <= |tx.unacked|
    && now == tx.(unacked := tx.unacked[..n], sendList := tx.unacked[n..] + tx.sendList,
                  resend := now.resend, flightSize := tx.flightSize - (|tx.unacked| - n))
    && InWindow(tx.unacked, tx.maxAdvertised) == InWindow(tx.unacked[..n], tx.maxAdvertised)
    && ResendReduced(now.resend, tx, n)
  }

  ghost predicate ResendReduced(resend: seq<Segment>, tx: Sender, n: nat)
    requires n <= |tx.unacked|
  {
    && Sorted(resend)
    && (forall s :: s in resend <==> s in tx.resend && s in Segs(tx.unacked[..n]))
  }

  lemma ReduceStarts(tx: Sender)
    requires SenderInv(tx)
    ensures Reducing(tx, tx)
  {
    var n := |tx.unacked|;
    assert tx.unacked[..n] == tx.unacked && tx.unacked[n..] + tx.sendList == tx.sendList;
  }

  lemma ReduceLast(tx: Sender, now: Sender)
    requires Reducing(tx, now) && now.unacked != []
    ensures |now.unacked| <= |tx.unacked| && now.unacked[|now.unacked| - 1] == tx.unacked[|now.unacked| - 1]
  {
    hide InWindow, ResendReduced;
  }

  lemma ReduceStep(tx: Sender, now: Sender)
    requires SenderInv(tx) && Reducing(tx, now) && now.unacked != []
    ensures now.maxAdvertised == tx.maxAdvertised
    ensures now.unacked[|now.unacked| - 1].seg.num > tx.maxAdvertised ==> Reducing(tx, OutOfFlight(now))
  {
    hide ResendReduced;
    ReduceLast(tx, now);
    var n := |now.unacked| - 1;
    ReduceResend(now.resend, tx, n + 1);
    assert tx.unacked[..n + 1][..n] == tx.unacked[..n];
    assert [tx.unacked[n]] + (tx.unacked[n + 1..] + tx.sendList) == tx.unacked[n..] + tx.sendList;
  }

  lemma ReduceResend(resend: seq<Segment>, tx: Sender, n: nat)
    requires SenderInv(tx) && 0 < n <= |tx.unacked| && ResendReduced(resend, tx, n)
    ensures ResendReduced(Without(resend, tx.unacked[n - 1].seg), tx, n - 1)
  {
    var u := tx.unacked[n - 1];
    WithoutIsFilter(resend, u.seg);
    assert tx.unacked[..n] == tx.unacked[..n - 1] + [u];
    SegsConcat(tx.unacked[..n - 1], [u]);
    forall i | 0 <= i < n - 1 ensures tx.unacked[i].seg != u.seg {
      Distinct(tx, i, n - 1);
    }
  }

  lemma ReduceDone(tx: Sender, now: Sender)
    requires SenderInv(tx) && Reducing(tx, now) && now.maxAdvertised == tx.maxAdvertised
    requires now.unacked != [] ==> now.unacked[|now.unacked| - 1].seg.num <= tx.maxAdvertised
    ensures now == WindowReduced(tx)
  {
    hide ResendReduced;
    var n := |now.unacked|;
    assert n > 0 ==> tx.unacked[..n][n - 1] == tx.unacked[n - 1];
    ReducedResend(now.resend, tx, n);
  }

  lemma ReducedResend(resend: seq<Segment>, tx: Sender, n: nat)
    requires SenderInv(tx) && n <= |tx.unacked| && ResendReduced(resend, tx, n)
    requires InWindow(tx.unacked, tx.maxAdvertised) == n
    ensures resend == UpTo(tx.resend, tx.maxAdvertised)
  {
    UpToIsFilter(tx.resend, tx.maxAdvertised);
    ResendStaysInFlight(tx, tx.maxAdvertised);
    forall s | s in resend ensures s in UpTo(tx.resend, tx.maxAdvertised) {
      BelowEdge(tx, n, s);
    }
    SortedUnique(resend, UpTo(tx.resend, tx.maxAdvertised));
  }

  lemma BelowEdge(tx: Sender, n: nat, s: Segment)
    requires SenderInv(tx) && 0 <= n <= |tx.unacked| && s in Segs(tx.unacked[..n])
    requires n > 0 ==> tx.unacked[n - 1].seg.num <= tx.maxAdvertised
    ensures s.num <= tx.maxAdvertised
  {
    SortedPrefix(Segs(tx.unacked), Segs(tx.sendList));
    var i :| 0 <= i < n && Segs(tx.unacked[..n])[i] == s;
    assert Segs(tx.unacked)[i] == s && Segs(tx.unacked)[n - 1] == tx.unacked[n - 1].seg;
  }

  // --------------------------------------------- steps of filling a packet

  lemma FillLeft(tx: Sender, segs: seq<Segment>, room: int, k: nat, left: int)
    requires Filling(tx, segs, room, k, left)
    ensures left == room - WireSize(segs[..k])
  {
  }

  lemma MarkAtEnd(list: seq<SendSegment>, n: nat)
    requires n < |list| && forall i, j :: 0 <= i < j < |list| ==> list[i].seg.num < list[j].seg.num
    ensures Marked(Segs(list[..n]), list[n].seg) == Segs(list[..n + 1])
  {
    var segs := Segs(list[..n]);
    assert list[..n + 1] == list[..n] + [list[n]];
    SegsConcat(list[..n], [list[n]]);
    InsertAt(segs, list[n].seg, n);
    assert segs[..n] + [list[n].seg] + segs[n..] == segs + [list[n].seg];
  }

  lemma NearResend(tx: Sender)
    requires SenderInv(tx) && NearWindow(tx)
    ensures forall i :: 0 <= i < |tx.resend| ==> Comparable(tx.resend[i].num, tx.maxAdvertised)
  {
    forall i | 0 <= i < |tx.resend| ensures Comparable(tx.resend[i].num, tx.maxAdvertised) {
      assert tx.resend[i] in Segs(tx.unacked);
    }
  }

  lemma NearUnsent(tx: Sender)
    requires NearWindow(tx)
    ensures forall i :: 0 <= i < |tx.sendList| ==> Comparable(tx.sendList[i].seg.num, tx.maxAdvertised)
  {
  }

  lemma ResentLists(tx: Sender, r: nat, stamp: int)
    requires r <= |tx.resend|
    ensures var now := Resent(tx, r, stamp);
            now.sendList == tx.sendList && now.maxAdvertised == tx.maxAdvertised &&
            now.segmentSentAfterTimeout == tx.segmentSentAfterTimeout
  {
  }

  /** After resending r segments. */
  function Resent(tx: Sender, r: nat, stamp: int): Sender
    requires r <= |tx.resend|
  {
    tx.(unacked := StampWhere(tx.unacked, tx.resend[..r], stamp), resend := tx.resend[r..])
  }

  lemma ResendStarts(tx: Sender, room: int, stamp: int)
    ensures Resent(tx, 0, stamp) == tx && Filling(tx, tx.resend, room, 0, room) && tx.resend[..0] == []
  {
    StampNone(tx.unacked, stamp);
    FillStarts(tx, tx.resend, room);
  }

  lemma ResentStep(tx: Sender, r: nat, stamp: int)
    requires r < |tx.resend|
    ensures var now := Resent(tx, r, stamp);
            && now.resend != [] && now.resend[0] == tx.resend[r] && tx.resend[..r] + [tx.resend[r]] == tx.resend[..r + 1]
            && Resent(tx, r + 1, stamp) == now.(unacked := StampWhere(now.unacked, [tx.resend[r]], stamp), resend := now.resend[1..])
  {
    StampTwice(tx.unacked, tx.resend[..r], tx.resend[r], stamp);
    assert tx.resend[..r] + [tx.resend[r]] == tx.resend[..r + 1];
  }

  /** After resending r segments and sending n new ones. */
  function Sent(tx: Sender, r: nat, n: nat, stamp: int): Sender
    requires r <= |tx.resend| && n <= |tx.sendList|
  {
    var now := Resent(tx, r, stamp);
    now.(unacked := now.unacked + StampAll(tx.sendList[..n], stamp), sendList := tx.sendList[n..],
         flightSize := tx.flightSize + n)
  }

  lemma NoneSent(tx: Sender, r: nat, stamp: int, left: int)
    requires r <= |tx.resend|
    ensures Sent(tx, r, 0, stamp) == Resent(tx, r, stamp)
    ensures Filling(tx, Segs(tx.sendList), left, 0, left)
    ensures tx.resend[..r] + Segs(tx.sendList[..0]) == tx.resend[..r]
    ensures Resent(tx, r, stamp).sendList == tx.sendList
  {
    FillStarts(tx, Segs(tx.sendList), left);
  }

  lemma SentStep(tx: Sender, r: nat, n: nat, stamp: int)
    requires r <= |tx.resend| && n < |tx.sendList|
    ensures var now := Sent(tx, r, n, stamp); var u := tx.sendList[n];
            && now.sendList != [] && now.sendList[0] == u
            && tx.resend[..r] + Segs(tx.sendList[..n]) + [u.seg] == tx.resend[..r] + Segs(tx.sendList[..n + 1])
            && Sent(tx, r, n + 1, stamp) ==
               now.(unacked := now.unacked + [Stamped(u, stamp)], sendList := now.sendList[1..], flightSize := now.flightSize + 1)
  {
    StampAllStep(tx.sendList, n, stamp);
    assert tx.sendList[..n + 1] == tx.sendList[..n] + [tx.sendList[n]];
    SegsConcat(tx.sendList[..n], [tx.sendList[n]]);
  }

  lemma SentBatch(tx: Sender, room: int, r: nat, n: nat, stamp: int)
    requires Batch(tx, room) == (r, n)
    ensures SenderAfterSend(tx, room, stamp) == Sent(tx, r, n, stamp)
    ensures SentSegments(tx, room) == tx.resend[..r] + Segs(tx.sendList[..n])
  {
    hide Batch, FitCount;
  }

  // ------------------------------------------------- steps of cutting a buffer

  function AddData(tx: Sender, bytes: seq<byte>, available: nat): Sender {
    AllocateSend(tx.(haveUnfilled := false), available)
      .(xmitMax := tx.xmitMax + 1, sendList := tx.sendList + [SendSegment(Segment(tx.xmitMax + 1, Data(bytes)), 0, 0)])
  }

  /** After queuing the segments done. */
  function QueuedSoFar(tx: Sender, done: seq<Segment>, available: nat): Sender {
    if done == [] then tx else
      tx.(xmitMax := tx.xmitMax + |done|, sendList := tx.sendList + Fresh(done),
          haveUnfilled := available >= |done|, allocationPending := available < |done|)
  }

  /** The segments done and those the rest will be cut into are all. */
  ghost predicate Cutting(tx: Sender, buffer: seq<byte>, available: nat, done: seq<Segment>, rest: seq<byte>)
    requires tx.maxSendSegmentSize > 0
  {
    && |done| <= available + 1
    && Queued(tx, buffer, available) ==
       done + Cut(rest, tx.maxSendSegmentSize, tx.xmitMax + 1 + |done|, available + 1 - |done|)
  }

  lemma CutStarts(tx: Sender, buffer: seq<byte>, available: nat)
    requires tx.maxSendSegmentSize > 0 && tx.haveUnfilled
    ensures Cutting(tx, buffer, available, [], buffer) && QueuedSoFar(tx, [], available) == tx && Bytes([]) == []
  {
  }

  lemma CutNext(tx: Sender, buffer: seq<byte>, available: nat, done: seq<Segment>, rest: seq<byte>)
    requires tx.maxSendSegmentSize > 0 && Cutting(tx, buffer, available, done, rest)
    requires rest != [] && |done| <= available
    ensures var size := if |rest| < tx.maxSendSegmentSize then |rest| else tx.maxSendSegmentSize;
            var done' := done + [Segment(tx.xmitMax + |done| + 1, Data(rest[..size]))];
            Cutting(tx, buffer, available, done', rest[size..]) && |Bytes(done')| == |Bytes(done)| + size
  {
    hide Queued, Bytes;
    var size := if |rest| < tx.maxSendSegmentSize then |rest| else tx.maxSendSegmentSize;
    var s := Segment(tx.xmitMax + |done| + 1, Data(rest[..size]));
    var count := available + 1 - |done|;
    assert |rest| <= tx.maxSendSegmentSize ==> rest[..size] == rest && rest[size..] == [];
    CutOnce(rest, tx.maxSendSegmentSize, s.num, count);
    assert done + ([s] + Cut(rest[size..], tx.maxSendSegmentSize, s.num + 1, count - 1)) ==
           done + [s] + Cut(rest[size..], tx.maxSendSegmentSize, s.num + 1, count - 1);
    BytesConcat(done, [s]);
    BytesOne(s.num, rest[..size]);
  }

  lemma CutOnce(rest: seq<byte>, max: nat, next: int, count: nat)
    requires max > 0 && rest != [] && count > 0
    ensures var size := if |rest| < max then |rest| else max;
            Cut(rest, max, next, count) == [Segment(next, Data(rest[..size]))] + Cut(rest[size..], max, next + 1, count - 1)
  {
    if |rest| <= max {
      assert rest[..|rest|] == rest && rest[|rest|..] == [];
    }
  }

  lemma QueuedNext(tx: Sender, done: seq<Segment>, available: nat, bytes: seq<byte>)
    requires |done| <= available && tx.haveUnfilled
    ensures var now := QueuedSoFar(tx, done, available); var next := AddData(now, bytes, available - |done|);
            && now.haveUnfilled && now.xmitMax == tx.xmitMax + |done|
            && next == QueuedSoFar(tx, done + [Segment(tx.xmitMax + |done| + 1, Data(bytes))], available)
            && next.haveUnfilled == (available >= |done| + 1) && next.xmitMax == now.xmitMax + 1
            && next.maxSendSegmentSize == now.maxSendSegmentSize
  {
    var s := Segment(tx.xmitMax + |done| + 1, Data(bytes));
    assert Fresh(done + [s]) == Fresh(done) + [SendSegment(s, 0, 0)];
    assert tx.sendList + (Fresh(done) + [SendSegment(s, 0, 0)]) == tx.sendList + Fresh(done) + [SendSegment(s, 0, 0)];
    assert done == [] ==> tx.sendList + Fresh(done) == tx.sendList;
  }

  lemma CutDone(tx: Sender, buffer: seq<byte>, available: nat, done: seq<Segment>, rest: seq<byte>)
    requires tx.maxSendSegmentSize > 0 && Cutting(tx, buffer, available, done, rest)
    requires rest == [] || available < |done|
    ensures done == Queued(tx, buffer, available)
    ensures QueuedSoFar(tx, done, available) == SenderAfterWrite(tx, buffer, available)
  {
    hide Queued, Fresh;
    assert done + [] == done;
  }

  // ---------------------------------------------------------- steps of reading

  /** These bytes have been taken off the read list. */
  ghost predicate Reading(list: seq<ReadSegment>, bytes: seq<byte>, now: seq<ReadSegment>)
    requires ReadListOk(list)
  {
    bytes <= Available(list) && now == Consume(list, |bytes|)
  }

  lemma ReadStarts(list: seq<ReadSegment>, room: nat)
    requires ReadListOk(list)
    ensures Reading(list, [], list)
  {
  }

  lemma ConsumeFirst(list: seq<ReadSegment>, n: nat)
    requires ReadListOk(list) && HasReadData(list) && n <= |list[0].seg.payload.bytes| - list[0].used
    ensures Consume(list, n) ==
            if n == |list[0].seg.payload.bytes| - list[0].used then list[1..]
            else [list[0].(used := list[0].used + n)] + list[1..]
  {
  }

  lemma FirstUnread(list: seq<ReadSegment>)
    requires ReadListOk(list)
    ensures HasReadData(list) ==> list[0].used <= |list[0].seg.payload.bytes|
  {
  }

  lemma AvailableFirst(list: seq<ReadSegment>, part: seq<byte>)
    requires ReadListOk(list) && HasReadData(list) && part <= list[0].seg.payload.bytes[list[0].used..]
    ensures part <= Available(list)
  {
  }

  lemma ReadStepConsumes(list: seq<ReadSegment>, room: nat)
    requires ReadListOk(list) && HasReadData(list)
    ensures var (rest, part) := ReadStep(list, room);
            && part <= Available(list) && rest == Consume(list, |part|) && ReadListOk(rest)
            && |part| <= room && (part != [] || room == 0)
  {
    hide Consume, Available;
    var part := ReadStep(list, room).1;
    ConsumeKeepsOk(list, |part|);
    ConsumeFirst(list, |part|);
    AvailableFirst(list, part);
  }

  lemma {:induction false} ConsumeTwice(list: seq<ReadSegment>, n: nat, m: nat)
    requires ReadListOk(list) && n <= |Available(list)|
    ensures ReadListOk(Consume(list, n)) && Consume(Consume(list, n), m) == Consume(list, n + m)
  {
    ConsumeKeepsOk(list, n);
    if HasReadData(list) && n != 0 {
      var rest := |list[0].seg.payload.bytes| - list[0].used;
      if rest <= n {
        ConsumeTwice(list[1..], n - rest, m);
      } else {
        var part := [list[0].(used := list[0].used + n)] + list[1..];
        assert part[1..] == list[1..];
      }
    }
  }

  lemma ReadOnce(list: seq<ReadSegment>, bytes: seq<byte>, now: seq<ReadSegment>, room: nat)
    requires ReadListOk(list) && Reading(list, bytes, now)
    ensures ReadListOk(now)
    ensures HasReadData(now) ==>
              var (rest, part) := ReadStep(now, room);
              Reading(list, bytes + part, rest) && ReadListOk(rest) && |part| <= room && (part != [] || room == 0)
  {
    hide Consume, Available, ReadListOk, ReadStep;
    ConsumeTakesFront(list, |bytes|);
    FirstUnread(now);
    if HasReadData(now) {
      ReadStepConsumes(now, room);
      var part := ReadStep(now, room).1;
      ConsumeTwice(list, |bytes|, |part|);
      assert bytes + part <= Available(list) by {
        assert Available(list) == bytes + Available(list)[|bytes|..];
      }
    }
  }

  lemma ReadEnds(e: Endpoint, bytes: seq<byte>, now: seq<ReadSegment>, room: nat)
    requires ReadListOk(e.rx.recvRead) && Reading(e.rx.recvRead, bytes, now) && |bytes| <= room
    requires ReadStatus(e) != StatusOk ==> bytes == []
    requires ReadStatus(e) == StatusOk ==> !HasReadData(now) || |bytes| == room
    ensures bytes == ReadBytes(e, room) && e.(rx := e.rx.(recvRead := now)) == Read(e, room)
  {
    var list := e.rx.recvRead;
    ConsumeTakesFront(list, |bytes|);
    assert Available(list) == bytes + Available(list)[|bytes|..];
    if ReadStatus(e) == StatusOk && !HasReadData(now) {
      assert bytes == Available(list);
    }
  }

  // -------------------------------------------------------- steps of receiving

  lemma IdleOne(num: int)
    ensures IdleSlots(num, 1) == [Slot(num, None)]
  {
  }

  /** The window with so many more segments allocated, none having failed. */
  function Grown(rx: Receiver, count: nat): Receiver {
    if count == 0 then rx else Extend(rx, count).(allocationPending := false)
  }

  lemma GrownFits(rx: Receiver, count: nat, num: int)
    requires ReceiverInv(rx) && !Refused(rx, num) && rx.recvMaxAllocated + count <= num
    ensures ReceiverInv(Grown(rx, count)) && (count > 0 ==> !rx.allocationPending)
  {
  }

  lemma GrowStep(rx: Receiver, count: nat, num: int)
    requires ReceiverInv(rx) && !Refused(rx, num) && rx.recvMaxAllocated + count < num
    ensures ReceiverInv(Grown(rx, count + 1)) && !rx.allocationPending
    ensures Grown(rx, count + 1) == AllocateRecv(Grown(rx, count), 1)
  {
    GrownFits(rx, count + 1, num);
    var more := IdleSlots(rx.recvMaxAllocated + 1, count);
    assert more + IdleSlots(rx.recvMaxAllocated + 1 + count, 1) == IdleSlots(rx.recvMaxAllocated + 1, count + 1);
    assert rx.window + (more + IdleSlots(rx.recvMaxAllocated + 1 + count, 1)) ==
           rx.window + more + IdleSlots(rx.recvMaxAllocated + 1 + count, 1);
    assert count == 0 ==> rx.window + more == rx.window;
  }

  lemma GrownNone(rx: Receiver, num: int, available: nat)
    ensures Grown(rx, 0) == rx && (Refused(rx, num) ==> AfterFind(rx, num, available) == rx)
    ensures forall n: nat :: Grown(rx, n).recvMaxAllocated == rx.recvMaxAllocated + n && Grown(rx, n).recvTop == rx.recvTop
  {
  }

  lemma GrowFails(rx: Receiver, count: nat, num: int, available: nat)
    requires !Refused(rx, num) && rx.recvMaxAllocated + count < num && available == count
    ensures AllocateRecv(Grown(rx, count), 0) == AfterFind(rx, num, available)
    ensures AfterFind(rx, num, available).recvMaxAllocated < num
  {
    assert rx.window + IdleSlots(rx.recvMaxAllocated + 1, 0) == rx.window;
  }

  lemma GrowDone(rx: Receiver, count: nat, num: int, available: nat)
    requires !Refused(rx, num) && rx.recvMaxAllocated + count >= num && count <= available
    requires count > 0 ==> rx.recvMaxAllocated + count <= num
    ensures Grown(rx, count) == AfterFind(rx, num, available)
  {
  }

  /** The first n slots of the window moved to the read list. */
  function Moved(rx: Receiver, n: nat): Receiver
    requires n <= |rx.window| && forall i :: 0 <= i < n ==> rx.window[i].content.Some?
  {
    rx.(window := rx.window[n..], recvRead := rx.recvRead + Readable(rx.window, n),
        recvTop := if n > 0 then rx.window[n - 1].num else rx.recvTop)
  }

  function HeadMoved(rx: Receiver): Receiver
    requires rx.window != [] && rx.window[0].content.Some?
  {
    var slot := rx.window[0];
    rx.(window := rx.window[1..], recvTop := slot.num,
        recvRead := rx.recvRead + [ReadSegment(Segment(slot.num, slot.content.value), 0)])
  }

  lemma MoveStarts(rx: Receiver)
    ensures Moved(rx, 0) == rx
  {
  }

  lemma MoveNext(rx: Receiver, n: nat)
    requires n < |rx.window| && forall i :: 0 <= i <= n ==> rx.window[i].content.Some?
    ensures Moved(rx, n).window == rx.window[n..] && Moved(rx, n + 1) == HeadMoved(Moved(rx, n))
  {
    var slot := rx.window[n];
    assert Readable(rx.window, n + 1) == Readable(rx.window, n) + [ReadSegment(Segment(slot.num, slot.content.value), 0)];
  }

  lemma {:induction false} LeadingIs(window: seq<Slot>, n: nat)
    requires n <= |window| && (forall i :: 0 <= i < n ==> window[i].content.Some?)
    requires n < |window| ==> window[n].content.None?
    ensures Leading(window) == n
  {
    if n > 0 {
      LeadingIs(window[1..], n - 1);
    }
  }

  lemma MoveEnds(rx: Receiver, n: nat)
    requires n <= |rx.window| && (forall i :: 0 <= i < n ==> rx.window[i].content.Some?)
    requires n < |rx.window| ==> rx.window[n].content.None?
    ensures Moved(rx, n) == MoveToRead(rx)
  {
    LeadingIs(rx.window, n);
  }

  lemma NearAfterFind(rx: Receiver, num: int, available: nat)
    requires ReceiverInv(rx) && NearReceiver(rx, num)
    ensures Comparable(rx.recvTop, num) && Comparable(rx.recvMax, num)
    ensures var found := AfterFind(rx, num, available);
            found.recvTop == rx.recvTop && found.recvMax == rx.recvMax
    ensures Found(rx, num, available) ==> num > rx.recvTop
  {
  }

  // -------------------------------------------------- steps of handling packets

  lemma ReadyToSend(tx: Sender)
    requires Ready(tx)
    ensures SendReady(tx)
  {
    forall i, j | 0 <= i < j < |tx.unacked| ensures !(tx.unacked[i].seg.payload.Fin? && tx.unacked[j].seg.payload.Fin?) {
      Distinct(tx, i, j);
      assert Outstanding(tx)[i] == tx.unacked[i].seg && Outstanding(tx)[j] == tx.unacked[j].seg;
    }
  }

  lemma AckKeepsReady(e: Endpoint, ack: AckExtension, stamp: int)
    requires Ready(e.tx)
    ensures Ready(HandleAck(e, ack, stamp).tx)
  {
    hide SenderInv, StateAfterAck, WindowReduced, Remaining, Resending;
    var tx := if e.timestampToEcho <= stamp then Advertise(e.tx, ack.maxAcked + ack.windowSize) else e.tx;
    var state := if e.state == SynRcvd then Established else e.state;
    AdvertiseKeepsSenderInv(e.tx, ack.maxAcked + ack.windowSize);
    AdvertiseKeepsReady(e.tx, ack.maxAcked + ack.windowSize);
    AckedKeepsReady(state, tx, ack);
  }

  lemma AdvertiseKeepsReady(tx: Sender, edge: int)
    requires Ready(tx)
    ensures Ready(Advertise(tx, edge))
  {
    AdvertiseKeepsSenderInv(tx, edge);
  }

  lemma AckedKeepsReady(state: State, tx: Sender, ack: AckExtension)
    requires Ready(tx)
    ensures Ready(SenderAfterAck(state, tx, ack))
  {
    hide StateAfterAck, Remaining, Resending;
    var left := WithoutAcked(tx, ack);
    WithoutAckedInv(tx, ack);
    if SenderAfterAck(state, tx, ack) != left {
      AddFinKeepsSenderInv(left);
      assert Outstanding(left) == [];
    }
  }

  lemma SynAckKeepsReady(e: Endpoint, p: Packet, budget: Budget)
    requires p.SynAck?
    ensures Ready(e.tx) ==> Ready(StreamEndpoint.HandleSynAck(e, p, budget).tx)
  {
  }

  lemma FromStep(available: seq<nat>, i: nat)
    ensures From(From(available, i), 1) == From(available, i + 1)
    ensures i < |available| ==> From(available, i) != [] && From(available, i)[0] == available[i]
    ensures i >= |available| ==> From(available, i) == []
    ensures From(available, i) != [] ==> From(available, i)[1..] == From(available, i + 1)
  {
  }
}
