/** What the stream's code needs of the numbers it compares: none is half the
    32 bit number space away from the other, so that their words compare like
    the numbers themselves. */
module StreamNear {
  import opened AckGaps
  import opened Basics
  import opened SequenceNumbers
  import opened StreamTypes
  import opened StreamSender
  import opened StreamReceiver
  import opened StreamEndpoint
  import opened StreamWalk

  /** The sending half as it is between calls. */
  ghost predicate SendReady(tx: Sender) {
    && SenderInv(tx)
    && OneFin(tx.unacked)
  }

  ghost predicate NearAll(list: seq<SendSegment>, n: int) {
    forall i :: 0 <= i < |list| ==> Comparable(list[i].seg.num, n)
  }

  /** No number in an ack is half the number space away from one it is compared with. */
  ghost predicate NearAck(e: Endpoint, ack: AckExtension, stamp: int) {
    && Comparable(e.timestampToEcho, stamp)
    && (e.tx.unacked == [] || Comparable(e.tx.maxAdvertised, ack.maxAcked + ack.windowSize))
    && NearAll(e.tx.unacked, ack.maxAcked + ack.windowSize)
    && NearAll(e.tx.unacked, ack.maxAcked)
    && NearAll(e.tx.unacked, ack.maxAcked - Span(ack.gaps))
    && Pairwise(e.tx.unacked)
  }

  ghost predicate Pairwise(list: seq<SendSegment>) {
    forall i, j :: 0 <= i < |list| && 0 <= j < |list| ==> Comparable(list[i].seg.num, list[j].seg.num)
  }

  ghost predicate NearWindow(tx: Sender) {
    && NearAll(tx.unacked, tx.maxAdvertised) && NearAll(tx.sendList, tx.maxAdvertised)
    && Comparable(tx.xmitMax, tx.maxAdvertised)
  }

  /** No number of the window is half the number space away from a received one. */
  ghost predicate NearReceiver(rx: Receiver, num: int) {
    && Comparable(num, rx.recvTop)
    && Comparable(num, rx.recvTop + MAX_RECV_SEGMENTS + 1)
  }

  /** The sending half between packets: besides its invariant, only FIN, once
      queued, has the highest number handed out. */
  ghost predicate Ready(tx: Sender) {
    && SenderInv(tx)
    && (forall s :: s in Outstanding(tx) ==> s.num <= tx.xmitMax && (s.payload.Fin? ==> tx.finQueued && s.num == tx.xmitMax))
  }

  ghost predicate NearAcks(e: Endpoint, acks: seq<AckExtension>, stamp: int)
    decreases |acks|
  {
    acks == [] || (NearAck(e, acks[0], stamp) && NearAcks(HandleAck(e, acks[0], stamp), acks[1..], stamp))
  }

  function From(available: seq<nat>, i: nat): seq<nat> {
    if i <= |available| then available[i..] else []
  }

  ghost predicate NearSegments(e: Endpoint, segments: seq<Segment>, available: seq<nat>)
    requires ReceiverInv(e.rx)
    decreases |segments|
  {
    segments == [] ||
    var left := if available == [] then 0 else available[0];
    NearReceiver(e.rx, segments[0].num) && NearSegments(HandleSegment(e, segments[0], left), segments[1..], From(available, 1))
  }

  /** Nothing in a packet is half the number space away from what it is compared
      with, but for the stamp of a reset, which is always 0. */
  ghost predicate NearPacket(e: Endpoint, p: Packet, budget: Budget)
    requires ReceiverInv(e.rx)
  {
    var h := Hear(e, p.stamp);
    && (!p.Rst? ==> Comparable(e.timestampToEcho, p.stamp))
    && (p.SynAck? ==> NearAcks(StreamEndpoint.HandleSynAck(h, p, budget), p.acks, p.stamp))
    && (p.Ack? ==> NearAcks(h, p.acks, p.stamp) && NearSegments(HandleAcks(h, p.acks, p.stamp), p.segments, budget.segments))
  }

  /** The stamp to echo after a packet: the newer one, as their words compare. */
  function EchoAfter(timestampToEcho: int, p: Packet): int {
    if Less(timestampToEcho, p.stamp) then p.stamp else timestampToEcho
  }

  /** A reset ends the stream in the same way whatever stamp it leaves to echo. */
  lemma RstIgnoresStamps(e: Endpoint, stamp: int)
    ensures HandleRst(e.(timestampToEcho := stamp)) == HandleRst(e).(timestampToEcho := stamp)
    ensures Ended(HandleRst(e).state)
  {
  }
}
