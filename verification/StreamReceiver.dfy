/** The receiving half of a stream: the allocated window, the in-order read
    list and the acks that describe them, as functions from the state before to
    the state after. */
module StreamReceiver {
  import opened AckGaps
  import opened Basics
  import opened StreamTypes

  /** A receive segment in the window; no content while it is idle. */
  datatype Slot = Slot(num: int, content: Option<Payload>)

  /** A segment ready to be read, of which used bytes have been. */
  datatype ReadSegment = ReadSegment(seg: Segment, used: nat)

  datatype Receiver = Receiver(
    recvTop: int,
    recvMax: int,
    recvMaxAllocated: int,
    window: seq<Slot>,
    recvRead: seq<ReadSegment>,
    allocationPending: bool,
    maxRecvSegmentSize: nat)

  // -------------------------------------------------------------- invariant

  /** The window is exactly the slots recvTop + 1 .. recvMaxAllocated with an
      idle head, recvMax is the highest filled one, and no more is allocated
      than was advertised, plus the one segment kept ready. */
  ghost predicate ReceiverInv(rx: Receiver) {
    && rx.recvTop <= rx.recvMax <= rx.recvMaxAllocated
    && |rx.window| == rx.recvMaxAllocated - rx.recvTop
    && (forall i :: 0 <= i < |rx.window| ==> rx.window[i].num == rx.recvTop + 1 + i)
    && (rx.window != [] ==> rx.window[0].content.None?)
    && (rx.recvMax > rx.recvTop ==> rx.window[rx.recvMax - rx.recvTop - 1].content.Some?)
    && (forall i :: rx.recvMax - rx.recvTop <= i < |rx.window| ==> rx.window[i].content.None?)
    && rx.recvMax <= rx.recvTop + MAX_RECV_SEGMENTS
    && rx.recvMaxAllocated <= rx.recvTop + MAX_RECV_SEGMENTS + 1
    && (rx.allocationPending ==> rx.recvMaxAllocated <= rx.recvTop + MAX_RECV_SEGMENTS)
  }

  /** Has this number been received, and so may it be acknowledged? */
  predicate Has(rx: Receiver, num: int) {
    num <= rx.recvTop ||
    (num - rx.recvTop - 1 < |rx.window| && rx.window[num - rx.recvTop - 1].content.Some?)
  }

  // ---------------------------------------------------------------- windows

  function WindowSize(rx: Receiver): nat {
    if rx.allocationPending then 0
    else if rx.recvMax - rx.recvTop >= MAX_RECV_SEGMENTS then 0
    else if rx.recvMax < rx.recvTop then 0
    else MAX_RECV_SEGMENTS - (rx.recvMax - rx.recvTop)
  }

  function IdleSlots(from: int, count: nat): (slots: seq<Slot>)
    ensures |slots| == count
    ensures forall i :: 0 <= i < count ==> slots[i] == Slot(from + i, None)
  {
    seq(count, i => Slot(from + i, None))
  }

  /** The window with so many more segments allocated. */
  function Extend(rx: Receiver, count: nat): Receiver {
    rx.(recvMaxAllocated := rx.recvMaxAllocated + count,
        window := rx.window + IdleSlots(rx.recvMaxAllocated + 1, count))
  }

  /** One allocation; when it fails it is retried later, and until then the
      window is closed. */
  function AllocateRecv(rx: Receiver, available: nat): Receiver {
    if available > 0 then Extend(rx, 1).(allocationPending := false) else rx.(allocationPending := true)
  }

  predicate Refused(rx: Receiver, num: int) {
    rx.recvMax + WindowSize(rx) < num
  }

  /** The state after looking for the slot of a number, with an allocator that
      has so many segments left: the window grows up to that number, or as far
      as it can. */
  function AfterFind(rx: Receiver, num: int, available: nat): Receiver {
    if Refused(rx, num) || num <= rx.recvMaxAllocated then rx
    else if num - rx.recvMaxAllocated <= available then
      Extend(rx, num - rx.recvMaxAllocated).(allocationPending := false)
    else Extend(rx, available).(allocationPending := true)
  }

  predicate Found(rx: Receiver, num: int, available: nat) {
    !Refused(rx, num) && rx.recvTop < num <= AfterFind(rx, num, available).recvMaxAllocated
  }

  // -------------------------------------------------------------- receiving

  function Store(rx: Receiver, num: int, payload: Payload): Receiver
    requires 0 <= num - rx.recvTop - 1 < |rx.window|
  {
    rx.(window := rx.window[num - rx.recvTop - 1 := Slot(num, Some(payload))],
        recvMax := if rx.recvMax < num then num else rx.recvMax)
  }

  /** How many slots at the front of the window are filled. */
  function Leading(window: seq<Slot>): (n: nat)
    ensures n <= |window|
    ensures forall i :: 0 <= i < n ==> window[i].content.Some?
    ensures n < |window| ==> window[n].content.None?
  {
    if window == [] || window[0].content.None? then 0 else 1 + Leading(window[1..])
  }

  function Readable(window: seq<Slot>, n: nat): (list: seq<ReadSegment>)
    requires n <= |window| && forall i :: 0 <= i < n ==> window[i].content.Some?
    ensures |list| == n
    ensures forall i :: 0 <= i < n ==> list[i] == ReadSegment(Segment(window[i].num, window[i].content.value), 0)
  {
    seq(n, i requires 0 <= i < n => ReadSegment(Segment(window[i].num, window[i].content.value), 0))
  }

  /** The filled slots at the front of the window become readable. */
  function MoveToRead(rx: Receiver): Receiver {
    var n := Leading(rx.window);
    rx.(window := rx.window[n..],
        recvRead := rx.recvRead + Readable(rx.window, n),
        recvTop := if n > 0 then rx.window[n - 1].num else rx.recvTop)
  }

  predicate SlotIdle(rx: Receiver, num: int)
    requires 0 <= num - rx.recvTop - 1 < |rx.window|
  {
    rx.window[num - rx.recvTop - 1].content.None?
  }

  /** A data segment: stored once, if its slot can be found. */
  function AfterData(rx: Receiver, num: int, bytes: seq<byte>, available: nat): Receiver
    requires ReceiverInv(rx)
  {
    if num <= rx.recvTop then rx else
      var found := AfterFind(rx, num, available);
      if !Found(rx, num, available) || !SlotIdle(found, num) then found
      else MoveToRead(Store(found, num, Data(bytes)))
  }

  /** A FIN: put into its slot, if that can be found. */
  function AfterFin(rx: Receiver, num: int, available: nat): Receiver
    requires ReceiverInv(rx)
  {
    var found := AfterFind(rx, num, available);
    if !Found(rx, num, available) then found else MoveToRead(Store(found, num, Fin))
  }

  // ---------------------------------------------------------------- reading

  /** One call of the single-segment read: the read list and what is returned. */
  function ReadStep(list: seq<ReadSegment>, room: nat): (r: (seq<ReadSegment>, seq<byte>))
    requires list != [] && list[0].seg.payload.Data? && list[0].used <= |list[0].seg.payload.bytes|
    ensures |r.1| <= room
  {
    var bytes, used := list[0].seg.payload.bytes, list[0].used;
    var take := if |bytes| - used <= room then |bytes| - used else room;
    (if used + take == |bytes| then list[1..] else [list[0].(used := used + take)] + list[1..],
     bytes[used..used + take])
  }

  predicate HasReadData(list: seq<ReadSegment>) {
    list != [] && list[0].seg.payload.Data?
  }

  ghost predicate ReadListOk(list: seq<ReadSegment>) {
    forall i :: 0 <= i < |list| ==>
      list[i].used <= Used(list[i].seg) && (list[i].seg.payload.Data? ==> list[i].used < |list[i].seg.payload.bytes|)
  }

  /** The bytes that can be read before the end or a FIN. */
  function Available(list: seq<ReadSegment>): seq<byte>
    requires ReadListOk(list)
  {
    if !HasReadData(list) then [] else list[0].seg.payload.bytes[list[0].used..] + Available(list[1..])
  }

  /** The read list after so many bytes have been read off it. */
  function Consume(list: seq<ReadSegment>, n: nat): seq<ReadSegment>
    requires ReadListOk(list)
  {
    if !HasReadData(list) || n == 0 then list else
      var rest := |list[0].seg.payload.bytes| - list[0].used;
      if rest <= n then Consume(list[1..], n - rest)
      else [list[0].(used := list[0].used + n)] + list[1..]
  }

  // ------------------------------------------------------------------- acks

  /** How many slots there are up to and including the highest filled one. */
  function TopFilled(window: seq<Slot>): (n: nat)
    ensures n <= |window|
    ensures n > 0 ==> window[n - 1].content.Some?
    ensures forall i :: n <= i < |window| ==> window[i].content.None?
  {
    if window == [] || window[|window| - 1].content.Some? then |window| else TopFilled(window[..|window| - 1])
  }

  function FillBits(window: seq<Slot>): (bits: seq<bool>)
    ensures |bits| == |window|
    ensures forall i :: 0 <= i < |window| ==> bits[i] == window[i].content.Some?
  {
    seq(|window|, i requires 0 <= i < |window| => window[i].content.Some?)
  }

  function GapsOf(rx: Receiver, maxBlocks: nat): seq<Gap>
    requires maxBlocks >= 2
  {
    if rx.recvMax == rx.recvTop then [] else EncodeGaps(FillBits(rx.window[..TopFilled(rx.window)]), maxBlocks)
  }

  function AckOf(rx: Receiver, timestampToEcho: int, maxBlocks: nat): AckExtension
    requires maxBlocks >= 2
  {
    AckExtension(rx.recvMax, WindowSize(rx), timestampToEcho, GapsOf(rx, maxBlocks))
  }

  lemma TopFilledIsRecvMax(rx: Receiver)
    requires ReceiverInv(rx)
    ensures TopFilled(rx.window) == rx.recvMax - rx.recvTop
  {
    var n, m := TopFilled(rx.window), rx.recvMax - rx.recvTop;
    assert n == 0 || rx.window[n - 1].content.Some?;
    assert m == 0 || rx.window[m - 1].content.Some?;
  }

  /** An ack acknowledges only what has been received, everything up to recvTop,
      and spans the window exactly. */
  lemma AckIsSound(rx: Receiver, timestampToEcho: int, maxBlocks: nat)
    requires ReceiverInv(rx) && maxBlocks >= 2
    ensures var ack := AckOf(rx, timestampToEcho, maxBlocks);
            && (forall q :: Acked(q, ack.maxAcked, ack.gaps) ==> Has(rx, q))
            && (forall q :: q <= rx.recvTop ==> Acked(q, ack.maxAcked, ack.gaps))
            && Span(ack.gaps) == rx.recvMax - rx.recvTop
  {
    if rx.recvMax != rx.recvTop {
      TopFilledIsRecvMax(rx);
      var bits := FillBits(rx.window[..TopFilled(rx.window)]);
      EncodedMeaning(0, rx.recvTop, bits, maxBlocks);
      forall q | Acked(q, rx.recvMax, EncodeGaps(bits, maxBlocks)) ensures Has(rx, q) {
        EncodedSound(q, rx.recvTop, bits, maxBlocks);
        if q > rx.recvTop {
          assert bits[q - rx.recvTop - 1] == rx.window[q - rx.recvTop - 1].content.Some?;
        }
      }
      forall q | q <= rx.recvTop ensures Acked(q, rx.recvMax, EncodeGaps(bits, maxBlocks)) {
        EncodedCoversEnds(q, rx.recvTop, bits, maxBlocks);
      }
    }
  }

  /** The ack is exact when the runs of the window fit its blocks. */
  lemma AckIsExact(rx: Receiver, timestampToEcho: int, maxBlocks: nat, q: int)
    requires ReceiverInv(rx) && maxBlocks >= 2
    requires |Runs(FillBits(rx.window[..TopFilled(rx.window)]))| <= maxBlocks
    ensures var ack := AckOf(rx, timestampToEcho, maxBlocks);
            Acked(q, ack.maxAcked, ack.gaps) <==> Has(rx, q)
  {
    hide Runs, EncodeGaps, Kept;
    TopFilledIsRecvMax(rx);
    var bits := FillBits(rx.window[..TopFilled(rx.window)]);
    EncodedMeaning(q, rx.recvTop, bits, maxBlocks);
    AllKept(q, rx.recvTop + |bits|, Runs(bits), maxBlocks);
    if rx.recvTop < q <= rx.recvMax {
      assert bits[q - rx.recvTop - 1] == rx.window[q - rx.recvTop - 1].content.Some?;
    }
  }

  // -------------------------------------------------- the invariant is kept

  /** Nothing received is forgotten, and the edge of the window only moves up. */
  ghost predicate Grows(rx: Receiver, rx': Receiver) {
    && (forall q :: Has(rx, q) ==> Has(rx', q))
    && rx.recvTop <= rx'.recvTop
    && rx.maxRecvSegmentSize == rx'.maxRecvSegmentSize
  }

  lemma AllocateKeepsInv(rx: Receiver, available: nat)
    requires ReceiverInv(rx)
    requires rx.allocationPending || rx.recvMaxAllocated == rx.recvMax
    ensures ReceiverInv(AllocateRecv(rx, available)) && Grows(rx, AllocateRecv(rx, available))
  {
  }

  lemma FindKeepsInv(rx: Receiver, num: int, available: nat)
    requires ReceiverInv(rx)
    ensures ReceiverInv(AfterFind(rx, num, available)) && Grows(rx, AfterFind(rx, num, available))
    ensures forall q :: Has(AfterFind(rx, num, available), q) ==> Has(rx, q)
  {
  }

  /** Everything in ReceiverInv but the idle head. */
  ghost predicate Filled(rx: Receiver) {
    && rx.recvTop <= rx.recvMax <= rx.recvMaxAllocated
    && |rx.window| == rx.recvMaxAllocated - rx.recvTop
    && (forall i :: 0 <= i < |rx.window| ==> rx.window[i].num == rx.recvTop + 1 + i)
    && (rx.recvMax > rx.recvTop ==> rx.window[rx.recvMax - rx.recvTop - 1].content.Some?)
    && (forall i :: rx.recvMax - rx.recvTop <= i < |rx.window| ==> rx.window[i].content.None?)
    && rx.recvMax <= rx.recvTop + MAX_RECV_SEGMENTS
    && rx.recvMaxAllocated <= rx.recvTop + MAX_RECV_SEGMENTS + 1
    && (rx.allocationPending ==> rx.recvMaxAllocated <= rx.recvTop + MAX_RECV_SEGMENTS)
  }

  lemma StoreKeepsFilled(rx: Receiver, num: int, payload: Payload)
    requires ReceiverInv(rx) && rx.recvTop < num <= rx.recvMaxAllocated
    requires num <= rx.recvTop + MAX_RECV_SEGMENTS
    ensures Filled(Store(rx, num, payload)) && Grows(rx, Store(rx, num, payload))
  {
  }

  lemma MoveShape(rx: Receiver)
    requires Filled(rx)
    ensures var rx' := MoveToRead(rx); var n := Leading(rx.window);
            && n <= rx.recvMax - rx.recvTop && rx'.recvTop == rx.recvTop + n
            && rx'.window == rx.window[n..]
  {
    var n := Leading(rx.window);
    assert n == 0 || rx.window[n - 1].content.Some?;
  }

  lemma MoveGrows(rx: Receiver)
    requires Filled(rx)
    ensures Grows(rx, MoveToRead(rx))
    ensures forall q :: Has(MoveToRead(rx), q) ==> Has(rx, q)
  {
    MoveShape(rx);
    var rx', n := MoveToRead(rx), Leading(rx.window);
    forall q ensures Has(rx', q) <==> Has(rx, q) {
      if rx.recvTop < q <= rx'.recvTop {
        assert rx.window[q - rx.recvTop - 1].content.Some?;
      } else if rx'.recvTop < q <= rx'.recvMaxAllocated {
        assert rx'.window[q - rx'.recvTop - 1] == rx.window[q - rx.recvTop - 1];
      }
    }
  }

  lemma MoveKeepsInv(rx: Receiver)
    requires Filled(rx)
    ensures ReceiverInv(MoveToRead(rx))
  {
    MoveShape(rx);
  }

  lemma FoundInWindow(rx: Receiver, num: int, available: nat)
    requires ReceiverInv(rx) && Found(rx, num, available)
    ensures var found := AfterFind(rx, num, available);
            0 <= num - found.recvTop - 1 < |found.window| && num <= found.recvTop + MAX_RECV_SEGMENTS
  {
    FindKeepsInv(rx, num, available);
  }

  lemma DataKeepsInv(rx: Receiver, num: int, bytes: seq<byte>, available: nat)
    requires ReceiverInv(rx)
    ensures ReceiverInv(AfterData(rx, num, bytes, available)) && Grows(rx, AfterData(rx, num, bytes, available))
    ensures num <= rx.recvTop || Found(rx, num, available) ==> Has(AfterData(rx, num, bytes, available), num)
  {
    FindKeepsInv(rx, num, available);
    if num > rx.recvTop && Found(rx, num, available) {
      FoundInWindow(rx, num, available);
      var found := AfterFind(rx, num, available);
      if SlotIdle(found, num) {
        StoreKeepsFilled(found, num, Data(bytes));
        MoveKeepsInv(Store(found, num, Data(bytes)));
        MoveGrows(Store(found, num, Data(bytes)));
      }
    }
  }

  lemma FinKeepsInv(rx: Receiver, num: int, available: nat)
    requires ReceiverInv(rx)
    ensures ReceiverInv(AfterFin(rx, num, available)) && Grows(rx, AfterFin(rx, num, available))
  {
    FindKeepsInv(rx, num, available);
    if Found(rx, num, available) {
      FoundInWindow(rx, num, available);
      StoreKeepsFilled(AfterFind(rx, num, available), num, Fin);
      MoveKeepsInv(Store(AfterFind(rx, num, available), num, Fin));
      MoveGrows(Store(AfterFind(rx, num, available), num, Fin));
    }
  }

  /** Every edge an ack advertises stays within what will be accepted. */
  lemma EdgeWithinPromise(rx: Receiver)
    requires ReceiverInv(rx)
    ensures rx.recvMax + WindowSize(rx) <= rx.recvTop + MAX_RECV_SEGMENTS
    ensures !rx.allocationPending ==> rx.recvMax + WindowSize(rx) == rx.recvTop + MAX_RECV_SEGMENTS
  {
  }

  // ------------------------------------------------------------------ reads

  lemma {:induction false} ConsumeKeepsOk(list: seq<ReadSegment>, n: nat)
    requires ReadListOk(list)
    ensures ReadListOk(Consume(list, n))
  {
    if HasReadData(list) && n != 0 {
      var rest := |list[0].seg.payload.bytes| - list[0].used;
      if rest <= n {
        ConsumeKeepsOk(list[1..], n - rest);
      }
    }
  }

  /** Reading takes the front of what is available and leaves the rest. */
  lemma {:induction false} ConsumeTakesFront(list: seq<ReadSegment>, n: nat)
    requires ReadListOk(list) && n <= |Available(list)|
    ensures ReadListOk(Consume(list, n)) && Available(Consume(list, n)) == Available(list)[n..]
  {
    ConsumeKeepsOk(list, n);
    if HasReadData(list) && n != 0 {
      var bytes := list[0].seg.payload.bytes;
      var rest := |bytes| - list[0].used;
      if rest <= n {
        ConsumeTakesFront(list[1..], n - rest);
      } else {
        var list' := [list[0].(used := list[0].used + n)] + list[1..];
        assert list'[1..] == list[1..];
        assert bytes[list[0].used..][n..] == bytes[list[0].used + n..];
      }
    }
  }
}
