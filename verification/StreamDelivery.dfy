/** Receiving keeps the receiver a faithful front of the peer's log, and a FIN
    always lands right behind everything the peer has queued before it. */
module StreamDelivery {
  import opened AckGaps
  import opened Basics
  import opened StreamTypes
  import opened StreamSender
  import opened StreamReceiver
  import opened StreamEndpoint
  import opened StreamSystem
  import opened StreamSteps

  // -------------------------------------------------------------- contents

  ghost predicate WindowOk(window: seq<Slot>, log: seq<Segment>, start: int) {
    forall i :: 0 <= i < |window| && window[i].content.Some? ==>
      window[i].content.value.Data? && InLog(Segment(window[i].num, window[i].content.value), log, start)
  }

  lemma FilledInLog(window: seq<Slot>, i: nat, log: seq<Segment>, start: int)
    requires WindowOk(window, log, start) && i < |window|
    ensures window[i].content.Some? ==>
              InLog(Segment(window[i].num, window[i].content.value), log, start) && window[i].content.value.Data?
  {
  }

  ghost predicate DataNonEmpty(log: seq<Segment>) {
    forall i :: 0 <= i < |log| && log[i].payload.Data? ==> 0 < |log[i].payload.bytes|
  }

  lemma FindContent(rx: Receiver, got: seq<byte>, log: seq<Segment>, start: int, num: int, available: nat)
    requires ReceiverInv(rx) && ContentOk(rx, got, log, start)
    ensures ContentOk(AfterFind(rx, num, available), got, log, start)
  {
    hide ReadOk, InLog;
  }

  lemma StoreContent(rx: Receiver, log: seq<Segment>, start: int, s: Segment)
    requires WindowOk(rx.window, log, start) && s.payload.Data? && InLog(s, log, start)
    requires 0 <= s.num - rx.recvTop - 1 < |rx.window|
    ensures WindowOk(Store(rx, s.num, s.payload).window, log, start)
  {
    hide InLog;
  }

  /** More segments of the log at the end of the read list. */
  lemma AppendReadOk(list: seq<ReadSegment>, added: seq<ReadSegment>, got: seq<byte>, log: seq<Segment>, n: nat)
    requires n + |added| <= |log| && ReadOk(list, got, log, n) && ReadListOk(list)
    requires forall i :: 0 <= i < |added| ==> added[i].seg == log[n + i] && added[i].used == 0
    requires DataNonEmpty(log)
    ensures ReadOk(list + added, got, log, n + |added|) && ReadListOk(list + added)
  {
    hide Bytes;
    if added != [] && list == [] && added[0].seg.payload.Data? {
      assert added[0].seg.payload.bytes[..0] == [];
    }
  }

  lemma MovedReadOk(rx: Receiver, got: seq<byte>, log: seq<Segment>, start: int)
    requires Filled(rx) && WindowOk(rx.window, log, start) && DataNonEmpty(log)
    requires start <= rx.recvTop <= start + |log| && ReadOk(rx.recvRead, got, log, rx.recvTop - start)
    requires ReadListOk(rx.recvRead)
    ensures MoveToRead(rx).recvTop <= start + |log|
    ensures ReadOk(MoveToRead(rx).recvRead, got, log, MoveToRead(rx).recvTop - start)
    ensures ReadListOk(MoveToRead(rx).recvRead)
  {
    hide Bytes, ReadOk, ReadListOk, DataNonEmpty;
    MoveShape(rx);
    var n, n0 := Leading(rx.window), rx.recvTop - start;
    var added := Readable(rx.window, n);
    forall i | 0 <= i < n ensures n0 + i < |log| && added[i].seg == log[n0 + i] && added[i].used == 0 {
      assert InLog(Segment(rx.window[i].num, rx.window[i].content.value), log, start);
    }
    assert n > 0 ==> n0 + (n - 1) < |log|;
    AppendReadOk(rx.recvRead, added, got, log, n0);
  }

  lemma MoveContent(rx: Receiver, got: seq<byte>, log: seq<Segment>, start: int)
    requires Filled(rx) && WindowOk(rx.window, log, start) && DataNonEmpty(log)
    requires start <= rx.recvTop <= start + |log| && ReadOk(rx.recvRead, got, log, rx.recvTop - start)
    requires ReadListOk(rx.recvRead)
    ensures ContentOk(MoveToRead(rx), got, log, start) && ReadListOk(MoveToRead(rx).recvRead)
  {
    hide ReadOk, InLog, ReadListOk;
    MovedReadOk(rx, got, log, start);
    MoveShape(rx);
  }

  lemma DataContent(rx: Receiver, got: seq<byte>, log: seq<Segment>, start: int, s: Segment, available: nat)
    requires ReceiverInv(rx) && ReadListOk(rx.recvRead) && ContentOk(rx, got, log, start) && DataNonEmpty(log)
    requires s.payload.Data? && InLog(s, log, start)
    ensures var rx' := AfterData(rx, s.num, s.payload.bytes, available);
            ContentOk(rx', got, log, start) && ReadListOk(rx'.recvRead)
  {
    hide ReadOk, InLog, ReadListOk, Leading, DataNonEmpty;
    FindContent(rx, got, log, start, s.num, available);
    FindKeepsInv(rx, s.num, available);
    var found := AfterFind(rx, s.num, available);
    assert found.recvRead == rx.recvRead;
    if s.num > rx.recvTop && Found(rx, s.num, available) && SlotIdle(found, s.num) {
      FoundInWindow(rx, s.num, available);
      StoreKeepsFilled(found, s.num, s.payload);
      StoreContent(found, log, start, s);
      MoveContent(Store(found, s.num, s.payload), got, log, start);
    }
  }

  /** Data never completes the log of a peer that has queued FIN. */
  lemma DataLeavesFin(rx: Receiver, got: seq<byte>, log: seq<Segment>, tx: Sender, s: Segment, available: nat)
    requires ReceiverInv(rx) && ContentOk(rx, got, log, tx.start) && LogInv(log, tx)
    requires s.payload.Data? && InLog(s, log, tx.start) && tx.finQueued
    requires rx.recvTop != tx.start + |log|
    ensures AfterData(rx, s.num, s.payload.bytes, available).recvTop != tx.start + |log|
  {
    hide ReadOk;
    FindContent(rx, got, log, tx.start, s.num, available);
    FindKeepsInv(rx, s.num, available);
    var found := AfterFind(rx, s.num, available);
    if s.num > rx.recvTop && Found(rx, s.num, available) && SlotIdle(found, s.num) {
      FoundInWindow(rx, s.num, available);
      StoreKeepsFilled(found, s.num, s.payload);
      StoreContent(found, log, tx.start, s);
      var stored := Store(found, s.num, s.payload);
      MoveShape(stored);
      var n := Leading(stored.window);
      if n > 0 {
        assert InLog(Segment(stored.window[n - 1].num, stored.window[n - 1].content.value), log, tx.start);
      }
    }
  }

  // ------------------------------------------------------------------- FIN

  /** FIN is queued when everything before it has been acknowledged, and
      nothing is acknowledged that has not been received. */
  lemma DataReceivedBeforeFin(s: Node, r: Node)
    requires TxOk(s.e, s.log) && Conserved(s.e.tx, s.log, r) && s.e.tx.finQueued
    ensures forall q :: s.e.tx.start < q < s.e.tx.start + |s.log| ==> Has(r.e.rx, q)
  {
    hide SenderInv;
    forall q | s.e.tx.start < q < s.e.tx.start + |s.log| ensures Has(r.e.rx, q) {
      var seg := s.log[q - s.e.tx.start - 1];
      assert seg.num == q && seg.payload.Data?;
      assert seg !in Outstanding(s.e.tx);
    }
  }

  /** Everything the peer queued before its FIN has been acknowledged and so
      received, and the head of the window is idle: FIN is next in line. */
  lemma FinIsNext(s: Node, r: Node, fin: Segment)
    requires CoreOk(s, r) && r.joined && AcceptsFin(r.e.state)
    requires fin.payload.Fin? && InLog(fin, s.log, s.e.tx.start)
    ensures fin.num == r.e.rx.recvTop + 1 == s.e.tx.start + |s.log|
    ensures s.e.tx.finQueued
    ensures forall i :: 0 <= i < |r.e.rx.window| ==> r.e.rx.window[i].content.None?
  {
    hide SentOk, JoinOk, ReadOk, SizesOk, SenderInv, Conserved, Outstanding, Logged, Bytes;
    var rx, log, start := r.e.rx, s.log, s.e.tx.start;
    assert s.e.tx.finQueued && fin.num == start + |log|;
    DataReceivedBeforeFin(s, r);
    assert !Has(rx, rx.recvTop + 1);
    forall i | 0 <= i < |rx.window| ensures rx.window[i].content.None? {
      FilledInLog(rx.window, i, log, start);
    }
  }

  /** A FIN that is stored is read next. */
  lemma FindAddsIdle(rx: Receiver, num: int, available: nat)
    requires forall i :: 0 <= i < |rx.window| ==> rx.window[i].content.None?
    ensures forall i :: 0 <= i < |AfterFind(rx, num, available).window| ==>
              AfterFind(rx, num, available).window[i].content.None?
    ensures AfterFind(rx, num, available).recvTop == rx.recvTop && AfterFind(rx, num, available).recvRead == rx.recvRead
  {
  }

  lemma FinStored(rx: Receiver, num: int, available: nat)
    requires ReceiverInv(rx) && num == rx.recvTop + 1 && Found(rx, num, available)
    requires forall i :: 0 <= i < |rx.window| ==> rx.window[i].content.None?
    ensures var rx' := AfterFin(rx, num, available);
            && rx'.recvTop == num
            && rx'.recvRead == rx.recvRead + [ReadSegment(Segment(num, Fin), 0)]
            && (forall i :: 0 <= i < |rx'.window| ==> rx'.window[i].content.None?)
  {
    FindAddsIdle(rx, num, available);
    hide AfterFind, Found;
    FindKeepsInv(rx, num, available);
    FoundInWindow(rx, num, available);
    var found := AfterFind(rx, num, available);
    var stored := Store(found, num, Fin);
    StoreKeepsFilled(found, num, Fin);
    assert stored.window[0].content.Some?;
    assert forall i :: 1 <= i < |stored.window| ==> stored.window[i].content.None?;
    LeadingIsOne(stored.window);
    MoveShape(stored);
  }

  lemma LeadingIsOne(window: seq<Slot>)
    requires window != [] && window[0].content.Some?
    requires forall i :: 1 <= i < |window| ==> window[i].content.None?
    ensures Leading(window) == 1
  {
  }

  lemma ReadOkWithFin(list: seq<ReadSegment>, got: seq<byte>, log: seq<Segment>, n: nat, fin: Segment)
    requires n < |log| && ReadOk(list, got, log, n) && log[n] == fin && fin.payload.Fin?
    ensures ReadOk(list + [ReadSegment(fin, 0)], got, log, n + 1)
  {
    hide Bytes;
  }

  lemma FinContent(s: Node, r: Node, fin: Segment, available: nat)
    requires CoreOk(s, r) && r.joined && AcceptsFin(r.e.state)
    requires fin.payload.Fin? && InLog(fin, s.log, s.e.tx.start)
    requires Found(r.e.rx, fin.num, available)
    ensures var rx' := AfterFin(r.e.rx, fin.num, available);
            && ContentOk(rx', r.got, s.log, s.e.tx.start) && ReadListOk(rx'.recvRead)
            && rx'.recvTop == s.e.tx.start + |s.log| && s.e.tx.finQueued && EndsWithFin(rx'.recvRead)
  {
    hide SentOk, TxOk, JoinOk, SizesOk, ReadOk, FinOk, Conserved;
    FinIsNext(s, r, fin);
    FinStored(r.e.rx, fin.num, available);
    ReadOkWithFin(r.e.rx.recvRead, r.got, s.log, r.e.rx.recvTop - s.e.tx.start, fin);
  }
}
