/** The list operations the stream makes step by step, each against the
    function it computes: the walk over the unacked list on an ack, sorted
    insertion into the resend list, and filling a packet. */
module StreamWalk {
  import opened AckGaps
  import opened Basics
  import opened SequenceNumbers
  import opened StreamTypes
  import opened StreamSender
  import opened StreamEndpoint

  // ------------------------------------------------------------ sorted lists

  lemma {:induction false} SortedUnique(a: seq<Segment>, b: seq<Segment>)
    requires Sorted(a) && Sorted(b) && forall s :: s in a <==> s in b
    ensures a == b
    decreases |a|
  {
    if a == [] {
      NoMembers(b);
    } else {
      assert a[0] in b;
      assert b[0] in a;
      assert a[0] == b[0];
      forall s ensures s in a[1..] <==> s in b[1..] {
        TailMembers(a, s);
        TailMembers(b, s);
      }
      SortedUnique(a[1..], b[1..]);
      assert a == [a[0]] + a[1..] && b == [b[0]] + b[1..];
    }
  }

  lemma NoMembers(b: seq<Segment>)
    ensures b != [] ==> exists s :: s in b
  {
    assert b != [] ==> b[0] in b;
  }

  lemma TailMembers(a: seq<Segment>, s: Segment)
    requires Sorted(a) && a != []
    ensures s in a[1..] <==> s in a && s != a[0]
  {
    assert a == [a[0]] + a[1..];
  }

  /** The list without one of its elements. */
  function Without(list: seq<Segment>, s: Segment): seq<Segment> {
    if list == [] then []
    else if list[0] == s then list[1..]
    else [list[0]] + Without(list[1..], s)
  }

  lemma {:induction false} WithoutIsFilter(list: seq<Segment>, s: Segment)
    requires Sorted(list)
    ensures Sorted(Without(list, s))
    ensures forall x :: x in Without(list, s) <==> x in list && x != s
  {
    if list != [] {
      assert list == [list[0]] + list[1..];
      if list[0] == s {
        forall x ensures x in list[1..] <==> x in list && x != s {
          TailMembers(list, x);
        }
      } else {
        WithoutIsFilter(list[1..], s);
        PrependSorted(list[0], Without(list[1..], s), list);
      }
    }
  }

  /** The list with a segment put in front of the first that is not below it. */
  function Insert(list: seq<Segment>, s: Segment): seq<Segment> {
    if list == [] || list[0].num >= s.num then [s] + list
    else [list[0]] + Insert(list[1..], s)
  }

  lemma {:induction false} InsertAt(list: seq<Segment>, s: Segment, k: nat)
    requires k <= |list| && (forall i :: 0 <= i < k ==> list[i].num < s.num) && (k < |list| ==> list[k].num >= s.num)
    ensures Insert(list, s) == list[..k] + [s] + list[k..]
    decreases |list|
  {
    if k == 0 {
      assert list[..0] + [s] + list == [s] + list;
    } else {
      InsertAt(list[1..], s, k - 1);
      assert list[..k] == [list[0]] + list[1..][..k - 1];
      assert list[k..] == list[1..][k - 1..];
    }
  }

  lemma {:induction false} InsertSorted(list: seq<Segment>, s: Segment)
    requires Sorted(list) && forall x :: x in list ==> x.num != s.num
    ensures Sorted(Insert(list, s))
    ensures forall x :: x in Insert(list, s) <==> x in list || x == s
  {
    if list != [] {
      assert list == [list[0]] + list[1..];
      if list[0].num < s.num {
        InsertSorted(list[1..], s);
        SortedAfter(list[0], Insert(list[1..], s));
      } else {
        SortedAfter(s, list);
      }
    }
  }

  lemma SortedAfter(s: Segment, list: seq<Segment>)
    requires Sorted(list) && forall x :: x in list ==> s.num < x.num
    ensures Sorted([s] + list)
  {
  }

  // ------------------------------------------------------------- the ack walk

  /** At most one of the unacked segments is the FIN segment. */
  ghost predicate OneFin(list: seq<SendSegment>) {
    forall i, j :: 0 <= i < j < |list| ==> !(list[i].seg.payload.Fin? && list[j].seg.payload.Fin?)
  }

  predicate AckedIn(u: SendSegment, ack: AckExtension) {
    Acked(u.seg.num, ack.maxAcked, ack.gaps)
  }

  predicate FinAckedFrom(list: seq<SendSegment>, ack: AckExtension, n: nat) {
    exists i :: n <= i < |list| && list[i].seg.payload.Fin? && AckedIn(list[i], ack)
  }

  /** FIN is queued when nothing is left to be acknowledged after close. */
  function QueueFin(state: State, tx: Sender): Sender {
    if tx.unacked == [] && tx.sendList == [] && AwaitsFinAck(state) && !tx.finQueued then AddFin(tx) else tx
  }

  /** The lists after the walk has come down to index n of the unacked list. */
  function WalkedTx(tx: Sender, ack: AckExtension, n: nat, resend: seq<Segment>): Sender
    requires n <= |tx.unacked|
  {
    var list := tx.unacked;
    var rest := Remaining(list[n..], ack);
    tx.(unacked := list[..n] + rest, resend := resend, flightSize := tx.flightSize - (|list| - n - |rest|))
  }

  /** The stream after the walk has come down to index n. */
  function Walked(e: Endpoint, ack: AckExtension, n: nat, resend: seq<Segment>): Endpoint
    requires n <= |e.tx.unacked|
  {
    var list := e.tx.unacked;
    var rest := Remaining(list[n..], ack);
    var tx := WalkedTx(e.tx, ack, n, resend);
    var state := if FinAckedFrom(list, ack, n) then OnFinAcked(e.state) else e.state;
    e.(state := state, tx := if n == 0 && |rest| < |list| then QueueFin(state, tx) else tx)
  }

  /** What is on the resend list when the walk has come down to index n. */
  ghost predicate ResendWalked(resend: seq<Segment>, list: seq<SendSegment>, ack: AckExtension, old_: seq<Segment>, n: nat) {
    && Sorted(resend)
    && (forall s :: s in resend ==> s in Segs(list))
    && (forall j :: 0 <= j < |list| ==>
          (list[j].seg in resend <==>
           if j < n then list[j].seg in old_
           else !AckedIn(list[j], ack) &&
                (list[j].seg in old_ || (list[j].seg.num <= ack.maxAcked && NowLost(list[j], ack.timestampEcho)))))
  }

  lemma NotAckedAbove(q: int, top: int, gaps: seq<Gap>)
    requires q > top
    ensures !Acked(q, top, gaps)
  {
  }

  /** What is above maxAcked is not touched. */
  lemma {:induction false} RemainingAbove(list: seq<SendSegment>, ack: AckExtension)
    requires forall i :: 0 <= i < |list| ==> list[i].seg.num > ack.maxAcked
    ensures Remaining(list, ack) == list
  {
    if list != [] {
      RemainingAbove(list[1..], ack);
      NotAckedAbove(list[0].seg.num, ack.maxAcked, ack.gaps);
      assert list == [list[0]] + list[1..];
    }
  }

  lemma NoFinAckedAbove(list: seq<SendSegment>, ack: AckExtension, n: nat)
    requires n <= |list| && forall i :: n <= i < |list| ==> list[i].seg.num > ack.maxAcked
    ensures !FinAckedFrom(list, ack, n)
  {
    forall i | n <= i < |list| ensures !AckedIn(list[i], ack) {
      NotAckedAbove(list[i].seg.num, ack.maxAcked, ack.gaps);
    }
  }

  /** The walk starts just below the segments above maxAcked. */
  lemma WalkStarts(e: Endpoint, ack: AckExtension, n: nat)
    requires SenderInv(e.tx) && n <= |e.tx.unacked|
    requires forall i :: n <= i < |e.tx.unacked| ==> e.tx.unacked[i].seg.num > ack.maxAcked
    ensures Walked(e, ack, n, e.tx.resend) == e
    ensures ResendWalked(e.tx.resend, e.tx.unacked, ack, e.tx.resend, n)
  {
    var list := e.tx.unacked;
    RemainingAbove(list[n..], ack);
    assert list[..n] + list[n..] == list;
    NoFinAckedAbove(list, ack, n);
    forall i | n <= i < |list| ensures !AckedIn(list[i], ack) {
      NotAckedAbove(list[i].seg.num, ack.maxAcked, ack.gaps);
    }
  }

  lemma RemainingStep(list: seq<SendSegment>, ack: AckExtension, n: nat)
    requires 0 < n <= |list|
    ensures var rest := Remaining(list[n..], ack); var u := list[n - 1];
            Remaining(list[n - 1..], ack) ==
            if AckedIn(u, ack) then rest
            else if u.seg.num <= ack.maxAcked then [Nacked(u, ack.timestampEcho)] + rest
            else [u] + rest
  {
    assert list[n - 1..][1..] == list[n..] && list[n - 1..][0] == list[n - 1];
  }

  lemma FinAckedStep(list: seq<SendSegment>, ack: AckExtension, n: nat)
    requires 0 < n <= |list|
    ensures FinAckedFrom(list, ack, n - 1) <==>
            (list[n - 1].seg.payload.Fin? && AckedIn(list[n - 1], ack)) || FinAckedFrom(list, ack, n)
  {
    if list[n - 1].seg.payload.Fin? && AckedIn(list[n - 1], ack) {
      assert FinAckedFrom(list, ack, n - 1);
    }
  }

  lemma OtherFinNotAcked(list: seq<SendSegment>, ack: AckExtension, n: nat)
    requires 0 < n <= |list| && OneFin(list) && list[n - 1].seg.payload.Fin?
    ensures !FinAckedFrom(list, ack, n)
  {
  }

  /** The resend list after an acked segment has been taken off it. */
  lemma ResendAcked(resend: seq<Segment>, tx: Sender, ack: AckExtension, n: nat)
    requires SenderInv(tx) && 0 < n <= |tx.unacked| && AckedIn(tx.unacked[n - 1], ack)
    requires ResendWalked(resend, tx.unacked, ack, tx.resend, n)
    ensures ResendWalked(Without(resend, tx.unacked[n - 1].seg), tx.unacked, ack, tx.resend, n - 1)
  {
    var list := tx.unacked;
    WithoutIsFilter(resend, list[n - 1].seg);
    forall j | 0 <= j < |list| && j != n - 1 ensures list[j].seg != list[n - 1].seg {
      Distinct(tx, j, n - 1);
    }
  }

  lemma Distinct(tx: Sender, i: nat, j: nat)
    requires SenderInv(tx) && i < |tx.unacked| && j < |tx.unacked| && i != j
    ensures tx.unacked[i].seg.num != tx.unacked[j].seg.num
  {
    SortedPrefix(Segs(tx.unacked), Segs(tx.sendList));
    assert Segs(tx.unacked)[i] == tx.unacked[i].seg && Segs(tx.unacked)[j] == tx.unacked[j].seg;
  }

  /** The resend list with a segment marked for retransmission. */
  function Marked(resend: seq<Segment>, s: Segment): seq<Segment> {
    if s in resend then resend else Insert(resend, s)
  }

  lemma ResendNacked(resend: seq<Segment>, tx: Sender, ack: AckExtension, n: nat)
    requires SenderInv(tx) && 0 < n <= |tx.unacked|
    requires !AckedIn(tx.unacked[n - 1], ack) && tx.unacked[n - 1].seg.num <= ack.maxAcked
    requires ResendWalked(resend, tx.unacked, ack, tx.resend, n)
    ensures var u := tx.unacked[n - 1];
            ResendWalked(if NowLost(u, ack.timestampEcho) then Marked(resend, u.seg) else resend, tx.unacked, ack, tx.resend, n - 1)
  {
    var list, u := tx.unacked, tx.unacked[n - 1];
    forall j | 0 <= j < |list| && j != n - 1 ensures list[j].seg.num != u.seg.num {
      Distinct(tx, j, n - 1);
    }
    if NowLost(u, ack.timestampEcho) && u.seg !in resend {
      forall x | x in resend ensures x.num != u.seg.num {
        var j :| 0 <= j < |list| && Segs(list)[j] == x;
      }
      InsertSorted(resend, u.seg);
      assert Segs(list)[n - 1] == u.seg;
    }
  }

  /** When the walk is over the resend list is the one specified. */
  lemma ResendDone(resend: seq<Segment>, tx: Sender, ack: AckExtension)
    requires SenderInv(tx) && ResendWalked(resend, tx.unacked, ack, tx.resend, 0)
    ensures resend == Resending(tx.unacked, ack, tx.resend)
  {
    var list, spec := tx.unacked, Resending(tx.unacked, ack, tx.resend);
    SortedPrefix(Segs(tx.unacked), Segs(tx.sendList));
    ResendingIsFilter(list, ack, tx.resend);
    forall s ensures s in resend <==> s in spec {
      if s in resend {
        var j :| 0 <= j < |list| && Segs(list)[j] == s;
        assert list[j].seg == s;
      }
      if s in spec {
        var j :| 0 <= j < |list| && Segs(list)[j] == s;
        assert list[j].seg == s;
      }
    }
    SortedUnique(resend, spec);
  }

  lemma WalkEnds(e: Endpoint, ack: AckExtension, resend: seq<Segment>)
    requires SenderInv(e.tx) && ResendWalked(resend, e.tx.unacked, ack, e.tx.resend, 0)
    ensures var w := Walked(e, ack, 0, resend);
            w == e.(state := StateAfterAck(e.state, e.tx, ack), tx := SenderAfterAck(e.state, e.tx, ack))
  {
    hide ResendWalked, SenderInv, Remaining, Resending;
    ResendDone(resend, e.tx, ack);
    var list := e.tx.unacked;
    assert list[0..] == list && list[..0] == [];
    assert FinAckedFrom(list, ack, 0) <==> FinAcked(e.tx, ack);
    assert [] + Remaining(list, ack) == Remaining(list, ack);
  }

  function TakenOff(tx: Sender, n: nat): Sender
    requires 0 < n <= |tx.unacked|
  {
    tx.(unacked := tx.unacked[..n - 1] + tx.unacked[n..],
        resend := Without(tx.resend, tx.unacked[n - 1].seg), flightSize := tx.flightSize - 1)
  }

  /** One acked segment: it leaves the lists, and if it was the last one after
      close, FIN is queued. */
  function StepAcked(e: Endpoint, n: nat): Endpoint
    requires 0 < n <= |e.tx.unacked|
  {
    var u := e.tx.unacked[n - 1];
    var state := if u.seg.payload.Fin? then OnFinAcked(e.state) else e.state;
    var tx := TakenOff(e.tx, n);
    e.(state := state, tx := QueueFin(state, tx))
  }

  lemma WalkAcked(e: Endpoint, ack: AckExtension, n: nat, resend: seq<Segment>)
    requires 0 < n <= |e.tx.unacked| && AckedIn(e.tx.unacked[n - 1], ack) && OneFin(e.tx.unacked)
    ensures var w := Walked(e, ack, n, resend); var u := e.tx.unacked[n - 1];
            && n <= |w.tx.unacked| && w.tx.unacked[n - 1] == u
            && StepAcked(w, n) == Walked(e, ack, n - 1, Without(resend, u.seg))
  {
    hide Remaining, OneFin, Without, AckedIn, FinAckedFrom, OnFinAcked, AddFin, WalkedTx, TakenOff;
    var list := e.tx.unacked;
    RemainingStep(list, ack, n);
    RemainingShorter(list[n..], ack);
    FinAckedStep(list, ack, n);
    if list[n - 1].seg.payload.Fin? {
      OtherFinNotAcked(list, ack, n);
    }
    TakeOffWalked(e.tx, ack, n, resend);
    assert list[n - 1..] == list[0..] || n > 1;
  }

  lemma TakeOffWalked(tx: Sender, ack: AckExtension, n: nat, resend: seq<Segment>)
    requires 0 < n <= |tx.unacked| && AckedIn(tx.unacked[n - 1], ack)
    ensures var w := WalkedTx(tx, ack, n, resend); var u := tx.unacked[n - 1];
            && n <= |w.unacked| && w.unacked[n - 1] == u && w.resend == resend
            && TakenOff(w, n) == WalkedTx(tx, ack, n - 1, Without(resend, u.seg))
            && (n > 1 ==> WalkedTx(tx, ack, n - 1, Without(resend, u.seg)).unacked != [])
  {
    hide Remaining, Without, AckedIn;
    var rest := Remaining(tx.unacked[n..], ack);
    RemainingStep(tx.unacked, ack, n);
    Middle(tx.unacked, rest, n);
    assert n > 1 ==> tx.unacked[..n - 1] + rest != [];
  }

  lemma Middle(list: seq<SendSegment>, rest: seq<SendSegment>, n: nat)
    requires 0 < n <= |list|
    ensures (list[..n] + rest)[..n - 1] + (list[..n] + rest)[n..] == list[..n - 1] + rest
    ensures (list[..n] + rest)[n - 1] == list[n - 1]
  {
  }

  lemma RemainingShorter(list: seq<SendSegment>, ack: AckExtension)
    ensures |Remaining(list, ack)| <= |list|
  {
    RemainingLength(list, ack);
  }

  /** One nacked segment: sent before the echoed stamp, it counts one more, and
      the second time it is marked for retransmission. */
  function StepNacked(e: Endpoint, n: nat, timestampEcho: int): Endpoint
    requires 0 < n <= |e.tx.unacked|
  {
    var u := e.tx.unacked[n - 1];
    e.(tx := e.tx.(unacked := e.tx.unacked[n - 1 := Nacked(u, timestampEcho)],
                   resend := if NowLost(u, timestampEcho) then Marked(e.tx.resend, u.seg) else e.tx.resend))
  }

  lemma WalkNacked(e: Endpoint, ack: AckExtension, n: nat, resend: seq<Segment>)
    requires 0 < n <= |e.tx.unacked| && !AckedIn(e.tx.unacked[n - 1], ack) && e.tx.unacked[n - 1].seg.num <= ack.maxAcked
    ensures var w := Walked(e, ack, n, resend); var u := e.tx.unacked[n - 1];
            && n <= |w.tx.unacked| && w.tx.unacked[n - 1] == u
            && StepNacked(w, n, ack.timestampEcho) ==
               Walked(e, ack, n - 1, if NowLost(u, ack.timestampEcho) then Marked(resend, u.seg) else resend)
  {
    hide Remaining, Marked, AckedIn, FinAckedFrom, Nacked, NowLost;
    var list, u := e.tx.unacked, e.tx.unacked[n - 1];
    var rest := Remaining(list[n..], ack);
    RemainingStep(list, ack, n);
    FinAckedStep(list, ack, n);
    assert (list[..n] + rest)[n - 1 := Nacked(u, ack.timestampEcho)] ==
           list[..n - 1] + ([Nacked(u, ack.timestampEcho)] + rest);
  }

  // ------------------------------------------------------------- gap blocks

  /** Under the k-th gap block, a number is acknowledged if it is above the
      nack gap's top and nacked if it is above its bottom. */
  lemma UnderGap(q: int, ack: AckExtension, k: nat)
    requires k <= |ack.gaps| && q <= ack.maxAcked - Span(ack.gaps[..k])
    ensures var top := ack.maxAcked - Span(ack.gaps[..k]);
            && (k == |ack.gaps| ==> Acked(q, ack.maxAcked, ack.gaps))
            && (k < |ack.gaps| ==>
                  && Span(ack.gaps[..k + 1]) == Span(ack.gaps[..k]) + ack.gaps[k].ackGap + ack.gaps[k].nackGap
                  && (q > top - ack.gaps[k].ackGap ==> Acked(q, ack.maxAcked, ack.gaps))
                  && (top - ack.gaps[k].ackGap - ack.gaps[k].nackGap < q <= top - ack.gaps[k].ackGap ==>
                        !Acked(q, ack.maxAcked, ack.gaps)))
  {
    var gaps := ack.gaps;
    assert gaps[..k] + gaps[k..] == gaps;
    AckedSkip(q, ack.maxAcked, gaps[..k], gaps[k..]);
    SpanStep(gaps, k);
  }

  lemma SpanStep(gaps: seq<Gap>, k: nat)
    requires k <= |gaps|
    ensures k < |gaps| ==> Span(gaps[..k + 1]) == Span(gaps[..k]) + gaps[k].ackGap + gaps[k].nackGap
    ensures Span(gaps[..k]) <= Span(gaps)
  {
    assert gaps[..k] + gaps[k..] == gaps;
    SpanConcat(gaps[..k], gaps[k..]);
    if k < |gaps| {
      assert gaps[..k + 1] == gaps[..k] + [gaps[k]];
      SpanConcat(gaps[..k], [gaps[k]]);
      assert Span([gaps[k]]) == gaps[k].ackGap + gaps[k].nackGap;
    }
  }

  // ------------------------------------------------------- filling a packet

  lemma {:induction false} WireSizeStep(segs: seq<Segment>, k: nat)
    requires k < |segs|
    ensures WireSize(segs[..k + 1]) == WireSize(segs[..k]) + Used(segs[k]) + DATA_OVERHEAD
  {
    if k > 0 {
      WireSizeStep(segs[1..], k - 1);
      assert segs[..k + 1][1..] == segs[1..][..k] && segs[..k][1..] == segs[1..][..k - 1];
    } else {
      assert segs[..1][1..] == [];
    }
  }

  /** So many segments fit as have been written plus as many as fit what is left. */
  ghost predicate Filling(tx: Sender, segs: seq<Segment>, room: int, k: nat, left: int) {
    && k <= |segs|
    && left == room - WireSize(segs[..k])
    && FitCount(tx, segs, room) == k + FitCount(tx, segs[k..], left)
  }

  lemma FillStarts(tx: Sender, segs: seq<Segment>, room: int)
    ensures Filling(tx, segs, room, 0, room)
  {
    assert segs[0..] == segs && segs[..0] == [];
  }

  lemma FillStep(tx: Sender, segs: seq<Segment>, room: int, k: nat, left: int)
    requires Filling(tx, segs, room, k, left)
    ensures k == |segs| ==> FitCount(tx, segs, room) == k
    ensures k < |segs| && (!CanSend(tx, segs[k].num) || left < Used(segs[k]) + DATA_OVERHEAD) ==> FitCount(tx, segs, room) == k
    ensures k < |segs| && CanSend(tx, segs[k].num) && left >= Used(segs[k]) + DATA_OVERHEAD ==>
              Filling(tx, segs, room, k + 1, left - Used(segs[k]) - DATA_OVERHEAD)
  {
    if k < |segs| {
      WireSizeStep(segs, k);
      assert segs[k..][0] == segs[k] && segs[k..][1..] == segs[k + 1..];
    }
  }

  lemma StampTwice(list: seq<SendSegment>, segs: seq<Segment>, s: Segment, stamp: int)
    ensures StampWhere(StampWhere(list, segs, stamp), [s], stamp) == StampWhere(list, segs + [s], stamp)
  {
  }

  lemma StampNone(list: seq<SendSegment>, stamp: int)
    ensures StampWhere(list, [], stamp) == list
  {
  }

  lemma StampAllStep(list: seq<SendSegment>, k: nat, stamp: int)
    requires k < |list|
    ensures StampAll(list[..k + 1], stamp) == StampAll(list[..k], stamp) + [Stamped(list[k], stamp)]
  {
  }
}
