/** Selective acknowledgement: the (ackGap, nackGap) runs that describe the
    receive window, counted down from recvMax, and the set of sequence numbers
    a peer takes as acknowledged when it reads them.

    A receive window is given here by its fill bits: bits[i] says whether slot
    recvTop + 1 + i holds data, for the slots up to and including recvMax. */
module AckGaps {
  const MAX_ACK_GAP_BLOCKS: nat := 64

  datatype Gap = Gap(ackGap: nat, nackGap: nat)

  // ---------------------------------------------------------------- decoding

  /** Is q acknowledged by an ack whose remaining gaps start at top? What lies
      below the last gap is acknowledged as well. */
  predicate Acked(q: int, top: int, gaps: seq<Gap>)
    decreases |gaps|
  {
    if gaps == [] then q <= top
    else if q > top then false
    else if q > top - gaps[0].ackGap then true
    else if q > top - gaps[0].ackGap - gaps[0].nackGap then false
    else Acked(q, top - gaps[0].ackGap - gaps[0].nackGap, gaps[1..])
  }

  function Span(gaps: seq<Gap>): nat {
    if gaps == [] then 0 else gaps[0].ackGap + gaps[0].nackGap + Span(gaps[1..])
  }

  lemma {:induction false} AckedBelowSpan(q: int, top: int, gaps: seq<Gap>)
    requires q <= top - Span(gaps)
    ensures Acked(q, top, gaps)
    decreases |gaps|
  {
    if gaps != [] {
      AckedBelowSpan(q, top - gaps[0].ackGap - gaps[0].nackGap, gaps[1..]);
    }
  }

  lemma {:induction false} AckedAboveSpan(q: int, top: int, gaps: seq<Gap>, more: seq<Gap>)
    requires q > top - Span(gaps)
    ensures Acked(q, top, gaps + more) == Acked(q, top, gaps)
    decreases |gaps|
  {
    if gaps != [] {
      assert (gaps + more)[1..] == gaps[1..] + more;
      if q <= top - gaps[0].ackGap - gaps[0].nackGap {
        AckedAboveSpan(q, top - gaps[0].ackGap - gaps[0].nackGap, gaps[1..], more);
      }
    }
  }

  lemma {:induction false} AckedSkip(q: int, top: int, gaps: seq<Gap>, more: seq<Gap>)
    requires q <= top - Span(gaps)
    ensures Acked(q, top, gaps + more) == Acked(q, top - Span(gaps), more)
    decreases |gaps|
  {
    if gaps == [] {
      assert gaps + more == more;
    } else {
      assert (gaps + more)[1..] == gaps[1..] + more;
      AckedSkip(q, top - gaps[0].ackGap - gaps[0].nackGap, gaps[1..], more);
    }
  }

  lemma {:induction false} SpanConcat(a: seq<Gap>, b: seq<Gap>)
    ensures Span(a + b) == Span(a) + Span(b)
  {
    if a == [] {
      assert a + b == b;
    } else {
      assert (a + b)[1..] == a[1..] + b;
      SpanConcat(a[1..], b);
    }
  }

  // ---------------------------------------------------------------- encoding

  /** How many of the bits just below n equal v. */
  function Trailing(bits: seq<bool>, n: nat, v: bool): (k: nat)
    requires n <= |bits|
    ensures k <= n
    ensures forall i :: n - k <= i < n ==> bits[i] == v
  {
    if n == 0 || bits[n - 1] != v then 0 else 1 + Trailing(bits, n - 1, v)
  }

  /** The newest run of received slots below n and the hole below it. */
  function TopRun(bits: seq<bool>, n: nat): Gap
    requires n <= |bits|
  {
    var a := Trailing(bits, n, true);
    Gap(a, Trailing(bits, n - a, false))
  }

  /** Where the next run below n starts. */
  function Below(bits: seq<bool>, n: nat): (m: nat)
    requires 0 < n <= |bits|
    ensures m < n
  {
    var g := TopRun(bits, n);
    n - g.ackGap - g.nackGap
  }

  /** The maximal runs of the lowest n slots, from the top down. */
  function RunsBelow(bits: seq<bool>, n: nat): seq<Gap>
    requires n <= |bits|
    decreases n
  {
    if n == 0 then [] else [TopRun(bits, n)] + RunsBelow(bits, Below(bits, n))
  }

  function Runs(bits: seq<bool>): seq<Gap> {
    RunsBelow(bits, |bits|)
  }

  /** Consolidation: the k blocks after the newest one are folded into its
      nack gap. */
  function Collapse(gaps: seq<Gap>, k: nat): seq<Gap>
    requires k < |gaps|
  {
    [Gap(gaps[0].ackGap, gaps[0].nackGap + Span(gaps[1..k + 1]))] + gaps[k + 1..]
  }

  /** The blocks that fit: all of them, or the newest one with as many of the
      blocks after it folded into it as it takes. */
  function Limit(gaps: seq<Gap>, maxBlocks: nat): seq<Gap>
    requires maxBlocks >= 2
  {
    if |gaps| <= maxBlocks then gaps else Collapse(gaps, |gaps| - maxBlocks)
  }

  /** The gap blocks of an ack with room for maxBlocks of them. */
  function EncodeGaps(bits: seq<bool>, maxBlocks: nat): seq<Gap>
    requires maxBlocks >= 2
  {
    Limit(Runs(bits), maxBlocks)
  }

  /** What an ack of the lowest n slots must mean: received, or at or below recvTop. */
  predicate Holds(q: int, base: int, bits: seq<bool>, n: nat)
    requires n <= |bits|
  {
    q <= base || (q <= base + n && bits[q - base - 1])
  }

  lemma {:induction false} RunsSpan(bits: seq<bool>, n: nat)
    requires n <= |bits|
    ensures Span(RunsBelow(bits, n)) == n
    decreases n
  {
    if n != 0 {
      var m := Below(bits, n);
      RunsSpan(bits, m);
      assert RunsBelow(bits, n)[1..] == RunsBelow(bits, m);
    }
  }

  /** One run on top of a window adds exactly its own received slots. */
  lemma HoldsStep(q: int, base: int, bits: seq<bool>, n: nat)
    requires 0 < n <= |bits|
    ensures var g := TopRun(bits, n); var top := base + n;
            Holds(q, base, bits, n) <==>
            q <= top && (q > top - g.ackGap || (q <= top - g.ackGap - g.nackGap && Holds(q, base, bits, Below(bits, n))))
  {
  }

  /** Reading back all the runs gives the window exactly. */
  lemma {:induction false} RunsExact(q: int, base: int, bits: seq<bool>, n: nat)
    requires n <= |bits|
    ensures Acked(q, base + n, RunsBelow(bits, n)) <==> Holds(q, base, bits, n)
    decreases n
  {
    if n != 0 {
      var m := Below(bits, n);
      var gaps := [TopRun(bits, n)] + RunsBelow(bits, m);
      assert gaps[1..] == RunsBelow(bits, m);
      RunsExact(q, base, bits, m);
      HoldsStep(q, base, bits, n);
      assert Acked(q, base + n, gaps) <==> Holds(q, base, bits, n);
    }
  }

  /** What consolidation does to the meaning of an ack: the newest run and
      everything below the folded blocks are acknowledged as before, the folded
      blocks no longer are. */
  lemma CollapseMeaning(q: int, top: int, gaps: seq<Gap>, k: nat)
    requires k < |gaps|
    ensures Span(Collapse(gaps, k)) == Span(gaps)
    ensures Acked(q, top, Collapse(gaps, k)) <==>
            Acked(q, top, gaps) && (q > top - gaps[0].ackGap || q <= top - Span(gaps[..k + 1]))
  {
    var folded, rest := gaps[1..k + 1], gaps[k + 1..];
    var c := Collapse(gaps, k);
    assert gaps == gaps[..k + 1] + rest && gaps[..k + 1] == [gaps[0]] + folded;
    SpanConcat(gaps[..k + 1], rest);
    SpanConcat([gaps[0]], folded);
    assert Span([gaps[0]]) == gaps[0].ackGap + gaps[0].nackGap;
    assert c[1..] == rest;
    if q <= top - Span(gaps[..k + 1]) {
      AckedSkip(q, top, gaps[..k + 1], rest);
    }
  }

  /** Folding the blocks one at a time, as they fill up, is folding them at once. */
  lemma CollapseStep(gaps: seq<Gap>, k: nat, g: Gap)
    requires k < |gaps|
    ensures Collapse(gaps + [g], k) == Collapse(gaps, k) + [g]
    ensures k + 1 < |gaps| ==>
              var c := Collapse(gaps, k);
              Collapse(gaps, k + 1) == [Gap(c[0].ackGap, c[0].nackGap + c[1].ackGap + c[1].nackGap)] + c[2..]
  {
    assert (gaps + [g])[1..k + 1] == gaps[1..k + 1];
    assert (gaps + [g])[k + 1..] == gaps[k + 1..] + [g];
    if k + 1 < |gaps| {
      assert gaps[1..k + 2] == gaps[1..k + 1] + [gaps[k + 1]];
      SpanConcat(gaps[1..k + 1], [gaps[k + 1]]);
      assert Span([gaps[k + 1]]) == gaps[k + 1].ackGap + gaps[k + 1].nackGap;
      assert Collapse(gaps, k)[2..] == gaps[k + 2..];
    }
  }

  /** Is q outside the stretch that folding takes away? */
  predicate Kept(q: int, top: int, gaps: seq<Gap>, maxBlocks: nat)
    requires maxBlocks >= 2
  {
    |gaps| <= maxBlocks || q > top - gaps[0].ackGap || q <= top - Span(gaps[..|gaps| - maxBlocks + 1])
  }

  lemma AllKept(q: int, top: int, gaps: seq<Gap>, maxBlocks: nat)
    requires maxBlocks >= 2 && |gaps| <= maxBlocks
    ensures Kept(q, top, gaps, maxBlocks)
  {
  }

  lemma LimitMeaning(q: int, top: int, gaps: seq<Gap>, maxBlocks: nat)
    requires maxBlocks >= 2
    ensures Span(Limit(gaps, maxBlocks)) == Span(gaps)
    ensures Acked(q, top, Limit(gaps, maxBlocks)) <==> Acked(q, top, gaps) && Kept(q, top, gaps, maxBlocks)
  {
    if |gaps| > maxBlocks {
      CollapseMeaning(q, top, gaps, |gaps| - maxBlocks);
    }
  }

  /** The meaning of the encoded gaps, for every window and every number of
      blocks: the gaps span the window, and what is acknowledged is what has
      been received except inside the folded stretch, so exactly what has been
      received when all the runs fit. */
  lemma EncodedMeaning(q: int, base: int, bits: seq<bool>, maxBlocks: nat)
    requires maxBlocks >= 2
    ensures Span(EncodeGaps(bits, maxBlocks)) == |bits|
    ensures Acked(q, base + |bits|, EncodeGaps(bits, maxBlocks)) <==>
            Holds(q, base, bits, |bits|) && Kept(q, base + |bits|, Runs(bits), maxBlocks)
  {
    LimitMeaning(q, base + |bits|, Runs(bits), maxBlocks);
    RunsSpan(bits, |bits|);
    RunsExact(q, base, bits, |bits|);
  }

  /** An ack never claims something that has not been received. */
  lemma EncodedSound(q: int, base: int, bits: seq<bool>, maxBlocks: nat)
    requires maxBlocks >= 2
    ensures Acked(q, base + |bits|, EncodeGaps(bits, maxBlocks)) ==> Holds(q, base, bits, |bits|)
  {
    EncodedMeaning(q, base, bits, maxBlocks);
  }

  /** Everything up to recvTop and the newest run are always acknowledged. */
  lemma EncodedCoversEnds(q: int, base: int, bits: seq<bool>, maxBlocks: nat)
    requires maxBlocks >= 2
    requires q <= base || base + |bits| - Trailing(bits, |bits|, true) < q <= base + |bits|
    ensures Acked(q, base + |bits|, EncodeGaps(bits, maxBlocks))
  {
    EncodedMeaning(q, base, bits, maxBlocks);
    RunsSpan(bits, |bits|);
    var runs := Runs(bits);
    if |runs| > maxBlocks {
      var k := |runs| - maxBlocks + 1;
      assert runs == runs[..k] + runs[k..];
      SpanConcat(runs[..k], runs[k..]);
      assert runs[0] == TopRun(bits, |bits|);
    }
  }

  // --------------------------------------------------------------- algorithm

  /** Writes the gap blocks into the fixed array, folding block 1 into block 0
      and moving the others up each time the array is full. */
  method AddGapBlocks(bits: seq<bool>, maxBlocks: nat) returns (gaps: seq<Gap>)
    requires 2 <= maxBlocks <= MAX_ACK_GAP_BLOCKS
    ensures gaps == EncodeGaps(bits, maxBlocks)
  {
    var gapBlocks := new Gap[MAX_ACK_GAP_BLOCKS](_ => Gap(0, 0));
    var count := 0;
    var at := |bits|;
    ghost var runs := Runs(bits);
    ghost var done := 0;
    while at != 0
      invariant 0 <= at <= |bits|
      invariant 0 <= done <= |runs| && runs[done..] == RunsBelow(bits, at)
      invariant 0 <= count <= maxBlocks
      invariant gapBlocks[..count] == Limit(runs[..done], maxBlocks)
      decreases at
    {
      NextOfRuns(runs, done, bits, at);
      count, at := AddBlock(gapBlocks, count, bits, at, runs[..done], maxBlocks);
      done := done + 1;
    }
    assert runs[..done] == runs;
    gaps := gapBlocks[..count];
  }

  lemma NextOfRuns(runs: seq<Gap>, done: nat, bits: seq<bool>, at: nat)
    requires 0 < at <= |bits| && done <= |runs| && runs[done..] == RunsBelow(bits, at)
    ensures done < |runs| && runs[..done + 1] == runs[..done] + [TopRun(bits, at)]
    ensures runs[done + 1..] == RunsBelow(bits, Below(bits, at))
  {
    assert runs[done] == runs[done..][0];
    assert runs[done + 1..] == runs[done..][1..];
  }

  /** One more block, after making room for it. */
  method AddBlock(gapBlocks: array<Gap>, count: nat, bits: seq<bool>, start: nat, ghost done: seq<Gap>, maxBlocks: nat)
    returns (newCount: nat, at: nat)
    requires 2 <= maxBlocks <= gapBlocks.Length && count <= maxBlocks && 0 < start <= |bits|
    requires gapBlocks[..count] == Limit(done, maxBlocks)
    modifies gapBlocks
    ensures newCount <= maxBlocks && gapBlocks[..newCount] == Limit(done + [TopRun(bits, start)], maxBlocks)
    ensures at == Below(bits, start)
  {
    newCount := count;
    if newCount >= maxBlocks {
      Consolidate(gapBlocks, newCount);
      FoldFull(done, maxBlocks);
      newCount := newCount - 1;
    }
    var g;
    g, at := NextRun(bits, start);
    Append(gapBlocks, newCount, g);
    newCount := newCount + 1;
    LimitStep(done, maxBlocks, g);
  }

  method Append(gapBlocks: array<Gap>, count: nat, g: Gap)
    requires count < gapBlocks.Length
    modifies gapBlocks
    ensures gapBlocks[..count + 1] == old(gapBlocks[..count]) + [g]
  {
    gapBlocks[count] := g;
  }

  lemma LimitStep(done: seq<Gap>, maxBlocks: nat, g: Gap)
    requires maxBlocks >= 2
    ensures Limit(done + [g], maxBlocks) ==
            if |done| < maxBlocks then done + [g] else Collapse(done, |done| + 1 - maxBlocks) + [g]
  {
    if |done| >= maxBlocks {
      CollapseStep(done, |done| + 1 - maxBlocks, g);
    }
  }

  /** Walks down over one run of received slots and the hole below it. */
  method NextRun(bits: seq<bool>, start: nat) returns (g: Gap, at: nat)
    requires 0 < start <= |bits|
    ensures g == TopRun(bits, start) && at == Below(bits, start)
  {
    at := start;
    var ackGap, nackGap := 0, 0;
    while at != 0 && bits[at - 1]
      invariant 0 <= at <= start && ackGap == start - at
      invariant Trailing(bits, start, true) == ackGap + Trailing(bits, at, true)
    {
      at := at - 1;
      ackGap := ackGap + 1;
    }
    ghost var middle := at;
    while at != 0 && !bits[at - 1]
      invariant 0 <= at <= middle && nackGap == middle - at
      invariant Trailing(bits, middle, false) == nackGap + Trailing(bits, at, false)
    {
      at := at - 1;
      nackGap := nackGap + 1;
    }
    g := Gap(ackGap, nackGap);
  }

  /** Block 1 folded into block 0. */
  function Fold(gaps: seq<Gap>): seq<Gap>
    requires |gaps| >= 2
  {
    [Gap(gaps[0].ackGap, gaps[0].nackGap + gaps[1].ackGap + gaps[1].nackGap)] + gaps[2..]
  }

  lemma FoldFull(done: seq<Gap>, maxBlocks: nat)
    requires |done| >= maxBlocks >= 2
    ensures Fold(Limit(done, maxBlocks)) == Collapse(done, |done| + 1 - maxBlocks)
  {
    CollapseStep(done, |done| - maxBlocks, Gap(0, 0));
    if |done| == maxBlocks {
      assert Collapse(done, 0) == done;
    }
  }

  /** Makes room for one more block in a full array. */
  method Consolidate(gapBlocks: array<Gap>, count: nat)
    requires 2 <= count <= gapBlocks.Length
    modifies gapBlocks
    ensures gapBlocks[..count - 1] == Fold(old(gapBlocks[..count]))
  {
    gapBlocks[0] := Gap(gapBlocks[0].ackGap, gapBlocks[0].nackGap + gapBlocks[1].ackGap);
    gapBlocks[0] := Gap(gapBlocks[0].ackGap, gapBlocks[0].nackGap + gapBlocks[1].nackGap);
    MoveDown(gapBlocks);
  }

  /** Closes the gap that folding leaves: every block behind the second moves down
      by one place. */
  method MoveDown(gapBlocks: array<Gap>)
    requires gapBlocks.Length >= 2
    modifies gapBlocks
    ensures gapBlocks[0] == old(gapBlocks[0])
    ensures forall i :: 1 <= i < gapBlocks.Length - 1 ==> gapBlocks[i] == old(gapBlocks[i + 1])
  {
    for i := 1 to gapBlocks.Length - 1
      invariant gapBlocks[0] == old(gapBlocks[0])
      invariant forall j :: 1 <= j < i ==> gapBlocks[j] == old(gapBlocks[j + 1])
      invariant forall j :: i <= j < gapBlocks.Length ==> gapBlocks[j] == old(gapBlocks[j])
    {
      gapBlocks[i] := gapBlocks[i + 1];
    }
  }
}
