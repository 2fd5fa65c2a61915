/** mDNS names and responses (section 4.1.4 of RFC 1035): names are written with
    compression pointers and matched in place. */
module Mdns {
  import opened Basics

  const MAX_HOPS: nat := 32
  const HEADER: nat := 12

  // ---------------------------------------------------------- reading and matching

  function Lower(c: byte): byte {
    if 65 <= c <= 90 then c + 32 else c
  }

  /** The same label but for the case of its letters. */
  predicate SameLabel(a: seq<byte>, b: seq<byte>) {
    |a| == |b| && forall i :: 0 <= i < |a| ==> Lower(a[i]) == Lower(b[i])
  }

  /** Where a compression pointer leads, unless it is cut off or leads nowhere
      before its own end. */
  function Target(b: seq<byte>, at: nat): (target: Option<nat>)
    requires at < |b| && b[at] >= 0xC0
    ensures target.Some? ==> target.value < at + 2
  {
    if at + 1 >= |b| then None
    else
      var offset: nat := (b[at] as int - 0xC0) * 256 + b[at + 1] as int;
      if offset >= at + 2 then None else Some(offset)
  }

  /** Are these labels at the start of the name at a position? */
  predicate Match(b: seq<byte>, at: nat, labels: seq<seq<byte>>, hops: nat)
    requires hops <= MAX_HOPS
    decreases |labels|, MAX_HOPS - hops
  {
    if labels == [] then true
    else if at >= |b| then false
    else if b[at] >= 0xC0 then
      Target(b, at).Some? && hops < MAX_HOPS && Match(b, Target(b, at).value, labels, hops + 1)
    else
      var next := at + 1 + b[at] as int;
      next <= |b| && SameLabel(b[at + 1..next], labels[0]) && Match(b, next, labels[1..], hops)
  }

  /** All labels of the name at a position, up to its end. */
  function ReadName(b: seq<byte>, at: nat, hops: nat): Option<seq<seq<byte>>>
    requires hops <= MAX_HOPS
    decreases MAX_HOPS - hops, |b| - at
  {
    if at >= |b| then None
    else if b[at] >= 0xC0 then
      if Target(b, at).None? || hops >= MAX_HOPS then None else ReadName(b, Target(b, at).value, hops + 1)
    else if b[at] == 0 then Some([])
    else
      var next := at + 1 + b[at] as int;
      if next > |b| then None
      else
        match ReadName(b, next, hops)
        case None => None
        case Some(rest) => Some([b[at + 1..next]] + rest)
  }

  predicate NoEmpty(labels: seq<seq<byte>>) {
    forall i :: 0 <= i < |labels| ==> labels[i] != []
  }

  lemma NoEmptyTail(labels: seq<seq<byte>>)
    requires labels != []
    ensures NoEmpty(labels) <==> labels[0] != [] && NoEmpty(labels[1..])
  {
    assert forall i :: 1 <= i < |labels| ==> labels[i] == labels[1..][i - 1];
    if labels[0] != [] && NoEmpty(labels[1..]) {
      forall i | 0 <= i < |labels| ensures labels[i] != [] {
        if i > 0 {
          assert labels[1..][i - 1] != [];
        }
      }
    }
    if NoEmpty(labels) {
      forall i | 0 <= i < |labels| - 1 ensures labels[1..][i] != [] {
        assert labels[i + 1] != [];
      }
    }
  }

  predicate StartsWith(name: seq<seq<byte>>, labels: seq<seq<byte>>) {
    |labels| <= |name| && forall i :: 0 <= i < |labels| ==> SameLabel(name[i], labels[i])
  }

  /** Matching accepts exactly the label lists the name starts with. */
  lemma {:induction false} MatchIsPrefix(b: seq<byte>, at: nat, labels: seq<seq<byte>>, hops: nat)
    requires hops <= MAX_HOPS && ReadName(b, at, hops).Some?
    requires NoEmpty(labels)
    ensures Match(b, at, labels, hops) <==> StartsWith(ReadName(b, at, hops).value, labels)
    decreases MAX_HOPS - hops, |b| - at
  {
    hide NoEmpty, StartsWith, SameLabel;
    NothingStarts(labels);
    if labels != [] {
      NoEmptyTail(labels);
      if b[at] >= 0xC0 {
        MatchIsPrefix(b, Target(b, at).value, labels, hops + 1);
      } else if b[at] != 0 {
        var next := at + 1 + b[at] as int;
        var name, rest := ReadName(b, at, hops).value, ReadName(b, next, hops).value;
        MatchIsPrefix(b, next, labels[1..], hops);
        assert name[0] == b[at + 1..next] && name[1..] == rest;
        StartsCons(name, rest, labels);
      } else {
        EmptyDiffers(b[at + 1..at + 1], labels[0]);
      }
    }
  }

  lemma NothingStarts(labels: seq<seq<byte>>)
    ensures StartsWith([], labels) <==> labels == []
    ensures forall name :: labels == [] ==> StartsWith(name, labels)
  {
  }

  lemma EmptyDiffers(a: seq<byte>, b: seq<byte>)
    ensures a == [] && b != [] ==> !SameLabel(a, b)
  {
  }

  lemma StartsCons(name: seq<seq<byte>>, rest: seq<seq<byte>>, labels: seq<seq<byte>>)
    requires labels != [] && name != [] && name[1..] == rest
    ensures StartsWith(name, labels) <==> SameLabel(name[0], labels[0]) && StartsWith(rest, labels[1..])
  {
    hide SameLabel;
    assert forall i :: 1 <= i < |name| ==> name[i] == rest[i - 1];
    assert forall i :: 1 <= i < |labels| ==> labels[i] == labels[1..][i - 1];
    if SameLabel(name[0], labels[0]) && StartsWith(rest, labels[1..]) {
      forall i | 0 <= i < |labels| ensures SameLabel(name[i], labels[i]) {
        if i > 0 {
          assert SameLabel(rest[i - 1], labels[1..][i - 1]);
        }
      }
    }
    if StartsWith(name, labels) {
      forall i | 0 <= i < |labels| - 1 ensures SameLabel(rest[i], labels[1..][i]) {
        assert SameLabel(name[i + 1], labels[i + 1]);
      }
    }
  }

  /** The position behind the name at a position. */
  function Skip(b: seq<byte>, at: nat): (next: Option<nat>)
    ensures next.Some? ==> at < next.value <= |b|
    decreases |b| - at
  {
    if at >= |b| then None
    else if b[at] >= 0xC0 then (if at + 1 < |b| then Some(at + 2) else None)
    else if b[at] == 0 then Some(at + 1)
    else if b[at] > 63 then None
    else if at + 1 + b[at] as int > |b| then None
    else Skip(b, at + 1 + b[at] as int)
  }

  /** The position behind so many records. */
  function Walk(b: seq<byte>, at: nat, count: nat): Option<nat>
    decreases count
  {
    if count == 0 then Some(at)
    else
      match Skip(b, at)
      case None => None
      case Some(p) =>
        if p + 10 > |b| then None
        else
          var next := p + 10 + GetU16(b[p + 8..]);
          if next > |b| then None else Walk(b, next, count - 1)
  }

  // ------------------------------------------------------------------ written names

  type Label = l: seq<byte> | |l| < 64

  /** A name as written: labels and then the end or a pointer. */
  datatype Name = Name(labels: seq<Label>, pointer: Option<nat>)

  predicate NameFits(n: Name) {
    n.pointer.Some? ==> n.pointer.value < 0x4000
  }

  function LabelBytes(l: Label): seq<byte> { [|l|] + l }

  function LabelsBytes(labels: seq<Label>): seq<byte> {
    if labels == [] then [] else LabelBytes(labels[0]) + LabelsBytes(labels[1..])
  }

  /** A compression pointer, cut to 16 bits. */
  function PointerBytes(p: nat): (b: seq<byte>)
    ensures |b| == 2
  {
    U16((0xC000 + p) % 0x1_0000)
  }

  function EndBytes(pointer: Option<nat>): seq<byte> {
    if pointer.None? then [0] else PointerBytes(pointer.value)
  }

  function NameBytes(n: Name): seq<byte> {
    LabelsBytes(n.labels) + EndBytes(n.pointer)
  }

  /** These bytes are at this position. */
  predicate Holds(b: seq<byte>, at: nat, bytes: seq<byte>) {
    at + |bytes| <= |b| && b[at..at + |bytes|] == bytes
  }

  lemma HoldsPart(b: seq<byte>, at: nat, before: seq<byte>, part: seq<byte>, after: seq<byte>)
    requires Holds(b, at, before + part + after)
    ensures Holds(b, at + |before|, part) && Holds(b, at, before)
  {
    var bytes := before + part + after;
    forall k | 0 <= k < |bytes| ensures b[at + k] == bytes[k] {
      assert b[at..at + |bytes|][k] == b[at + k];
    }
    forall k | 0 <= k < |part| ensures b[at + |before| + k] == part[k] {
      assert bytes[|before| + k] == part[k];
    }
    forall k | 0 <= k < |before| ensures b[at + k] == before[k] {
      assert bytes[k] == before[k];
    }
  }

  lemma FirstLabel(b: seq<byte>, at: nat, n: Name)
    requires NameFits(n) && n.labels != [] && Holds(b, at, NameBytes(n))
    ensures var l := n.labels[0]; var next := at + 1 + |l|;
            && at < next <= |b| && b[at] == |l| && b[at + 1..next] == l
            && Holds(b, next, NameBytes(Name(n.labels[1..], n.pointer)))
  {
    var l, rest := n.labels[0], NameBytes(Name(n.labels[1..], n.pointer));
    assert NameBytes(n) == [|l|] + l + rest;
    HoldsPart(b, at, [], [|l|], l + rest) by { assert [] + [|l|] + (l + rest) == NameBytes(n); }
    HoldsPart(b, at, [|l|], l, rest);
    HoldsPart(b, at, [|l|] + l, rest, []) by { assert [|l|] + l + rest + [] == NameBytes(n); }
    assert b[at..at + 1][0] == b[at];
  }

  lemma PointerTarget(b: seq<byte>, at: nat, p: nat)
    requires p < 0x4000 && p < at + 2 && Holds(b, at, PointerBytes(p))
    ensures at + 2 <= |b| && b[at] >= 0xC0 && Target(b, at) == Some(p)
  {
    assert b[at..at + 2][0] == b[at] && b[at..at + 2][1] == b[at + 1];
  }

  lemma NoLabels(n: Name)
    requires NameFits(n) && n.labels == []
    ensures NameBytes(n) == EndBytes(n.pointer)
  {
  }

  /** A written name is matched by the labels it stands for: its own, and behind
      its pointer those of the name there. */
  lemma {:induction false} WrittenMatches(b: seq<byte>, at: nat, n: Name, rest: seq<seq<byte>>, hops: nat)
    requires NameFits(n) && Holds(b, at, NameBytes(n)) && hops <= MAX_HOPS
    requires n.pointer.None? ==> rest == []
    requires n.pointer.Some? ==> n.pointer.value < at && hops < MAX_HOPS && Match(b, n.pointer.value, rest, hops + 1)
    ensures Match(b, at, n.labels + rest, hops)
    decreases |n.labels|
  {
    hide PointerBytes, NameBytes, LabelsBytes;
    var labels := n.labels + rest;
    if n.labels == [] {
      assert labels == rest;
      NoLabels(n);
      if n.pointer.Some? {
        PointerTarget(b, at, n.pointer.value);
      }
    } else {
      FirstLabel(b, at, n);
      assert labels[0] == n.labels[0] && labels[1..] == n.labels[1..] + rest;
      assert SameLabel(n.labels[0], n.labels[0]);
      WrittenMatches(b, at + 1 + |n.labels[0]|, Name(n.labels[1..], n.pointer), rest, hops);
    }
  }

  /** A written name without empty labels is read back as the labels it stands for. */
  lemma {:induction false} WrittenReads(b: seq<byte>, at: nat, n: Name, rest: seq<seq<byte>>, hops: nat)
    requires NameFits(n) && Holds(b, at, NameBytes(n)) && hops <= MAX_HOPS
    requires NoEmpty(n.labels)
    requires n.pointer.None? ==> rest == []
    requires n.pointer.Some? ==> n.pointer.value < at && hops < MAX_HOPS && ReadName(b, n.pointer.value, hops + 1) == Some(rest)
    ensures ReadName(b, at, hops) == Some(n.labels + rest)
    decreases |n.labels|
  {
    hide PointerBytes, NameBytes, LabelsBytes, NoEmpty, ReadName;
    if n.labels == [] {
      assert n.labels + rest == rest;
      NoLabels(n);
      EndReads(b, at, n.pointer, rest, hops);
    } else {
      var l, tail := n.labels[0], n.labels[1..] + rest;
      FirstLabel(b, at, n);
      NoEmptyTail(n.labels);
      WrittenReads(b, at + 1 + |l|, Name(n.labels[1..], n.pointer), rest, hops);
      ReadStep(b, at, l, hops, tail);
      assert [l] + tail == n.labels + rest;
    }
  }

  lemma EndReads(b: seq<byte>, at: nat, pointer: Option<nat>, rest: seq<seq<byte>>, hops: nat)
    requires hops <= MAX_HOPS && (pointer.None? ==> rest == [])
    requires pointer.Some? ==>
               pointer.value < 0x4000 && pointer.value < at && hops < MAX_HOPS && ReadName(b, pointer.value, hops + 1) == Some(rest)
    requires Holds(b, at, EndBytes(pointer))
    ensures ReadName(b, at, hops) == Some(rest)
  {
    hide U16;
    if pointer.Some? {
      PointerTarget(b, at, pointer.value);
    } else {
      assert b[at..at + 1][0] == b[at];
    }
  }

  lemma ReadStep(b: seq<byte>, at: nat, l: Label, hops: nat, name: seq<seq<byte>>)
    requires hops <= MAX_HOPS && l != [] && at + 1 + |l| <= |b| && b[at] == |l| && b[at + 1..at + 1 + |l|] == l
    requires ReadName(b, at + 1 + |l|, hops) == Some(name)
    ensures ReadName(b, at, hops) == Some([l] + name)
  {
  }

  /** Skipping a written name ends behind it exactly if it has no empty label. */
  lemma {:induction false} SkipIsExact(b: seq<byte>, at: nat, n: Name)
    requires NameFits(n) && Holds(b, at, NameBytes(n))
    ensures Skip(b, at) == Some(at + |NameBytes(n)|) <==> NoEmpty(n.labels)
    ensures |NameBytes(n)| > 0
    decreases |n.labels|
  {
    hide PointerBytes, LabelsBytes, NoEmpty;
    if n.labels == [] {
      NoLabels(n);
      EmptyName(n.labels);
      if n.pointer.Some? {
        PointerByte(b, at, n.pointer.value);
      } else {
        assert b[at..at + 1][0] == b[at];
      }
    } else {
      FirstLabel(b, at, n);
      var tail := Name(n.labels[1..], n.pointer);
      SkipIsExact(b, at + 1 + |n.labels[0]|, tail);
      NameLength(n);
      NoEmptyTail(n.labels);
    }
  }

  lemma EmptyName(labels: seq<seq<byte>>)
    requires labels == []
    ensures NoEmpty(labels)
  {
  }

  lemma NameLength(n: Name)
    requires NameFits(n) && n.labels != []
    ensures |NameBytes(n)| == 1 + |n.labels[0]| + |NameBytes(Name(n.labels[1..], n.pointer))|
  {
  }

  lemma PointerByte(b: seq<byte>, at: nat, p: nat)
    requires p < 0x4000 && Holds(b, at, PointerBytes(p))
    ensures at + 1 < |b| && b[at] >= 0xC0
  {
    assert b[at..at + 2][0] == b[at];
  }
}
