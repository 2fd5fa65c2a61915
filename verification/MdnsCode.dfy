/** The mDNS responder's loops over packets: matching and skipping names in
    place, answering questions, and writing a response with its compression
    pointers. */
module MdnsCode {
  import opened Basics
  import opened ByteWriter
  import opened Mdns
  import opened MdnsResponse

  // ------------------------------------------------------------------ matching

  method MatchLabel(a: seq<byte>, other: seq<byte>) returns (same: bool)
    ensures same <==> SameLabel(a, other)
  {
    if |a| != |other| {
      return false;
    }
    for i := 0 to |other|
      invariant forall j :: 0 <= j < i ==> Lower(a[j]) == Lower(other[j])
    {
      if Lower(other[i]) != Lower(a[i]) {
        return false;
      }
    }
    same := true;
  }

  /** One step of a match, for the labels from the k-th on. */
  lemma MatchStep(b: seq<byte>, at: nat, labels: seq<seq<byte>>, k: nat, hops: nat)
    requires k <= |labels| && hops <= MAX_HOPS
    ensures Match(b, at, labels[k..], hops) <==>
              k == |labels| ||
              (at < |b| &&
                if b[at] >= 0xC0 then
                  Target(b, at).Some? && hops < MAX_HOPS && Match(b, Target(b, at).value, labels[k..], hops + 1)
                else
                  var next := at + 1 + b[at] as int;
                  next <= |b| && SameLabel(b[at + 1..next], labels[k]) && Match(b, next, labels[k + 1..], hops))
  {
    if k < |labels| {
      assert labels[k..][0] == labels[k] && labels[k..][1..] == labels[k + 1..];
    }
  }

  /** Follows a name through its pointers, comparing label by label. */
  method MatchName(b: seq<byte>, start: nat, toMatch: seq<seq<byte>>) returns (matched: bool)
    ensures matched <==> Match(b, start, toMatch, 0)
  {
    hide Match, SameLabel;
    var at, k, hops := start, 0, 0;
    assert toMatch[0..] == toMatch;
    while true
      invariant 0 <= k <= |toMatch| && 0 <= hops <= MAX_HOPS && at >= 0
      invariant Match(b, at, toMatch[k..], hops) <==> Match(b, start, toMatch, 0)
      decreases |toMatch| - k, MAX_HOPS - hops
    {
      MatchStep(b, at, toMatch, k, hops);
      if k == |toMatch| {
        return true;
      }
      if at >= |b| {
        return false;
      }
      var length: nat := b[at];
      at := at + 1;
      if length >= 0xC0 {
        if at >= |b| {
          return false;
        }
        var offset: nat := (length - 0xC0) * 256 + b[at] as int;
        at := at + 1;
        if offset >= at {
          return false;
        }
        if hops >= MAX_HOPS {
          return false;
        }
        hops := hops + 1;
        at := offset;
      } else {
        if at + length > |b| {
          return false;
        }
        var same := MatchLabel(b[at..at + length], toMatch[k]);
        if !same {
          return false;
        }
        at := at + length;
        k := k + 1;
      }
    }
  }

  /** The position behind a name, unless it is cut off or malformed. */
  method SkipName(b: seq<byte>, start: nat) returns (next: Option<nat>)
    ensures next == Skip(b, start)
  {
    var at := start;
    while true
      invariant at >= 0 && Skip(b, at) == Skip(b, start)
      decreases |b| - at
    {
      if at >= |b| {
        return None;
      }
      var length: nat := b[at];
      at := at + 1;
      if length >= 0xC0 {
        return if at < |b| then Some(at + 1) else None;
      } else if length == 0 {
        return Some(at);
      } else if length > 63 {
        return None;
      } else {
        at := at + length;
        if at > |b| {
          return None;
        }
      }
    }
  }

  // ----------------------------------------------------------------- answering

  /** The names a responder answers for. */
  function Answered(s: Service, subtypes: nat): (names: seq<seq<seq<byte>>>)
    requires subtypes <= |s.subtypes|
  {
    if subtypes == 0 then
      [[NABTO, UDP, LOCAL], [s.instance, NABTO, UDP, LOCAL], [s.instance, LOCAL], [SERVICES, DNS_SD, UDP, LOCAL]]
    else Answered(s, subtypes - 1) + [[s.subtypes[subtypes - 1], SUB, NABTO, UDP, LOCAL]]
  }

  predicate Asks(b: seq<byte>, at: nat, names: seq<seq<seq<byte>>>) {
    exists i :: 0 <= i < |names| && Match(b, at, names[i], 0)
  }

  lemma AsksMore(b: seq<byte>, at: nat, names: seq<seq<seq<byte>>>, name: seq<seq<byte>>)
    ensures Asks(b, at, names + [name]) <==> Asks(b, at, names) || Match(b, at, name, 0)
  {
    hide Match;
    if Asks(b, at, names) {
      var i :| 0 <= i < |names| && Match(b, at, names[i], 0);
      assert (names + [name])[i] == names[i];
    }
    if Match(b, at, name, 0) {
      assert (names + [name])[|names|] == name;
    }
  }

  /** Does one of so many questions, each with its type and class, ask for one of
      the names? A question that is cut off ends the search. */
  predicate AnyAsks(b: seq<byte>, at: Option<nat>, count: nat, names: seq<seq<seq<byte>>>)
    decreases count
  {
    count > 0 && at.Some? &&
    (Asks(b, at.value, names) || AnyAsks(b, AfterQuestion(b, at.value), count - 1, names))
  }

  function AfterQuestion(b: seq<byte>, at: nat): Option<nat> {
    match Skip(b, at)
    case None => None
    case Some(next) => if next + 4 <= |b| then Some(next + 4) else None
  }

  /** Is one of the names what a question is for? */
  method AsksFor(b: seq<byte>, at: nat, s: Service) returns (asks: bool)
    ensures asks <==> Asks(b, at, Answered(s, |s.subtypes|))
  {
    hide Match;
    var fixed := [[NABTO, UDP, LOCAL], [s.instance, NABTO, UDP, LOCAL], [s.instance, LOCAL], [SERVICES, DNS_SD, UDP, LOCAL]];
    asks := false;
    for i := 0 to |fixed|
      invariant asks <==> exists j :: 0 <= j < i && Match(b, at, fixed[j], 0)
    {
      var matched := MatchName(b, at, fixed[i]);
      asks := asks || matched;
    }
    assert asks <==> Asks(b, at, Answered(s, 0));
    for i := 0 to |s.subtypes|
      invariant asks <==> Asks(b, at, Answered(s, i))
    {
      var name := [s.subtypes[i], SUB, NABTO, UDP, LOCAL];
      AsksMore(b, at, Answered(s, i), name);
      var matched := MatchName(b, at, name);
      asks := asks || matched;
    }
  }

  /** Is a packet a query for this service? */
  method HandlePacket(s: Service, b: seq<byte>) returns (answer: bool)
    ensures answer <==>
              |b| >= HEADER && b[2] < 0x80 && AnyAsks(b, Some(HEADER), GetU16(b[4..]), Answered(s, |s.subtypes|))
  {
    hide Asks, Answered, Skip, GetU16;
    if |b| < 4 {
      return false;
    }
    if b[2] >= 0x80 {
      return false;
    }
    if |b| < 6 {
      return false;
    }
    var questions: nat := GetU16(b[4..]);
    if |b| - 6 < 6 {
      return false;
    }
    var at: Option<nat> := Some(12);
    ghost var names := Answered(s, |s.subtypes|);
    for i := 0 to questions
      invariant AnyAsks(b, at, questions - i, names) <==> AnyAsks(b, Some(HEADER), questions, names)
    {
      if at.None? {
        return false;
      }
      var asks := AsksFor(b, at.value, s);
      if asks {
        return true;
      }
      var next := SkipName(b, at.value);
      at := if next.None? || next.value + 4 > |b| then None else Some(next.value + 4);
    }
    answer := false;
  }

  // ------------------------------------------------------------------- writing

  /** The writer has been asked for these bytes, and has them if they fit. */
  ghost predicate Tracks(w: Writer, sofar: seq<byte>)
    reads w, w.buffer
  {
    && w.Valid()
    && |w.wanted| == |sofar|
    && (w.ptr.Some? <==> |sofar| <= w.buffer.Length)
    && (w.ptr.Some? ==> w.wanted == sofar)
  }

  /** The label made at a position is the pointer to it, if the position is in
      the buffer. */
  ghost predicate GoodLabel(w: Writer, pointer: u16, at: nat) {
    at <= w.buffer.Length ==> pointer == (0xC000 + at) % 0x1_0000
  }

  method CompressionLabel(w: Writer, ghost sofar: seq<byte>) returns (pointer: u16)
    requires Tracks(w, sofar)
    ensures GoodLabel(w, pointer, |sofar|)
  {
    if w.ptr.None? {
      return 0;
    }
    pointer := (0xC000 + w.ptr.value) % 0x1_0000;
  }

  method PutUint16(w: Writer, val: u16, ghost sofar: seq<byte>)
    requires Tracks(w, sofar)
    modifies w, w.buffer
    ensures Tracks(w, sofar + U16(val))
  {
    w.WriteUint16(val);
  }

  method PutPointer(w: Writer, pointer: u16, ghost at: nat, ghost sofar: seq<byte>)
    requires Tracks(w, sofar) && GoodLabel(w, pointer, at) && at <= |sofar|
    modifies w, w.buffer
    ensures Tracks(w, sofar + PointerBytes(at))
  {
    w.WriteUint16(pointer);
  }

  method PutLabel(w: Writer, l: Label, ghost sofar: seq<byte>)
    requires Tracks(w, sofar)
    modifies w, w.buffer
    ensures Tracks(w, sofar + LabelBytes(l))
  {
    w.WriteUint8(|l|);
    w.EncodeBuffer(l);
  }

  method PutBytes(w: Writer, bytes: seq<byte>, ghost sofar: seq<byte>)
    requires Tracks(w, sofar)
    modifies w, w.buffer
    ensures Tracks(w, sofar + bytes)
  {
    w.EncodeBuffer(bytes);
  }

  /** The fields of a record behind its owner. */
  method PutFields(w: Writer, kind: u16, class_: u16, ttl: u32, length: u16, ghost sofar: seq<byte>)
    requires Tracks(w, sofar)
    modifies w, w.buffer
    ensures Tracks(w, sofar + (U16(kind) + U16(class_) + U32(ttl) + U16(length)))
  {
    hide U16, U32, Writer.Valid;
    w.WriteUint16(kind);
    w.WriteUint16(class_);
    w.WriteUint32(ttl);
    w.WriteUint16(length);
    assert sofar + U16(kind) + U16(class_) + U32(ttl) + U16(length) == sofar + (U16(kind) + U16(class_) + U32(ttl) + U16(length));
  }
}
