/** Building a response in a buffer, label by label and field by field, with the
    compression labels taken from the write position. */
module MdnsBuild {
  import opened Basics
  import opened ByteWriter
  import opened Mdns
  import opened MdnsResponse
  import opened MdnsCode

  lemma OneLabel(l: Label, pointer: Option<nat>)
    ensures NameBytes(Name([l], pointer)) == LabelBytes(l) + EndBytes(pointer)
  {
    AddLabel(l, [], pointer);
    assert NameBytes(Name([], pointer)) == EndBytes(pointer);
  }

  lemma AddLabel(l: Label, rest: seq<Label>, pointer: Option<nat>)
    ensures NameBytes(Name([l] + rest, pointer)) == LabelBytes(l) + NameBytes(Name(rest, pointer))
    ensures [l] + [] == [l]
  {
    hide LabelBytes, EndBytes;
    assert ([l] + rest)[1..] == rest;
  }

  lemma TwoLabels(k: Label, l: Label, pointer: Option<nat>)
    ensures NameBytes(Name([k, l], pointer)) == LabelBytes(k) + LabelBytes(l) + EndBytes(pointer)
  {
    hide LabelBytes, EndBytes, NameBytes;
    assert [k] + [l] == [k, l];
    AddLabel(k, [l], pointer);
    OneLabel(l, pointer);
  }

  lemma ThreeLabels(j: Label, k: Label, l: Label, pointer: Option<nat>)
    ensures NameBytes(Name([j, k, l], pointer)) == LabelBytes(j) + LabelBytes(k) + LabelBytes(l) + EndBytes(pointer)
  {
    hide LabelBytes, EndBytes, NameBytes;
    assert [j] + [k, l] == [j, k, l];
    AddLabel(j, [k, l], pointer);
    TwoLabels(k, l, pointer);
  }

  /** A record written behind other bytes. */
  lemma RecordInParts(sofar: seq<byte>, r: Record)
    requires |r.data| < 0x1_0000
    ensures sofar + NameBytes(r.owner) + (U16(r.kind) + U16(r.class_) + U32(r.ttl) + U16(|r.data|)) + r.data ==
            sofar + RecordBytes(r)
  {
    hide NameBytes, U16, U32;
    var fields := U16(r.kind) + U16(r.class_) + U32(r.ttl) + U16(|r.data|);
    assert RecordBytes(r) == NameBytes(r.owner) + fields + r.data;
  }

  lemma ConcatPush(header: seq<byte>, records: seq<Record>, r: Record)
    ensures header + Concat(records) + RecordBytes(r) == header + Concat(records + [r])
  {
    hide RecordBytes;
    assert (records + [r])[..|records|] == records;
  }

  method PutHeader(w: Writer, q: Query, count: u16)
    requires Tracks(w, [])
    modifies w, w.buffer
    ensures Tracks(w, HeaderBytes(q.id, count))
  {
    hide U16, Writer.Valid;
    w.WriteUint16(q.id);
    w.WriteUint16(0x8400);
    w.WriteUint16(0);
    w.WriteUint16(count);
    w.WriteUint16(0);
    w.WriteUint16(0);
    assert [] + U16(q.id) + U16(0x8400) + U16(0) + U16(count) + U16(0) + U16(0) == HeaderBytes(q.id, count);
  }

  method PutNabtoOwner(w: Writer, ghost sofar: seq<byte>) returns (nabto: u16, udp: u16, local: u16)
    requires Tracks(w, sofar) && |sofar| == NABTO_AT
    modifies w, w.buffer
    ensures Tracks(w, sofar + NameBytes(Name([NABTO, UDP, LOCAL], None)))
    ensures GoodLabel(w, nabto, NABTO_AT) && GoodLabel(w, udp, UDP_AT) && GoodLabel(w, local, LOCAL_AT)
  {
    hide Tracks, GoodLabel, NameBytes, LabelsBytes;
    nabto := CompressionLabel(w, sofar);
    PutLabel(w, NABTO, sofar);
    ghost var a := sofar + LabelBytes(NABTO);
    udp := CompressionLabel(w, a);
    PutLabel(w, UDP, a);
    ghost var b := a + LabelBytes(UDP);
    local := CompressionLabel(w, b);
    PutLabel(w, LOCAL, b);
    ghost var c := b + LabelBytes(LOCAL);
    PutEnd(w, c);
    ThreeLabels(NABTO, UDP, LOCAL, None);
    assert c + EndBytes(None) == sofar + NameBytes(Name([NABTO, UDP, LOCAL], None));
  }

  method PutNabtoRecord(w: Writer, s: Service, q: Query, ghost sofar: seq<byte>)
    returns (nabto: u16, udp: u16, local: u16, service: u16)
    requires Tracks(w, sofar) && |sofar| == NABTO_AT
    modifies w, w.buffer
    ensures Tracks(w, sofar + RecordBytes(NabtoRecord(s, q)))
    ensures GoodLabel(w, nabto, NABTO_AT) && GoodLabel(w, udp, UDP_AT) && GoodLabel(w, local, LOCAL_AT)
    ensures GoodLabel(w, service, SERVICE_AT)
  {
    hide Tracks, GoodLabel, NameBytes, RecordBytes, LabelBytes, PointerBytes, U16, U32;
    ghost var r := NabtoRecord(s, q);
    nabto, udp, local := PutNabtoOwner(w, sofar);
    NabtoLengths(s, q);
    PutFields(w, TYPE_PTR, 1, if q.goodbye then 0 else 120, |s.instance| + 3, sofar + NameBytes(r.owner));
    ghost var d := sofar + NameBytes(r.owner) + (U16(r.kind) + U16(r.class_) + U32(r.ttl) + U16(|r.data|));
    service := CompressionLabel(w, d);
    PutLabel(w, s.instance, d);
    FixedPointer(w);
    PutPointer(w, 0xC00C, NABTO_AT, d + LabelBytes(s.instance));
    OneLabel(s.instance, Some(NABTO_AT));
    assert d + LabelBytes(s.instance) + PointerBytes(NABTO_AT) == d + r.data;
    RecordInParts(sofar, r);
  }

  lemma NabtoLengths(s: Service, q: Query)
    ensures |NabtoRecord(s, q).data| == |s.instance| + 3
    ensures |NameBytes(NabtoRecord(s, q).owner)| == 19
  {
    hide NameBytes;
    OneLabel(s.instance, Some(NABTO_AT));
    ThreeLabels(NABTO, UDP, LOCAL, None);
  }

  lemma FixedPointer(w: Writer)
    ensures GoodLabel(w, 0xC00C, NABTO_AT)
  {
  }

  method PutEnd(w: Writer, ghost sofar: seq<byte>)
    requires Tracks(w, sofar)
    modifies w, w.buffer
    ensures Tracks(w, sofar + EndBytes(None))
  {
    w.WriteUint8(0);
  }

  /** The fields of a record whose data is one pointer, and the pointer. */
  method PutPointerData(w: Writer, q: Query, pointer: u16, ghost at: nat, ghost r: Record, ghost sofar: seq<byte>)
    requires Tracks(w, sofar + NameBytes(r.owner)) && GoodLabel(w, pointer, at) && at <= |sofar|
    requires r == Record(r.owner, TYPE_PTR, 1, Ttl(q), PointerBytes(at))
    modifies w, w.buffer
    ensures Tracks(w, sofar + RecordBytes(r))
  {
    hide Tracks, GoodLabel, NameBytes, RecordBytes, PointerBytes, U16, U32;
    ghost var c := sofar + NameBytes(r.owner);
    PutFields(w, TYPE_PTR, 1, if q.goodbye then 0 else 120, 2, c);
    PutPointer(w, pointer, at, c + (U16(r.kind) + U16(r.class_) + U32(r.ttl) + U16(2)));
    RecordInParts(sofar, r);
  }

  /** The first subtype is followed by the label that later ones point to; a label
      of zero says there is none yet, or that the buffer is full. */
  method PutSubtype(w: Writer, s: Service, q: Query, i: nat, nabto: u16, service: u16, subBefore: u16,
                    ghost sofar: seq<byte>)
    returns (sub: u16)
    requires Tracks(w, sofar) && i < |s.subtypes| && |sofar| >= SERVICE_AT + |s.instance| + 3
    requires GoodLabel(w, nabto, NABTO_AT) && GoodLabel(w, service, SERVICE_AT)
    requires if i == 0 then subBefore == 0 && |sofar| == SERVICE_AT + |s.instance| + 3
             else GoodLabel(w, subBefore, SubAt(s)) && SubAt(s) <= |sofar|
    modifies w, w.buffer
    ensures Tracks(w, sofar + RecordBytes(SubRecord(s, q, i)))
    ensures GoodLabel(w, sub, SubAt(s))
  {
    hide NameBytes, RecordBytes, LabelsBytes, PointerBytes;
    sub := subBefore;
    ghost var before := sofar + LabelBytes(s.subtypes[i]);
    ghost var owner := SubRecord(s, q, i).owner;
    PutLabel(w, s.subtypes[i], sofar);
    if sub == 0 {
      sub := CompressionLabel(w, before);
      PutLabel(w, SUB, before);
      PutPointer(w, nabto, NABTO_AT, before + LabelBytes(SUB));
      TwoLabels(s.subtypes[0], SUB, Some(NABTO_AT));
      if i > 0 {
        w.Want(sofar + NameBytes(owner));
      }
    } else {
      PutPointer(w, sub, SubAt(s), before);
      OneLabel(s.subtypes[i], Some(SubAt(s)));
    }
    assert Tracks(w, sofar + NameBytes(owner));
    PutPointerData(w, q, service, SERVICE_AT, SubRecord(s, q, i), sofar);
  }

  method PutDiscovery(w: Writer, q: Query, udp: u16, ghost sofar: seq<byte>)
    requires Tracks(w, sofar) && GoodLabel(w, udp, UDP_AT) && |sofar| >= UDP_AT
    modifies w, w.buffer
    ensures Tracks(w, sofar + RecordBytes(DiscoveryRecord(q)))
  {
    hide Tracks, GoodLabel, NameBytes, RecordBytes, PointerBytes, LabelBytes;
    ghost var a := sofar + LabelBytes(SERVICES);
    ghost var b := a + LabelBytes(DNS_SD);
    PutLabel(w, SERVICES, sofar);
    PutLabel(w, DNS_SD, a);
    PutPointer(w, udp, UDP_AT, b);
    TwoLabels(SERVICES, DNS_SD, Some(UDP_AT));
    assert b + PointerBytes(UDP_AT) == sofar + NameBytes(Name([SERVICES, DNS_SD], Some(UDP_AT)));
    FixedPointer(w);
    PutPointerData(w, q, 0xC00C, NABTO_AT, DiscoveryRecord(q), sofar);
  }

  method PutSrv(w: Writer, s: Service, q: Query, service: u16, local: u16, ghost sofar: seq<byte>)
    returns (domain: u16)
    requires Tracks(w, sofar) && GoodLabel(w, service, SERVICE_AT) && GoodLabel(w, local, LOCAL_AT)
    requires |sofar| >= SERVICE_AT
    modifies w, w.buffer
    ensures Tracks(w, sofar + RecordBytes(SrvRecord(s, q)))
    ensures GoodLabel(w, domain, |sofar| + 18)
  {
    hide Tracks, GoodLabel, NameBytes, RecordBytes, PointerBytes, LabelBytes, U16, U32;
    ghost var r := SrvRecord(s, q);
    SrvLength(s, q);
    PutPointer(w, service, SERVICE_AT, sofar);
    PointerOwner(SERVICE_AT);
    PutFields(w, TYPE_SRV, if q.unicast then 1 else 0x8001, if q.goodbye then 0 else 120, 6 + 1 + |s.instance| + 2,
              sofar + PointerBytes(SERVICE_AT));
    ghost var a := sofar + NameBytes(r.owner) + (U16(r.kind) + U16(r.class_) + U32(r.ttl) + U16(|r.data|));
    PutUint16(w, 0, a);
    PutUint16(w, 0, a + U16(0));
    PutUint16(w, q.port, a + U16(0) + U16(0));
    ghost var b := a + U16(0) + U16(0) + U16(q.port);
    domain := CompressionLabel(w, b);
    PutLabel(w, s.instance, b);
    PutPointer(w, local, LOCAL_AT, b + LabelBytes(s.instance));
    OneLabel(s.instance, Some(LOCAL_AT));
    assert b + LabelBytes(s.instance) + PointerBytes(LOCAL_AT) == a + r.data;
    RecordInParts(sofar, r);
  }

  lemma SrvLength(s: Service, q: Query)
    ensures |SrvRecord(s, q).data| == 6 + 1 + |s.instance| + 2
    ensures |NameBytes(SrvRecord(s, q).owner)| == 2
  {
    hide LabelsBytes;
    OneLabel(s.instance, Some(LOCAL_AT));
    NoLabels(SrvRecord(s, q).owner);
  }

  predicate ItemsFit(txt: seq<TxtItem>) {
    forall i :: 0 <= i < |txt| ==> |txt[i].key| + 1 + |txt[i].value| <= 255
  }

  method TxtLength(txt: seq<TxtItem>) returns (length: nat)
    ensures length == |TxtBytes(txt)|
  {
    length := 0;
    for i := 0 to |txt|
      invariant length == |TxtBytes(txt[..i])|
    {
      assert txt[..i + 1][..i] == txt[..i];
      length := length + 1 + |txt[i].key| + 1 + |txt[i].value|;
    }
    assert txt[..|txt|] == txt;
  }

  method PutItem(w: Writer, item: TxtItem, ghost sofar: seq<byte>)
    requires Tracks(w, sofar) && |item.key| + 1 + |item.value| <= 255
    modifies w, w.buffer
    ensures Tracks(w, sofar + ([|item.key| + 1 + |item.value|] + item.key + [61] + item.value))
  {
    hide Tracks;
    var l := |item.key| + 1 + |item.value|;
    PutByte(w, l, sofar);
    PutBytes(w, item.key, sofar + [l]);
    PutByte(w, 61, sofar + [l] + item.key);
    PutBytes(w, item.value, sofar + [l] + item.key + [61]);
    assert sofar + [l] + item.key + [61] + item.value == sofar + ([l] + item.key + [61] + item.value);
  }

  method PutByte(w: Writer, val: byte, ghost sofar: seq<byte>)
    requires Tracks(w, sofar)
    modifies w, w.buffer
    ensures Tracks(w, sofar + [val])
  {
    w.WriteUint8(val);
  }

  /** Writes the items, up to one that is too long. */
  method PutItems(w: Writer, txt: seq<TxtItem>, ghost sofar: seq<byte>) returns (ok: bool)
    requires Tracks(w, sofar)
    modifies w, w.buffer
    ensures ok <==> ItemsFit(txt)
    ensures ok ==> Tracks(w, sofar + TxtBytes(txt))
  {
    hide Tracks;
    assert sofar + [] == sofar;
    for i := 0 to |txt|
      invariant ItemsFit(txt[..i])
      invariant Tracks(w, sofar + TxtBytes(txt[..i]))
    {
      var item := txt[i];
      assert txt[..i + 1][..i] == txt[..i] && txt[..i + 1][i] == item;
      if |item.key| + 1 + |item.value| > 255 {
        return false;
      }
      ghost var written := TxtBytes(txt[..i]);
      PutItem(w, item, sofar + written);
      ghost var next := [|item.key| + 1 + |item.value|] + item.key + [61] + item.value;
      assert TxtBytes(txt[..i + 1]) == written + next;
      assert sofar + written + next == sofar + (written + next);
    }
    assert txt[..|txt|] == txt;
    ok := true;
  }

  /** Writes the TXT record, unless it or one of its items is too long. */
  method PutTxt(w: Writer, s: Service, q: Query, service: u16, ghost sofar: seq<byte>) returns (ok: bool)
    requires Tracks(w, sofar) && GoodLabel(w, service, SERVICE_AT) && |sofar| >= SERVICE_AT
    modifies w, w.buffer
    ensures ok <==> |TxtBytes(s.txt)| < 0x1_0000 && ItemsFit(s.txt)
    ensures ok ==> Tracks(w, sofar + RecordBytes(TxtRecord(s, q)))
  {
    hide Tracks, GoodLabel, NameBytes, RecordBytes, TxtBytes, ItemsFit, U16, U32;
    var length := TxtLength(s.txt);
    if length > 0xFFFF {
      return false;
    }
    ghost var r := TxtRecord(s, q);
    PutPointer(w, service, SERVICE_AT, sofar);
    PointerOwner(SERVICE_AT);
    PutFields(w, TYPE_TXT, if q.unicast then 1 else 0x8001, if q.goodbye then 0 else 120, length,
              sofar + PointerBytes(SERVICE_AT));
    ok := PutItems(w, s.txt,
                   sofar + NameBytes(r.owner) + (U16(r.kind) + U16(r.class_) + U32(r.ttl) + U16(|r.data|)));
    RecordInParts(sofar, r);
  }

  method PutAddress(w: Writer, s: Service, q: Query, ip: Ip, domain: u16, ghost sofar: seq<byte>)
    requires Tracks(w, sofar) && GoodLabel(w, domain, DomainAt(s, q)) && DomainAt(s, q) <= |sofar|
    modifies w, w.buffer
    ensures Tracks(w, sofar + RecordBytes(IpRecord(s, q, ip)))
  {
    hide Tracks, GoodLabel, NameBytes, RecordBytes, U16, U32, DomainAt;
    ghost var r := IpRecord(s, q, ip);
    ghost var at := DomainAt(s, q);
    ghost var a := sofar + NameBytes(r.owner) + (U16(r.kind) + U16(r.class_) + U32(r.ttl) + U16(|r.data|));
    var class_: u16 := if q.unicast then 1 else 0x8001;
    var ttl: u32 := if q.goodbye then 0 else 120;
    PutPointer(w, domain, at, sofar);
    PointerOwner(at);
    match ip {
      case V4(v4) =>
        PutFields(w, TYPE_A, class_, ttl, 4, sofar + PointerBytes(at));
        PutBytes(w, v4, a);
      case V6(v6) =>
        PutFields(w, TYPE_AAAA, class_, ttl, 16, sofar + PointerBytes(at));
        PutBytes(w, v6, a);
    }
    RecordInParts(sofar, r);
  }

  lemma PointerOwner(at: nat)
    ensures NameBytes(Name([], Some(at))) == PointerBytes(at)
  {
  }

  // ------------------------------------------------------------------- the packet

  /** All subtypes, behind the records so far. */
  method PutSubtypes(w: Writer, s: Service, q: Query, nabto: u16, service: u16, ghost header: seq<byte>)
    requires Tracks(w, header + Concat([NabtoRecord(s, q)])) && |header| == HEADER
    requires GoodLabel(w, nabto, NABTO_AT) && GoodLabel(w, service, SERVICE_AT)
    modifies w, w.buffer
    ensures Tracks(w, header + Concat([NabtoRecord(s, q)] + SubRecords(s, q, |s.subtypes|)))
  {
    hide Tracks, GoodLabel, RecordBytes, Concat, NameBytes;
    ghost var first := [NabtoRecord(s, q)];
    FirstSize(s, q);
    var sub: u16 := 0;
    assert first + [] == first;
    for i := 0 to |s.subtypes|
      invariant Tracks(w, header + Concat(first + SubRecords(s, q, i)))
      invariant i == 0 ==> sub == 0
      invariant i > 0 ==> GoodLabel(w, sub, SubAt(s))
    {
      ghost var done := first + SubRecords(s, q, i);
      ConcatPush(header, done, SubRecord(s, q, i));
      assert done + [SubRecord(s, q, i)] == first + SubRecords(s, q, i + 1);
      SubtypesSize(s, q, i);
      sub := PutSubtype(w, s, q, i, nabto, service, sub, header + Concat(done));
    }
  }

  lemma FirstSize(s: Service, q: Query)
    ensures |Concat([NabtoRecord(s, q)])| == SERVICE_AT + |s.instance| + 3 - HEADER
  {
    hide NameBytes, RecordBytes;
    NabtoLengths(s, q);
    RecordInParts([], NabtoRecord(s, q));
    ConcatPush([], [], NabtoRecord(s, q));
    assert [] + [NabtoRecord(s, q)] == [NabtoRecord(s, q)];
    assert [] + Concat([NabtoRecord(s, q)]) == Concat([NabtoRecord(s, q)]);
  }

  lemma {:induction false} SubtypesSize(s: Service, q: Query, i: nat)
    requires i <= |s.subtypes|
    ensures var size := HEADER + |Concat([NabtoRecord(s, q)] + SubRecords(s, q, i))|;
            && size >= SERVICE_AT + |s.instance| + 3
            && (i == 0 ==> size == SERVICE_AT + |s.instance| + 3)
            && (i > 0 ==> SubAt(s) <= size)
  {
    hide RecordBytes, Concat, NameBytes;
    var first := [NabtoRecord(s, q)];
    if i == 0 {
      FirstSize(s, q);
      assert first + [] == first;
    } else {
      SubtypesSize(s, q, i - 1);
      var done := first + SubRecords(s, q, i - 1);
      ConcatPush([], done, SubRecord(s, q, i - 1));
      assert done + [SubRecord(s, q, i - 1)] == first + SubRecords(s, q, i);
      FirstSubtypeSize(s, q);
    }
  }

  lemma FirstSubtypeSize(s: Service, q: Query)
    requires s.subtypes != []
    ensures |RecordBytes(SubRecord(s, q, 0))| >= 1 + |s.subtypes[0]|
  {
    hide NameBytes;
    TwoLabels(s.subtypes[0], SUB, Some(NABTO_AT));
  }

  method PutAddresses(w: Writer, s: Service, q: Query, domain: u16, ghost header: seq<byte>, ghost front: seq<Record>)
    requires Tracks(w, header + Concat(front)) && GoodLabel(w, domain, DomainAt(s, q))
    requires DomainAt(s, q) <= |header| + |Concat(front)|
    modifies w, w.buffer
    ensures Tracks(w, header + Concat(front + IpRecords(s, q, |q.ips|)))
  {
    hide Tracks, GoodLabel, RecordBytes, Concat, DomainAt;
    assert front + [] == front;
    for i := 0 to |q.ips|
      invariant Tracks(w, header + Concat(front + IpRecords(s, q, i)))
      invariant DomainAt(s, q) <= |header| + |Concat(front + IpRecords(s, q, i))|
    {
      ghost var done := front + IpRecords(s, q, i);
      ConcatPush(header, done, IpRecord(s, q, q.ips[i]));
      assert done + [IpRecord(s, q, q.ips[i])] == front + IpRecords(s, q, i + 1);
      PutAddress(w, s, q, q.ips[i], domain, header + Concat(done));
    }
  }

  /** Builds the response in a buffer. It fails exactly if there are too many
      records, too much text, or too little room; otherwise the buffer starts with
      the response. */
  method BuildPacket(s: Service, q: Query, buffer: array<byte>) returns (written: Option<nat>)
    modifies buffer
    ensures written.Some? <==>
              && |Records(s, q)| <= 0xFFFF && |TxtBytes(s.txt)| <= 0xFFFF && ItemsFit(s.txt)
              && |Response(s, q)| <= buffer.Length
    ensures written.Some? ==> written.value == |Response(s, q)| && buffer[..written.value] == Response(s, q)
  {
    hide Tracks, GoodLabel, RecordBytes, Concat, DomainAt, TxtBytes, ItemsFit, SrvRecord, TxtRecord, DiscoveryRecord;
    hide NabtoRecord, SubRecords, IpRecords, HeaderBytes;
    var records := 4 + |q.ips| + |s.subtypes|;
    if records > 0xFFFF {
      return None;
    }
    var w := new Writer(buffer);
    StartTracks(w);
    PutHeader(w, q, records);
    ghost var header := HeaderBytes(q.id, records);
    var nabto, udp, local, service := PutNabtoRecord(w, s, q, header);
    ConcatPush(header, [], NabtoRecord(s, q));
    NothingYet(header);
    assert [] + [NabtoRecord(s, q)] == [NabtoRecord(s, q)];
    PutSubtypes(w, s, q, nabto, service, header);
    ghost var done := [NabtoRecord(s, q)] + SubRecords(s, q, |s.subtypes|);
    SubtypesSize(s, q, |s.subtypes|);
    PutDiscovery(w, q, udp, header + Concat(done));
    ConcatPush(header, done, DiscoveryRecord(q));
    assert done + [DiscoveryRecord(q)] == Front(s, q);
    ConcatGrows(done, DiscoveryRecord(q));
    var domain := PutSrv(w, s, q, service, local, header + Concat(Front(s, q)));
    ConcatPush(header, Front(s, q), SrvRecord(s, q));
    SrvGrows(s, q);
    done := Front(s, q) + [SrvRecord(s, q)];
    var ok := PutTxt(w, s, q, service, header + Concat(done));
    if !ok {
      return None;
    }
    ConcatPush(header, done, TxtRecord(s, q));
    ConcatGrows(done, TxtRecord(s, q));
    done := done + [TxtRecord(s, q)];
    PutAddresses(w, s, q, domain, header, done);
    assert done + IpRecords(s, q, |q.ips|) == Records(s, q);
    Written(w, Response(s, q));
    written := w.ptr;
  }

  lemma StartTracks(w: Writer)
    requires w.Valid() && w.wanted == [] && w.ptr == Some(0)
    ensures Tracks(w, [])
  {
  }

  lemma NothingYet(header: seq<byte>)
    ensures header + Concat([]) == header
  {
  }

  lemma ConcatGrows(records: seq<Record>, r: Record)
    ensures |Concat(records)| <= |Concat(records + [r])|
  {
    hide Concat, RecordBytes;
    ConcatPush([], records, r);
  }

  lemma SrvGrows(s: Service, q: Query)
    ensures HEADER + |Concat(Front(s, q))| + 18 == DomainAt(s, q) <= HEADER + |Concat(Front(s, q) + [SrvRecord(s, q)])|
    ensures |Concat(Front(s, q))| <= |Concat(Front(s, q) + [SrvRecord(s, q)])|
  {
    hide Concat, NameBytes, Front;
    ConcatPush([], Front(s, q), SrvRecord(s, q));
    SrvLength(s, q);
  }

  lemma Written(w: Writer, bytes: seq<byte>)
    requires Tracks(w, bytes)
    ensures w.ptr.Some? <==> |bytes| <= w.buffer.Length
    ensures w.ptr.Some? ==> w.ptr.value == |bytes| && w.buffer[..w.ptr.value] == bytes
  {
  }
}
