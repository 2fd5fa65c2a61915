/** The response an mDNS responder builds for a Nabto service: its records, the
    compression pointers between their names, and what a reader makes of them. */
module MdnsResponse {
  import opened Basics
  import opened Mdns

  const TYPE_A: u16 := 1
  const TYPE_PTR: u16 := 12
  const TYPE_TXT: u16 := 16
  const TYPE_AAAA: u16 := 28
  const TYPE_SRV: u16 := 33

  const NABTO: Label := [95, 110, 97, 98, 116, 111]                       // _nabto
  const UDP: Label := [95, 117, 100, 112]                                 // _udp
  const LOCAL: Label := [108, 111, 99, 97, 108]                           // local
  const SUB: Label := [95, 115, 117, 98]                                  // _sub
  const SERVICES: Label := [95, 115, 101, 114, 118, 105, 99, 101, 115]    // _services
  const DNS_SD: Label := [95, 100, 110, 115, 45, 115, 100]                // _dns-sd

  // Positions in every response.
  const NABTO_AT: nat := 12
  const UDP_AT: nat := 19
  const LOCAL_AT: nat := 24
  const SERVICE_AT: nat := 41

  type Ip4 = b: seq<byte> | |b| == 4 witness [0, 0, 0, 0]
  type Ip6 = b: seq<byte> | |b| == 16 witness [0, 0, 0, 0, 0, 0, 0, 0, 0, 0, 0, 0, 0, 0, 0, 0]

  datatype Ip = V4(v4: Ip4) | V6(v6: Ip6)

  datatype TxtItem = TxtItem(key: seq<byte>, value: seq<byte>)

  datatype Service = Service(instance: Label, subtypes: seq<Label>, txt: seq<TxtItem>)

  datatype Query = Query(id: u16, unicast: bool, goodbye: bool, ips: seq<Ip>, port: u16)

  // ------------------------------------------------------------------ records

  datatype Record = Record(owner: Name, kind: u16, class_: u16, ttl: u32, data: seq<byte>)

  function RecordBytes(r: Record): seq<byte> {
    NameBytes(r.owner) + U16(r.kind) + U16(r.class_) + U32(r.ttl) + U16(|r.data| % 0x1_0000) + r.data
  }

  function Concat(records: seq<Record>): seq<byte> {
    if records == [] then [] else Concat(records[..|records| - 1]) + RecordBytes(records[|records| - 1])
  }

  function HeaderBytes(id: u16, count: nat): (b: seq<byte>)
    ensures |b| == HEADER
  {
    U16(id) + U16(0x8400) + U16(0) + U16(count % 0x1_0000) + U16(0) + U16(0)
  }

  function Packet(id: u16, records: seq<Record>): seq<byte> {
    HeaderBytes(id, |records|) + Concat(records)
  }

  /** Where the i-th record starts. */
  function Start(records: seq<Record>, i: nat): nat
    requires i <= |records|
  {
    HEADER + |Concat(records[..i])|
  }

  function Ttl(q: Query): u32 { if q.goodbye then 0 else 120 }

  /** The class IN, with the cache flush bit unless the response is unicast. */
  function FlushClass(q: Query): u16 { if q.unicast then 1 else 0x8001 }

  function ServiceName(s: Service): Name { Name([s.instance], Some(NABTO_AT)) }

  function NabtoRecord(s: Service, q: Query): Record {
    Record(Name([NABTO, UDP, LOCAL], None), TYPE_PTR, 1, Ttl(q), NameBytes(ServiceName(s)))
  }

  /** Behind the first record and the first subtype's own label. */
  function SubAt(s: Service): nat
    requires s.subtypes != []
  {
    SERVICE_AT + |s.instance| + 3 + 1 + |s.subtypes[0]|
  }

  /** The first subtype spells out what the others point to. */
  function SubRecord(s: Service, q: Query, i: nat): Record
    requires i < |s.subtypes|
  {
    Record(if i == 0 then Name([s.subtypes[0], SUB], Some(NABTO_AT)) else Name([s.subtypes[i]], Some(SubAt(s))),
           TYPE_PTR, 1, Ttl(q), PointerBytes(SERVICE_AT))
  }

  function SubRecords(s: Service, q: Query, n: nat): (records: seq<Record>)
    requires n <= |s.subtypes|
    ensures |records| == n
    ensures forall i :: 0 <= i < n ==> records[i] == SubRecord(s, q, i)
  {
    if n == 0 then [] else SubRecords(s, q, n - 1) + [SubRecord(s, q, n - 1)]
  }

  function DiscoveryRecord(q: Query): Record {
    Record(Name([SERVICES, DNS_SD], Some(UDP_AT)), TYPE_PTR, 1, Ttl(q), PointerBytes(NABTO_AT))
  }

  function DomainName(s: Service): Name { Name([s.instance], Some(LOCAL_AT)) }

  function SrvRecord(s: Service, q: Query): Record {
    Record(Name([], Some(SERVICE_AT)), TYPE_SRV, FlushClass(q), Ttl(q),
           U16(0) + U16(0) + U16(q.port) + NameBytes(DomainName(s)))
  }

  function TxtBytes(txt: seq<TxtItem>): seq<byte> {
    if txt == [] then []
    else
      var item := txt[|txt| - 1];
      TxtBytes(txt[..|txt| - 1]) + [(|item.key| + 1 + |item.value|) % 256] + item.key + [61] + item.value
  }

  function TxtRecord(s: Service, q: Query): Record {
    Record(Name([], Some(SERVICE_AT)), TYPE_TXT, FlushClass(q), Ttl(q), TxtBytes(s.txt))
  }

  /** The records in front of the addresses. */
  function Front(s: Service, q: Query): seq<Record> {
    [NabtoRecord(s, q)] + SubRecords(s, q, |s.subtypes|) + [DiscoveryRecord(q)]
  }

  /** Behind the fields in front of the target of the SRV record. */
  function DomainAt(s: Service, q: Query): nat {
    HEADER + |Concat(Front(s, q))| + 2 + 10 + 6
  }

  function IpRecord(s: Service, q: Query, ip: Ip): Record {
    Record(Name([], Some(DomainAt(s, q))), if ip.V4? then TYPE_A else TYPE_AAAA, FlushClass(q), Ttl(q),
           if ip.V4? then ip.v4 else ip.v6)
  }

  function IpRecords(s: Service, q: Query, n: nat): (records: seq<Record>)
    requires n <= |q.ips|
    ensures |records| == n
    ensures forall i :: 0 <= i < n ==> records[i] == IpRecord(s, q, q.ips[i])
  {
    if n == 0 then [] else IpRecords(s, q, n - 1) + [IpRecord(s, q, q.ips[n - 1])]
  }

  function Records(s: Service, q: Query): (records: seq<Record>)
    ensures |records| == |s.subtypes| + 4 + |q.ips|
  {
    Front(s, q) + [SrvRecord(s, q), TxtRecord(s, q)] + IpRecords(s, q, |q.ips|)
  }

  /** The response, if it is small enough for compression pointers to reach
      everywhere in it. */
  function Response(s: Service, q: Query): seq<byte> {
    Packet(q.id, Records(s, q))
  }

  predicate Reachable(s: Service, q: Query) {
    |Response(s, q)| < 0x4000
  }

  // ------------------------------------------------------------ bytes in place

  lemma {:induction false} ConcatSplit(records: seq<Record>, i: nat)
    requires i < |records|
    ensures |Concat(records[..i])| + |RecordBytes(records[i])| <= |Concat(records)|
    ensures Concat(records)[..|Concat(records[..i])|] == Concat(records[..i])
    ensures Concat(records)[|Concat(records[..i])|..][..|RecordBytes(records[i])|] == RecordBytes(records[i])
    ensures Concat(records[..i + 1]) == Concat(records[..i]) + RecordBytes(records[i])
    decreases |records|
  {
    hide RecordBytes;
    var n := |records| - 1;
    assert records[..i + 1][..i] == records[..i];
    if i < n {
      ConcatSplit(records[..n], i);
      assert records[..n][..i] == records[..i] && records[..n][i] == records[i];
      Front2(Concat(records[..n]), RecordBytes(records[n]), |Concat(records[..i])|, |RecordBytes(records[i])|);
    } else {
      assert records[..i + 1] == records;
    }
  }

  lemma Front2(a: seq<byte>, b: seq<byte>, i: nat, n: nat)
    requires i + n <= |a|
    ensures (a + b)[..i] == a[..i] && (a + b)[i..][..n] == a[i..][..n]
  {
  }

  lemma RecordInPlace(id: u16, records: seq<Record>, i: nat)
    requires i < |records|
    ensures Holds(Packet(id, records), Start(records, i), RecordBytes(records[i]))
    ensures Start(records, i + 1) == Start(records, i) + |RecordBytes(records[i])| <= |Packet(id, records)|
  {
    hide RecordBytes, Concat;
    ConcatSplit(records, i);
    var b, c, at, r := Packet(id, records), Concat(records), |Concat(records[..i])|, RecordBytes(records[i]);
    assert b[HEADER + at..HEADER + at + |r|] == c[at..][..|r|];
  }

  /** The fields of a record in place. */
  lemma RecordParts(b: seq<byte>, at: nat, r: Record)
    requires Holds(b, at, RecordBytes(r)) && |r.data| < 0x1_0000
    ensures var p := at + |NameBytes(r.owner)|;
            && Holds(b, at, NameBytes(r.owner)) && p + 10 + |r.data| <= |b|
            && GetU16(b[p + 8..]) == |r.data| && Holds(b, p + 10, r.data)
            && |RecordBytes(r)| == |NameBytes(r.owner)| + 10 + |r.data|
  {
    hide NameBytes, U16, U32, GetU16;
    var owner, fixed, length := NameBytes(r.owner), U16(r.kind) + U16(r.class_) + U32(r.ttl), U16(|r.data|);
    assert RecordBytes(r) == [] + owner + (fixed + length + r.data);
    HoldsPart(b, at, [], owner, fixed + length + r.data);
    assert RecordBytes(r) == owner + fixed + length + r.data;
    assert RecordBytes(r) == (owner + fixed) + length + r.data;
    HoldsPart(b, at, owner + fixed, length, r.data);
    assert RecordBytes(r) == (owner + fixed + length) + r.data + [];
    HoldsPart(b, at, owner + fixed + length, r.data, []);
    LengthField(b, at + |owner| + 8, |r.data|);
  }

  lemma LengthField(b: seq<byte>, p: nat, n: u16)
    requires Holds(b, p, U16(n))
    ensures p + 2 <= |b| && GetU16(b[p..]) == n
  {
    assert b[p..p + 2][0] == b[p] && b[p..p + 2][1] == b[p + 1];
  }

  // -------------------------------------------------------------------- the walk

  /** Records whose owners have no empty label are walked over one by one. */
  lemma {:induction false} WalkRecords(id: u16, records: seq<Record>, i: nat)
    requires i <= |records|
    requires forall k :: 0 <= k < |records| ==> NoEmpty(records[k].owner.labels) && NameFits(records[k].owner) && |records[k].data| < 0x1_0000
    ensures Walk(Packet(id, records), Start(records, i), |records| - i) == Some(|Packet(id, records)|)
    decreases |records| - i
  {
    hide Packet, RecordBytes, NameBytes, NoEmpty, Skip, Concat, Holds, GetU16;
    if i == |records| {
      EndOfPacket(id, records);
    } else {
      var b, at, r := Packet(id, records), Start(records, i), records[i];
      RecordInPlace(id, records, i);
      RecordParts(b, at, r);
      SkipIsExact(b, at, r.owner);
      WalkRecords(id, records, i + 1);
    }
  }

  lemma EndOfPacket(id: u16, records: seq<Record>)
    ensures Start(records, |records|) == |Packet(id, records)|
  {
    hide Concat;
    assert records[..|records|] == records;
  }

  lemma CountField(id: u16, records: seq<Record>)
    requires |records| < 0x1_0000
    ensures |Packet(id, records)| >= HEADER && GetU16(Packet(id, records)[6..]) == |records|
  {
    hide Concat, U16, GetU16;
    var b := Packet(id, records);
    var before, count, after := U16(id) + U16(0x8400) + U16(0), U16(|records|), U16(0) + U16(0) + Concat(records);
    assert b == before + count + after;
    assert Holds(b, 0, before + count + after);
    HoldsPart(b, 0, before, count, after);
    LengthField(b, 6, |records|);
  }
}
