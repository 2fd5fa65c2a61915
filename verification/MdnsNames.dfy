/** Every name in a response stands for what it is meant to: matching and reading
    agree with building, through every chain of compression pointers. */
module MdnsNames {
  import opened Basics
  import opened Mdns
  import opened MdnsResponse

  /** The name at a position is matched by these labels, and when none of them is
      empty, is read as exactly them. */
  ghost predicate Named(b: seq<byte>, at: nat, labels: seq<seq<byte>>, hops: nat) {
    && hops <= MAX_HOPS
    && Match(b, at, labels, hops)
    && (NoEmpty(labels) ==> ReadName(b, at, hops) == Some(labels))
  }

  lemma NoEmptyParts(a: seq<seq<byte>>, c: seq<seq<byte>>)
    ensures NoEmpty(a + c) ==> NoEmpty(a) && NoEmpty(c)
  {
    if NoEmpty(a + c) {
      forall i | 0 <= i < |a| ensures a[i] != [] {
        assert (a + c)[i] == a[i];
      }
      forall i | 0 <= i < |c| ensures c[i] != [] {
        assert (a + c)[|a| + i] == c[i];
      }
    }
  }

  lemma WrittenNamed(b: seq<byte>, at: nat, n: Name, rest: seq<seq<byte>>, hops: nat)
    requires NameFits(n) && Holds(b, at, NameBytes(n)) && hops <= MAX_HOPS
    requires n.pointer.None? ==> rest == []
    requires n.pointer.Some? ==> n.pointer.value < at && hops < MAX_HOPS && Named(b, n.pointer.value, rest, hops + 1)
    ensures Named(b, at, n.labels + rest, hops)
  {
    hide Match, ReadName, NoEmpty, NameBytes, Holds;
    WrittenMatches(b, at, n, rest, hops);
    NoEmptyParts(n.labels, rest);
    if NoEmpty(n.labels + rest) {
      WrittenReads(b, at, n, rest, hops);
    }
  }

  // ------------------------------------------------------- where the names are

  function NabtoLabels(): seq<seq<byte>> { [NABTO, UDP, LOCAL] }

  function ServiceLabels(s: Service): seq<seq<byte>> { [s.instance] + NabtoLabels() }

  function SubLabels(): seq<seq<byte>> { [SUB] + NabtoLabels() }

  function SubtypeLabels(s: Service, i: nat): seq<seq<byte>>
    requires i < |s.subtypes|
  {
    [s.subtypes[i]] + SubLabels()
  }

  function DiscoveryLabels(): seq<seq<byte>> { [SERVICES, DNS_SD] + [UDP, LOCAL] }

  function DomainLabels(s: Service): seq<seq<byte>> { [s.instance] + [LOCAL] }

  lemma RecordOrder(s: Service, q: Query)
    ensures var r := Records(s, q); var n := |s.subtypes|;
            && r[0] == NabtoRecord(s, q)
            && (forall i :: 0 <= i < n ==> r[1 + i] == SubRecord(s, q, i))
            && r[n + 1] == DiscoveryRecord(q) && r[n + 2] == SrvRecord(s, q) && r[n + 3] == TxtRecord(s, q)
            && (forall i :: 0 <= i < |q.ips| ==> r[n + 4 + i] == IpRecord(s, q, q.ips[i]))
            && r[..n + 2] == Front(s, q)
  {
    hide NabtoRecord, SubRecord, DiscoveryRecord, SrvRecord, TxtRecord, IpRecord;
  }

  lemma NabtoSize()
    ensures |NameBytes(Name([NABTO, UDP, LOCAL], None))| == 19
  {
    hide LabelsBytes;
    var n := Name([NABTO, UDP, LOCAL], None);
    assert n.labels[1..] == [UDP, LOCAL] && [UDP, LOCAL][1..] == [LOCAL] && [LOCAL][1..] == [];
    NameLength(n);
    NameLength(Name([UDP, LOCAL], None));
    NameLength(Name([LOCAL], None));
    NoLabels(Name([], None));
  }

  lemma ServiceSize(s: Service, pointer: nat)
    requires pointer < 0x4000
    ensures |NameBytes(Name([s.instance], Some(pointer)))| == |s.instance| + 3
  {
    hide LabelsBytes, PointerBytes;
    var n := Name([s.instance], Some(pointer));
    assert n.labels[1..] == [];
    NameLength(n);
    NoLabels(Name([], Some(pointer)));
  }

  lemma Positions(s: Service, q: Query)
    ensures var r := Records(s, q);
            && Start(r, 0) == NABTO_AT
            && Start(r, 1) == SERVICE_AT + |s.instance| + 3
            && Start(r, |s.subtypes| + 2) + 18 == DomainAt(s, q)
  {
    hide NameBytes, Records, Front;
    var r := Records(s, q);
    RecordOrder(s, q);
    assert r[..0] == [];
    RecordInPlace(q.id, r, 0);
    NabtoSize();
    ServiceSize(s, NABTO_AT);
    RecordSize(r[0]);
  }

  lemma RecordSize(r: Record)
    requires |r.data| < 0x1_0000
    ensures |RecordBytes(r)| == |NameBytes(r.owner)| + 10 + |r.data|
  {
    hide NameBytes;
  }

  lemma NabtoInPlace(s: Service, q: Query)
    ensures var b := Response(s, q);
            Holds(b, NABTO_AT, NameBytes(Name([NABTO, UDP, LOCAL], None))) && Holds(b, SERVICE_AT, NameBytes(ServiceName(s)))
  {
    hide NameBytes, Records, Holds, Packet, Start, RecordBytes;
    Positions(s, q);
    RecordOrder(s, q);
    RecordInPlace(q.id, Records(s, q), 0);
    NabtoSize();
    ServiceSize(s, NABTO_AT);
    RecordParts(Response(s, q), NABTO_AT, NabtoRecord(s, q));
  }

  /** _nabto._udp.local, and its tails, which other names point to. */
  lemma NabtoNamed(s: Service, q: Query, hops: nat)
    requires hops <= MAX_HOPS
    ensures var b := Response(s, q);
            && Named(b, NABTO_AT, NabtoLabels(), hops)
            && Named(b, UDP_AT, [UDP, LOCAL], hops)
            && Named(b, LOCAL_AT, [LOCAL], hops)
  {
    hide Named, NameBytes, Holds, Response;
    var b := Response(s, q);
    NabtoInPlace(s, q);
    var n := Name([NABTO, UDP, LOCAL], None);
    var udp, local := Name([UDP, LOCAL], None), Name([LOCAL], None);
    assert n.labels[1..] == udp.labels && udp.labels[1..] == local.labels;
    FirstLabel(b, NABTO_AT, n);
    FirstLabel(b, UDP_AT, udp);
    WrittenNamed(b, NABTO_AT, n, [], hops);
    WrittenNamed(b, UDP_AT, udp, [], hops);
    WrittenNamed(b, LOCAL_AT, local, [], hops);
    assert n.labels + [] == NabtoLabels() && udp.labels + [] == [UDP, LOCAL] && local.labels + [] == [LOCAL];
  }

  lemma ServiceNamed(s: Service, q: Query, hops: nat)
    requires hops < MAX_HOPS
    ensures Named(Response(s, q), SERVICE_AT, ServiceLabels(s), hops)
  {
    hide Named, NameBytes, Holds, Response;
    NabtoInPlace(s, q);
    NabtoNamed(s, q, hops + 1);
    WrittenNamed(Response(s, q), SERVICE_AT, ServiceName(s), NabtoLabels(), hops);
  }

  /** A record's owner and data in the response. */
  lemma InResponse(s: Service, q: Query, i: nat)
    requires i < |Records(s, q)| && |Records(s, q)[i].data| < 0x1_0000
    ensures var b, at, r := Response(s, q), Start(Records(s, q), i), Records(s, q)[i];
            && Holds(b, at, NameBytes(r.owner)) && Holds(b, at + |NameBytes(r.owner)| + 10, r.data)
            && HEADER <= at < |b| && at + |NameBytes(r.owner)| <= |b|
  {
    hide NameBytes, Records, Holds, Packet, RecordBytes, Concat;
    RecordInPlace(q.id, Records(s, q), i);
    RecordParts(Response(s, q), Start(Records(s, q), i), Records(s, q)[i]);
    NameNotEmpty(Records(s, q)[i].owner);
  }

  lemma NameNotEmpty(n: Name)
    ensures |NameBytes(n)| > 0
  {
    hide LabelsBytes;
  }

  lemma {:induction false} StartMonotone(records: seq<Record>, i: nat, j: nat)
    requires i <= j <= |records|
    ensures Start(records, i) <= Start(records, j)
    decreases j
  {
    hide RecordBytes;
    if i < j {
      StartMonotone(records, i, j - 1);
      RecordInPlace(0, records, j - 1);
    }
  }

  /** _sub._nabto._udp.local, spelled out in the first subtype's record. */
  lemma SubInPlace(s: Service, q: Query)
    requires s.subtypes != []
    ensures var b := Response(s, q);
            Holds(b, SubAt(s), NameBytes(Name([SUB], Some(NABTO_AT)))) && SubAt(s) < |b|
  {
    hide NameBytes, Records, Holds, Response;
    Positions(s, q);
    RecordOrder(s, q);
    InResponse(s, q, 1);
    var n := Name([s.subtypes[0], SUB], Some(NABTO_AT));
    FirstLabel(Response(s, q), Start(Records(s, q), 1), n);
    assert n.labels[1..] == [SUB];
    HoldsInside(Response(s, q), SubAt(s), Name([SUB], Some(NABTO_AT)));
  }

  lemma HoldsInside(b: seq<byte>, at: nat, n: Name)
    requires Holds(b, at, NameBytes(n))
    ensures at < |b|
  {
    hide NameBytes;
    NameNotEmpty(n);
  }

  lemma SubNamed(s: Service, q: Query, hops: nat)
    requires hops < MAX_HOPS && s.subtypes != []
    ensures Named(Response(s, q), SubAt(s), SubLabels(), hops)
  {
    hide Named, NameBytes, Holds, Response;
    SubInPlace(s, q);
    NabtoNamed(s, q, hops + 1);
    WrittenNamed(Response(s, q), SubAt(s), Name([SUB], Some(NABTO_AT)), NabtoLabels(), hops);
  }

  /** Each subtype's name. */
  lemma SubtypeNamed(s: Service, q: Query, i: nat)
    requires i < |s.subtypes| && Reachable(s, q)
    ensures Named(Response(s, q), Start(Records(s, q), 1 + i), SubtypeLabels(s, i), 0)
  {
    hide Named, NameBytes, Holds, Response, Records, Start;
    var b, at := Response(s, q), Start(Records(s, q), 1 + i);
    RecordOrder(s, q);
    InResponse(s, q, 1 + i);
    AfterNabto(s, q, 1 + i);
    if i == 0 {
      NabtoNamed(s, q, 1);
      WrittenNamed(b, at, Name([s.subtypes[0], SUB], Some(NABTO_AT)), NabtoLabels(), 0);
      assert [s.subtypes[0], SUB] + NabtoLabels() == SubtypeLabels(s, 0);
    } else {
      SubInPlace(s, q);
      SubNamed(s, q, 1);
      SubBefore(s, q, i);
      WrittenNamed(b, at, Name([s.subtypes[i]], Some(SubAt(s))), SubLabels(), 0);
    }
  }

  /** The first subtype's record is in front of the others. */
  lemma SubBefore(s: Service, q: Query, i: nat)
    requires 0 < i < |s.subtypes|
    ensures SubAt(s) < Start(Records(s, q), 1 + i)
  {
    hide NameBytes, Records, Concat, RecordBytes;
    Positions(s, q);
    RecordOrder(s, q);
    RecordInPlace(q.id, Records(s, q), 1);
    RecordSize(Records(s, q)[1]);
    StartMonotone(Records(s, q), 2, 1 + i);
    var n := Name([s.subtypes[0], SUB], Some(NABTO_AT));
    assert n.labels[1..] == [SUB];
    NameLength(n);
  }

  lemma DiscoveryNamed(s: Service, q: Query)
    ensures Named(Response(s, q), Start(Records(s, q), |s.subtypes| + 1), DiscoveryLabels(), 0)
  {
    hide Named, NameBytes, Holds, Response, Records, Start;
    RecordOrder(s, q);
    InResponse(s, q, |s.subtypes| + 1);
    AfterNabto(s, q, |s.subtypes| + 1);
    NabtoNamed(s, q, 1);
    WrittenNamed(Response(s, q), Start(Records(s, q), |s.subtypes| + 1), Name([SERVICES, DNS_SD], Some(UDP_AT)), [UDP, LOCAL], 0);
  }

  /** Behind the first record every position is behind the service's name. */
  lemma AfterNabto(s: Service, q: Query, i: nat)
    requires 0 < i <= |Records(s, q)|
    ensures Start(Records(s, q), i) > SERVICE_AT
  {
    hide Records, Start;
    Positions(s, q);
    StartMonotone(Records(s, q), 1, i);
  }

  /** The owner of the SRV and TXT records, through two pointers. */
  lemma PointedToNamed(s: Service, q: Query, i: nat)
    requires i == |s.subtypes| + 2 || (i == |s.subtypes| + 3 && |TxtBytes(s.txt)| < 0x1_0000)
    ensures Named(Response(s, q), Start(Records(s, q), i), ServiceLabels(s), 0)
  {
    hide Named, NameBytes, Holds, Response, Records, Start, TxtBytes;
    RecordOrder(s, q);
    SrvSize(s, q);
    InResponse(s, q, i);
    AfterNabto(s, q, i);
    ServiceNamed(s, q, 1);
    WrittenNamed(Response(s, q), Start(Records(s, q), i), Name([], Some(SERVICE_AT)), ServiceLabels(s), 0);
    assert [] + ServiceLabels(s) == ServiceLabels(s);
  }

  lemma SrvSize(s: Service, q: Query)
    ensures |SrvRecord(s, q).data| == 6 + |s.instance| + 3
  {
    hide NameBytes;
    ServiceSize(s, LOCAL_AT);
  }

  /** The target of the SRV record. */
  lemma DomainNamed(s: Service, q: Query, hops: nat)
    requires hops < MAX_HOPS
    ensures Named(Response(s, q), DomainAt(s, q), DomainLabels(s), hops) && DomainAt(s, q) < |Response(s, q)|
  {
    hide Named, NameBytes, Holds, Response, Records, Start, U16, Concat;
    var i, b := |s.subtypes| + 2, Response(s, q);
    RecordOrder(s, q);
    Positions(s, q);
    SrvSize(s, q);
    InResponse(s, q, i);
    NoLabels(Name([], Some(SERVICE_AT)));
    var fixed := U16(0) + U16(0) + U16(q.port);
    assert SrvRecord(s, q).data == fixed + NameBytes(DomainName(s)) + [];
    HoldsPart(b, Start(Records(s, q), i) + 12, fixed, NameBytes(DomainName(s)), []);
    HoldsInside(b, DomainAt(s, q), DomainName(s));
    NabtoNamed(s, q, hops + 1);
    AfterNabto(s, q, i);
    WrittenNamed(b, DomainAt(s, q), DomainName(s), [LOCAL], hops);
  }

  lemma AddressNamed(s: Service, q: Query, i: nat)
    requires i < |q.ips| && Reachable(s, q)
    ensures Named(Response(s, q), Start(Records(s, q), |s.subtypes| + 4 + i), DomainLabels(s), 0)
  {
    hide Named, NameBytes, Holds, Response, Records, Start, DomainAt;
    var k := |s.subtypes| + 4 + i;
    RecordOrder(s, q);
    assert Records(s, q)[k] == IpRecord(s, q, q.ips[i]);
    InResponse(s, q, k);
    DomainNamed(s, q, 1);
    DomainBefore(s, q, k);
    WrittenNamed(Response(s, q), Start(Records(s, q), k), Name([], Some(DomainAt(s, q))), DomainLabels(s), 0);
    assert [] + DomainLabels(s) == DomainLabels(s);
  }

  lemma DomainBefore(s: Service, q: Query, k: nat)
    requires |s.subtypes| + 4 <= k <= |Records(s, q)|
    ensures DomainAt(s, q) < Start(Records(s, q), k)
  {
    hide NameBytes, Records, Concat, RecordBytes, DomainAt;
    var i := |s.subtypes| + 2;
    Positions(s, q);
    RecordOrder(s, q);
    RecordInPlace(q.id, Records(s, q), i);
    SrvSize(s, q);
    RecordSize(SrvRecord(s, q));
    StartMonotone(Records(s, q), i + 1, k);
  }

  /** A response that pointers reach everywhere has no record or text too long for
      its 16 bit fields. */
  lemma SmallResponse(s: Service, q: Query)
    requires Reachable(s, q)
    ensures |Records(s, q)| < 0x1_0000 && |TxtBytes(s.txt)| < 0x1_0000
  {
    hide Records, TxtBytes, NameBytes, Concat, RecordBytes;
    var r, k := Records(s, q), |s.subtypes| + 3;
    RecordOrder(s, q);
    RecordInPlace(q.id, r, k);
    RecordHolds(r[k]);
    ConcatLong(r);
  }

  lemma RecordHolds(r: Record)
    ensures |RecordBytes(r)| >= 10 && |RecordBytes(r)| >= |r.data|
  {
    hide NameBytes;
  }

  lemma {:induction false} ConcatLong(records: seq<Record>)
    ensures |Concat(records)| >= 10 * |records|
  {
    hide RecordBytes;
    if records != [] {
      ConcatLong(records[..|records| - 1]);
      RecordHolds(records[|records| - 1]);
    }
  }

  // --------------------------------------------------------------------- theorems

  /** The labels the i-th record's owner stands for. */
  function OwnerLabels(s: Service, q: Query, i: nat): seq<seq<byte>>
    requires i < |s.subtypes| + 4 + |q.ips|
  {
    var n := |s.subtypes|;
    if i == 0 then NabtoLabels()
    else if i <= n then SubtypeLabels(s, i - 1)
    else if i == n + 1 then DiscoveryLabels()
    else if i <= n + 3 then ServiceLabels(s)
    else DomainLabels(s)
  }

  /** The owner of every record is accepted by the matcher for the labels it
      stands for, and read as exactly those labels when none of them is empty. */
  lemma OwnersAreMatched(s: Service, q: Query, i: nat)
    requires i < |s.subtypes| + 4 + |q.ips| && Reachable(s, q)
    ensures Named(Response(s, q), Start(Records(s, q), i), OwnerLabels(s, q, i), 0)
  {
    hide Named, Response, Records, Start, TxtBytes;
    SmallResponse(s, q);
    var n := |s.subtypes|;
    if i == 0 {
      Positions(s, q);
      NabtoNamed(s, q, 0);
    } else if i <= n {
      SubtypeNamed(s, q, i - 1);
    } else if i == n + 1 {
      DiscoveryNamed(s, q);
    } else if i <= n + 3 {
      PointedToNamed(s, q, i);
    } else {
      AddressNamed(s, q, i - n - 4);
    }
  }

  /** The names in the data of the records: what the pointer records point to and
      the target of the SRV record. */
  lemma DataNamesAreMatched(s: Service, q: Query, i: nat)
    requires Reachable(s, q)
    ensures var b := Response(s, q); var r := Records(s, q); var n := |s.subtypes|;
            && Named(b, SERVICE_AT, ServiceLabels(s), 0)
            && (i < n ==> Named(b, Start(r, 1 + i) + |NameBytes(r[1 + i].owner)| + 10, ServiceLabels(s), 0))
            && Named(b, Start(r, n + 1) + |NameBytes(r[n + 1].owner)| + 10, NabtoLabels(), 0)
            && Named(b, DomainAt(s, q), DomainLabels(s), 0)
  {
    hide Named, NameBytes, Holds, Response, Records, Start, DomainAt;
    var n, b, r := |s.subtypes|, Response(s, q), Records(s, q);
    RecordOrder(s, q);
    ServiceNamed(s, q, 0);
    ServiceNamed(s, q, 1);
    NabtoNamed(s, q, 1);
    DomainNamed(s, q, 0);
    if i < n {
      InResponse(s, q, 1 + i);
      AfterNabto(s, q, 1 + i);
      PointerNamed(b, Start(r, 1 + i) + |NameBytes(r[1 + i].owner)| + 10, SERVICE_AT, ServiceLabels(s));
    }
    InResponse(s, q, n + 1);
    AfterNabto(s, q, n + 1);
    PointerNamed(b, Start(r, n + 1) + |NameBytes(r[n + 1].owner)| + 10, NABTO_AT, NabtoLabels());
  }

  lemma PointerNamed(b: seq<byte>, at: nat, p: nat, labels: seq<seq<byte>>)
    requires p < 0x4000 && p < at && Holds(b, at, PointerBytes(p)) && Named(b, p, labels, 1)
    ensures Named(b, at, labels, 0)
  {
    hide Named, PointerBytes;
    NoLabels(Name([], Some(p)));
    WrittenNamed(b, at, Name([], Some(p)), labels, 0);
    assert [] + labels == labels;
  }

  /** With no empty subtype, the packet is walked over in exactly the announced
      number of records, and the walk ends exactly at its end. */
  lemma WalkIsExact(s: Service, q: Query)
    requires Reachable(s, q) && NoEmpty(s.subtypes)
    ensures var b := Response(s, q);
            && |b| >= HEADER && GetU16(b[6..]) == |Records(s, q)|
            && Walk(b, HEADER, GetU16(b[6..])) == Some(|b|)
  {
    hide Walk, Records, NameBytes, Packet, TxtBytes, GetU16;
    SmallResponse(s, q);
    var r := Records(s, q);
    CountField(q.id, r);
    forall k | 0 <= k < |r| ensures NoEmpty(r[k].owner.labels) && NameFits(r[k].owner) && |r[k].data| < 0x1_0000 {
      RecordIsWhole(s, q, k);
    }
    Positions(s, q);
    WalkRecords(q.id, r, 0);
  }

  lemma RecordIsWhole(s: Service, q: Query, k: nat)
    requires Reachable(s, q) && NoEmpty(s.subtypes) && |TxtBytes(s.txt)| < 0x1_0000 && k < |Records(s, q)|
    ensures var r := Records(s, q)[k]; NoEmpty(r.owner.labels) && NameFits(r.owner) && |r.data| < 0x1_0000
  {
    hide Records, NameBytes, Response, TxtBytes, DomainAt, SubAt, PointerBytes;
    var n := |s.subtypes|;
    RecordOrder(s, q);
    ServiceSize(s, NABTO_AT);
    SrvSize(s, q);
    if 0 < k <= n {
      SubInPlace(s, q);
      assert Records(s, q)[k] == SubRecord(s, q, k - 1);
    } else if k > n + 3 {
      DomainNamed(s, q, 0);
      assert Records(s, q)[k] == IpRecord(s, q, q.ips[k - n - 4]);
    }
  }

  /** Why no subtype may be empty: the name of one does not end where a reader
      takes it to end. */
  lemma EmptySubtypeStopsTheWalk(s: Service, q: Query, i: nat)
    requires i < |s.subtypes| && Reachable(s, q)
    ensures var r := Records(s, q)[1 + i]; var at := Start(Records(s, q), 1 + i);
            Skip(Response(s, q), at) == Some(at + |NameBytes(r.owner)|) <==> s.subtypes[i] != []
  {
    hide Records, NameBytes, Response, Start, Skip, Holds, SubAt;
    RecordOrder(s, q);
    InResponse(s, q, 1 + i);
    SubInPlace(s, q);
    var n := SubRecord(s, q, i).owner;
    SkipIsExact(Response(s, q), Start(Records(s, q), 1 + i), n);
    NoEmptyTail(n.labels);
    assert n.labels[0] == s.subtypes[i];
  }

  /** Skipping the owner of every record ends behind it exactly if no subtype is
      empty. */
  lemma SkippingIsExact(s: Service, q: Query)
    requires Reachable(s, q)
    ensures (forall i :: 0 <= i < |Records(s, q)| ==>
               Skip(Response(s, q), Start(Records(s, q), i)) ==
               Some(Start(Records(s, q), i) + |NameBytes(Records(s, q)[i].owner)|))
            <==> NoEmpty(s.subtypes)
  {
    hide Records, NameBytes, Response, Start, Skip, Holds, TxtBytes, Reachable;
    SmallResponse(s, q);
    var r, b := Records(s, q), Response(s, q);
    forall i | 0 <= i < |s.subtypes|
      ensures Skip(b, Start(r, 1 + i)) == Some(Start(r, 1 + i) + |NameBytes(r[1 + i].owner)|) <==> s.subtypes[i] != []
    {
      EmptySubtypeStopsTheWalk(s, q, i);
    }
    if NoEmpty(s.subtypes) {
      forall i | 0 <= i < |r| ensures Skip(b, Start(r, i)) == Some(Start(r, i) + |NameBytes(r[i].owner)|) {
        RecordIsWhole(s, q, i);
        InResponse(s, q, i);
        SkipIsExact(b, Start(r, i), r[i].owner);
      }
    }
  }
}
