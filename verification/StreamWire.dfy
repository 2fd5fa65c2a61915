/** Stream packets as bytes: a header and a list of type, length, value
    extensions. */
module StreamWire {
  import opened AckGaps
  import opened Basics
  import opened StreamTypes
  import opened StreamSender
  import opened StreamReceiver
  import opened StreamEndpoint

  const FLAG_ACK: byte := 0x10
  const FLAG_RST: byte := 0x20
  const FLAG_SYN: byte := 0x80

  const EXTENSION_SEGMENT_SIZES: u16 := 0x1000
  const EXTENSION_ACK: u16 := 0x1001
  const EXTENSION_DATA: u16 := 0x1002
  const EXTENSION_CONTENT_TYPE: u16 := 0x1003
  const EXTENSION_FIN: u16 := 0x1004
  const EXTENSION_SYN: u16 := 0x1006
  const EXTENSION_NONCE: u16 := 0x1007
  const EXTENSION_NONCE_RESPONSE: u16 := 0x1008
  const EXTENSION_NONCE_CAPABILITY: u16 := 0x1009
  const NONCE_SIZE: nat := 8
  const DEFAULT_SEGMENT_SIZE: nat := 256
  const HEADER_SIZE: nat := 5

  // -------------------------------------------------------------- extensions

  datatype Ext = Ext(kind: u16, payload: seq<byte>)

  /** The length of a payload is a 16 bit field. */
  type Extension = e: Ext | |e.payload| < 0x1_0000 witness Ext(0, [])

  function EncodeExtension(e: Extension): seq<byte> {
    U16(e.kind) + U16(|e.payload|) + e.payload
  }

  function EncodeExtensions(exts: seq<Extension>): seq<byte> {
    if exts == [] then [] else EncodeExtension(exts[0]) + EncodeExtensions(exts[1..])
  }

  /** The walk over the extensions, which fails unless every header and every
      declared payload is inside the packet. */
  function ParseExtensions(b: seq<byte>): Option<seq<Extension>>
    decreases |b|
  {
    if b == [] then Some([])
    else if |b| < 4 then None
    else
      var length := GetU16(b[2..]);
      if length > |b| - 4 then Option.None
      else
        match ParseExtensions(b[4 + length..])
        case None => None
        case Some(rest) => Some([Ext(GetU16(b), b[4..4 + length])] + rest)
  }

  lemma ParseOne(e: Extension, more: seq<byte>)
    ensures var b := EncodeExtension(e) + more;
            && |b| >= 4 && GetU16(b) == e.kind && GetU16(b[2..]) == |e.payload|
            && |e.payload| <= |b| - 4 && b[4..4 + |e.payload|] == e.payload && b[4 + |e.payload|..] == more
  {
    var b := EncodeExtension(e) + more;
    assert b == U16(e.kind) + (U16(|e.payload|) + (e.payload + more));
    assert b[2..] == U16(|e.payload|) + (e.payload + more);
  }

  lemma {:induction false} ParseEncoded(exts: seq<Extension>)
    ensures ParseExtensions(EncodeExtensions(exts)) == Some(exts)
  {
    if exts != [] {
      ParseOne(exts[0], EncodeExtensions(exts[1..]));
      ParseEncoded(exts[1..]);
      assert [exts[0]] + exts[1..] == exts;
    }
  }

  lemma {:induction false} EncodeParsed(b: seq<byte>)
    requires ParseExtensions(b).Some?
    ensures EncodeExtensions(ParseExtensions(b).value) == b
    decreases |b|
  {
    if b != [] {
      var length := GetU16(b[2..]);
      var first: Extension := Ext(GetU16(b), b[4..4 + length]);
      var rest := ParseExtensions(b[4 + length..]).value;
      EncodeParsed(b[4 + length..]);
      U16Inverse(b);
      U16Inverse(b[2..]);
      assert ([first] + rest)[1..] == rest;
      assert b == b[..2] + b[2..4] + b[4..4 + length] + b[4 + length..];
      assert b[2..][..2] == b[2..4];
    }
  }

  /** A packet is accepted by the walk exactly when its bytes are those of some
      list of extensions, and then of that list only. */
  lemma SplitIsUnique(b: seq<byte>, exts: seq<Extension>)
    ensures ParseExtensions(b) == Some(exts) <==> b == EncodeExtensions(exts)
  {
    ParseEncoded(exts);
    if ParseExtensions(b) == Some(exts) {
      EncodeParsed(b);
    }
  }

  // ------------------------------------------------------- what they stand for

  function EncodeGapBlocks(gaps: seq<Gap>): seq<byte>
    requires forall g :: g in gaps ==> g.ackGap < 0x1_0000_0000 && g.nackGap < 0x1_0000_0000
  {
    if gaps == [] then [] else U32(gaps[0].ackGap) + U32(gaps[0].nackGap) + EncodeGapBlocks(gaps[1..])
  }

  function DecodeGapBlocks(b: seq<byte>): seq<Gap>
    requires |b| % 8 == 0
    decreases |b|
  {
    if b == [] then [] else [Gap(GetU32(b), GetU32(b[4..]))] + DecodeGapBlocks(b[8..])
  }

  /** The fields of an ack extension; the delay field is always 0 and ignored. */
  function DecodeAckPayload(b: seq<byte>): Option<AckExtension> {
    if |b| < 16 || (|b| - 16) % 8 != 0 then None
    else Some(AckExtension(GetU32(b), GetU32(b[4..]), GetU32(b[8..]), DecodeGapBlocks(b[16..])))
  }

  /** The ack extensions that are applied, in order. */
  function AcksIn(exts: seq<Extension>): seq<AckExtension> {
    if exts == [] then [] else
      var rest := AcksIn(exts[1..]);
      if exts[0].kind == EXTENSION_ACK && DecodeAckPayload(exts[0].payload).Some?
      then [DecodeAckPayload(exts[0].payload).value] + rest else rest
  }

  /** The data and fin extensions that are handled, in order. */
  function SegmentsIn(exts: seq<Extension>): seq<Segment> {
    if exts == [] then [] else
      var rest := SegmentsIn(exts[1..]);
      var payload := exts[0].payload;
      if |payload| < 4 then rest
      else if exts[0].kind == EXTENSION_DATA then [Segment(GetU32(payload), Data(payload[4..]))] + rest
      else if exts[0].kind == EXTENSION_FIN then [Segment(GetU32(payload), Fin)] + rest
      else rest
  }

  /** The last extension of a kind with at least four bytes. */
  function LastOf(exts: seq<Extension>, kind: u16): (payload: Option<seq<byte>>)
    ensures payload.Some? ==> |payload.value| >= 4
  {
    if exts == [] then None
    else
      var last := exts[|exts| - 1];
      if last.kind == kind && |last.payload| >= 4 then Some(last.payload) else LastOf(exts[..|exts| - 1], kind)
  }

  predicate BadNonce(exts: seq<Extension>) {
    exists e :: e in exts && e.kind == EXTENSION_NONCE && |e.payload| < NONCE_SIZE
  }

  /** What a packet's bytes come to: nothing at all, only its stamp, or a packet. */
  datatype Decoded = Malformed | Heard(stamp: u32) | Acted(packet: Packet)

  function DecodeSyn(stamp: u32, exts: seq<Extension>): Decoded {
    match LastOf(exts, EXTENSION_SYN)
    case None => Heard(stamp)
    case Some(syn) =>
      match LastOf(exts, EXTENSION_SEGMENT_SIZES)
      case None => Acted(Syn(stamp, GetU32(syn), DEFAULT_SEGMENT_SIZE, DEFAULT_SEGMENT_SIZE))
      case Some(sizes) => Acted(Syn(stamp, GetU32(syn), GetU16(sizes), GetU16(sizes[2..])))
  }

  function DecodeSynAck(stamp: u32, exts: seq<Extension>): Decoded {
    var syn, sizes := LastOf(exts, EXTENSION_SYN), LastOf(exts, EXTENSION_SEGMENT_SIZES);
    if syn.None? || sizes.None? || BadNonce(exts) then Heard(stamp)
    else Acted(SynAck(stamp, AcksIn(exts), GetU32(syn.value), GetU16(sizes.value), GetU16(sizes.value[2..])))
  }

  function Decode(b: seq<byte>): Decoded {
    if |b| < HEADER_SIZE then Malformed
    else
      var flags, stamp := b[0], GetU32(b[1..]);
      match ParseExtensions(b[HEADER_SIZE..])
      case None => Malformed
      case Some(exts) =>
        if flags == FLAG_SYN then DecodeSyn(stamp, exts)
        else if flags == FLAG_SYN + FLAG_ACK then DecodeSynAck(stamp, exts)
        else if flags == FLAG_ACK then Acted(Ack(stamp, AcksIn(exts), SegmentsIn(exts)))
        else if flags == FLAG_RST then Acted(Rst(stamp))
        else Heard(stamp)
  }

  // ------------------------------------------------------------- creating them

  /** The fields of an ack fit their 32 bit words. */
  predicate AckFits(ack: AckExtension) {
    && 0 <= ack.maxAcked < 0x1_0000_0000 && 0 <= ack.windowSize < 0x1_0000_0000
    && 0 <= ack.timestampEcho < 0x1_0000_0000 && |ack.gaps| <= MAX_ACK_GAP_BLOCKS
    && forall g :: g in ack.gaps ==> g.ackGap < 0x1_0000_0000 && g.nackGap < 0x1_0000_0000
  }

  predicate SegmentFits(s: Segment) {
    0 <= s.num < 0x1_0000_0000 && Used(s) + 4 < 0x1_0000
  }

  function AckPayload(ack: AckExtension): seq<byte>
    requires AckFits(ack)
  {
    U32(ack.maxAcked) + U32(ack.windowSize) + U32(ack.timestampEcho) + U32(0) + EncodeGapBlocks(ack.gaps)
  }

  lemma {:induction false} GapBlocksInverse(gaps: seq<Gap>)
    requires forall g :: g in gaps ==> g.ackGap < 0x1_0000_0000 && g.nackGap < 0x1_0000_0000
    ensures |EncodeGapBlocks(gaps)| == 8 * |gaps| && DecodeGapBlocks(EncodeGapBlocks(gaps)) == gaps
  {
    if gaps != [] {
      GapBlocksInverse(gaps[1..]);
      var first, rest := U32(gaps[0].ackGap) + U32(gaps[0].nackGap), EncodeGapBlocks(gaps[1..]);
      assert EncodeGapBlocks(gaps) == first + rest && (first + rest)[8..] == rest;
      assert (first + rest)[4..] == U32(gaps[0].nackGap) + rest;
      assert [gaps[0]] + gaps[1..] == gaps;
    }
  }

  lemma AckPayloadInverse(ack: AckExtension)
    requires AckFits(ack)
    ensures |AckPayload(ack)| == 16 + 8 * |ack.gaps| && DecodeAckPayload(AckPayload(ack)) == Some(ack)
  {
    hide U32, GetU32, EncodeGapBlocks, DecodeGapBlocks;
    var b, gaps := AckPayload(ack), EncodeGapBlocks(ack.gaps);
    GapBlocksInverse(ack.gaps);
    var d := U32(0) + gaps;
    var c := U32(ack.timestampEcho) + d;
    assert b == U32(ack.maxAcked) + (U32(ack.windowSize) + c);
    Word(ack.maxAcked, U32(ack.windowSize) + c);
    Word(ack.windowSize, c);
    Word(ack.timestampEcho, d);
    Word(0, gaps);
    assert b[8..] == b[4..][4..] && b[16..] == b[4..][4..][4..][4..];
  }

  function AckExt(ack: AckExtension): Extension
    requires AckFits(ack)
  {
    AckPayloadInverse(ack);
    Ext(EXTENSION_ACK, AckPayload(ack))
  }

  function SegmentExt(s: Segment): Extension
    requires SegmentFits(s)
  {
    if s.payload.Fin? then Ext(EXTENSION_FIN, U32(s.num)) else Ext(EXTENSION_DATA, U32(s.num) + s.payload.bytes)
  }

  function SegmentExts(segments: seq<Segment>): (exts: seq<Extension>)
    requires forall s :: s in segments ==> SegmentFits(s)
    ensures |exts| == |segments|
  {
    seq(|segments|, i requires 0 <= i < |segments| =>
      assert segments[i] in segments; SegmentExt(segments[i]))
  }

  function SizesExt(maxSend: u16, maxRecv: u16): Extension {
    Ext(EXTENSION_SEGMENT_SIZES, U16(maxSend) + U16(maxRecv))
  }

  function NonceExts(kind: u16, nonce: Option<seq<byte>>): seq<Extension>
    requires nonce.Some? ==> |nonce.value| == NONCE_SIZE
  {
    if nonce.None? then [] else [Ext(kind, nonce.value)]
  }

  /** A packet the stream can create, on words. */
  predicate PacketFits(p: Packet) {
    && 0 <= p.stamp < 0x1_0000_0000
    && (p.Syn? || p.SynAck? ==> 0 <= p.start < 0x1_0000_0000 && p.maxSend < 0x1_0000 && p.maxRecv < 0x1_0000)
    && (p.SynAck? || p.Ack? ==> |p.acks| == 1 && AckFits(p.acks[0]))
    && (p.Ack? ==> forall s :: s in p.segments ==> SegmentFits(s))
    && (p.Rst? ==> p.stamp == 0)
  }

  /** What the packet carries beside its model: content type and nonces. */
  datatype Extras = Extras(contentType: u32, nonceCapability: bool, nonce: Option<seq<byte>>)

  predicate ExtrasFit(x: Extras) {
    x.nonce.Some? ==> |x.nonce.value| == NONCE_SIZE
  }

  function FlagsOf(p: Packet): byte {
    match p
    case Syn(_, _, _, _) => FLAG_SYN
    case SynAck(_, _, _, _, _) => FLAG_SYN + FLAG_ACK
    case Ack(_, _, _) => FLAG_ACK
    case Rst(_) => FLAG_RST
  }

  function ExtensionsOf(p: Packet, x: Extras): seq<Extension>
    requires PacketFits(p) && ExtrasFit(x)
  {
    match p
    case Syn(_, start, maxSend, maxRecv) =>
      [Ext(EXTENSION_SYN, U32(start)), SizesExt(maxSend, maxRecv), Ext(EXTENSION_CONTENT_TYPE, U32(x.contentType))] +
      (if x.nonceCapability then [Ext(EXTENSION_NONCE_CAPABILITY, [])] else [])
    case SynAck(_, acks, start, maxSend, maxRecv) =>
      [AckExt(acks[0]), Ext(EXTENSION_SYN, U32(start)), SizesExt(maxSend, maxRecv)] + NonceExts(EXTENSION_NONCE, x.nonce)
    case Ack(_, acks, segments) =>
      NonceExts(EXTENSION_NONCE_RESPONSE, x.nonce) + [AckExt(acks[0])] + SegmentExts(segments)
    case Rst(_) => []
  }

  function Encode(p: Packet, x: Extras): seq<byte>
    requires PacketFits(p) && ExtrasFit(x)
  {
    [FlagsOf(p)] + U32(p.stamp) + EncodeExtensions(ExtensionsOf(p, x))
  }

  // --------------------------------------------------------------- round trip

  lemma {:induction false} SegmentsInverse(segments: seq<Segment>)
    requires forall s :: s in segments ==> SegmentFits(s)
    ensures SegmentsIn(SegmentExts(segments)) == segments && AcksIn(SegmentExts(segments)) == []
  {
    if segments != [] {
      var s := segments[0];
      assert s in segments;
      SegmentsInverse(segments[1..]);
      assert SegmentExts(segments)[1..] == SegmentExts(segments[1..]);
      assert SegmentExts(segments)[0] == SegmentExt(s);
      assert s.payload.Data? ==> (U32(s.num) + s.payload.bytes)[4..] == s.payload.bytes;
      assert [s] + segments[1..] == segments;
    }
  }

  lemma AckContents(acks: seq<AckExtension>, segments: seq<Segment>, nonce: Option<seq<byte>>)
    requires |acks| == 1 && AckFits(acks[0]) && forall s :: s in segments ==> SegmentFits(s)
    requires nonce.Some? ==> |nonce.value| == NONCE_SIZE
    ensures var exts := NonceExts(EXTENSION_NONCE_RESPONSE, nonce) + [AckExt(acks[0])] + SegmentExts(segments);
            AcksIn(exts) == acks && SegmentsIn(exts) == segments
  {
    hide U32, GetU32, AckPayload, DecodeAckPayload, SegmentFits, SegmentExts;
    var rest := [AckExt(acks[0])] + SegmentExts(segments);
    var exts := NonceExts(EXTENSION_NONCE_RESPONSE, nonce) + [AckExt(acks[0])] + SegmentExts(segments);
    AckPayloadInverse(acks[0]);
    SegmentsInverse(segments);
    assert rest[1..] == SegmentExts(segments) && rest[0] == AckExt(acks[0]);
    assert acks == [acks[0]];
    assert AcksIn(rest) == acks && SegmentsIn(rest) == segments;
    if nonce.None? {
      assert exts == rest;
    } else {
      assert exts == [Ext(EXTENSION_NONCE_RESPONSE, nonce.value)] + rest;
      assert exts[1..] == rest;
    }
  }

  lemma LastOfAppend(exts: seq<Extension>, e: Extension, kind: u16)
    ensures LastOf(exts + [e], kind) == if e.kind == kind && |e.payload| >= 4 then Some(e.payload) else LastOf(exts, kind)
  {
    assert (exts + [e])[..|exts|] == exts;
  }

  lemma {:induction false} LastOfMiddle(a: seq<Extension>, e: Extension, b: seq<Extension>, kind: u16)
    requires e.kind == kind && |e.payload| >= 4 && forall x :: x in b ==> x.kind != kind
    ensures LastOf(a + [e] + b, kind) == Some(e.payload)
    decreases |b|
  {
    if b == [] {
      assert a + [e] + b == a + [e];
      LastOfAppend(a, e, kind);
    } else {
      var n := |b| - 1;
      assert a + [e] + b == a + [e] + b[..n] + [b[n]];
      assert b[n] in b;
      LastOfMiddle(a, e, b[..n], kind);
      LastOfAppend(a + [e] + b[..n], b[n], kind);
    }
  }

  lemma SizesInverse(maxSend: u16, maxRecv: u16)
    ensures var b := SizesExt(maxSend, maxRecv).payload; |b| == 4 && GetU16(b) == maxSend && GetU16(b[2..]) == maxRecv
  {
    assert (U16(maxSend) + U16(maxRecv))[2..] == U16(maxRecv);
  }

  lemma SynContents(p: Packet, x: Extras)
    requires p.Syn? && PacketFits(p) && ExtrasFit(x)
    ensures DecodeSyn(p.stamp, ExtensionsOf(p, x)) == Acted(p)
  {
    var syn, sizes := Ext(EXTENSION_SYN, U32(p.start)), SizesExt(p.maxSend, p.maxRecv);
    var tail := [Ext(EXTENSION_CONTENT_TYPE, U32(x.contentType))] + if x.nonceCapability then [Ext(EXTENSION_NONCE_CAPABILITY, [])] else [];
    var exts := ExtensionsOf(p, x);
    assert exts == [] + [syn] + ([sizes] + tail);
    LastOfMiddle([], syn, [sizes] + tail, EXTENSION_SYN);
    assert exts == [syn] + [sizes] + tail;
    LastOfMiddle([syn], sizes, tail, EXTENSION_SEGMENT_SIZES);
    SizesInverse(p.maxSend, p.maxRecv);
  }

  lemma SynAckContents(p: Packet, x: Extras)
    requires p.SynAck? && PacketFits(p) && ExtrasFit(x)
    ensures DecodeSynAck(p.stamp, ExtensionsOf(p, x)) == Acted(p)
  {
    hide U32, GetU32, AckPayload, DecodeAckPayload, LastOf, U16, GetU16;
    var ack, syn, sizes := AckExt(p.acks[0]), Ext(EXTENSION_SYN, U32(p.start)), SizesExt(p.maxSend, p.maxRecv);
    var tail := NonceExts(EXTENSION_NONCE, x.nonce);
    var exts := ExtensionsOf(p, x);
    assert exts == [ack] + [syn] + ([sizes] + tail);
    LastOfMiddle([ack], syn, [sizes] + tail, EXTENSION_SYN);
    assert exts == [ack, syn] + [sizes] + tail;
    LastOfMiddle([ack, syn], sizes, tail, EXTENSION_SEGMENT_SIZES);
    SizesInverse(p.maxSend, p.maxRecv);
    AckPayloadInverse(p.acks[0]);
    NoMoreAcks([syn, sizes] + tail);
    assert exts[1..] == [syn, sizes] + tail && exts[0] == ack;
    assert p.acks == [p.acks[0]];
  }

  lemma {:induction false} NoMoreAcks(exts: seq<Extension>)
    requires forall e :: e in exts ==> e.kind != EXTENSION_ACK
    ensures AcksIn(exts) == []
  {
    if exts != [] {
      assert exts[0] in exts;
      NoMoreAcks(exts[1..]);
    }
  }

  lemma StampFits(p: Packet)
    requires PacketFits(p)
    ensures 0 <= p.stamp < 0x1_0000_0000
  {
  }

  lemma AckPacketContents(p: Packet, x: Extras)
    requires p.Ack? && PacketFits(p) && ExtrasFit(x)
    ensures AcksIn(ExtensionsOf(p, x)) == p.acks && SegmentsIn(ExtensionsOf(p, x)) == p.segments
  {
    hide AcksIn, SegmentsIn;
    AckContents(p.acks, p.segments, x.nonce);
  }

  /** Every packet the stream creates is decoded to exactly itself: its acks and
      its data and fin segments, in order. */
  lemma RoundTrip(p: Packet, x: Extras)
    requires PacketFits(p) && ExtrasFit(x)
    ensures Decode(Encode(p, x)) == Acted(p)
  {
    hide EncodeExtensions, ParseExtensions, ExtensionsOf, DecodeSyn, DecodeSynAck, AcksIn, SegmentsIn, U32;
    hide GetU32, PacketFits;
    var exts := ExtensionsOf(p, x);
    var b, tail := Encode(p, x), EncodeExtensions(exts);
    assert 0 <= p.stamp < 0x1_0000_0000 by { StampFits(p); }
    Word(p.stamp, tail);
    assert b[1..] == U32(p.stamp) + tail;
    assert b[HEADER_SIZE..] == tail;
    ParseEncoded(exts);
    match p
    case Syn(_, _, _, _) => SynContents(p, x);
    case SynAck(_, _, _, _, _) => SynAckContents(p, x);
    case Ack(_, acks, segments) => AckPacketContents(p, x);
    case Rst(_) => StampFits(p);
  }

  /** The stream after the bytes of a packet: a malformed packet has no effect. */
  function HandleBytes(e: Endpoint, b: seq<byte>, budget: Budget): Endpoint
    requires ReceiverInv(e.rx)
  {
    match Decode(b)
    case Malformed => e
    case Heard(stamp) => Hear(e, stamp)
    case Acted(p) => HandlePacket(e, p, budget)
  }

  /** A packet has an effect only if its bytes split exactly into extensions. */
  lemma OnlyWholePacketsAct(e: Endpoint, b: seq<byte>, budget: Budget)
    requires ReceiverInv(e.rx) && HandleBytes(e, b, budget) != e
    ensures |b| >= HEADER_SIZE && exists exts: seq<Extension> :: b[HEADER_SIZE..] == EncodeExtensions(exts)
  {
    EncodeParsed(b[HEADER_SIZE..]);
  }

  // ---------------------------------------------------------------------- room

  lemma {:induction false} EncodeAppend(a: seq<Extension>, b: seq<Extension>)
    ensures EncodeExtensions(a + b) == EncodeExtensions(a) + EncodeExtensions(b)
  {
    if a == [] {
      assert a + b == b;
    } else {
      assert (a + b)[1..] == a[1..] + b;
      EncodeAppend(a[1..], b);
    }
  }

  lemma {:induction false} SegmentsSize(segments: seq<Segment>)
    requires forall s :: s in segments ==> SegmentFits(s)
    ensures |EncodeExtensions(SegmentExts(segments))| == WireSize(segments)
  {
    if segments != [] {
      assert segments[0] in segments;
      SegmentsSize(segments[1..]);
      assert SegmentExts(segments)[1..] == SegmentExts(segments[1..]);
      assert SegmentExts(segments)[0] == SegmentExt(segments[0]);
    }
  }

  lemma {:induction false} FitCountFits(tx: Sender, segs: seq<Segment>, room: int)
    ensures var n := FitCount(tx, segs, room); n > 0 ==> WireSize(segs[..n]) <= room
    decreases |segs|
  {
    var n := FitCount(tx, segs, room);
    if n > 0 {
      FitCountFits(tx, segs[1..], room - Used(segs[0]) - DATA_OVERHEAD);
      assert segs[..n][1..] == segs[1..][..n - 1];
      assert segs[1..][..0] == [];
    }
  }

  lemma {:induction false} WireSizeConcat(a: seq<Segment>, b: seq<Segment>)
    ensures WireSize(a + b) == WireSize(a) + WireSize(b)
  {
    if a == [] {
      assert a + b == b;
    } else {
      assert (a + b)[1..] == a[1..] + b;
      WireSizeConcat(a[1..], b);
    }
  }

  /** The segments put into a packet fit the room left in it. */
  lemma SentSegmentsFit(tx: Sender, room: nat)
    ensures WireSize(SentSegments(tx, room)) <= room
  {
    var (r, s) := Batch(tx, room);
    var resent, new_ := tx.resend[..r], Segs(tx.sendList[..s]);
    FitCountFits(tx, tx.resend, room);
    FitCountFits(tx, Segs(tx.sendList), room - WireSize(resent));
    assert new_ == Segs(tx.sendList)[..s];
    WireSizeConcat(resent, new_);
    assert r == 0 ==> WireSize(resent) == 0;
    assert s == 0 ==> WireSize(new_) == 0;
  }

  /** The bytes in front of the segments of an ack packet. */
  function AckPrefix(ack: AckExtension, x: Extras): nat {
    HEADER_SIZE + (if x.nonce.Some? then 4 + NONCE_SIZE else 0) + 4 + 16 + 8 * |ack.gaps|
  }

  /** A created ack packet fits its buffer, whatever is in the send lists. */
  lemma AckPacketFitsBuffer(e: Endpoint, size: nat, maxBlocks: nat, x: Extras)
    requires maxBlocks >= 2 && ExtrasFit(x)
    requires var ack := AckOf(e.rx, e.timestampToEcho, maxBlocks);
             AckPrefix(ack, x) <= size && PacketFits(AckPacket(e, size - AckPrefix(ack, x), maxBlocks))
    ensures var ack := AckOf(e.rx, e.timestampToEcho, maxBlocks);
            |Encode(AckPacket(e, size - AckPrefix(ack, x), maxBlocks), x)| <= size
  {
    hide SentSegments, AckOf, GapsOf, Decode;
    var ack := AckOf(e.rx, e.timestampToEcho, maxBlocks);
    var room := size - AckPrefix(ack, x);
    var segments := SentSegments(e.tx, room);
    SentSegmentsFit(e.tx, room);
    SegmentsSize(segments);
    var front := NonceExts(EXTENSION_NONCE_RESPONSE, x.nonce) + [AckExt(ack)];
    EncodeAppend(front, SegmentExts(segments));
    EncodeAppend(NonceExts(EXTENSION_NONCE_RESPONSE, x.nonce), [AckExt(ack)]);
    AckPayloadInverse(ack);
    assert [AckExt(ack)][1..] == [];
    assert EncodeExtensions([AckExt(ack)]) == EncodeExtension(AckExt(ack));
    if x.nonce.Some? {
      var one := [Ext(EXTENSION_NONCE_RESPONSE, x.nonce.value)];
      assert one[1..] == [];
      assert EncodeExtensions(one) == EncodeExtension(one[0]);
    }
  }
}
