/** Writing and reading packets as the C code does it: a pointer that advances
    over a buffer and becomes null when something does not fit. */
module StreamWireCode {
  import opened AckGaps
  import opened Basics
  import opened ByteWriter
  import opened SequenceNumbers
  import opened StreamTypes
  import opened StreamSender
  import opened StreamReceiver
  import opened StreamEndpoint
  import opened StreamNear
  import opened StreamWire
  import opened StreamCode

  // ------------------------------------------------------------------- words

  /** The words of an ack. */
  function WordAck(ack: AckExtension): AckExtension {
    ack.(maxAcked := Wrap(ack.maxAcked), timestampEcho := Wrap(ack.timestampEcho))
  }

  function WordSegments(segments: seq<Segment>): (words: seq<Segment>)
    ensures |words| == |segments|
    ensures forall i :: 0 <= i < |segments| ==> words[i] == segments[i].(num := Wrap(segments[i].num))
  {
    seq(|segments|, i requires 0 <= i < |segments| => segments[i].(num := Wrap(segments[i].num)))
  }

  predicate GapsFit(gaps: seq<Gap>) {
    forall g :: g in gaps ==> g.ackGap < 0x1_0000_0000 && g.nackGap < 0x1_0000_0000
  }

  lemma {:induction false} GapInSpan(gaps: seq<Gap>, g: Gap)
    requires g in gaps
    ensures g.ackGap + g.nackGap <= Span(gaps)
  {
    if g != gaps[0] {
      GapInSpan(gaps[1..], g);
    }
  }

  /** The ack of a receive window fits its words. */
  lemma OwnAckFits(rx: Receiver, timestampToEcho: int, maxBlocks: nat)
    requires ReceiverInv(rx) && 2 <= maxBlocks <= MAX_ACK_GAP_BLOCKS
    ensures var ack := AckOf(rx, timestampToEcho, maxBlocks);
            AckFits(WordAck(ack)) && |ack.gaps| <= maxBlocks && GapsFit(ack.gaps)
  {
    hide Span, Has, ReceiverInv, EncodeGaps, WindowSize;
    var ack := AckOf(rx, timestampToEcho, maxBlocks);
    AckIsSound(rx, timestampToEcho, maxBlocks);
    WindowIsSmall(rx);
    BlocksFit(rx, maxBlocks);
    forall g | g in ack.gaps ensures g.ackGap < 0x1_0000_0000 && g.nackGap < 0x1_0000_0000 {
      GapInSpan(ack.gaps, g);
    }
  }

  lemma WindowIsSmall(rx: Receiver)
    requires ReceiverInv(rx)
    ensures WindowSize(rx) <= MAX_RECV_SEGMENTS && rx.recvMax - rx.recvTop <= MAX_RECV_SEGMENTS
  {
  }

  lemma BlocksFit(rx: Receiver, maxBlocks: nat)
    requires maxBlocks >= 2
    ensures |GapsOf(rx, maxBlocks)| <= maxBlocks
  {
    hide Runs;
  }

  // ----------------------------------------------------------------- writing

  method WriteHeader(w: Writer, flags: byte, stamp: u32)
    requires w.Valid()
    modifies w, w.buffer
    ensures w.Valid() && w.wanted == old(w.wanted) + ([flags] + U32(stamp))
    ensures w.ptr.Some? <==> old(w.ptr).Some? && |w.wanted| <= w.buffer.Length
  {
    hide U32, Writer.Valid;
    w.WriteUint8(flags);
    w.WriteUint32(stamp);
  }

  method WriteGapBlocks(w: Writer, gaps: seq<Gap>)
    requires w.Valid() && GapsFit(gaps)
    modifies w, w.buffer
    ensures w.Valid() && w.wanted == old(w.wanted) + EncodeGapBlocks(gaps)
    ensures w.ptr.Some? <==> old(w.ptr).Some? && |w.wanted| <= w.buffer.Length
  {
    hide U32;
    for i := 0 to |gaps|
      invariant w.Valid() && GapsFit(gaps[i..]) && w.wanted + EncodeGapBlocks(gaps[i..]) == old(w.wanted) + EncodeGapBlocks(gaps)
      invariant w.ptr.Some? <==> old(w.ptr).Some? && |w.wanted| <= w.buffer.Length
    {
      assert gaps[i..][0] == gaps[i] && gaps[i..][1..] == gaps[i + 1..];
      assert gaps[i] in gaps[i..];
      ghost var rest := EncodeGapBlocks(gaps[i + 1..]);
      ghost var before := w.wanted;
      w.WriteUint32(gaps[i].ackGap);
      w.WriteUint32(gaps[i].nackGap);
      assert before + (U32(gaps[i].ackGap) + U32(gaps[i].nackGap) + rest) == w.wanted + rest;
    }
    assert w.wanted + [] == w.wanted;
  }

  /** The size of an ack extension without gap blocks. */
  const ACK_FIXED: nat := 20

  /** How many gap blocks there is room for. */
  function MaxBlocks(room: nat): nat {
    if room / 8 < MAX_ACK_GAP_BLOCKS then room / 8 else MAX_ACK_GAP_BLOCKS
  }

  /** The ack extension of a stream, with as many gap blocks as fit, of which
      there must be room for two; its length is filled in when it is known. */
  method AddAckExtension(w: Writer, s: Stream) returns (ghost ack: AckExtension, ghost maxBlocks: nat)
    requires w.Valid() && ReceiverInv(s.Rx())
    modifies w, w.buffer
    ensures w.Valid()
    ensures w.ptr.Some? <==> old(w.ptr).Some? && |old(w.wanted)| + ACK_FIXED + 16 <= w.buffer.Length
    ensures w.ptr.Some? ==> maxBlocks == MaxBlocks(w.buffer.Length - |old(w.wanted)| - ACK_FIXED)
    ensures w.ptr.Some? ==> maxBlocks >= 2 && ack == AckOf(s.Rx(), s.timestampToEcho, maxBlocks)
    ensures w.ptr.Some? ==> AckFits(WordAck(ack)) && w.wanted == old(w.wanted) + EncodeExtension(AckExt(WordAck(ack)))
  {
    hide U32, U16, EncodeGapBlocks, ReceiverInv, Wrap, AckOf, WindowSize, AckFixed, AckFits;
    ghost var before := w.wanted;
    ack, maxBlocks := AckExtension(0, 0, 0, []), 2;
    AckFixedSize(s);
    var ackLength := BeginAckExtension(w, s);
    if w.ptr.None? {
      return;
    }
    var room := w.buffer.Length - w.ptr.value;
    var maxGapBlocks := if room / 8 < MAX_ACK_GAP_BLOCKS then room / 8 else MAX_ACK_GAP_BLOCKS;
    if maxGapBlocks < 2 {
      w.Fail();
      return;
    }
    maxBlocks := maxGapBlocks;
    ack := AddGapData(w, s, ackLength, maxGapBlocks, before);
  }

  /** The gap blocks of an ack extension, and its length in the place left for it. */
  method AddGapData(w: Writer, s: Stream, ackLength: nat, maxBlocks: nat, ghost before: seq<byte>) returns (ghost ack: AckExtension)
    requires w.Valid() && w.ptr.Some? && ReceiverInv(s.Rx()) && w.wanted == before + AckFixed(s)
    requires ackLength == |before| + 2 && 2 <= maxBlocks <= MAX_ACK_GAP_BLOCKS && 8 * maxBlocks <= w.buffer.Length - |w.wanted|
    modifies w, w.buffer
    ensures w.Valid() && w.ptr.Some? && ack == AckOf(s.Rx(), s.timestampToEcho, maxBlocks)
    ensures AckFits(WordAck(ack)) && w.wanted == before + EncodeExtension(AckExt(WordAck(ack)))
  {
    hide U32, U16, EncodeGapBlocks, ReceiverInv, Wrap, AckOf, WindowSize, Writer.Valid, AckFixed;
    var extension := s.AddAckExtension(maxBlocks);
    ack := extension;
    OwnAckFits(s.Rx(), s.timestampToEcho, maxBlocks);
    AckPayloadInverse(WordAck(ack));
    BlocksTakeRoom(s.Rx(), s.timestampToEcho, maxBlocks);
    WriteGapBlocks(w, extension.gaps);
    UnpatchedAck(before, s, ack, maxBlocks, w.wanted);
    ghost var unpatched := w.wanted;
    w.PatchUint16(ackLength, 16 + 8 * |extension.gaps|);
    PatchedAck(before, WordAck(ack), unpatched, w.wanted);
  }

  lemma BlocksTakeRoom(rx: Receiver, timestampToEcho: int, maxBlocks: nat)
    requires maxBlocks >= 2 && AckFits(WordAck(AckOf(rx, timestampToEcho, maxBlocks)))
    ensures var gaps := AckOf(rx, timestampToEcho, maxBlocks).gaps;
            GapsFit(gaps) && |EncodeGapBlocks(gaps)| == 8 * |gaps| <= 8 * maxBlocks
  {
    hide GapsOf, Wrap, WindowSize, EncodeGapBlocks;
    BlocksFit(rx, maxBlocks);
    GapBlocksInverse(AckOf(rx, timestampToEcho, maxBlocks).gaps);
  }

  /** The type, the place for the length and the fixed fields. */
  method BeginAckExtension(w: Writer, s: Stream) returns (ackLength: nat)
    requires w.Valid() && ReceiverInv(s.Rx())
    modifies w, w.buffer
    ensures w.Valid() && w.wanted == old(w.wanted) + AckFixed(s)
    ensures w.ptr.Some? <==> old(w.ptr).Some? && |w.wanted| <= w.buffer.Length
    ensures w.ptr.Some? ==> ackLength == |old(w.wanted)| + 2 && w.ptr.value == |w.wanted|
  {
    hide U32, U16, ReceiverInv, Wrap, WindowSize;
    w.WriteUint16(EXTENSION_ACK);
    ackLength := if w.ptr.Some? then w.ptr.value else 0;
    w.WriteUint16(0);
    var size := s.GetRecvWindowSize();
    WindowIsSmall(s.Rx());
    w.WriteUint32(Wrap(s.recvMax));
    w.WriteUint32(size);
    w.WriteUint32(Wrap(s.timestampToEcho));
    w.WriteUint32(0);
  }

  /** A data or fin extension. */
  method WriteSegment(w: Writer, segment: Segment)
    requires w.Valid() && SegmentFits(segment)
    modifies w, w.buffer
    ensures w.Valid() && w.wanted == old(w.wanted) + EncodeExtension(SegmentExt(segment))
    ensures w.ptr.Some? <==> old(w.ptr).Some? && |w.wanted| <= w.buffer.Length
  {
    hide U32, U16;
    if segment.payload.Fin? {
      w.WriteUint16(EXTENSION_FIN);
      w.WriteUint16(4);
      w.WriteUint32(segment.num);
    } else {
      w.WriteUint16(EXTENSION_DATA);
      w.WriteUint16(|segment.payload.bytes| + 4);
      w.WriteUint32(segment.num);
      w.EncodeBuffer(segment.payload.bytes);
    }
  }

  method WriteSegments(w: Writer, segments: seq<Segment>)
    requires w.Valid() && forall s :: s in segments ==> SegmentFits(s)
    modifies w, w.buffer
    ensures w.Valid() && w.wanted == old(w.wanted) + EncodeExtensions(SegmentExts(segments))
    ensures w.ptr.Some? <==> old(w.ptr).Some? && |w.wanted| <= w.buffer.Length
  {
    hide EncodeExtension, SegmentFits;
    ghost var all := EncodeExtensions(SegmentExts(segments));
    for i := 0 to |segments|
      invariant w.Valid() && (w.ptr.Some? <==> old(w.ptr).Some? && |w.wanted| <= w.buffer.Length)
      invariant w.wanted + EncodeExtensions(SegmentExts(segments)[i..]) == old(w.wanted) + all
    {
      assert segments[i] in segments;
      ghost var exts := SegmentExts(segments);
      assert exts[i..][0] == SegmentExt(segments[i]) && exts[i..][1..] == exts[i + 1..];
      ghost var before := w.wanted;
      WriteSegment(w, segments[i]);
      assert before + (EncodeExtension(exts[i]) + EncodeExtensions(exts[i + 1..])) == w.wanted + EncodeExtensions(exts[i + 1..]);
    }
    assert w.wanted + [] == w.wanted;
  }

  /** The answer to the nonce of a syn ack. */
  method AddNonceResponse(w: Writer, nonce: Option<seq<byte>>)
    requires w.Valid() && (nonce.Some? ==> |nonce.value| == NONCE_SIZE)
    modifies w, w.buffer
    ensures w.Valid() && w.wanted == old(w.wanted) + EncodeExtensions(NonceExts(EXTENSION_NONCE_RESPONSE, nonce))
    ensures w.ptr.Some? <==> old(w.ptr).Some? && |w.wanted| <= w.buffer.Length
  {
    hide U16;
    if nonce.Some? {
      ghost var exts := NonceExts(EXTENSION_NONCE_RESPONSE, nonce);
      assert exts[1..] == [];
      w.WriteUint16(EXTENSION_NONCE_RESPONSE);
      w.WriteUint16(NONCE_SIZE);
      w.EncodeBuffer(nonce.value);
      assert w.wanted == old(w.wanted) + (EncodeExtension(exts[0]) + []);
    }
  }

  /** An ack extension up to its gap blocks, without its length. */
  ghost function AckFixed(s: Stream): seq<byte>
    requires ReceiverInv(s.Rx())
    reads s
  {
    WindowIsSmall(s.Rx());
    U16(EXTENSION_ACK) + U16(0) +
    (U32(Wrap(s.recvMax)) + U32(WindowSize(s.Rx())) + U32(Wrap(s.timestampToEcho)) + U32(0))
  }

  lemma AckFixedSize(s: Stream)
    requires ReceiverInv(s.Rx())
    ensures |AckFixed(s)| == 20
  {
    hide ReceiverInv, Wrap;
  }

  lemma UnpatchedAck(before: seq<byte>, s: Stream, ack: AckExtension, maxBlocks: nat, unpatched: seq<byte>)
    requires ReceiverInv(s.Rx()) && maxBlocks >= 2 && ack == AckOf(s.Rx(), s.timestampToEcho, maxBlocks) && AckFits(WordAck(ack))
    requires unpatched == before + AckFixed(s) + EncodeGapBlocks(ack.gaps)
    ensures unpatched == before + (U16(EXTENSION_ACK) + U16(0)) + AckPayload(WordAck(ack))
  {
    hide U32, U16, EncodeGapBlocks, GapsOf, WindowSize, ReceiverInv, Wrap;
  }

  lemma PatchedAck(before: seq<byte>, ack: AckExtension, unpatched: seq<byte>, patched: seq<byte>)
    requires AckFits(ack) && unpatched == before + (U16(EXTENSION_ACK) + U16(0)) + AckPayload(ack)
    requires var at := |before| + 2; patched == unpatched[..at] + U16(16 + 8 * |ack.gaps|) + unpatched[at + 2..]
    ensures patched == before + EncodeExtension(AckExt(ack))
  {
    hide U32, U16, AckPayload, AckFits;
    AckPayloadInverse(ack);
    assert unpatched[..|before| + 2] == before + U16(EXTENSION_ACK);
    assert unpatched[|before| + 4..] == AckPayload(ack);
  }

  // --------------------------------------------------------- an ack packet

  function WordPacket(p: Packet): Packet
    requires p.Ack?
  {
    Ack(Wrap(p.stamp), seq(|p.acks|, i requires 0 <= i < |p.acks| => WordAck(p.acks[i])), WordSegments(p.segments))
  }

  lemma {:induction false} SmallInWireSize(segments: seq<Segment>, s: Segment)
    requires s in segments
    ensures Used(s) + DATA_OVERHEAD <= WireSize(segments)
  {
    if s != segments[0] {
      SmallInWireSize(segments[1..], s);
    }
  }

  lemma {:induction false} WordsSameSize(segments: seq<Segment>)
    ensures WireSize(WordSegments(segments)) == WireSize(segments)
  {
    if segments != [] {
      assert WordSegments(segments)[1..] == WordSegments(segments[1..]);
      WordsSameSize(segments[1..]);
    }
  }

  /** A segment's length, with its number, fits the length field of its extension. */
  ghost predicate LengthsFit(tx: Sender) {
    forall s :: s in Outstanding(tx) ==> Used(s) + 4 < 0x1_0000
  }

  /** What fits a datagram fits the fields of its extensions. */
  lemma SentWordsFit(tx: Sender, room: nat)
    requires SenderInv(tx) && (room < 0x1_0000 || LengthsFit(tx))
    ensures var words := WordSegments(SentSegments(tx, room));
            (forall s :: s in words ==> SegmentFits(s)) && WireSize(words) <= room
  {
    var segments := SentSegments(tx, room);
    SentSegmentsFit(tx, room);
    WordsSameSize(segments);
    SentWasOutstanding(tx, room);
    forall i | 0 <= i < |segments| ensures SegmentFits(WordSegments(segments)[i]) {
      assert segments[i] in segments && segments[i] in Outstanding(tx);
      SmallInWireSize(segments, segments[i]);
    }
  }

  /** The room behind the fixed part of the ack extension. */
  function BlockRoom(length: nat, nonce: Option<seq<byte>>): int {
    length - HEADER_SIZE - (if nonce.Some? then 4 + NONCE_SIZE else 0) - ACK_FIXED
  }

  /** The bytes of an ack packet, for a datagram: it is created, with the segments
      its buffer has room for, exactly if two gap blocks would fit; otherwise
      nothing but the stamp is used up. */
  method CreateAckPacket(s: Stream, buffer: array<byte>, nonce: Option<seq<byte>>) returns (size: nat, ghost p: Packet)
    requires (nonce.Some? ==> |nonce.value| == NONCE_SIZE) && (buffer.Length < 0x1_0000 || LengthsFit(s.Tx()))
    requires ReceiverInv(s.Rx()) && SenderInv(s.Tx()) && NearWindow(s.Tx())
    modifies s, buffer
    ensures size <= buffer.Length
    ensures size > 0 <==> BlockRoom(buffer.Length, nonce) >= 16
    ensures size == 0 ==> s.Model() == NextStamp(old(s.Model()))
    ensures size > 0 ==>
              var e := old(s.Model()); var maxBlocks := MaxBlocks(BlockRoom(buffer.Length, nonce));
              var room := buffer.Length - AckPrefix(AckOf(e.rx, e.timestampToEcho, maxBlocks), Extras(0, false, nonce));
              p == AckPacket(e, room, maxBlocks) && s.Model() == AfterAckPacket(e, room, false)
    ensures size > 0 ==>
              PacketFits(WordPacket(p)) && buffer[..size] == Encode(WordPacket(p), Extras(0, false, nonce))
  {
    hide ReceiverInv, SenderInv, NearWindow, Wrap, AckOf, SenderAfterSend, SentSegments, U32, EncodeExtensions;
    hide PacketFits, SegmentFits, SegmentExts, MaxBlocks;
    ghost var e := s.Model();
    var stamp := s.NextLogicalStamp();
    size, p := 0, Rst(0);
    var w := new Writer(buffer);
    ghost var ack, maxBlocks := WriteFront(w, s, Wrap(stamp), nonce);
    if w.ptr.None? {
      return;
    }
    var room := buffer.Length - w.ptr.value;
    ghost var front := w.wanted;
    var segments := s.WriteDataToPacket(room, stamp);
    SentWordsFit(e.tx, room);
    SegmentsSize(WordSegments(segments));
    WriteSegments(w, WordSegments(segments));
    size := w.ptr.value;
    p := Ack(stamp, [ack], segments);
    assert p == AckPacket(e, room, maxBlocks);
    WholePacket(p, nonce, w.wanted, front);
  }

  /** What is in front of the data: header, nonce response and ack. */
  method WriteFront(w: Writer, s: Stream, stamp: u32, nonce: Option<seq<byte>>)
    returns (ghost ack: AckExtension, ghost maxBlocks: nat)
    requires w.Valid() && w.wanted == [] && w.ptr == Some(0) && ReceiverInv(s.Rx())
    requires nonce.Some? ==> |nonce.value| == NONCE_SIZE
    modifies w, w.buffer
    ensures w.Valid() && (w.ptr.Some? <==> BlockRoom(w.buffer.Length, nonce) >= 16)
    ensures w.ptr.Some? ==>
              && maxBlocks == MaxBlocks(BlockRoom(w.buffer.Length, nonce)) && maxBlocks >= 2
              && ack == AckOf(s.Rx(), s.timestampToEcho, maxBlocks) && AckFits(WordAck(ack))
              && w.wanted == [FLAG_ACK] + U32(stamp) + EncodeExtensions(NonceExts(EXTENSION_NONCE_RESPONSE, nonce)) +
                             EncodeExtension(AckExt(WordAck(ack)))
              && |w.wanted| == AckPrefix(ack, Extras(0, false, nonce))
  {
    hide ReceiverInv, AckOf, U32, EncodeExtensions, NonceExts, MaxBlocks, Writer.Valid;
    ack, maxBlocks := AckExtension(0, 0, 0, []), 2;
    WriteHeader(w, FLAG_ACK, stamp);
    if w.ptr.None? {
      return;
    }
    NonceSize(nonce);
    AddNonceResponse(w, nonce);
    ack, maxBlocks := AddAckExtension(w, s);
    if w.ptr.Some? {
      AckPayloadInverse(WordAck(ack));
    }
  }

  lemma NonceSize(nonce: Option<seq<byte>>)
    requires nonce.Some? ==> |nonce.value| == NONCE_SIZE
    ensures |EncodeExtensions(NonceExts(EXTENSION_NONCE_RESPONSE, nonce))| == if nonce.Some? then 4 + NONCE_SIZE else 0
  {
    if nonce.Some? {
      EncodeOne(Ext(EXTENSION_NONCE_RESPONSE, nonce.value));
    }
  }

  lemma WholePacket(p: Packet, nonce: Option<seq<byte>>, bytes: seq<byte>, front: seq<byte>)
    requires p.Ack? && |p.acks| == 1 && AckFits(WordAck(p.acks[0])) && (nonce.Some? ==> |nonce.value| == NONCE_SIZE)
    requires forall s :: s in WordSegments(p.segments) ==> SegmentFits(s)
    requires front == [FLAG_ACK] + U32(Wrap(p.stamp)) + EncodeExtensions(NonceExts(EXTENSION_NONCE_RESPONSE, nonce)) +
                      EncodeExtension(AckExt(WordAck(p.acks[0])))
    requires bytes == front + EncodeExtensions(SegmentExts(WordSegments(p.segments)))
    ensures PacketFits(WordPacket(p)) && bytes == Encode(WordPacket(p), Extras(0, false, nonce)) && bytes != []
  {
    hide U32, EncodeExtension, EncodeExtensions, SegmentFits, AckFits, Wrap, SegmentExts, NonceExts, AckExt, WordAck;
    var words, ack := WordPacket(p), AckExt(WordAck(p.acks[0]));
    var nonces, segments := NonceExts(EXTENSION_NONCE_RESPONSE, nonce), SegmentExts(words.segments);
    EncodeAppend(nonces + [ack], segments);
    EncodeAppend(nonces, [ack]);
    EncodeOne(ack);
    assert PacketFits(words);
    Regroup([FLAG_ACK] + U32(Wrap(p.stamp)), EncodeExtensions(nonces), EncodeExtension(ack), EncodeExtensions(segments));
  }

  lemma EncodeOne(e: Extension)
    ensures EncodeExtensions([e]) == EncodeExtension(e)
  {
    hide EncodeExtension;
    assert [e][1..] == [] && EncodeExtension(e) + [] == EncodeExtension(e);
  }

  lemma Regroup(a: seq<byte>, b: seq<byte>, c: seq<byte>, d: seq<byte>)
    ensures a + b + c + d == a + (b + c + d)
  {
  }

  // ----------------------------------------------------------------- reading

  /** The type of the extension at a position, and where its payload starts and
      ends, unless the packet ends before. */
  method ReadExtensionHeader(b: seq<byte>, at: nat) returns (ok: bool, kind: u16, start: nat, extEnd: nat)
    requires at < |b|
    ensures ok ==> start == at + 4 <= extEnd <= |b| && kind == GetU16(b[at..]) && extEnd == start + GetU16(b[at + 2..])
    ensures !ok <==> |b| - at < 4 || GetU16(b[at + 2..]) > |b| - at - 4
  {
    ok, kind, start, extEnd := false, 0, 0, 0;
    if |b| - at < 4 {
      return;
    }
    kind := GetU16(b[at..]);
    var length := GetU16(b[at + 2..]);
    if length > |b| - (at + 4) {
      return;
    }
    ok, start, extEnd := true, at + 4, at + 4 + length;
  }

  lemma ParseStep(b: seq<byte>, at: nat)
    requires at < |b|
    ensures |b| - at < 4 || GetU16(b[at + 2..]) > |b| - at - 4 ==> ParseExtensions(b[at..]).None?
    ensures |b| - at >= 4 && GetU16(b[at + 2..]) <= |b| - at - 4 ==>
              var start := at + 4; var extEnd := start + GetU16(b[at + 2..]);
              && (ParseExtensions(b[at..]).Some? <==> ParseExtensions(b[extEnd..]).Some?)
              && (ParseExtensions(b[extEnd..]).Some? ==>
                    ParseExtensions(b[at..]).value == [Ext(GetU16(b[at..]), b[start..extEnd])] + ParseExtensions(b[extEnd..]).value)
  {
    hide GetU16;
    var rest := b[at..];
    assert |b| - at >= 4 ==> rest[2..] == b[at + 2..];
    if |b| - at >= 4 && GetU16(b[at + 2..]) <= |b| - at - 4 {
      var length := GetU16(b[at + 2..]);
      assert rest[4..4 + length] == b[at + 4..at + 4 + length] && rest[4 + length..] == b[at + 4 + length..];
    }
  }

  /** Checks that every extension is complete before anything is applied. */
  method ExtensionsWellFormed(b: seq<byte>, from: nat) returns (ok: bool)
    requires from <= |b|
    ensures ok <==> ParseExtensions(b[from..]).Some?
  {
    hide ParseExtensions, GetU16;
    var at := from;
    while at < |b|
      invariant at <= |b| && (ParseExtensions(b[from..]).Some? <==> ParseExtensions(b[at..]).Some?)
    {
      ParseStep(b, at);
      var found, _, _, extEnd := ReadExtensionHeader(b, at);
      if !found {
        return false;
      }
      at := extEnd;
    }
    ParseNothing(b[at..]);
    ok := true;
  }

  lemma ParseNothing(b: seq<byte>)
    ensures b == [] ==> ParseExtensions(b) == Some([])
  {
  }

  /** The walk has passed the first k extensions. */
  ghost predicate Passed(b: seq<byte>, exts: seq<Extension>, at: nat, k: nat) {
    at <= |b| && k <= |exts| && ParseExtensions(b[at..]) == Some(exts[k..])
  }

  lemma PassNext(b: seq<byte>, exts: seq<Extension>, at: nat, k: nat)
    requires Passed(b, exts, at, k) && at < |b|
    ensures |b| - at >= 4 && GetU16(b[at + 2..]) <= |b| - at - 4
    ensures var start := at + 4; var extEnd := start + GetU16(b[at + 2..]);
            k < |exts| && exts[k] == Ext(GetU16(b[at..]), b[start..extEnd]) && Passed(b, exts, extEnd, k + 1)
  {
    hide GetU16;
    ParseStep(b, at);
    var rest := ParseExtensions(b[at + 4 + GetU16(b[at + 2..])..]).value;
    assert exts[k..][0] == exts[k] && exts[k..][1..] == exts[k + 1..] == rest;
  }

  lemma PassedAll(b: seq<byte>, exts: seq<Extension>, at: nat, k: nat)
    requires Passed(b, exts, at, k) && at >= |b|
    ensures k == |exts|
  {
    ParseNothing(b[at..]);
  }

  /** Applies the ack extensions in order; what is too short or has a part of a
      gap block is passed over. */
  method CollectAcks(b: seq<byte>, from: nat, ghost exts: seq<Extension>) returns (acks: seq<AckExtension>)
    requires Passed(b, exts, from, 0)
    ensures acks == AcksIn(exts)
  {
    hide Passed, GetU16, DecodeAckPayload;
    var at := from;
    ghost var k := 0;
    acks := [];
    PassedSize(b, exts, at, k);
    assert exts[0..] == exts;
    while at < |b|
      invariant Passed(b, exts, at, k) && at <= |b| && k <= |exts|
      invariant acks + AcksIn(exts[k..]) == AcksIn(exts)
      decreases |b| - at
    {
      PassNext(b, exts, at, k);
      var _, kind, start, extEnd := ReadExtensionHeader(b, at);
      assert exts[k..][0] == exts[k] && exts[k..][1..] == exts[k + 1..];
      if kind == EXTENSION_ACK {
        var ack := ReadAck(b[start..extEnd]);
        if ack.Some? {
          assert acks + ([ack.value] + AcksIn(exts[k + 1..])) == (acks + [ack.value]) + AcksIn(exts[k + 1..]);
          acks := acks + [ack.value];
        }
      }
      at, k := extEnd, k + 1;
      PassedSize(b, exts, at, k);
    }
    PassedAll(b, exts, at, k);
    assert acks + [] == acks;
  }

  lemma PassedSize(b: seq<byte>, exts: seq<Extension>, at: nat, k: nat)
    requires Passed(b, exts, at, k)
    ensures at <= |b| && k <= |exts|
  {
  }

  /** The fields of an ack extension and its gap blocks. */
  method ReadAck(payload: seq<byte>) returns (ack: Option<AckExtension>)
    ensures ack == DecodeAckPayload(payload)
  {
    hide GetU32;
    var length := |payload|;
    if length < 16 || (length - 16) % 8 != 0 {
      return None;
    }
    var gaps: seq<Gap> := [];
    var at := 16;
    while at < length
      invariant 16 <= at <= length && (length - at) % 8 == 0
      invariant gaps + DecodeGapBlocks(payload[at..]) == DecodeGapBlocks(payload[16..])
    {
      var gap := Gap(GetU32(payload[at..]), GetU32(payload[at + 4..]));
      assert payload[at..][4..] == payload[at + 4..] && payload[at..][8..] == payload[at + 8..];
      assert gaps + ([gap] + DecodeGapBlocks(payload[at + 8..])) == (gaps + [gap]) + DecodeGapBlocks(payload[at + 8..]);
      gaps := gaps + [gap];
      at := at + 8;
    }
    assert gaps + [] == gaps;
    ack := Some(AckExtension(GetU32(payload), GetU32(payload[4..]), GetU32(payload[8..]), gaps));
  }

  /** Collects the data and fin extensions in order. */
  method CollectSegments(b: seq<byte>, from: nat, ghost exts: seq<Extension>) returns (segments: seq<Segment>)
    requires Passed(b, exts, from, 0)
    ensures segments == SegmentsIn(exts)
  {
    hide Passed, GetU16, GetU32;
    var at := from;
    ghost var k := 0;
    segments := [];
    PassedSize(b, exts, at, k);
    assert exts[0..] == exts;
    while at < |b|
      invariant Passed(b, exts, at, k) && at <= |b| && k <= |exts|
      invariant segments + SegmentsIn(exts[k..]) == SegmentsIn(exts)
      decreases |b| - at
    {
      PassNext(b, exts, at, k);
      var _, kind, start, extEnd := ReadExtensionHeader(b, at);
      var payload := b[start..extEnd];
      assert exts[k..][0] == exts[k] && exts[k..][1..] == exts[k + 1..];
      if (kind == EXTENSION_DATA || kind == EXTENSION_FIN) && |payload| >= 4 {
        var s := Segment(GetU32(payload), if kind == EXTENSION_DATA then Data(payload[4..]) else Fin);
        assert segments + ([s] + SegmentsIn(exts[k + 1..])) == (segments + [s]) + SegmentsIn(exts[k + 1..]);
        segments := segments + [s];
      }
      at, k := extEnd, k + 1;
      PassedSize(b, exts, at, k);
    }
    PassedAll(b, exts, at, k);
    assert segments + [] == segments;
  }

  /** Reads a syn's or syn ack's extensions: later ones replace earlier ones. */
  method CollectRequest(b: seq<byte>, from: nat, ghost exts: seq<Extension>)
    returns (syn: Option<seq<byte>>, sizes: Option<seq<byte>>, badNonce: bool)
    requires Passed(b, exts, from, 0)
    ensures syn == LastOf(exts, EXTENSION_SYN) && sizes == LastOf(exts, EXTENSION_SEGMENT_SIZES)
    ensures badNonce <==> BadNonce(exts)
  {
    hide Passed, GetU16, LastOf;
    var at := from;
    ghost var k := 0;
    syn, sizes, badNonce := None, None, false;
    PassedSize(b, exts, at, k);
    LastOfNone(exts[..0], EXTENSION_SYN);
    LastOfNone(exts[..0], EXTENSION_SEGMENT_SIZES);
    while at < |b|
      invariant Passed(b, exts, at, k) && at <= |b| && k <= |exts|
      invariant syn == LastOf(exts[..k], EXTENSION_SYN) && sizes == LastOf(exts[..k], EXTENSION_SEGMENT_SIZES)
      invariant badNonce <==> BadNonce(exts[..k])
      decreases |b| - at
    {
      PassNext(b, exts, at, k);
      var _, kind, start, extEnd := ReadExtensionHeader(b, at);
      var payload := b[start..extEnd];
      assert exts[..k + 1] == exts[..k] + [exts[k]];
      LastOfAppend(exts[..k], exts[k], EXTENSION_SYN);
      LastOfAppend(exts[..k], exts[k], EXTENSION_SEGMENT_SIZES);
      if kind == EXTENSION_SEGMENT_SIZES {
        if |payload| >= 4 {
          sizes := Some(payload);
        }
      } else if kind == EXTENSION_SYN {
        if |payload| >= 4 {
          syn := Some(payload);
        }
      } else if kind == EXTENSION_NONCE {
        if |payload| < NONCE_SIZE {
          badNonce := true;
        }
      }
      at, k := extEnd, k + 1;
      PassedSize(b, exts, at, k);
    }
    PassedAll(b, exts, at, k);
    assert exts[..k] == exts;
  }

  lemma LastOfNone(exts: seq<Extension>, kind: u16)
    requires exts == []
    ensures LastOf(exts, kind) == None
  {
  }

  /** What the bytes of a packet come to. */
  method ParsePacket(b: seq<byte>) returns (d: Decoded)
    ensures d == Decode(b)
  {
    hide GetU32, GetU16, AcksIn, SegmentsIn, LastOf, BadNonce, ParseExtensions;
    if |b| < HEADER_SIZE {
      return Malformed;
    }
    var flags, stamp := b[0], GetU32(b[1..]);
    var ok := ExtensionsWellFormed(b, HEADER_SIZE);
    if !ok {
      return Malformed;
    }
    ghost var exts := ParseExtensions(b[HEADER_SIZE..]).value;
    assert exts[0..] == exts;
    if flags == FLAG_SYN {
      var syn, sizes, _ := CollectRequest(b, HEADER_SIZE, exts);
      if syn.None? {
        return Heard(stamp);
      }
      if sizes.None? {
        return Acted(Syn(stamp, GetU32(syn.value), DEFAULT_SEGMENT_SIZE, DEFAULT_SEGMENT_SIZE));
      }
      d := Acted(Syn(stamp, GetU32(syn.value), GetU16(sizes.value), GetU16(sizes.value[2..])));
    } else if flags == FLAG_SYN + FLAG_ACK {
      var syn, sizes, badNonce := CollectRequest(b, HEADER_SIZE, exts);
      if sizes.None? || syn.None? || badNonce {
        return Heard(stamp);
      }
      var acks := CollectAcks(b, HEADER_SIZE, exts);
      d := Acted(SynAck(stamp, acks, GetU32(syn.value), GetU16(sizes.value), GetU16(sizes.value[2..])));
    } else if flags == FLAG_ACK {
      var acks := CollectAcks(b, HEADER_SIZE, exts);
      var segments := CollectSegments(b, HEADER_SIZE, exts);
      d := Acted(Ack(stamp, acks, segments));
    } else if flags == FLAG_RST {
      d := Acted(Rst(stamp));
    } else {
      d := Heard(stamp);
    }
  }
}
