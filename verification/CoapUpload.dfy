/** A Block1 transfer over a network that loses, duplicates and reorders: a
    client that hears whatever messages it may, and a server that receives, in
    any order and any number of times, the packets the client has created, the
    requests for further Block2 blocks among them. */
module CoapUpload {
  import opened Basics
  import opened CoapBlock
  import opened CoapClient
  import opened CoapServer

  /** A chunk that was not the last and has been acknowledged. */
  datatype Chunk = Chunk(offset: nat, szx: nat)

  /** The application is called with a body, on account of a packet. */
  datatype Call = Call(packet: RequestPacket, body: seq<byte>)

  /** The two ends with their history: the packets on the network, the calls of the
      application, and the chunks acknowledged since the transfer last started. */
  datatype Upload = Upload(
    client: Client,
    requests: set<RequestPacket>,
    server: Option<ServerRequest>,
    calls: seq<Call>,
    acknowledged: seq<Chunk>)

  datatype Action =
    | ClientStarts
    | ClientHears(m: Reply, id: u16, maxPayload: nat)
    | ClientCreates
    | ClientCannotSend
    | ClientTimesOut(maxRetransmits: nat)
    | ClientStops
    | ServerReceives(p: RequestPacket, admitted: bool, id: u16, maxPayload: nat)
    | ServerResponds(code: nat, response: seq<byte>)
    | ServerSends
    | ServerHearsAck(id: u16)
    | ServerHearsRst(id: u16)
    | ServerTimesOut
    | ServerForgets

  function Start(k: RequestConfig): Upload {
    Upload(NewRequest(k), {}, None, [], [])
  }

  /** The history after a message: an acknowledged chunk is remembered, a restart
      forgets them. */
  function Acknowledged(acknowledged: seq<Chunk>, c: Client, c': Client): seq<Chunk> {
    if c'.block1Restarted && !c.block1Restarted then []
    else if c.block1Offset < c'.block1Offset < |c'.body| then acknowledged + [Chunk(c.block1Offset, c.block1Size)]
    else acknowledged
  }

  function OfServer(u: Upload, r: ServerRequest): Upload {
    u.(server := Some(r))
  }

  function Step(u: Upload, act: Action): Upload
    requires u.client.block1Offset <= |u.client.body|
  {
    var c, s := u.client, u.server;
    match act
    case ClientStarts => if c.state == Idle then u.(client := c.(state := SendRequest)) else u
    case ClientHears(m, id, maxPayload) =>
      var c' := HandleMessage(c, m, id, maxPayload);
      u.(client := c', acknowledged := Acknowledged(u.acknowledged, c, c'))
    case ClientCreates =>
      if c.state != SendRequest then u
      else u.(client := PacketSent(c), requests := u.requests + {CreatePacket(c)})
    case ClientCannotSend => if c.state == SendRequest then u.(client := SendFailed(c)) else u
    case ClientTimesOut(maxRetransmits) => u.(client := HandleTimeout(c, maxRetransmits))
    case ClientStops => u.(client := Stop(c))
    case ServerReceives(p, admitted, id, maxPayload) =>
      if p !in u.requests then u
      else
        var outcome := HandleRequestPacket(s, p, admitted, id, maxPayload);
        u.(server := outcome.request,
           calls := if outcome.called.Some? then u.calls + [Call(p, outcome.called.value)] else u.calls)
    case ServerResponds(code, response) =>
      if s.Some? && s.value.state == WithUser then OfServer(u, Respond(s.value, code, response)) else u
    case ServerSends =>
      if s.Some? && s.value.state == Responding && s.value.sendNow then OfServer(u, ResponseSent(s.value))
      else if s.Some? && s.value.hasBlock1Ack then OfServer(u, s.value.(hasBlock1Ack := false))
      else u
    case ServerHearsAck(id) => if s.Some? then OfServer(u, HandleAck(s.value, id)) else u
    case ServerHearsRst(id) => if s.Some? then OfServer(u, HandleRst(s.value, id)) else u
    case ServerTimesOut => if s.Some? then OfServer(u, RequestTimeout(s.value)) else u
    case ServerForgets => u.(server := None)
  }

  // ---------------------------------------------------------------- invariant

  /** A packet without body and Block1 option, as the request for a further Block2
      block is. */
  predicate FollowUp(p: RequestPacket) {
    p.block1.None? && p.payload == []
  }

  /** The packet carries the part of the body that its Block1 option says, or
      without one the whole body, or nothing. */
  ghost predicate PacketTrue(p: RequestPacket, body: seq<byte>) {
    && (p.block1.None? ==> p.payload == body || p.payload == [])
    && (p.block1.Some? ==> ChunkTrue(p.block1.value, p.payload, body))
  }

  ghost predicate ChunkTrue(v: nat, payload: seq<byte>, body: seq<byte>) {
    var start, size := Offset(v), Size(Szx(v));
    && start < |body|
    && (More(v) <==> start + size < |body|)
    && payload == if More(v) then body[start..start + size] else body[start..]
  }

  /** Some of the body, and all of it only if there is none. */
  predicate Partial(payload: seq<byte>, body: seq<byte>) {
    payload <= body && (payload == body ==> body == [])
  }

  /** A follow-up calls the application with what there is; any other packet with
      the whole body. */
  predicate CallOk(k: Call, body: seq<byte>) {
    if FollowUp(k.packet) then Partial(k.body, body) else k.body == body
  }

  ghost predicate AcknowledgedOk(acknowledged: seq<Chunk>, c: Client) {
    forall k :: k in acknowledged ==>
      Multiple(k.offset, k.szx) && k.offset + Size(k.szx) <= c.block1Offset && c.block1Size <= k.szx
  }

  ghost predicate UploadOk(u: Upload, body: seq<byte>) {
    && u.client.body == body
    && ClientOk(u.client)
    && AcknowledgedOk(u.acknowledged, u.client)
    && (forall p :: p in u.requests ==> PacketTrue(p, body))
    && (u.server.Some? && u.server.value.state == Receiving ==> Partial(u.server.value.payload, body))
    && (forall k :: k in u.calls ==> CallOk(k, body))
  }

  // ------------------------------------------------------- the client's packets

  lemma BlocksMonotone(a: nat, b: nat, szx: nat)
    requires a <= b
    ensures Blocks(a, szx) <= Blocks(b, szx)
  {
    hide Size;
    assert a == Blocks(a, szx) * Size(szx) + a % Size(szx);
    QuotientAtLeast(b, Blocks(a, szx), Size(szx));
  }

  /** The Block1 option of a packet decodes back to the offset, within its 20
      bit number. */
  lemma EmittedBlock1IsExact(c: Client)
    requires ClientOk(c) && c.block1Offset < |c.body|
    ensures var p := CreatePacket(c);
            p.block1.Some? ==>
              Offset(p.block1.value) == c.block1Offset && Num(p.block1.value) <= BLOCK_NUM_MAX && p.block1.value < 0x100_0000
  {
    hide Size;
    var num := Blocks(c.block1Offset, c.block1Size);
    var more := |c.body| - c.block1Offset > Size(c.block1Size);
    BlockOptionInverse(num, more, c.block1Size);
    OffsetOfQuotient(c.block1Offset, c.block1Size);
    BlocksMonotone(c.block1Offset, |c.body|, c.block1Size);
    BlockOptionFits(num, more, c.block1Size);
  }

  lemma SmallMultipleIsZero(n: nat, size: nat)
    requires size > 0 && n % size == 0 && n < size
    ensures n == 0
  {
  }

  lemma CreatedPacketTrue(c: Client)
    requires ClientOk(c)
    ensures PacketTrue(CreatePacket(c), c.body)
  {
    hide Size;
    var p, size := CreatePacket(c), Size(c.block1Size);
    if c.block1Offset < |c.body| && !FetchingFurther(c) {
      EmittedBlock1IsExact(c);
      var more := |c.body| - c.block1Offset > size;
      BlockOptionInverse(Blocks(c.block1Offset, c.block1Size), more, c.block1Size);
      if |c.body| <= size {
        SmallMultipleIsZero(c.block1Offset, size);
      }
    }
  }

  // --------------------------------------------------------- the server's part

  /** A chunk that continues a part of the body makes a longer part, and the last
      one the whole body. */
  lemma ChunkExtends(r: ServerRequest, p: RequestPacket, body: seq<byte>)
    requires p.block1.Some? && ChunkTrue(p.block1.value, p.payload, body) && r.payload <= body
    requires |r.payload| == Offset(p.block1.value)
    ensures if More(p.block1.value) then Partial(r.payload + p.payload, body) else r.payload + p.payload == body
  {
    hide Size, Offset;
    var start := Offset(p.block1.value);
    assert r.payload == body[..start];
  }

  lemma DataKeepsBody(r: ServerRequest, p: RequestPacket, maxPayload: nat, body: seq<byte>)
    requires r.state == Receiving && Partial(r.payload, body) && PacketTrue(p, body)
    ensures var o := HandleData(r, p, maxPayload);
            && (o.request.Some? && o.request.value.state == Receiving ==> Partial(o.request.value.payload, body))
            && (o.called.Some? ==> CallOk(Call(p, o.called.value), body))
  {
    hide Size, Offset, ChunkTrue;
    if p.block1.Some? && !Misplaced(r, p) {
      ChunkExtends(r, p, body);
    }
  }

  lemma RespondingStays(r: ServerRequest, p: RequestPacket, id: u16)
    ensures HandleBlock2Request(r, p, id).state == Receiving ==> r.state == Receiving
    ensures r.state == Responding ==> HandleBlock2Request(r, p, id).state != Receiving
  {
  }

  lemma ReceiveKeeps(s: Option<ServerRequest>, p: RequestPacket, admitted: bool, id: u16, maxPayload: nat, body: seq<byte>)
    requires s.Some? && s.value.state == Receiving ==> Partial(s.value.payload, body)
    requires PacketTrue(p, body)
    ensures var o := HandleRequestPacket(s, p, admitted, id, maxPayload);
            && (o.request.Some? && o.request.value.state == Receiving ==> Partial(o.request.value.payload, body))
            && (o.called.Some? ==> CallOk(Call(p, o.called.value), body))
  {
    hide HandleData, PacketTrue, HandleBlock2Request, CallOk;
    match s
    case None => if admitted { DataKeepsBody(NewServerRequest(p, id), p, maxPayload, body); }
    case Some(r) =>
      RespondingStays(r, p, id);
      if r.state == Receiving && r.messageId != p.messageId {
        DataKeepsBody(r, p, maxPayload, body);
      }
  }

  // ---------------------------------------------------------- the client's part

  /** How the place in the body moves: it stays, goes on by the chunk in flight,
      or, once, back to the start; the size never grows. */
  ghost predicate Progress(c: Client, c': Client) {
    && c'.body == c.body && c'.block1Size <= c.block1Size
    && (if c'.block1Restarted && !c.block1Restarted then c'.block1Offset == 0
        else c'.block1Offset == c.block1Offset || c'.block1Offset == |c.body| || c'.block1Offset == c.block1Offset + Size(c.block1Size))
  }

  lemma AdvanceProgress(c: Client, block1: nat)
    requires ClientOk(c)
    ensures Progress(c, AdvanceBlock1(c, block1)) && AdvanceBlock1(c, block1) == c.(
              block1Offset := AdvanceBlock1(c, block1).block1Offset, block1Size := AdvanceBlock1(c, block1).block1Size)
  {
    hide Size;
    AdvanceKeeps(c, block1);
  }

  lemma AfterPlacedProgress(c: Client, m: Reply, id: u16)
    requires ClientOk(c)
    ensures Progress(c, AfterPlaced(c, m, id))
  {
    hide Size, ClientOk, AdvanceBlock1;
    if m.block1.Some? {
      AdvanceProgress(c, m.block1.value);
    }
  }

  lemma HearingProgress(c: Client, m: Reply, id: u16, maxPayload: nat)
    requires ClientOk(c)
    ensures Progress(c, HandleMessage(c, m, id, maxPayload))
  {
    hide Size, Place, Received, AfterPlaced, ClientOk, WithPlaced, Num;
    OffsetInBody(c);
    var place := Place(Received(c, m), m, maxPayload);
    if place.Placed? {
      PlacedIsSame(c, m, place.body);
      AfterPlacedProgress(WithPlaced(c, m, place.body), m, id);
    }
  }

  lemma HearingAcknowledges(acknowledged: seq<Chunk>, c: Client, c': Client)
    requires ClientOk(c) && Progress(c, c') && AcknowledgedOk(acknowledged, c)
    ensures AcknowledgedOk(Acknowledged(acknowledged, c, c'), c')
  {
    hide Size;
    var after := Acknowledged(acknowledged, c, c');
    forall k | k in after
      ensures Multiple(k.offset, k.szx) && k.offset + Size(k.szx) <= c'.block1Offset && c'.block1Size <= k.szx
    {
      if k !in acknowledged {
        assert k == Chunk(c.block1Offset, c.block1Size);
      }
    }
  }

  lemma HearsKeeps(u: Upload, m: Reply, id: u16, maxPayload: nat, body: seq<byte>)
    requires UploadOk(u, body)
    ensures UploadOk(Step(u, ClientHears(m, id, maxPayload)), body)
  {
    hide HandleMessage, ClientOk, PacketTrue, Acknowledged, AcknowledgedOk;
    OffsetInBody(u.client);
    var c, c' := u.client, HandleMessage(u.client, m, id, maxPayload);
    MessageKeeps(c, m, id, maxPayload);
    HearingProgress(c, m, id, maxPayload);
    HearingAcknowledges(u.acknowledged, c, c');
  }

  lemma CreatesKeeps(u: Upload, body: seq<byte>)
    requires UploadOk(u, body)
    ensures UploadOk(Step(u, ClientCreates), body)
  {
    hide PacketTrue, AcknowledgedOk, CreatePacket;
    var c := u.client;
    CreatedPacketTrue(c);
    SameAcknowledged(u.acknowledged, c, PacketSent(c));
  }

  lemma SameAcknowledged(acknowledged: seq<Chunk>, c: Client, c': Client)
    requires SameFields(c, c')
    ensures AcknowledgedOk(acknowledged, c) ==> AcknowledgedOk(acknowledged, c')
  {
  }

  lemma ReceivesKeeps(u: Upload, p: RequestPacket, admitted: bool, id: u16, maxPayload: nat, body: seq<byte>)
    requires UploadOk(u, body)
    ensures UploadOk(Step(u, ServerReceives(p, admitted, id, maxPayload)), body)
  {
    hide HandleRequestPacket, PacketTrue, AcknowledgedOk, ClientOk, CallOk, Partial;
    if p in u.requests {
      ReceiveKeeps(u.server, p, admitted, id, maxPayload, body);
    }
  }

  lemma StepKeeps(u: Upload, act: Action, body: seq<byte>)
    requires UploadOk(u, body)
    ensures UploadOk(Step(u, act), body)
  {
    hide PacketTrue, AcknowledgedOk, HandleMessage, HandleRequestPacket, CreatePacket, ApplyBlock2Request, Size;
    match act
    case ClientHears(m, id, maxPayload) => HearsKeeps(u, m, id, maxPayload, body);
    case ClientCreates => CreatesKeeps(u, body);
    case ServerReceives(p, admitted, id, maxPayload) => ReceivesKeeps(u, p, admitted, id, maxPayload, body);
    case ClientStarts => SameAcknowledged(u.acknowledged, u.client, Step(u, act).client);
    case ClientCannotSend => SameAcknowledged(u.acknowledged, u.client, Step(u, act).client);
    case ClientTimesOut(maxRetransmits) => SameAcknowledged(u.acknowledged, u.client, Step(u, act).client);
    case ClientStops => SameAcknowledged(u.acknowledged, u.client, Step(u, act).client);
    case _ =>
  }

  // -------------------------------------------------------------------- runs

  lemma StartOk(k: RequestConfig)
    requires BodyFits(k.body)
    ensures UploadOk(Start(k), k.body)
  {
    NewRequestOk(k);
  }

  ghost function Run(u: Upload, acts: seq<Action>, body: seq<byte>): Upload
    requires UploadOk(u, body)
    decreases |acts|
  {
    if acts == [] then u else
      StepKeeps(u, acts[0], body);
      Run(Step(u, acts[0]), acts[1..], body)
  }

  lemma {:induction false} RunKeeps(u: Upload, acts: seq<Action>, body: seq<byte>)
    requires UploadOk(u, body)
    ensures UploadOk(Run(u, acts, body), body)
    decreases |acts|
  {
    hide Step;
    if acts != [] {
      StepKeeps(u, acts[0], body);
      RunKeeps(Step(u, acts[0]), acts[1..], body);
    }
  }

  /** The transfer after any actions. */
  ghost function After(c: RequestConfig, acts: seq<Action>): Upload
    requires BodyFits(c.body)
  {
    StartOk(c);
    Run(Start(c), acts, c.body)
  }

  lemma AfterKeeps(c: RequestConfig, acts: seq<Action>)
    requires BodyFits(c.body)
    ensures UploadOk(After(c, acts), c.body)
  {
    hide UploadOk;
    StartOk(c);
    RunKeeps(Start(c), acts, c.body);
  }

  /** What the server has put together is always a proper prefix of the client's
      body, and every packet but a follow-up calls the application with the whole
      body; a follow-up calls it with a proper prefix: with the whole body exactly if
      that is empty. */
  lemma BodyIsNeverTorn(c: RequestConfig, acts: seq<Action>)
    requires BodyFits(c.body)
    ensures var u := After(c, acts);
            && (u.server.Some? && u.server.value.state == Receiving ==>
                  u.server.value.payload <= c.body && (u.server.value.payload == c.body ==> c.body == []))
            && (forall k :: k in u.calls && !FollowUp(k.packet) ==> k.body == c.body)
            && (forall k :: k in u.calls && FollowUp(k.packet) ==> k.body <= c.body && (k.body == c.body <==> c.body == []))
  {
    AfterKeeps(c, acts);
  }

  /** After any messages, the offset is a whole number of blocks of the size in
      force or the length of the body, and the Block1 option of the next packet
      decodes back to it within the 20 bits of its number. */
  lemma OffsetIsExact(c: RequestConfig, acts: seq<Action>)
    requires BodyFits(c.body)
    ensures var k := After(c, acts).client;
            && k.body == c.body && k.block1Offset <= |c.body|
            && (Multiple(k.block1Offset, k.block1Size) || k.block1Offset == |c.body|)
            && (k.block1Offset < |c.body| && CreatePacket(k).block1.Some? ==>
                  var v := CreatePacket(k).block1.value;
                  Offset(v) == k.block1Offset && Szx(v) == k.block1Size && Num(v) <= BLOCK_NUM_MAX && v < 0x100_0000)
  {
    hide Size, After;
    AfterKeeps(c, acts);
    var k := After(c, acts).client;
    if k.block1Offset < |c.body| {
      EmittedBlock1IsExact(k);
      BlockOptionInverse(Blocks(k.block1Offset, k.block1Size), |k.body| - k.block1Offset > Size(k.block1Size), k.block1Size);
    }
  }

  /** Between restarts, a reply for any chunk that was acknowledged and was not
      the last is a stale one, whatever size the chunk was sent with. */
  lemma EarlierRepliesAreStale(c: RequestConfig, acts: seq<Action>, k: Chunk, block1: nat)
    requires BodyFits(c.body) && k in After(c, acts).acknowledged && Num(block1) == Blocks(k.offset, k.szx)
    ensures Classify(After(c, acts).client, block1) == Stale
  {
    hide Size, After;
    AfterKeeps(c, acts);
    var client := After(c, acts).client;
    NumberIsPassed(k.offset, k.szx, client.block1Size, client.block1Offset);
  }
}
