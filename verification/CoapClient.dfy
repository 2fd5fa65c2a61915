/** A CoAP client request: the request body is sent as Block1 chunks, the
    response body is put together from Block2 blocks (RFC 7959). */
module CoapClient {
  import opened Basics
  import opened CoapBlock

  datatype Kind = Con | Non | Ack | Rst

  const CODE_CONTINUE: nat := 95
  const CODE_TOO_LARGE: nat := 141
  const DEFAULT_SZX: nat := 5
  const MAX_RETRANSMIT: nat := 4

  function Class(code: nat): nat { code / 32 }

  /** A message to the client. */
  datatype Reply = Reply(kind: Kind, code: nat, messageId: u16, block1: Option<nat>, block2: Option<nat>, repeatedBlock: bool, payload: seq<byte>)

  /** A packet the client creates for its request. */
  datatype RequestPacket = RequestPacket(kind: Kind, messageId: u16, contentFormat: Option<nat>,
    block1: Option<nat>, block2: Option<nat>, payload: seq<byte>)

  datatype RequestState = Idle | SendRequest | WaitAck | WaitResponse | DoneCallback | Done

  datatype RequestStatus = StatusOk | TimedOut | WasReset | Stopped | DecodeError

  datatype Response = Response(code: nat, payload: seq<byte>)

  datatype Client = Client(
    state: RequestState,
    status: RequestStatus,
    kind: Kind,
    messageId: u16,
    retransmissions: nat,
    body: seq<byte>,
    contentFormat: Option<nat>,
    block1Size: nat,
    block1Offset: nat,
    block1Restarted: bool,
    block2: Option<nat>,
    response: Option<Response>)

  predicate Waiting(c: Client) {
    c.state == WaitAck || c.state == WaitResponse
  }

  // ------------------------------------------------------------------ Block1

  /** May this size be taken over: smaller than the one in force, and not so
      small that the block number leaves its 20 bits? */
  predicate CanAdopt(c: Client, szx: nat)
  {
    szx < c.block1Size && Blocks(|c.body|, szx) <= BLOCK_NUM_MAX
  }

  function Adopt(c: Client, szx: nat): Client {
    if CanAdopt(c, szx) then c.(block1Size := szx) else c
  }

  datatype Advance = Advanced | Stale | Bad

  /** How a success that echoes this Block1 option relates to the chunk in flight. */
  function Classify(c: Client, block1: nat): Advance {
    var current := Blocks(c.block1Offset, c.block1Size);
    if Num(block1) < current then Stale
    else if Num(block1) > current then Bad
    else Advanced
  }

  /** The offset advances by what was sent, and only then a smaller size is adopted. */
  function AdvanceBlock1(c: Client, block1: nat): Client
    requires c.block1Offset <= |c.body|
  {
    var rest := |c.body| - c.block1Offset;
    var step := if rest > Size(c.block1Size) then Size(c.block1Size) else rest;
    Adopt(c.(block1Offset := c.block1Offset + step), Szx(block1))
  }

  function SendAgain(c: Client, id: u16): Client {
    c.(state := SendRequest, messageId := id, retransmissions := 0)
  }

  // ------------------------------------------------------------------ Block2

  /** A message starts a fresh response unless it continues a Block2 transfer. */
  predicate FreshResponse(m: Reply) {
    !(m.block2.Some? && Offset(m.block2.value) > 0)
  }

  /** What has been received of the response body before this message counts. */
  function Received(c: Client, m: Reply): seq<byte> {
    if c.response.None? || FreshResponse(m) then [] else c.response.value.payload
  }

  datatype Placing = Duplicate | Overlaps | TooLarge | Gap | WrongSize | Placed(body: seq<byte>)

  /** What a message does to the response body received so far. */
  function Place(held: seq<byte>, m: Reply, maxPayload: nat): Placing {
    if m.block2.Some? && Offset(m.block2.value) < |held| then
      (if Offset(m.block2.value) + |m.payload| > |held| then Overlaps else Duplicate)
    else if |held| + |m.payload| > maxPayload then TooLarge
    else if m.block2.Some? then
      (if Offset(m.block2.value) != |held| then Gap
       else if More(m.block2.value) && |m.payload| != Size(Szx(m.block2.value)) then WrongSize
       else Placed(held + m.payload))
    else if |m.payload| > 0 then Placed(m.payload)
    else Placed(held)
  }

  // ---------------------------------------------------------------- responses

  /** The request with the response cleared, if the message starts a fresh one. */
  function Prepared(c: Client, m: Reply): Client {
    c.(response := Some(Response(m.code, Received(c, m))),
       block2 := if c.response.Some? && FreshResponse(m) then None else c.block2)
  }

  function NextBlock2(m: Reply): nat
    requires m.block2.Some?
  {
    (Num(m.block2.value) + 1) * 16 + Szx(m.block2.value)
  }

  /** The request with what has been received of the response. */
  function WithPlaced(c: Client, m: Reply, body: seq<byte>): Client {
    var p := Prepared(c, m);
    p.(response := Some(Response(m.code, body)),
       block2 := if m.block2.Some? then Some(NextBlock2(m)) else p.block2)
  }

  /** The exchange goes on with the next Block2 block or is over. */
  function Finish(c: Client, m: Reply, id: u16): Client {
    if m.block2.Some? && More(m.block2.value) then SendAgain(c, id) else c.(state := DoneCallback)
  }

  /** After the payload has been placed. */
  function AfterPlaced(c: Client, m: Reply, id: u16): Client
    requires c.block1Offset <= |c.body|
  {
    if m.block1.Some? && m.code == CODE_TOO_LARGE && !c.block1Restarted && CanAdopt(c, Szx(m.block1.value)) then
      SendAgain(c.(block1Size := Szx(m.block1.value), block1Restarted := true, block1Offset := 0), id)
    else if m.block1.Some? && Class(m.code) == 2 then
      match Classify(c, m.block1.value)
      case Stale => c
      case Bad => c.(response := None)
      case Advanced =>
        var c' := AdvanceBlock1(c, m.block1.value);
        if c'.block1Offset < |c'.body| then SendAgain(c', id) else Finish(c', m, id)
    else Finish(c, m, id)
  }

  function HandleResponse(c: Client, m: Reply, id: u16, maxPayload: nat): Client
    requires c.block1Offset <= |c.body|
  {
    match Place(Received(c, m), m, maxPayload)
    case Duplicate => Prepared(c, m)
    case Placed(body) => AfterPlaced(WithPlaced(c, m, body), m, id)
    case _ => Prepared(c, m).(response := None)
  }

  predicate Rejected(m: Reply) {
    m.repeatedBlock || (m.block1.Some? && Szx(m.block1.value) == 7) || (m.block2.Some? && Szx(m.block2.value) == 7)
  }

  /** A message for this request's token, or an empty ack or reset for its
      message id, arrives. */
  function HandleMessage(c: Client, m: Reply, id: u16, maxPayload: nat): Client
    requires c.block1Offset <= |c.body|
  {
    if Rejected(m) then c
    else if m.kind == Ack && m.code == 0 then
      (if c.state == WaitAck && c.messageId == m.messageId then c.(state := WaitResponse) else c)
    else if m.kind == Rst then
      (if (c.state == WaitAck || (c.state == WaitResponse && c.kind == Non)) && c.messageId == m.messageId
       then c.(status := WasReset, state := DoneCallback) else c)
    else if Waiting(c) then HandleResponse(c, m, id, maxPayload)
    else c
  }

  // ------------------------------------------------------------------ sending

  predicate FetchingFurther(c: Client) {
    c.block2.Some? && Num(c.block2.value) > 0
  }

  /** The chunk of the body the next packet carries. */
  function Chunk(c: Client): seq<byte>
    requires c.block1Offset <= |c.body|
  {
    var size := Size(c.block1Size);
    if |c.body| - c.block1Offset > size then c.body[c.block1Offset..c.block1Offset + size] else c.body[c.block1Offset..]
  }

  function CreatePacket(c: Client): RequestPacket
    requires c.block1Offset <= |c.body|
  {
    var size := Size(c.block1Size);
    if FetchingFurther(c) || c.block1Offset == |c.body| then
      RequestPacket(c.kind, c.messageId, c.contentFormat, None, c.block2, [])
    else
      RequestPacket(c.kind, c.messageId, c.contentFormat,
        if |c.body| > size
        then Some(BlockOption(Blocks(c.block1Offset, c.block1Size), |c.body| - c.block1Offset > size, c.block1Size)) else None,
        c.block2, Chunk(c))
  }

  function PacketSent(c: Client): Client {
    c.(state := if c.kind == Non then WaitResponse else WaitAck)
  }

  /** The packet does not fit the buffer: the request fails. */
  function SendFailed(c: Client): Client {
    c.(status := DecodeError, state := DoneCallback)
  }

  function HandleTimeout(c: Client, maxRetransmits: nat): Client {
    if c.state == WaitAck then
      (if c.retransmissions >= maxRetransmits then c.(status := TimedOut, state := DoneCallback)
       else c.(retransmissions := c.retransmissions + 1, state := SendRequest))
    else if c.state == WaitResponse then c.(status := TimedOut, state := DoneCallback)
    else c
  }

  function Stop(c: Client): Client {
    if c.state == SendRequest || Waiting(c) then c.(status := Stopped, state := DoneCallback) else c
  }

  /** Not yet over. */
  predicate Active(c: Client) {
    c.state == Idle || c.state == SendRequest || Waiting(c)
  }

  // ---------------------------------------------------------------- invariant

  /** The offset is a number of whole blocks of the size in force, or the end of
      the body, and every block number fits its 20 bits. */
  ghost predicate ClientOk(c: Client) {
    && c.block1Size <= DEFAULT_SZX
    && c.block1Offset <= |c.body|
    && (Multiple(c.block1Offset, c.block1Size) || c.block1Offset == |c.body|)
    && Blocks(|c.body|, c.block1Size) <= BLOCK_NUM_MAX
  }

  /** A body of fewer than 2^20 blocks of the initial size. */
  predicate BodyFits(body: seq<byte>) {
    |body| < (BLOCK_NUM_MAX + 1) * Size(DEFAULT_SZX)
  }

  /** What a request starts with. */
  datatype RequestConfig = RequestConfig(kind: Kind, messageId: u16, body: seq<byte>, contentFormat: Option<nat>)

  function NewRequest(k: RequestConfig): Client {
    Client(Idle, StatusOk, k.kind, k.messageId, 0, k.body, k.contentFormat, DEFAULT_SZX, 0, false, None, None)
  }

  lemma NewRequestOk(k: RequestConfig)
    requires BodyFits(k.body)
    ensures ClientOk(NewRequest(k))
  {
    assert Size(DEFAULT_SZX) == 512 by { assert Size(4) == 2 * Size(3) && Size(2) == 2 * Size(1); }
  }

  lemma AdoptKeeps(c: Client, szx: nat)
    requires ClientOk(c)
    ensures ClientOk(Adopt(c, szx)) && Adopt(c, szx).block1Size <= c.block1Size
  {
    hide Size;
    if CanAdopt(c, szx) && Multiple(c.block1Offset, c.block1Size) {
      ShrinkKeepsMultiple(c.block1Offset, c.block1Size, szx);
    }
  }

  lemma SumMultiple(a: nat, szx: nat)
    requires Multiple(a, szx)
    ensures Multiple(a + Size(szx), szx)
  {
    hide Size;
    var size := Size(szx);
    OffsetOfQuotient(a, szx);
    assert (Blocks(a, szx) + 1) * size == Blocks(a, szx) * size + size;
    MultipleIs(Blocks(a, szx) + 1, size);
  }

  lemma AdvanceKeeps(c: Client, block1: nat)
    requires ClientOk(c)
    ensures ClientOk(AdvanceBlock1(c, block1)) && AdvanceBlock1(c, block1).block1Size <= c.block1Size
  {
    hide Size, Adopt;
    var size := Size(c.block1Size);
    var rest := |c.body| - c.block1Offset;
    if rest > size {
      SumMultiple(c.block1Offset, c.block1Size);
      AdoptKeeps(c.(block1Offset := c.block1Offset + size), Szx(block1));
    } else {
      AdoptKeeps(c.(block1Offset := |c.body|), Szx(block1));
    }
  }

  lemma RestartKeeps(c: Client, szx: nat)
    requires ClientOk(c) && CanAdopt(c, szx)
    ensures ClientOk(c.(block1Size := szx, block1Offset := 0))
  {
    hide Size;
    MultipleIs(0, Size(szx));
  }

  lemma AfterPlacedKeeps(c: Client, m: Reply, id: u16)
    requires ClientOk(c)
    ensures ClientOk(AfterPlaced(c, m, id)) && AfterPlaced(c, m, id).body == c.body
  {
    hide Size, Multiple;
    if m.block1.Some? {
      AdvanceKeeps(c, m.block1.value);
      if CanAdopt(c, Szx(m.block1.value)) {
        RestartKeeps(c, Szx(m.block1.value));
      }
    }
  }

  lemma ResponseKeeps(c: Client, m: Reply, id: u16, maxPayload: nat)
    requires ClientOk(c)
    ensures ClientOk(HandleResponse(c, m, id, maxPayload)) && HandleResponse(c, m, id, maxPayload).body == c.body
  {
    hide Size, Multiple, AfterPlaced, Place, Received, Offset, NextBlock2;
    var place := Place(Received(c, m), m, maxPayload);
    if place.Placed? {
      AfterPlacedKeeps(WithPlaced(c, m, place.body), m, id);
    }
  }

  /** Whatever messages arrive, the offset stays a multiple of the block size in
      force or is the length of the body. */
  lemma MessageKeeps(c: Client, m: Reply, id: u16, maxPayload: nat)
    requires ClientOk(c)
    ensures ClientOk(HandleMessage(c, m, id, maxPayload)) && HandleMessage(c, m, id, maxPayload).body == c.body
  {
    hide HandleResponse, Size, Multiple;
    ResponseKeeps(c, m, id, maxPayload);
  }

  lemma OffsetInBody(c: Client)
    requires ClientOk(c)
    ensures c.block1Offset <= |c.body|
  {
  }

  predicate SameFields(c: Client, c': Client) {
    c'.body == c.body && c'.block1Size == c.block1Size && c'.block1Offset == c.block1Offset
  }

  lemma PlacedIsSame(c: Client, m: Reply, body: seq<byte>)
    requires ClientOk(c)
    ensures var p := WithPlaced(c, m, body);
            ClientOk(p) && SameFields(c, p) && p.block1Restarted == c.block1Restarted && p.state == c.state
  {
  }
}
