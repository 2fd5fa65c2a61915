/** One request at a CoAP server: its body is put together from Block1 chunks,
    the application is called with it, and the response is served block by
    block (RFC 7959). */
module CoapServer {
  import opened Basics
  import opened CoapBlock
  import opened CoapClient

  const CODE_BAD_REQUEST: nat := 128
  const BLOCK2_DEFAULT_SZX: nat := 5

  /** The diagnostic text "Bad block option". */
  function BadBlockOption(): seq<byte> {
    [66, 97, 100, 32, 98, 108, 111, 99, 107, 32, 111, 112, 116, 105, 111, 110]
  }

  datatype ServerState = Receiving | WithUser | Responding | Finished

  datatype ServerRequest = ServerRequest(
    state: ServerState,
    kind: Kind,
    messageId: u16,
    payload: seq<byte>,
    contentFormat: Option<nat>,
    hasBlock1: bool,
    block1Ack: nat,
    hasBlock1Ack: bool,
    block2Request: Option<nat>,
    code: nat,
    response: seq<byte>,
    block2Size: nat,
    block2Current: nat,
    responseId: u16,
    sendNow: bool,
    waitingForAck: bool,
    retransmissions: nat)

  /** What handling a packet comes to: the request, unless it is dropped, and the
      body the application is called with, if it is. */
  datatype Outcome = Outcome(request: Option<ServerRequest>, called: Option<seq<byte>>)

  function NewServerRequest(p: RequestPacket, responseId: u16): ServerRequest {
    ServerRequest(Receiving, p.kind, p.messageId, [], None, false, 0, false, None,
                  0, [], BLOCK2_DEFAULT_SZX, 0, responseId, false, false, 0)
  }

  // ---------------------------------------------------------------- receiving

  /** A reserved size, another content format or too much for the limit: an
      error is answered and the request is dropped. */
  predicate Refused(r: ServerRequest, p: RequestPacket, maxPayload: nat) {
    || (p.block1.Some? && Szx(p.block1.value) == 7)
    || (p.block2.Some? && Szx(p.block2.value) == 7)
    || (p.contentFormat.Some? && r.contentFormat.Some? && r.contentFormat != p.contentFormat)
    || |r.payload| + |p.payload| > maxPayload
  }

  /** A chunk that does not continue the body, or that is not whole. */
  predicate Misplaced(r: ServerRequest, p: RequestPacket) {
    p.block1.Some? &&
    (|r.payload| != Offset(p.block1.value) || (More(p.block1.value) && |p.payload| != Size(Szx(p.block1.value))))
  }

  const CODE_INCOMPLETE: nat := 136

  /** The code of the error that is answered when a packet is not taken. */
  function ErrorCode(r: ServerRequest, p: RequestPacket, maxPayload: nat): nat {
    if (p.block1.Some? && Szx(p.block1.value) == 7) || (p.block2.Some? && Szx(p.block2.value) == 7) then CODE_BAD_REQUEST
    else if p.contentFormat.Some? && r.contentFormat.Some? && r.contentFormat != p.contentFormat then CODE_INCOMPLETE
    else if |r.payload| + |p.payload| > maxPayload then CODE_TOO_LARGE
    else if p.block1.Some? && |r.payload| != Offset(p.block1.value) then CODE_INCOMPLETE
    else CODE_BAD_REQUEST
  }

  function WithOptions(r: ServerRequest, p: RequestPacket): ServerRequest {
    r.(contentFormat := if p.contentFormat.Some? then p.contentFormat else r.contentFormat,
       block2Request := if p.block2.Some? then p.block2 else r.block2Request)
  }

  function WithChunk(r: ServerRequest, p: RequestPacket): ServerRequest
    requires p.block1.Some?
  {
    var more := More(p.block1.value);
    WithOptions(r, p).(
      hasBlock1 := true,
      payload := r.payload + p.payload,
      messageId := p.messageId,
      block1Ack := BlockOption(Num(p.block1.value), more, Szx(p.block1.value)),
      hasBlock1Ack := more || r.hasBlock1Ack)
  }

  function HandleData(r: ServerRequest, p: RequestPacket, maxPayload: nat): Outcome {
    if Refused(r, p, maxPayload) || Misplaced(r, p) then Outcome(None, None)
    else if p.block1.Some? && More(p.block1.value) then Outcome(Some(WithChunk(r, p)), None)
    else
      var r' := if p.block1.Some? then WithChunk(r, p)
                else WithOptions(r, p).(payload := if p.payload == [] then r.payload else p.payload);
      Outcome(Some(r'.(state := WithUser)), Some(r'.payload))
  }

  /** A confirmable duplicate of a chunk that has been acknowledged with a
      Continue is acknowledged again. */
  function HandleDuplicate(r: ServerRequest, kind: Kind): ServerRequest {
    if kind == Con && r.state == Receiving && More(r.block1Ack) then r.(hasBlock1Ack := true) else r
  }

  // --------------------------------------------------------------- responding

  /** The request for a certain block applies to the response the application
      has given: a smaller size is taken over, and the block starts at the same
      byte. */
  function ApplyBlock2Request(r: ServerRequest): ServerRequest {
    match r.block2Request
    case None => r
    case Some(v) =>
      var size := if Szx(v) < r.block2Size then Szx(v) else r.block2Size;
      var r' := r.(block2Request := None, block2Size := size);
      if Offset(v) != 0 && Offset(v) >= |r.response| then
        r'.(code := CODE_BAD_REQUEST, response := BadBlockOption(), block2Current := 0)
      else r'.(block2Current := Blocks(Offset(v), size))
  }

  function Respond(r: ServerRequest, code: nat, response: seq<byte>): ServerRequest {
    ApplyBlock2Request(r.(code := code, response := response)).(state := Responding, sendNow := true)
  }

  predicate BadBlock(r: ServerRequest, v: nat) {
    Szx(v) == 7 || (Offset(v) != 0 && Offset(v) >= |r.response|)
  }

  function HandleBlock2Request(r: ServerRequest, p: RequestPacket, id: u16): ServerRequest {
    match p.block2
    case None => r
    case Some(v) =>
      if BadBlock(r, v) then r.(state := Finished)
      else r.(messageId := p.messageId, block2Current := Num(v), block2Size := Szx(v), responseId := id,
              sendNow := true, waitingForAck := false, retransmissions := 0)
  }

  /** A packet for the token of this request, or of no request; admitted says
      whether a new request finds its resource and room in the table. */
  function HandleRequestPacket(r: Option<ServerRequest>, p: RequestPacket, admitted: bool, id: u16, maxPayload: nat): Outcome {
    match r
    case None => if admitted then HandleData(NewServerRequest(p, id), p, maxPayload) else Outcome(None, None)
    case Some(s) =>
      if s.messageId == p.messageId then Outcome(Some(HandleDuplicate(s, p.kind)), None)
      else if s.state == Receiving then HandleData(s, p, maxPayload)
      else if s.state == Responding then Outcome(Some(HandleBlock2Request(s, p, id)), None)
      else Outcome(Some(s), None)
  }

  /** The error a packet for a listed request is answered with, if any. */
  function FailureCode(r: ServerRequest, p: RequestPacket, maxPayload: nat): Option<nat> {
    if r.messageId == p.messageId then None
    else if r.state == Receiving then
      if HandleData(r, p, maxPayload).request.None? then Some(ErrorCode(r, p, maxPayload)) else None
    else if r.state == Responding && p.block2.Some? && BadBlock(r, p.block2.value) then Some(CODE_BAD_REQUEST)
    else None
  }

  /** Is a packet for a listed request answered with an empty ack? A chunk that
      gets a Continue is not. */
  predicate AckDue(r: ServerRequest, p: RequestPacket, maxPayload: nat) {
    p.kind == Con &&
    if r.messageId == p.messageId then !(r.state == Receiving && More(r.block1Ack))
    else if r.state == Receiving then
      var o := HandleData(r, p, maxPayload);
      o.request.Some? && !o.request.value.hasBlock1Ack
    else r.state == Responding && p.block2.Some? && !BadBlock(r, p.block2.value)
  }

  // ------------------------------------------------------------------ sending

  function BlockStart(r: ServerRequest): nat { r.block2Current * Size(r.block2Size) }

  /** The block of the response the next packet carries. */
  function Block(r: ServerRequest): seq<byte> {
    var start, size := BlockStart(r), Size(r.block2Size);
    if start >= |r.response| then []
    else if |r.response| - start > size then r.response[start..start + size]
    else r.response[start..]
  }

  function ResponsePacket(r: ServerRequest): Reply {
    var start, size := BlockStart(r), Size(r.block2Size);
    Reply(r.kind, r.code, r.responseId,
      if r.hasBlock1 && start == 0 then Some(r.block1Ack) else None,
      if |r.response| > size then Some(BlockOption(r.block2Current, start < |r.response| && |r.response| - start > size, r.block2Size)) else None,
      false, Block(r))
  }

  function ResponseSent(r: ServerRequest): ServerRequest {
    r.(waitingForAck := true, sendNow := false,
       retransmissions := r.retransmissions + if r.kind == Non then MAX_RETRANSMIT + 2 else 1)
  }

  function ContinuePacket(r: ServerRequest): Reply {
    Reply(Ack, CODE_CONTINUE, r.messageId, Some(r.block1Ack), None, false, [])
  }

  // ------------------------------------------------------- acks and timeouts

  /** Has a response with the current message id been sent and not acknowledged? */
  predicate InFlight(r: ServerRequest) {
    r.state == Responding && r.waitingForAck
  }

  predicate LastBlock(r: ServerRequest) {
    (r.block2Current + 1) * Size(r.block2Size) >= |r.response|
  }

  function HandleAck(r: ServerRequest, id: u16): ServerRequest {
    if !(InFlight(r) && r.responseId == id) then r
    else if LastBlock(r) then r.(waitingForAck := false, state := Finished)
    else r.(waitingForAck := false, retransmissions := 0)
  }

  function HandleRst(r: ServerRequest, id: u16): ServerRequest {
    if InFlight(r) && r.responseId == id then r.(state := Finished) else r
  }

  /** The deadline of the request, if it has one, has passed. */
  function RequestTimeout(r: ServerRequest): ServerRequest {
    if r.state == Receiving then r.(state := Finished)
    else if r.state == Responding then
      if r.waitingForAck then
        (if r.retransmissions > MAX_RETRANSMIT then r.(state := Finished) else r.(sendNow := true))
      else if !r.sendNow then r.(state := Finished)
      else r
    else r
  }
}
