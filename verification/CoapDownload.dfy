/** A Block2 transfer over a network that loses, duplicates and reorders: a
    server whose application always answers the same payload, whatever packets
    it receives, and a client that puts the response together. */
module CoapDownload {
  import opened Basics
  import opened CoapBlock
  import opened CoapClient
  import opened CoapServer

  /** What the application always answers: a success that is no Continue. */
  datatype Answer = Answer(code: nat, payload: seq<byte>)

  predicate AnswerOk(a: Answer) {
    Class(a.code) == 2 && a.code != CODE_CONTINUE
  }

  datatype Download = Download(client: Client, server: Option<ServerRequest>, replies: set<Reply>)

  datatype Action =
    | ClientStarts
    | ClientHears(m: Reply, id: u16, maxPayload: nat)
    | ClientSends
    | ClientCannotSend
    | ClientTimesOut(maxRetransmits: nat)
    | ClientStops
    | ServerReceives(p: RequestPacket, admitted: bool, id: u16, maxPayload: nat)
    | ServerAnswers
    | ServerSends
    | ServerErrs(m: Reply)
    | ServerHearsAck(id: u16)
    | ServerHearsRst(id: u16)
    | ServerTimesOut
    | ServerForgets

  /** An error response that no request is kept for, an empty ack or a reset. */
  predicate PlainReply(m: Reply) {
    m.block1.None? && m.block2.None? &&
    (Class(m.code) >= 4 || (m.code == 0 && (m.kind == Ack || m.kind == Rst)))
  }

  function OfServer(d: Download, r: ServerRequest): Download {
    d.(server := Some(r))
  }

  function Step(d: Download, act: Action, a: Answer): Download
    requires d.client.block1Offset <= |d.client.body|
  {
    var c, s := d.client, d.server;
    match act
    case ClientStarts => if c.state == Idle then d.(client := c.(state := SendRequest)) else d
    case ClientHears(m, id, maxPayload) =>
      if m in d.replies then d.(client := HandleMessage(c, m, id, maxPayload)) else d
    case ClientSends => if c.state == SendRequest then d.(client := PacketSent(c)) else d
    case ClientCannotSend => if c.state == SendRequest then d.(client := SendFailed(c)) else d
    case ClientTimesOut(maxRetransmits) => d.(client := HandleTimeout(c, maxRetransmits))
    case ClientStops => d.(client := Stop(c))
    case ServerReceives(p, admitted, id, maxPayload) =>
      d.(server := HandleRequestPacket(s, p, admitted, id, maxPayload).request)
    case ServerAnswers =>
      if s.Some? && s.value.state == WithUser then OfServer(d, Respond(s.value, a.code, a.payload)) else d
    case ServerSends =>
      if s.Some? && s.value.state == Responding && s.value.sendNow then
        OfServer(d, ResponseSent(s.value)).(replies := d.replies + {ResponsePacket(s.value)})
      else if s.Some? && (s.value.state == Receiving || s.value.state == WithUser) && s.value.hasBlock1Ack then
        OfServer(d, s.value.(hasBlock1Ack := false)).(replies := d.replies + {ContinuePacket(s.value)})
      else d
    case ServerErrs(m) => if PlainReply(m) then d.(replies := d.replies + {m}) else d
    case ServerHearsAck(id) => if s.Some? then OfServer(d, HandleAck(s.value, id)) else d
    case ServerHearsRst(id) => if s.Some? then OfServer(d, HandleRst(s.value, id)) else d
    case ServerTimesOut => if s.Some? then OfServer(d, RequestTimeout(s.value)) else d
    case ServerForgets => d.(server := None)
  }

  // ---------------------------------------------------------------- invariant

  /** The packet carries the block of the payload that its Block2 option says. */
  ghost predicate BlockTrue(v: nat, block: seq<byte>, payload: seq<byte>) {
    var start, size := Offset(v), Size(Szx(v));
    && start < |payload|
    && (More(v) <==> start + size < |payload|)
    && block == if More(v) then payload[start..start + size] else payload[start..]
  }

  /** A reply is a block of the answer or all of it, a Continue, or an error that
      makes no client restart its transfer. */
  ghost predicate ReplyTrue(m: Reply, a: Answer) {
    || PlainReply(m)
    || (m.code == CODE_CONTINUE && m.block2.None? && m.payload == [])
    || (m.code == CODE_BAD_REQUEST && m.block2.None?)
    || (m.code == a.code && (m.block2.None? ==> m.payload == a.payload) &&
        (m.block2.Some? ==> BlockTrue(m.block2.value, m.payload, a.payload)))
  }

  /** A response is the answer, at a block of it, or the error for a bad block. */
  ghost predicate ResponseOk(r: ServerRequest, a: Answer) {
    && r.block2Size < 7
    && (r.state == Receiving || r.state == WithUser ==> r.block2Current == 0)
    && (r.state == Responding ==>
          || (r.code == a.code && r.response == a.payload && (BlockStart(r) == 0 || BlockStart(r) < |a.payload|))
          || (r.code == CODE_BAD_REQUEST && r.response == BadBlockOption() && r.block2Current == 0))
  }

  /** What has been put together is a prefix of the answer, unless an error has
      ended the exchange; it is the answer if the exchange has ended with it. */
  ghost predicate BodyOk(c: Client, a: Answer) {
    c.response.Some? ==>
      && (c.response.value.payload <= a.payload || (Class(c.response.value.code) >= 4 && !Active(c)))
      && (!Active(c) && c.status == StatusOk && c.response.value.code == a.code ==> c.response.value.payload == a.payload)
  }

  ghost predicate DownloadOk(d: Download, a: Answer) {
    && ClientOk(d.client)
    && BodyOk(d.client, a)
    && (d.client.status != StatusOk ==> !Active(d.client))
    && (forall m :: m in d.replies ==> ReplyTrue(m, a))
    && (d.server.Some? ==> ResponseOk(d.server.value, a))
  }

  // ----------------------------------------------------------------- the server

  lemma SmallProductIsZero(k: nat, size: nat)
    requires k * size < size
    ensures k == 0
  {
    ProductBelow(0, k, size);
  }

  lemma SentBlockTrue(r: ServerRequest, a: Answer)
    requires ResponseOk(r, a) && r.state == Responding
    ensures ReplyTrue(ResponsePacket(r), a)
  {
    hide Size;
    var start, size := BlockStart(r), Size(r.block2Size);
    BlockOptionInverse(r.block2Current, start < |r.response| && |r.response| - start > size, r.block2Size);
    if r.code == a.code && r.response == a.payload && |r.response| <= size {
      if start < |a.payload| {
        SmallProductIsZero(r.block2Current, size);
      }
    }
  }

  lemma RequestedBlock(r: ServerRequest, p: RequestPacket, id: u16, a: Answer)
    requires ResponseOk(r, a) && r.state == Responding
    ensures ResponseOk(HandleBlock2Request(r, p, id), a)
  {
    hide Size;
    if p.block2.Some? && !BadBlock(r, p.block2.value) && r.code != a.code {
      BadBlockHasOneBlock(r, p.block2.value);
    }
  }

  /** The diagnostic text fits the smallest block, so only its first block can
      be asked for. */
  lemma BadBlockHasOneBlock(r: ServerRequest, v: nat)
    requires r.response == BadBlockOption() && !BadBlock(r, v)
    ensures Num(v) == 0
  {
    hide Size;
    if Num(v) > 0 {
      ProductBelow(0, Num(v), Size(Szx(v)));
    }
  }

  lemma QuotientStarts(offset: nat, szx: nat, length: nat)
    ensures var start := Blocks(offset, szx) * Size(szx);
            start <= offset && (offset == 0 ==> start == 0)
  {
    hide Size;
    assert offset == Blocks(offset, szx) * Size(szx) + offset % Size(szx);
  }

  lemma AnsweredOk(r: ServerRequest, a: Answer)
    requires ResponseOk(r, a) && r.state == WithUser
    ensures ResponseOk(Respond(r, a.code, a.payload), a)
  {
    hide Size, Blocks;
    if r.block2Request.Some? {
      var v := r.block2Request.value;
      var size := if Szx(v) < r.block2Size then Szx(v) else r.block2Size;
      QuotientStarts(Offset(v), size, |a.payload|);
    }
  }

  lemma ReceivedOk(s: Option<ServerRequest>, p: RequestPacket, admitted: bool, id: u16, maxPayload: nat, a: Answer)
    requires s.Some? ==> ResponseOk(s.value, a)
    ensures var o := HandleRequestPacket(s, p, admitted, id, maxPayload);
            o.request.Some? ==> ResponseOk(o.request.value, a)
  {
    hide Size, Refused, Misplaced;
    if s.Some? && s.value.state == Responding {
      RequestedBlock(s.value, p, id, a);
    }
  }

  // ----------------------------------------------------------------- the client

  /** The body a reply leaves is a prefix of the answer, and all of it when the
      reply is the last. */
  lemma PlacedIsPrefix(held: seq<byte>, m: Reply, maxPayload: nat, a: Answer)
    requires AnswerOk(a) && held <= a.payload && ReplyTrue(m, a) && (m.block2.None? ==> held == [])
    ensures var place := Place(held, m, maxPayload);
            place.Placed? && Class(m.code) == 2 ==>
              && place.body <= a.payload
              && (m.code == a.code && !(m.block2.Some? && More(m.block2.value)) ==> place.body == a.payload)
  {
    hide Size, Offset;
    if m.block2.Some? {
      assert held == a.payload[..|held|];
    }
  }

  /** A reply of this server makes no client restart its upload. */
  lemma NoRestart(m: Reply, a: Answer)
    requires AnswerOk(a) && ReplyTrue(m, a)
    ensures m.code == CODE_TOO_LARGE ==> m.block1.None?
    ensures Class(m.code) != 2 ==> m.block2.None?
    ensures Class(m.code) == 2 || Class(m.code) >= 4 || (m.code == 0 && (m.kind == Ack || m.kind == Rst))
  {
  }

  lemma AfterPlacedBody(c: Client, m: Reply, id: u16, a: Answer)
    requires AnswerOk(a) && ReplyTrue(m, a) && ClientOk(c) && Waiting(c) && c.status == StatusOk
    requires c.response.Some? && c.response.value.code == m.code && (Class(m.code) == 2 || Class(m.code) >= 4)
    requires Class(m.code) == 2 ==> c.response.value.payload <= a.payload
    requires m.code == a.code && !(m.block2.Some? && More(m.block2.value)) ==> c.response.value.payload == a.payload
    ensures BodyOk(AfterPlaced(c, m, id), a) && AfterPlaced(c, m, id).status == StatusOk
  {
    hide Size, ClientOk, ReplyTrue, AdvanceBlock1, Blocks, CanAdopt;
    NoRestart(m, a);
    if m.block1.Some? {
      OffsetInBody(c);
      AdvanceLeavesResponse(c, m.block1.value);
    }
  }

  lemma AdvanceLeavesResponse(c: Client, block1: nat)
    requires c.block1Offset <= |c.body|
    ensures var c' := AdvanceBlock1(c, block1); c'.response == c.response && c'.state == c.state && c'.status == c.status
  {
  }

  lemma ResponseBody(c: Client, m: Reply, id: u16, maxPayload: nat, a: Answer)
    requires AnswerOk(a) && ReplyTrue(m, a) && ClientOk(c) && BodyOk(c, a) && Waiting(c) && c.status == StatusOk
    requires Class(m.code) == 2 || Class(m.code) >= 4
    ensures BodyOk(HandleResponse(c, m, id, maxPayload), a) && HandleResponse(c, m, id, maxPayload).status == StatusOk
  {
    hide Size, ClientOk, ReplyTrue, AfterPlaced, Offset, NextBlock2;
    OffsetInBody(c);
    var held := Received(c, m);
    assert held <= a.payload;
    var place := Place(held, m, maxPayload);
    PlacedIsPrefix(held, m, maxPayload, a);
    if place.Placed? {
      var p := WithPlaced(c, m, place.body);
      PlacedIsSame(c, m, place.body);
      AfterPlacedBody(p, m, id, a);
    }
  }

  lemma HearsKeeps(d: Download, m: Reply, id: u16, maxPayload: nat, a: Answer)
    requires DownloadOk(d, a) && AnswerOk(a) && m in d.replies
    ensures DownloadOk(d.(client := HandleMessage(d.client, m, id, maxPayload)), a)
  {
    hide ClientOk, ReplyTrue, ResponseOk, HandleResponse;
    var c := d.client;
    OffsetInBody(c);
    MessageKeeps(c, m, id, maxPayload);
    NoRestart(m, a);
    if Waiting(c) && (Class(m.code) == 2 || Class(m.code) >= 4) {
      ResponseBody(c, m, id, maxPayload, a);
    }
  }

  lemma ServerStepKeeps(r: ServerRequest, id: u16, a: Answer)
    requires ResponseOk(r, a)
    ensures ResponseOk(HandleAck(r, id), a) && ResponseOk(HandleRst(r, id), a) && ResponseOk(RequestTimeout(r), a)
    ensures ResponseOk(ResponseSent(r), a) && ResponseOk(r.(hasBlock1Ack := false), a)
  {
    hide Size;
  }

  lemma SameClient(c: Client, c': Client)
    requires c'.body == c.body && c'.block1Size == c.block1Size && c'.block1Offset == c.block1Offset
    ensures ClientOk(c) ==> ClientOk(c')
  {
  }

  lemma StepKeeps(d: Download, act: Action, a: Answer)
    requires DownloadOk(d, a) && AnswerOk(a)
    ensures DownloadOk(Step(d, act, a), a)
  {
    hide ClientOk, ReplyTrue, ResponseOk, HandleMessage, HandleRequestPacket, ResponsePacket, Respond;
    hide HandleAck, RequestTimeout, Size;
    OffsetInBody(d.client);
    match act
    case ClientHears(m, id, maxPayload) => if m in d.replies { HearsKeeps(d, m, id, maxPayload, a); }
    case ServerReceives(p, admitted, id, maxPayload) => ReceivedOk(d.server, p, admitted, id, maxPayload, a);
    case ServerAnswers => if d.server.Some? && d.server.value.state == WithUser { AnsweredOk(d.server.value, a); }
    case ServerSends => SendsKeeps(d, a);
    case ServerErrs(m) => PlainIsTrue(m, a);
    case ServerHearsAck(id) => if d.server.Some? { ServerStepKeeps(d.server.value, id, a); }
    case ServerHearsRst(id) => if d.server.Some? { ServerStepKeeps(d.server.value, id, a); }
    case ServerTimesOut => if d.server.Some? { ServerStepKeeps(d.server.value, 0, a); }
    case ServerForgets =>
    case _ => SameClient(d.client, Step(d, act, a).client);
  }

  lemma PlainIsTrue(m: Reply, a: Answer)
    ensures PlainReply(m) ==> ReplyTrue(m, a)
  {
  }

  lemma SendsKeeps(d: Download, a: Answer)
    requires DownloadOk(d, a) && AnswerOk(a)
    ensures DownloadOk(Step(d, ServerSends, a), a)
  {
    hide ClientOk, ResponseOk, ResponsePacket, Size, BlockTrue;
    OffsetInBody(d.client);
    if d.server.Some? {
      ServerStepKeeps(d.server.value, 0, a);
      if d.server.value.state == Responding {
        SentBlockTrue(d.server.value, a);
      }
    }
  }

  // ---------------------------------------------------------------------- runs

  function Start(c: RequestConfig): Download {
    Download(NewRequest(c), None, {})
  }

  ghost function Run(d: Download, acts: seq<Action>, a: Answer): Download
    requires DownloadOk(d, a) && AnswerOk(a)
    decreases |acts|
  {
    if acts == [] then d else
      StepKeeps(d, acts[0], a);
      Run(Step(d, acts[0], a), acts[1..], a)
  }

  lemma {:induction false} RunKeeps(d: Download, acts: seq<Action>, a: Answer)
    requires DownloadOk(d, a) && AnswerOk(a)
    ensures DownloadOk(Run(d, acts, a), a)
    decreases |acts|
  {
    hide Step;
    if acts != [] {
      StepKeeps(d, acts[0], a);
      RunKeeps(Step(d, acts[0], a), acts[1..], a);
    }
  }

  ghost function After(c: RequestConfig, acts: seq<Action>, a: Answer): Download
    requires BodyFits(c.body) && AnswerOk(a)
  {
    NewRequestOk(c);
    Run(Start(c), acts, a)
  }

  /** What the client has put together is always a prefix of the answer, until an
      error ends the exchange, and when it ends with the answer's code it is the
      whole answer. */
  lemma AnswerIsNeverTorn(c: RequestConfig, acts: seq<Action>, a: Answer)
    requires BodyFits(c.body) && AnswerOk(a)
    ensures var k := After(c, acts, a).client;
            k.response.Some? ==>
              && (k.response.value.code == a.code || Active(k) ==> k.response.value.payload <= a.payload)
              && (k.state == DoneCallback && k.status == StatusOk && k.response.value.code == a.code ==>
                    k.response.value.payload == a.payload)
  {
    NewRequestOk(c);
    RunKeeps(Start(c), acts, a);
  }
}
