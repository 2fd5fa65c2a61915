/** What a request for a further Block2 block does to a server that has forgotten the
    request: the runs in which an application that has been called with the whole body
    is called again with less, and when there are none. */
module CoapFollowUp {
  import opened Basics
  import opened CoapBlock
  import opened CoapClient
  import opened CoapServer
  import opened CoapUpload

  const CODE_CONTENT: nat := 69

  // ------------------------------------------------------------- honest runs

  /** The client hears nothing but what the server has sent last. */
  predicate HonestStep(u: Upload, act: Action) {
    act.ClientHears? ==>
      && u.server.Some?
      && var r := u.server.value;
         || (r.state == Receiving && r.hasBlock1 && !r.hasBlock1Ack && act.m == ContinuePacket(r))
         || (r.state == Responding && !r.sendNow && act.m == ResponsePacket(r))
  }

  ghost predicate Honest(u: Upload, acts: seq<Action>, body: seq<byte>)
    requires UploadOk(u, body)
    decreases |acts|
  {
    acts == [] ||
    (StepKeeps(u, acts[0], body); HonestStep(u, acts[0]) && Honest(Step(u, acts[0]), acts[1..], body))
  }

  /** One more step in front of a run. */
  lemma FirstStep(u: Upload, act: Action, rest: seq<Action>, body: seq<byte>)
    requires UploadOk(u, body) && HonestStep(u, act)
    ensures UploadOk(Step(u, act), body)
    ensures Run(u, [act] + rest, body) == Run(Step(u, act), rest, body)
    ensures Honest(u, [act] + rest, body) == Honest(Step(u, act), rest, body)
  {
    hide UploadOk, Step, HonestStep;
    StepKeeps(u, act, body);
    assert ([act] + rest)[1..] == rest;
  }

  lemma NoSteps(u: Upload, body: seq<byte>)
    requires UploadOk(u, body)
    ensures Run(u, [], body) == u && Honest(u, [], body)
  {
  }

  lemma InBody(u: Upload, body: seq<byte>)
    requires UploadOk(u, body)
    ensures u.client.block1Offset <= |u.client.body| && u.client.body == body
  {
  }

  /** Runs, and honest ones, can be put together. */
  lemma {:induction false} Together(u: Upload, a: seq<Action>, b: seq<Action>, body: seq<byte>)
    requires UploadOk(u, body)
    ensures UploadOk(Run(u, a, body), body) && Run(u, a + b, body) == Run(Run(u, a, body), b, body)
    ensures Honest(u, a + b, body) <==> Honest(u, a, body) && Honest(Run(u, a, body), b, body)
    decreases |a|
  {
    hide UploadOk, Step, HonestStep;
    RunKeeps(u, a, body);
    if a == [] {
      assert a + b == b;
    } else {
      InBody(u, body);
      StepKeeps(u, a[0], body);
      assert (a + b)[1..] == a[1..] + b;
      Together(Step(u, a[0]), a[1..], b, body);
    }
  }

  // ---------------------------------------------------------- the n-th chunk

  lemma DefaultSize()
    ensures Size(5) == 512
  {
    assert Size(4) == 2 * Size(3) && Size(2) == 2 * Size(1);
  }

  /** The message id the n-th chunk is sent with. */
  function Id(c: RequestConfig, n: nat): u16 { (c.messageId + n) % 0x1_0000 }

  predicate Last(c: RequestConfig, n: nat) { |c.body| <= 512 * n + 512 }

  /** The packet that carries the n-th chunk; a body of one chunk has no option. */
  function PacketAt(c: RequestConfig, n: nat): RequestPacket
    requires 512 * n <= |c.body|
  {
    RequestPacket(c.kind, Id(c, n), c.contentFormat, if |c.body| > 512 then Some(BlockOption(n, !Last(c, n), 5)) else None, None,
                  if Last(c, n) then c.body[512 * n..] else c.body[512 * n..512 * n + 512])
  }

  /** The client with its n-th chunk to send. */
  function ClientAt(c: RequestConfig, n: nat): Client {
    Client(SendRequest, StatusOk, c.kind, Id(c, n), 0, c.body, c.contentFormat, DEFAULT_SZX, 512 * n, false, None,
           if n == 0 then None else Some(Response(CODE_CONTINUE, [])))
  }

  /** The server with the first n chunks. */
  predicate ServerAt(s: Option<ServerRequest>, c: RequestConfig, n: nat)
    requires 512 * n <= |c.body|
  {
    if n == 0 then s.None? else
      && s.Some?
      && var r := s.value;
         && r.state == Receiving && r.messageId == Id(c, n - 1) && r.payload == c.body[..512 * n] && Matching(r, c)
         && r.hasBlock1 && !r.hasBlock1Ack && r.block1Ack == BlockOption(n - 1, true, 5)
  }

  predicate Matching(r: ServerRequest, c: RequestConfig) {
    && r.kind == c.kind && r.contentFormat == c.contentFormat && r.block2Request.None?
    && r.block2Size == BLOCK2_DEFAULT_SZX && r.block2Current == 0 && r.responseId == 0
  }

  predicate ChunkNext(u: Upload, c: RequestConfig, n: nat)
    requires 512 * n <= |c.body|
  {
    && u.client == ClientAt(c, n) && ServerAt(u.server, c, n) && u.calls == []
    && (n > 0 ==> PacketAt(c, 0) in u.requests)
  }

  ghost predicate Plain(c: RequestConfig) {
    (c.kind == Con || c.kind == Non) && BodyFits(c.body) && c.body != []
  }

  lemma BlockAt(n: nat, more: bool)
    ensures var v := BlockOption(n, more, 5); Num(v) == n && More(v) == more && Szx(v) == 5 && Offset(v) == 512 * n
    ensures Blocks(512 * n, 5) == n
  {
    DefaultSize();
    BlockOptionInverse(n, more, 5);
    MultipleIs(n, 512);
  }

  lemma CreatesChunk(c: RequestConfig, n: nat)
    requires 512 * n < |c.body|
    ensures CreatePacket(ClientAt(c, n)) == PacketAt(c, n)
  {
    DefaultSize();
    BlockAt(n, !Last(c, n));
  }

  lemma IdsDiffer(c: RequestConfig, n: nat)
    ensures Id(c, n) != Id(c, n + 1)
  {
  }

  /** What the server is after it has received the n-th chunk. */
  function Received(s: Option<ServerRequest>, c: RequestConfig, n: nat): Outcome
    requires 512 * n <= |c.body|
  {
    HandleRequestPacket(s, PacketAt(c, n), true, 0, |c.body|)
  }

  lemma ReceivesChunk(s: Option<ServerRequest>, c: RequestConfig, n: nat)
    requires 512 * n < |c.body| && !Last(c, n) && ServerAt(s, c, n)
    ensures var o := Received(s, c, n);
            && o.called.None? && o.request.Some? && o.request.value.state == Receiving && o.request.value.hasBlock1Ack
            && ServerAt(Some(o.request.value.(hasBlock1Ack := false)), c, n + 1)
  {
    DefaultSize();
    BlockAt(n, true);
    if n > 0 {
      IdsDiffer(c, n - 1);
    }
    assert c.body[..512 * n] + c.body[512 * n..512 * n + 512] == c.body[..512 * n + 512];
    assert [] + c.body[0..512] == c.body[..512];
  }

  lemma ReceivesLast(s: Option<ServerRequest>, c: RequestConfig, n: nat)
    requires 512 * n < |c.body| && Last(c, n) && ServerAt(s, c, n)
    ensures var o := Received(s, c, n);
            && o.called == Some(c.body) && o.request.Some? && o.request.value.state == WithUser && Matching(o.request.value, c)
            && o.request.value.hasBlock1 == (|c.body| > 512)
            && (|c.body| > 512 ==> o.request.value.block1Ack == BlockOption(n, false, 5))
  {
    DefaultSize();
    BlockAt(n, false);
    if n > 0 {
      IdsDiffer(c, n - 1);
    }
    assert c.body[..512 * n] + c.body[512 * n..] == c.body;
    assert c.body[0..] == c.body;
  }

  lemma HearsContinue(c: RequestConfig, n: nat, r: ServerRequest)
    requires 512 * n < |c.body| && !Last(c, n) && ServerAt(Some(r), c, n + 1)
    ensures HandleMessage(PacketSent(ClientAt(c, n)), ContinuePacket(r), Id(c, n + 1), 0) == ClientAt(c, n + 1)
  {
    DefaultSize();
    BlockAt(n, true);
    assert Classify(PacketSent(ClientAt(c, n)), BlockOption(n, true, 5)) == Advanced;
  }

  // ------------------------------------------------------------- the whole body

  /** The n-th chunk is created and on the network. */
  lemma ChunkCreated(u: Upload, c: RequestConfig, n: nat) returns (v: Upload)
    requires UploadOk(u, c.body) && 512 * n < |c.body| && ChunkNext(u, c, n)
    ensures v == Step(u, ClientCreates) && UploadOk(v, c.body) && HonestStep(u, ClientCreates)
    ensures v.client == PacketSent(ClientAt(c, n)) && v.server == u.server && v.calls == []
    ensures PacketAt(c, n) in v.requests && PacketAt(c, 0) in v.requests
  {
    hide UploadOk, CreatePacket, PacketAt, ServerAt, PacketSent;
    StepKeeps(u, ClientCreates, c.body);
    CreatesChunk(c, n);
    v := Step(u, ClientCreates);
  }

  /** A chunk that is not the last is created, received, acknowledged and heard of. */
  lemma ChunkRound(u: Upload, c: RequestConfig, n: nat) returns (acts: seq<Action>, v: Upload)
    requires UploadOk(u, c.body) && 512 * n < |c.body| && !Last(c, n) && ChunkNext(u, c, n)
    ensures UploadOk(v, c.body) && ChunkNext(v, c, n + 1) && Run(u, acts, c.body) == v && Honest(u, acts, c.body)
  {
    hide UploadOk, CreatePacket, HandleRequestPacket, HandleMessage, PacketAt, ServerAt, ContinuePacket, Run, Honest, ClientAt, PacketSent;
    hide Acknowledged;
    var body := c.body;
    var u1 := ChunkCreated(u, c, n);
    var receives := ServerReceives(PacketAt(c, n), true, 0, |body|);
    InBody(u1, body);
    ReceivesChunk(u.server, c, n);
    StepKeeps(u1, receives, body);
    var u2 := Step(u1, receives);
    InBody(u2, body);
    StepKeeps(u2, ServerSends, body);
    var u3 := Step(u2, ServerSends);
    InBody(u3, body);
    var r := u3.server.value;
    ServerBetween(r, c, n);
    var hears := ClientHears(ContinuePacket(r), Id(c, n + 1), 0);
    HearsContinue(c, n, r);
    StepKeeps(u3, hears, body);
    v := Step(u3, hears);
    acts := [ClientCreates] + ([receives] + ([ServerSends] + ([hears] + [])));
    FirstStep(u, ClientCreates, [receives] + ([ServerSends] + ([hears] + [])), body);
    FirstStep(u1, receives, [ServerSends] + ([hears] + []), body);
    FirstStep(u2, ServerSends, [hears] + [], body);
    FirstStep(u3, hears, [], body);
    NoSteps(v, body);
  }

  lemma ServerBetween(r: ServerRequest, c: RequestConfig, n: nat)
    requires 512 * (n + 1) <= |c.body| && ServerAt(Some(r), c, n + 1)
    ensures r.state == Receiving && r.hasBlock1 && !r.hasBlock1Ack
  {
  }

  /** The application has been called with the whole body. */
  predicate HandedOver(u: Upload, c: RequestConfig, n: nat)
    requires 512 * n <= |c.body|
  {
    && Last(c, n) && u.client == PacketSent(ClientAt(c, n)) && PacketAt(c, 0) in u.requests
    && u.calls == [Call(PacketAt(c, n), c.body)]
    && u.server.Some? && u.server.value.state == WithUser && Matching(u.server.value, c)
    && u.server.value.hasBlock1 == (|c.body| > 512)
    && (|c.body| > 512 ==> u.server.value.block1Ack == BlockOption(n, false, 5))
  }

  lemma LastRound(u: Upload, c: RequestConfig, n: nat) returns (acts: seq<Action>, v: Upload)
    requires UploadOk(u, c.body) && 512 * n < |c.body| && Last(c, n) && ChunkNext(u, c, n)
    ensures UploadOk(v, c.body) && HandedOver(v, c, n) && Run(u, acts, c.body) == v && Honest(u, acts, c.body)
  {
    hide UploadOk, CreatePacket, HandleRequestPacket, PacketAt, ServerAt, Run, Honest, ClientAt, PacketSent, Matching;
    var body := c.body;
    var u1 := ChunkCreated(u, c, n);
    var receives := ServerReceives(PacketAt(c, n), true, 0, |body|);
    InBody(u1, body);
    ReceivesLast(u.server, c, n);
    StepKeeps(u1, receives, body);
    v := Step(u1, receives);
    acts := [ClientCreates] + ([receives] + []);
    FirstStep(u, ClientCreates, [receives] + [], body);
    FirstStep(u1, receives, [], body);
    NoSteps(v, body);
  }

  /** From the n-th chunk on to the call. */
  lemma {:induction false} HandsOver(u: Upload, c: RequestConfig, n: nat) returns (acts: seq<Action>, last: nat, v: Upload)
    requires UploadOk(u, c.body) && 512 * n < |c.body| && ChunkNext(u, c, n)
    ensures 512 * last < |c.body| && UploadOk(v, c.body) && HandedOver(v, c, last)
    ensures Run(u, acts, c.body) == v && Honest(u, acts, c.body)
    decreases |c.body| - 512 * n
  {
    hide UploadOk, Run, Honest, HandedOver, ChunkNext;
    if Last(c, n) {
      last := n;
      acts, v := LastRound(u, c, n);
    } else {
      var first, w := ChunkRound(u, c, n);
      var more;
      more, last, v := HandsOver(w, c, n + 1);
      acts := first + more;
      Together(u, first, more, c.body);
    }
  }

  lemma Begins(c: RequestConfig) returns (v: Upload)
    requires Plain(c)
    ensures var u := CoapUpload.Start(c);
            && UploadOk(u, c.body) && UploadOk(v, c.body) && ChunkNext(v, c, 0)
            && Run(u, [ClientStarts], c.body) == v && Honest(u, [ClientStarts], c.body)
  {
    hide UploadOk, Run, Honest;
    StartOk(c);
    var u := CoapUpload.Start(c);
    InBody(u, c.body);
    StepKeeps(u, ClientStarts, c.body);
    v := Step(u, ClientStarts);
    assert [ClientStarts] + [] == [ClientStarts];
    FirstStep(u, ClientStarts, [], c.body);
    NoSteps(v, c.body);
  }

  // ------------------------------------------------------------- the follow-up

  /** The request for the second block of the response. */
  function Further(c: RequestConfig, id: u16): RequestPacket {
    RequestPacket(c.kind, id, c.contentFormat, None, Some(BlockOption(1, false, 5)), [])
  }

  /** The first block of the response; it acknowledges the last chunk. */
  predicate FirstBlock(m: Reply, c: RequestConfig, n: nat) {
    && m.kind == c.kind && m.code == CODE_CONTENT && m.block2 == Some(BlockOption(0, true, 5)) && !m.repeatedBlock
    && m.block1 == (if |c.body| > 512 then Some(BlockOption(n, false, 5)) else None) && |m.payload| == 512
  }

  lemma Answers(r: ServerRequest, c: RequestConfig, n: nat, response: seq<byte>)
    requires r.state == WithUser && Matching(r, c) && r.hasBlock1 == (|c.body| > 512) && |response| > 512
    requires |c.body| > 512 ==> r.block1Ack == BlockOption(n, false, 5)
    ensures var a := Respond(r, CODE_CONTENT, response);
            && a.state == Responding && a.sendNow
            && FirstBlock(ResponsePacket(ResponseSent(a)), c, n)
  {
    DefaultSize();
  }

  lemma HearsFirst(c: RequestConfig, n: nat, m: Reply, id: u16)
    requires 512 * n < |c.body| && Last(c, n) && FirstBlock(m, c, n) && (c.kind == Con || c.kind == Non)
    ensures var k := HandleMessage(PacketSent(ClientAt(c, n)), m, id, 512);
            k.state == SendRequest && k.block1Offset <= |k.body| && CreatePacket(k) == Further(c, id)
  {
    DefaultSize();
    BlockAt(n, false);
    BlockOptionInverse(0, true, 5);
    BlockOptionInverse(1, false, 5);
    var k := PacketSent(ClientAt(c, n));
    assert [] + m.payload == m.payload;
    assert Place([], m, 512) == Placed(m.payload);
    assert m.block1.Some? ==> Classify(k, m.block1.value) == Advanced;
  }

  /** The response is ready, sent and heard of, and its next block is asked for. */
  lemma AsksFurther(u: Upload, c: RequestConfig, n: nat, response: seq<byte>, id: u16) returns (acts: seq<Action>, v: Upload)
    requires UploadOk(u, c.body) && 512 * n < |c.body| && HandedOver(u, c, n) && |response| > 512 && (c.kind == Con || c.kind == Non)
    ensures UploadOk(v, c.body) && Run(u, acts, c.body) == v && Honest(u, acts, c.body)
    ensures PacketAt(c, 0) in v.requests && Further(c, id) in v.requests && v.calls == u.calls
  {
    hide UploadOk, CreatePacket, HandleMessage, PacketAt, Run, Honest, ClientAt, PacketSent, Respond, ResponsePacket, Acknowledged, FirstBlock;
    var body := c.body;
    var responds := ServerResponds(CODE_CONTENT, response);
    Answers(u.server.value, c, n, response);
    InBody(u, body);
    StepKeeps(u, responds, body);
    var u1 := Step(u, responds);
    InBody(u1, body);
    StepKeeps(u1, ServerSends, body);
    var u2 := Step(u1, ServerSends);
    InBody(u2, body);
    var m := ResponsePacket(u2.server.value);
    var hears := ClientHears(m, id, 512);
    HearsFirst(c, n, m, id);
    StepKeeps(u2, hears, body);
    var u3 := Step(u2, hears);
    InBody(u3, body);
    StepKeeps(u3, ClientCreates, body);
    v := Step(u3, ClientCreates);
    acts := [responds] + ([ServerSends] + ([hears] + ([ClientCreates] + [])));
    FirstStep(u, responds, [ServerSends] + ([hears] + ([ClientCreates] + [])), body);
    FirstStep(u1, ServerSends, [hears] + ([ClientCreates] + []), body);
    FirstStep(u2, hears, [ClientCreates] + [], body);
    FirstStep(u3, ClientCreates, [], body);
    NoSteps(v, body);
  }

  /** A run in which the client hears nothing but what the server has sent last. */
  ghost predicate HonestRun(c: RequestConfig, acts: seq<Action>)
    requires BodyFits(c.body)
  {
    StartOk(c);
    Honest(CoapUpload.Start(c), acts, c.body)
  }

  /** Up to the request for a further block, which then is on the network. */
  lemma HandedOverAndAsked(c: RequestConfig, response: seq<byte>, id: u16) returns (acts: seq<Action>, v: Upload)
    requires Plain(c) && |response| > 512
    ensures HonestRun(c, acts) && After(c, acts) == v && UploadOk(v, c.body)
    ensures PacketAt(c, 0) in v.requests && Further(c, id) in v.requests
    ensures |v.calls| == 1 && v.calls[0].body == c.body
  {
    hide UploadOk, Run, Honest, ChunkNext, PacketAt;
    var u0, body := CoapUpload.Start(c), c.body;
    var u1 := Begins(c);
    var sends, last, u2 := HandsOver(u1, c, 0);
    var answers;
    answers, v := AsksFurther(u2, c, last, response, id);
    Together(u0, [ClientStarts], sends, body);
    Together(u0, [ClientStarts] + sends, answers, body);
    acts := [ClientStarts] + sends + answers;
  }

  lemma OpensRequest(c: RequestConfig, id: u16)
    ensures HandleRequestPacket(None, Further(c, id), true, 0, 0).called == Some([])
  {
    BlockAt(1, false);
  }

  /** Whatever the body: after it has been handed over whole and answered, a server
      that has forgotten the request takes the request for a further block of the
      response for a new one, and calls its application with nothing. */
  lemma CalledWithNothing(c: RequestConfig, response: seq<byte>, id: u16) returns (acts: seq<Action>)
    requires Plain(c) && |response| > 512
    ensures HonestRun(c, acts)
    ensures var calls := After(c, acts).calls;
            |calls| == 2 && calls[0].body == c.body && calls[1] == Call(Further(c, id), [])
  {
    hide UploadOk, Run, Honest, HandleRequestPacket, Further, PacketAt;
    var body := c.body;
    var before, u := HandedOverAndAsked(c, response, id);
    var receives := ServerReceives(Further(c, id), true, 0, 0);
    OpensRequest(c, id);
    InBody(u, body);
    StepKeeps(u, ServerForgets, body);
    var v := Step(u, ServerForgets);
    InBody(v, body);
    FirstStep(u, ServerForgets, [receives] + [], body);
    FirstStep(v, receives, [], body);
    NoSteps(Step(v, receives), body);
    acts := before + ([ServerForgets] + ([receives] + []));
    StartOk(c);
    Together(CoapUpload.Start(c), before, [ServerForgets] + ([receives] + []), body);
  }

  /** The first chunk again, and the request for a further block. */
  lemma TakesPart(c: RequestConfig, id: u16)
    requires |c.body| > 512 && id != c.messageId
    ensures var o := Received(None, c, 0);
            && o.called.None? && o.request.Some?
            && HandleRequestPacket(o.request, Further(c, id), true, 0, |c.body|).called == Some(c.body[..512])
  {
    DefaultSize();
    BlockAt(0, true);
    BlockAt(1, false);
    assert [] + c.body[0..512] == c.body[..512];
  }

  /** If the network delivers the first chunk once more before that, the application
      is called with that chunk for a body. */
  lemma CalledWithPart(c: RequestConfig, response: seq<byte>, id: u16) returns (acts: seq<Action>)
    requires Plain(c) && |c.body| > 512 && |response| > 512 && id != c.messageId
    ensures HonestRun(c, acts)
    ensures var calls := After(c, acts).calls;
            |calls| == 2 && calls[0].body == c.body && calls[1] == Call(Further(c, id), c.body[..512])
  {
    hide UploadOk, Run, Honest, HandleRequestPacket, Further, PacketAt;
    var body := c.body;
    var before, u := HandedOverAndAsked(c, response, id);
    var again, receives := ServerReceives(PacketAt(c, 0), true, 0, |body|), ServerReceives(Further(c, id), true, 0, |body|);
    TakesPart(c, id);
    InBody(u, body);
    StepKeeps(u, ServerForgets, body);
    var v := Step(u, ServerForgets);
    InBody(v, body);
    StepKeeps(v, again, body);
    var w := Step(v, again);
    InBody(w, body);
    FirstStep(u, ServerForgets, [again] + ([receives] + []), body);
    FirstStep(v, again, [receives] + [], body);
    FirstStep(w, receives, [], body);
    NoSteps(Step(w, receives), body);
    acts := before + ([ServerForgets] + ([again] + ([receives] + [])));
    StartOk(c);
    Together(CoapUpload.Start(c), before, [ServerForgets] + ([again] + ([receives] + [])), body);
  }

  /** Every call in every run, or in every honest run, is with the whole body exactly
      if there is none. */
  lemma AllCallsWholeExactly(c: RequestConfig)
    requires BodyFits(c.body) && (c.kind == Con || c.kind == Non)
    ensures (forall acts, k :: HonestRun(c, acts) && k in After(c, acts).calls ==> k.body == c.body) <==> c.body == []
    ensures (forall acts, k :: k in After(c, acts).calls ==> k.body == c.body) <==> c.body == []
  {
    hide After, HonestRun;
    if c.body == [] {
      forall acts, k | k in After(c, acts).calls ensures k.body == c.body {
        BodyIsNeverTorn(c, acts);
      }
    } else {
      var acts := CalledWithNothing(c, seq(513, i => 0), 0);
      assert Call(Further(c, 0), []) in After(c, acts).calls;
    }
  }
}
