/** How a server comes to have something to send and no connection to send it on. */
module CoapLostConnection {
  import opened Basics
  import opened CoapBlock
  import opened CoapClient
  import opened CoapServer
  import opened CoapTable
  import opened CoapTableCode

  function Chunk16(): seq<byte> { seq(16, i => 0) }

  /** The first and the last of two chunks of 16 bytes. */
  function FirstChunk(): RequestPacket { RequestPacket(Con, 1, None, Some(BlockOption(0, true, 0)), None, Chunk16()) }

  function LastChunk(): RequestPacket { RequestPacket(Con, 2, None, Some(BlockOption(1, false, 0)), None, Chunk16()) }

  function Whole(): RequestPacket { RequestPacket(Con, 1, None, None, None, []) }

  function Arrives(connection: nat, token: seq<byte>, p: RequestPacket, registers: bool): Arrival {
    Arrival(connection, token, p, true, Some(0), registers, false)
  }

  /** What a request has become after the first chunk, its Continue sent, a
      duplicate of the first chunk, and the last chunk. */
  lemma Chunks(id: u16)
    ensures var r0 := HandleRequestPacket(None, FirstChunk(), true, id, 32).request;
            && r0.Some? && r0.value.state == Receiving && r0.value.hasBlock1Ack && r0.value.messageId == 1
            && r0.value.payload == Chunk16() && More(r0.value.block1Ack) && r0.value.contentFormat.None?
            && NewFailure(Arrives(0, [], FirstChunk(), false), id, 32).None?
            && !NewAckDue(Arrives(0, [], FirstChunk(), false), id, 32)
  {
    BlockOptionInverse(0, true, 0);
    assert Size(0) == 16;
  }

  lemma Last(r: ServerRequest, id: u16)
    requires r.state == Receiving && r.hasBlock1Ack && r.messageId == 1 && r.payload == Chunk16() && r.contentFormat.None?
    ensures var o := HandleRequestPacket(Some(r), LastChunk(), true, id, 32);
            && o.request.Some? && o.request.value.state == WithUser && o.request.value.hasBlock1Ack
            && o.called.Some? && FailureCode(r, LastChunk(), 32).None? && !AckDue(r, LastChunk(), 32)
  {
    BlockOptionInverse(1, false, 0);
    assert Size(0) == 16;
  }

  /** A server that has received the first chunk and sent its Continue. */
  method ReceivesChunk(connection: nat, token: seq<byte>) returns (server: Requests)
    ensures fresh(server) && server.Valid() && server.Connected() && |server.requests| == 1 && server.maxRequestPayload == 32
    ensures Matches(server.requests[0], connection, token)
    ensures var r := server.requests[0].r;
            && r.state == Receiving && r.messageId == 1 && r.payload == Chunk16() && More(r.block1Ack) && r.contentFormat.None?
    ensures server.observers == [] && server.error.None? && server.ack.None? && server.rst.None?
  {
    hide HandleRequestPacket, NewFailure, NewAckDue, FailureCode, AckDue, Requests.Connected, Relinked;
    server := new Requests(1, 1, 32);
    Chunks(NextId(server.messageId));
    AnyConnection(connection, token, FirstChunk(), NextId(server.messageId));
    var _ := server.HandleRequestMessage(Arrives(connection, token, FirstChunk(), false));
    OnlyDue(server.requests[0]);
    server.HandleSend(true);
  }

  /** A server whose application holds a request with a Continue still to be sent,
      because a duplicate of the first chunk came just before the last one. */
  method HoldsContinue(connection: nat, token: seq<byte>) returns (server: Requests)
    ensures fresh(server) && server.Valid() && server.Connected() && |server.requests| == 1
    ensures ContinueOwed(server.requests[0], connection)
    ensures server.observers == [] && server.error.None? && server.ack.None? && server.rst.None?
  {
    hide HandleRequestPacket, NewFailure, NewAckDue, FailureCode, AckDue, Requests.Connected, Relinked;
    server := ReceivesChunk(connection, token);
    assert FirstMatch(server.requests, 0, connection, token);
    Again(server.requests[0].r, NextId(server.messageId));
    var _ := server.HandleRequestMessage(Arrives(connection, token, FirstChunk(), false));
    assert FirstMatch(server.requests, 0, connection, token);
    Last(server.requests[0].r, NextId(server.messageId));
    var _ := server.HandleRequestMessage(Arrives(connection, token, LastChunk(), false));
  }

  lemma AnyConnection(connection: nat, token: seq<byte>, p: RequestPacket, id: u16)
    ensures NewFailure(Arrives(connection, token, p, false), id, 32) == NewFailure(Arrives(0, [], p, false), id, 32)
    ensures NewAckDue(Arrives(connection, token, p, false), id, 32) == NewAckDue(Arrives(0, [], p, false), id, 32)
  {
  }

  lemma OnlyDue(e: Entry)
    requires e.r.state == Receiving && e.r.hasBlock1Ack
    ensures var q := Outgoing(None, None, None, [e], []);
            AfterSend(q) == q.(requests := [e.(r := e.r.(hasBlock1Ack := false))])
  {
    assert FirstDue([e]) == 0;
  }

  lemma Again(r: ServerRequest, id: u16)
    requires r.state == Receiving && r.messageId == 1 && More(r.block1Ack)
    ensures HandleRequestPacket(Some(r), FirstChunk(), true, id, 32).request == Some(r.(hasBlock1Ack := true))
    ensures FailureCode(r, FirstChunk(), 32).None? && !AckDue(r, FirstChunk(), 32)
  {
  }

  /** From an empty server: two chunks of a request, the first of them twice, and
      then its connection is gone. The Continue that is still to be sent has no
      connection to be sent on. */
  method ContinueLosesConnection(connection: nat, token: seq<byte>) returns (server: Requests)
    ensures fresh(server) && server.Valid()
    ensures NextItem(server.Out()).Some? && ConnectionOf(server.Out()).None?
  {
    server := HoldsContinue(connection, token);
    ghost var e := server.requests[0];
    server.RemoveConnection(connection);
    assert Relinked([e], server.observers)[..0] == [];
    assert server.requests == [Disconnected(Relink(e, server.observers), connection)];
    assert FirstDue(server.requests) == 0;
  }

  lemma Taken0(id: u16)
    ensures var o := HandleRequestPacket(None, Whole(), true, id, 32);
            o.request.Some? && o.request.value.state == WithUser && !o.request.value.hasBlock1Ack
  {
  }

  /** A server whose application holds a request to observe that has lost its
      connection, with nothing to send. */
  method HoldsOrphan(connection: nat, token: seq<byte>) returns (server: Requests)
    ensures fresh(server) && server.Valid() && server.maxObservers == 1 && server.observers == []
    ensures |server.requests| == 1 && server.requests[0].connection.None? && server.requests[0].isObserve
    ensures server.requests[0].token == token && !SendDue(server.requests[0])
    ensures server.error.None? && server.ack.None? && server.rst.None?
  {
    hide HandleRequestPacket, NewFailure, NewAckDue, Requests.Connected, Requests.Valid;
    server := new Requests(1, 1, 32);
    Taken0(NextId(server.messageId));
    var _ := server.HandleRequestMessage(Arrives(connection, token, Whole(), true));
    ghost var e := server.requests[0];
    server.RemoveConnection(connection);
    assert Relinked([e], server.observers)[..0] == [];
    assert server.requests == [Disconnected(Relink(e, server.observers), connection)];
  }

  /** From an empty server: a request to observe, whose connection is gone before
      its application accepts it. The observer has no connection, nor has its
      notification. */
  method ObserverLosesConnection(connection: nat, token: seq<byte>, payload: seq<byte>) returns (server: Requests)
    ensures fresh(server) && server.Valid()
    ensures NextItem(server.Out()).Some? && ConnectionOf(server.Out()).None?
  {
    hide Requests.Connected, Requests.Valid, SendDue;
    server := HoldsOrphan(connection, token);
    ghost var e := server.requests[0];
    var ok := server.AcceptObserve(0, 0);
    assert Staying([], OfToken(None, token)) == [];
    SameButObserver(e, server.requests[0]);
    server.ResourceNotify(0, payload);
    assert FirstDue(server.requests) == 1;
    assert FirstNotification(server.observers) == 0;
  }

  lemma SameButObserver(e: Entry, f: Entry)
    requires f == e.(observer := f.observer)
    ensures SendDue(f) <==> SendDue(e)
  {
  }
}
