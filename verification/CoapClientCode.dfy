/** The client request as the C code has it: a structure that is updated in
    place, with methods proved to do what module CoapClient says. */
module CoapClientCode {
  import opened Basics
  import opened CoapBlock
  import opened CoapClient

  predicate Restarts(c: Client, m: Reply) {
    m.block1.Some? && m.code == CODE_TOO_LARGE && !c.block1Restarted && CanAdopt(c, Szx(m.block1.value))
  }

  /** With its payload placed, is a message answered with an empty ack? */
  predicate AckAfter(c: Client, m: Reply)
    requires c.block1Offset <= |c.body|
  {
    m.kind == Con && !Restarts(c, m) &&
    (m.block1.Some? && Class(m.code) == 2 ==>
       Classify(c, m.block1.value) == Advanced && AdvanceBlock1(c, m.block1.value).block1Offset >= |c.body|)
  }

  /** With its payload placed, is a message for a chunk that was never sent? */
  predicate BadAfter(c: Client, m: Reply) {
    !Restarts(c, m) && m.block1.Some? && Class(m.code) == 2 && Classify(c, m.block1.value) == Bad
  }

  predicate AckDue(c: Client, m: Reply, maxPayload: nat)
    requires c.block1Offset <= |c.body|
  {
    match Place(Received(c, m), m, maxPayload)
    case Duplicate => m.kind == Con
    case Placed(body) => AckAfter(WithPlaced(c, m, body), m)
    case _ => false
  }

  predicate Undecodable(c: Client, m: Reply, maxPayload: nat) {
    match Place(Received(c, m), m, maxPayload)
    case Duplicate => false
    case Placed(body) => BadAfter(WithPlaced(c, m, body), m)
    case _ => true
  }

  /** Two minutes, in milliseconds. */
  const DEFAULT_TIMEOUT: nat := 120000

  /** A request with what identifies it. */
  datatype Listed = Listed(connection: nat, token: nat, timeout: nat, c: Client)

  class ClientRequest {
    const connection: nat
    const token: nat
    var timeout: nat
    var state: RequestState
    var status: RequestStatus
    var kind: Kind
    var messageId: u16
    var retransmissions: nat
    var payload: seq<byte>
    var contentFormat: Option<nat>
    var block1Size: nat
    var block1Offset: nat
    var block1Restarted: bool
    var block2: Option<nat>
    var response: Option<Response>

    ghost function Model(): Client
      reads this
    {
      Client(state, status, kind, messageId, retransmissions, payload, contentFormat, block1Size, block1Offset,
             block1Restarted, block2, response)
    }

    ghost function Entry(): Listed
      reads this
    {
      Listed(connection, token, timeout, Model())
    }

    constructor (k: RequestConfig, peer: nat, itsToken: nat)
      ensures Model() == NewRequest(k) && connection == peer && token == itsToken && timeout == DEFAULT_TIMEOUT
    {
      connection, token, timeout := peer, itsToken, DEFAULT_TIMEOUT;
      state, status, kind, messageId, retransmissions := Idle, StatusOk, k.kind, k.messageId, 0;
      payload, contentFormat := k.body, k.contentFormat;
      block1Size, block1Offset, block1Restarted := DEFAULT_SZX, 0, false;
      block2, response := None, None;
    }

    /** Takes the block size the server asked for, if it is smaller and the block
        number still fits. */
    method Block1AdoptSize(szx: nat) returns (adopted: bool)
      modifies this
      ensures timeout == old(timeout)
      ensures Model() == Adopt(old(Model()), szx) && adopted == CanAdopt(old(Model()), szx)
    {
      if szx >= block1Size {
        return false;
      }
      if Blocks(|payload|, szx) > BLOCK_NUM_MAX {
        return false;
      }
      block1Size := szx;
      adopted := true;
    }

    /** A success with a Block1 option acknowledges the chunk in flight, repeats
        an earlier one or is for a chunk that was never sent. */
    method Block1Advance(block1: nat) returns (result: Advance)
      requires block1Offset <= |payload|
      modifies this
      ensures timeout == old(timeout)
      ensures result == Classify(old(Model()), block1)
      ensures Model() == if result == Advanced then AdvanceBlock1(old(Model()), block1) else old(Model())
    {
      hide Size, Blocks;
      var blockSize := Size(block1Size);
      var current := Blocks(block1Offset, block1Size);
      var num := Num(block1);
      if num < current {
        return Stale;
      }
      if num > current {
        return Bad;
      }
      var rest := |payload| - block1Offset;
      block1Offset := block1Offset + if rest > blockSize then blockSize else rest;
      var _ := Block1AdoptSize(Szx(block1));
      result := Advanced;
    }

    method RequestSendAgain(id: u16)
      modifies this
      ensures timeout == old(timeout)
      ensures Model() == SendAgain(old(Model()), id)
    {
      state := SendRequest;
      messageId := id;
      retransmissions := 0;
    }

    /** Clears what an earlier exchange left, if the message starts a fresh
        response, and notes its code. */
    method PrepareResponse(m: Reply)
      modifies this
      ensures timeout == old(timeout)
      ensures Model() == Prepared(old(Model()), m)
    {
      hide Offset;
      var isFreshResponse := !(m.block2.Some? && Offset(m.block2.value) > 0);
      if response.None? {
        response := Some(Response(0, []));
      } else if isFreshResponse {
        response := Some(Response(0, []));
        block2 := None;
      }
      response := Some(response.value.(code := m.code));
    }

    /** Places the payload of a message behind what has been received. */
    method PlacePayload(m: Reply, maxPayload: nat) returns (place: Placing)
      requires response.Some?
      modifies this
      ensures timeout == old(timeout)
      ensures place == Place(old(response).value.payload, m, maxPayload)
      ensures !place.Placed? ==> Model() == old(Model())
      ensures place.Placed? ==> Model() == old(Model()).(
                response := Some(old(response).value.(payload := place.body)),
                block2 := if m.block2.Some? then Some(NextBlock2(m)) else old(block2))
    {
      hide Size, Offset, Num;
      var held := response.value.payload;
      if m.block2.Some? && Offset(m.block2.value) < |held| {
        if Offset(m.block2.value) + |m.payload| > |held| {
          return Overlaps;
        }
        return Duplicate;
      }
      if |held| + |m.payload| > maxPayload {
        return TooLarge;
      }
      if m.block2.Some? {
        var offset := Offset(m.block2.value);
        if offset != |held| {
          return Gap;
        }
        if More(m.block2.value) && |m.payload| != Size(Szx(m.block2.value)) {
          return WrongSize;
        }
        place := Placed(held + m.payload);
        block2 := Some((Num(m.block2.value) + 1) * 16 + Szx(m.block2.value));
      } else if |m.payload| > 0 {
        place := Placed(m.payload);
      } else {
        place := Placed(held);
      }
      response := Some(response.value.(payload := place.body));
    }

    /** Handles a response for this request: what is to be acknowledged is, the
        next chunk or block is queued, or the exchange is over. */
    method ParseAndHandleResponse(m: Reply, id: u16, maxPayload: nat) returns (ok: bool, ack: bool)
      requires block1Offset <= |payload|
      modifies this
      ensures timeout == old(timeout)
      ensures Model() == HandleResponse(old(Model()), m, id, maxPayload)
      ensures ok <==> !Undecodable(old(Model()), m, maxPayload)
      ensures ack <==> AckDue(old(Model()), m, maxPayload)
    {
      hide Place, Prepared, Received, WithPlaced, AfterPlaced, AckAfter, BadAfter, NextBlock2;
      ghost var c := Model();
      ok, ack := true, false;
      PrepareResponse(m);
      ReceivedIs(c, m);
      var place := PlacePayload(m, maxPayload);
      if place == Duplicate {
        return true, m.kind == Con;
      }
      if !place.Placed? {
        response := None;
        return false, false;
      }
      assert Model() == WithPlaced(c, m, place.body);
      ok, ack := HandleBlock1(m, id);
    }

    /** What a placed response means for the request body, and what follows. */
    method HandleBlock1(m: Reply, id: u16) returns (ok: bool, ack: bool)
      requires block1Offset <= |payload|
      modifies this
      ensures timeout == old(timeout)
      ensures Model() == AfterPlaced(old(Model()), m, id)
      ensures ok <==> !BadAfter(old(Model()), m)
      ensures ack <==> AckAfter(old(Model()), m)
    {
      hide Blocks, CanAdopt, Adopt, Classify, Num, Szx, More, Size, AdvanceBlock1;
      ok, ack := true, false;
      if m.block1.Some? {
        if m.code == CODE_TOO_LARGE && !block1Restarted {
          ghost var before := Model();
          var adopted := Block1AdoptSize(Szx(m.block1.value));
          AdoptIs(before, Szx(m.block1.value));
          if adopted {
            block1Restarted := true;
            block1Offset := 0;
            RequestSendAgain(id);
            return;
          }
        }
        if Class(m.code) == 2 {
          AdvanceIs(Model(), m.block1.value);
          var result := Block1Advance(m.block1.value);
          if result == Stale {
            return;
          }
          if result == Bad {
            response := None;
            return false, false;
          }
          if block1Offset < |payload| {
            RequestSendAgain(id);
            return;
          }
        }
      }
      ack := m.kind == Con;
      if m.block2.Some? && More(m.block2.value) {
        RequestSendAgain(id);
      } else {
        state := DoneCallback;
      }
    }

    /** The packet for the chunk at the offset, or for the next Block2 block; the
        request fails if it does not fit the buffer. */
    method RequestCreatePacket(room: nat, header: nat) returns (p: Option<RequestPacket>)
      requires block1Offset <= |payload|
      modifies this
      ensures timeout == old(timeout)
      ensures p.Some? <==> header + |CreatePacket(old(Model())).payload| <= room
      ensures p.Some? ==> p.value == CreatePacket(old(Model())) && Model() == PacketSent(old(Model()))
      ensures p.None? ==> Model() == SendFailed(old(Model()))
    {
      hide Size, Blocks, Num;
      var fetchingFurtherBlock2 := block2.Some? && Num(block2.value) > 0;
      var blockSize := Size(block1Size);
      var block1: Option<nat>, chunk: seq<byte> := None, [];
      if !fetchingFurtherBlock2 && block1Offset < |payload| {
        var rest := |payload| - block1Offset;
        if |payload| > blockSize {
          var blockMore := true;
          if rest <= blockSize {
            blockMore := false;
          }
          block1 := Some(BlockOption(Blocks(block1Offset, block1Size), blockMore, block1Size));
        }
        if rest > blockSize {
          rest := blockSize;
        }
        chunk := payload[block1Offset..block1Offset + rest];
      }
      if header + |chunk| > room {
        status := DecodeError;
        state := DoneCallback;
        return None;
      }
      p := Some(RequestPacket(kind, messageId, contentFormat, block1, block2, chunk));
      if kind == Non {
        state := WaitResponse;
      } else {
        state := WaitAck;
      }
    }

    /** The deadline the request waits for has passed. */
    method HandleDeadline(maxRetransmits: nat)
      modifies this
      ensures timeout == old(timeout)
      ensures Model() == HandleTimeout(old(Model()), maxRetransmits)
    {
      if state == WaitAck {
        if retransmissions >= maxRetransmits {
          status := TimedOut;
          state := DoneCallback;
        } else {
          retransmissions := retransmissions + 1;
          state := SendRequest;
        }
      } else if state == WaitResponse {
        status := TimedOut;
        state := DoneCallback;
      }
    }

    method Cancel()
      modifies this
      ensures timeout == old(timeout)
      ensures Model() == Stop(old(Model()))
    {
      if state == SendRequest || state == WaitAck || state == WaitResponse {
        state := DoneCallback;
        status := Stopped;
      }
    }
  }

  lemma ReceivedIs(c: Client, m: Reply)
    ensures Prepared(c, m).response == Some(Response(m.code, Received(c, m)))
    ensures Prepared(c, m).body == c.body && Prepared(c, m).block1Offset == c.block1Offset
    ensures forall body :: WithPlaced(c, m, body) ==
              Prepared(c, m).(response := Some(Response(m.code, body)),
                              block2 := if m.block2.Some? then Some(NextBlock2(m)) else Prepared(c, m).block2)
  {
  }

  lemma AdoptIs(c: Client, szx: nat)
    ensures Adopt(c, szx) == if CanAdopt(c, szx) then c.(block1Size := szx) else c
  {
  }

  lemma AdvanceIs(c: Client, block1: nat)
    requires c.block1Offset <= |c.body|
    ensures AdvanceBlock1(c, block1).body == c.body
  {
  }
}
