/** A CoAP server's requests as the C code has them: lists that grow and shrink,
    counters beside them, and three slots for what waits to be sent. */
module CoapTableCode {
  import opened Basics
  import opened CoapBlock
  import opened CoapClient
  import opened CoapServer
  import opened CoapRetransmit
  import opened CoapTable

  const CODE_BAD_OPTION: nat := 130
  const CODE_NOT_FOUND: nat := 132
  const CODE_UNAVAILABLE: nat := 163
  const CODE_INTERNAL_ERROR: nat := 160

  /** The diagnostic text "Request unhandled". */
  function RequestUnhandled(): seq<byte> {
    [82, 101, 113, 117, 101, 115, 116, 32, 117, 110, 104, 97, 110, 100, 108, 101, 100]
  }

  /** A request message with what the table needs to know about it: whether all
      its critical options are understood, the resource its path leads to, and
      whether it registers or deregisters an observer. */
  datatype Arrival = Arrival(connection: nat, token: seq<byte>, packet: RequestPacket, understood: bool,
                             resource: Option<nat>, registers: bool, deregisters: bool)

  /** Takes a packet for a request that is being received: what it carries is put
      behind the body so far, or the request is given up with an error code. */
  method ReceiveData(r: ServerRequest, p: RequestPacket, maxPayload: nat) returns (o: Outcome, code: nat)
    ensures o == HandleData(r, p, maxPayload)
    ensures o.request.None? ==> code == ErrorCode(r, p, maxPayload)
  {
    hide Refused, WithOptions, Misplaced, WithChunk, ErrorCode;
    o, code := Outcome(None, None), CODE_BAD_REQUEST;
    var taken, request;
    taken, request, code := TakeOptions(r, p, maxPayload);
    CodeOfChunk(r, p, maxPayload);
    if !taken {
      return;
    }
    if p.block1.Some? {
      o, code := ReceiveChunk(r, request, p, p.block1.value);
    } else {
      if p.payload != [] {
        request := request.(payload := p.payload);
      }
      o := Outcome(Some(request.(state := WithUser)), Some(request.payload));
    }
  }

  /** The options of a packet and what they rule out. */
  method TakeOptions(r: ServerRequest, p: RequestPacket, maxPayload: nat) returns (ok: bool, request: ServerRequest, code: nat)
    ensures ok <==> !Refused(r, p, maxPayload)
    ensures ok ==> request == WithOptions(r, p)
    ensures !ok ==> code == ErrorCode(r, p, maxPayload)
  {
    hide Szx, Offset;
    ok, request, code := false, r, CODE_BAD_REQUEST;
    if (p.block1.Some? && Szx(p.block1.value) == 7) || (p.block2.Some? && Szx(p.block2.value) == 7) {
      return;
    }
    if p.contentFormat.Some? {
      if request.contentFormat.Some? && request.contentFormat != p.contentFormat {
        code := CODE_INCOMPLETE;
        return;
      }
      request := request.(contentFormat := p.contentFormat);
    }
    if p.block2.Some? {
      request := request.(block2Request := p.block2);
    }
    if |request.payload| + |p.payload| > maxPayload {
      code := CODE_TOO_LARGE;
      return;
    }
    ok := true;
  }

  /** What is left to be wrong with a packet whose options have been taken. */
  lemma CodeOfChunk(r: ServerRequest, p: RequestPacket, maxPayload: nat)
    ensures p.block1.None? ==> !Misplaced(r, p)
    ensures !Refused(r, p, maxPayload) ==>
              ErrorCode(r, p, maxPayload) ==
              if p.block1.Some? && |r.payload| != Offset(p.block1.value) then CODE_INCOMPLETE else CODE_BAD_REQUEST
    ensures WithOptions(r, p).payload == r.payload
  {
  }

  /** A chunk with its Block1 option, for the request with its other options taken. */
  method ReceiveChunk(ghost r: ServerRequest, withOptions: ServerRequest, p: RequestPacket, v: nat) returns (o: Outcome, code: nat)
    requires p.block1 == Some(v) && withOptions == WithOptions(r, p)
    ensures o == if Misplaced(r, p) then Outcome(None, None)
                 else if More(v) then Outcome(Some(WithChunk(r, p)), None)
                 else Outcome(Some(WithChunk(r, p).(state := WithUser)), Some(WithChunk(r, p).payload))
    ensures Misplaced(r, p) ==> code == if |r.payload| != Offset(v) then CODE_INCOMPLETE else CODE_BAD_REQUEST
  {
    hide Size, Offset, Szx, More, Num;
    o, code := Outcome(None, None), CODE_BAD_REQUEST;
    var request := withOptions.(hasBlock1 := true);
    if |request.payload| != Offset(v) {
      code := CODE_INCOMPLETE;
      return;
    }
    var more := More(v);
    if more {
      if |p.payload| != Size(Szx(v)) {
        return;
      }
    }
    request := request.(payload := request.payload + p.payload, messageId := p.messageId,
                        block1Ack := BlockOption(Num(v), more, Szx(v)));
    if more {
      request := request.(hasBlock1Ack := true);
      return Outcome(Some(request), None), code;
    }
    o := Outcome(Some(request.(state := WithUser)), Some(request.payload));
  }

  class Requests {
    var requests: seq<Entry>
    var observers: seq<ObserverEntry>
    var activeRequests: nat
    var activeObservers: nat
    var maxRequests: nat
    var maxObservers: nat
    var maxRequestPayload: nat
    var error: Option<ErrorSlot>
    var ack: Option<MessageSlot>
    var rst: Option<MessageSlot>
    var messageId: u16
    var nextId: nat

    /** The counters are the lengths of the lists, no listed request is both
        freed and done, there is one observer per connection and token, and a
        request's observer is none or listed. */
    ghost predicate Valid()
      reads this
    {
      && activeRequests == |requests|
      && activeObservers == |observers|
      && RequestsOk(requests, observers, nextId)
      && ObserversOk(observers, nextId)
    }

    /** Everything that is to be sent, and every observer, has a connection. */
    ghost predicate Connected()
      reads this
    {
      AllConnected(requests, observers)
    }

    ghost function Out(): Outgoing
      reads this
    {
      Outgoing(error, ack, rst, requests, observers)
    }

    twostate predicate SameLimits()
      reads this
    {
      maxRequests == old(maxRequests) && maxObservers == old(maxObservers) && maxRequestPayload == old(maxRequestPayload)
    }

    constructor (requestLimit: nat, observerLimit: nat, payloadLimit: nat)
      ensures Valid() && Connected() && Pending(Out()) == 0
      ensures requests == [] && observers == []
      ensures maxRequests == requestLimit && maxObservers == observerLimit && maxRequestPayload == payloadLimit
    {
      requests, observers, activeRequests, activeObservers := [], [], 0, 0;
      maxRequests, maxObservers, maxRequestPayload := requestLimit, observerLimit, payloadLimit;
      error, ack, rst := None, None, None;
      messageId, nextId := 0, 0;
    }

    // -------------------------------------------------------------------- slots

    method NextMessageId() returns (id: u16)
      modifies this`messageId
      ensures id == messageId == NextId(old(messageId))
    {
      messageId := (messageId + 1) % 0x1_0000;
      id := messageId;
    }

    /** An error already waiting is kept. */
    method MakeErrorResponse(connection: nat, token: seq<byte>, p: RequestPacket, code: nat)
      modifies this`error, this`messageId
      ensures error == ErrorAfter(old(error), connection, token, p, code, NextId(old(messageId)))
    {
      if error.Some? {
        return;
      }
      if p.kind == Con {
        error := Some(ErrorSlot(connection, token, code, Ack, p.messageId));
      } else {
        var id := NextMessageId();
        error := Some(ErrorSlot(connection, token, code, Non, id));
      }
    }

    method QueueAck(connection: nat, id: u16)
      modifies this`ack
      ensures ack == AckAfter(old(ack), connection, id)
    {
      if ack.Some? {
        return;
      }
      ack := Some(MessageSlot(connection, id));
    }

    // -------------------------------------------------------------------- lists

    /** A changed entry is kept, or freed once it is dead. */
    method StoreRequest(i: nat, e: Entry)
      requires Valid() && i < |requests| && e.id == requests[i].id && OrphanOk(e)
      requires e.observer.Some? ==> HasObserver(observers, e.observer.value)
      modifies this`requests, this`activeRequests
      ensures Valid() && requests == Stored(old(requests), i, e)
      ensures old(Connected()) && (SendDue(e) ==> e.connection.Some?) ==> Connected()
    {
      if Connected() && (SendDue(e) ==> e.connection.Some?) {
        StoredConnected(requests, observers, i, e);
      }
      StoredOk(requests, observers, nextId, i, e);
      if e.isFreed && e.r.state == Finished {
        requests := RemoveAt(requests, i);
        activeRequests := activeRequests - 1;
      } else {
        requests := requests[i := e];
      }
    }

    /** Changes the request itself. */
    method UpdateRequest(i: nat, r: ServerRequest)
      requires Valid() && i < |requests| && OrphanOk(requests[i].(r := r))
      modifies this`requests, this`activeRequests
      ensures Valid() && requests == Stored(old(requests), i, old(requests)[i].(r := r))
      ensures var e := old(requests)[i].(r := r);
              old(Connected()) && (SendDue(e) ==> e.connection.Some?) ==> Connected()
    {
      StoreRequest(i, requests[i].(r := r));
    }

    /** Drops a request the application has never seen. */
    method DropRequest(i: nat)
      requires Valid() && i < |requests|
      modifies this`requests, this`activeRequests
      ensures Valid() && requests == RemoveAt(old(requests), i)
      ensures old(Connected()) ==> Connected()
    {
      StoreRequest(i, requests[i].(isFreed := true, r := requests[i].r.(state := Finished)));
    }

    method FindRequest(connection: nat, token: seq<byte>) returns (at: Option<nat>)
      ensures at.Some? ==> FirstMatch(requests, at.value, connection, token)
      ensures at.None? ==> forall i :: 0 <= i < |requests| ==> !Matches(requests[i], connection, token)
    {
      for i := 0 to |requests|
        invariant forall j :: 0 <= j < i ==> !Matches(requests[j], connection, token)
      {
        if requests[i].token == token && requests[i].connection == Some(connection) {
          return Some(i);
        }
      }
      at := None;
    }

    /** The response in flight with a message id. */
    method FindResponse(connection: nat, id: u16) returns (at: Option<nat>)
      ensures at.Some? ==> FirstAwaiting(requests, at.value, connection, id)
      ensures at.None? ==> forall i :: 0 <= i < |requests| ==> !AwaitsAck(requests[i], connection, id)
    {
      for i := 0 to |requests|
        invariant forall j :: 0 <= j < i ==> !AwaitsAck(requests[j], connection, id)
      {
        if InFlight(requests[i].r) && requests[i].connection == Some(connection) && requests[i].r.responseId == id {
          return Some(i);
        }
      }
      at := None;
    }

    method FindNotification(connection: nat, id: u16) returns (at: Option<nat>)
      ensures at.Some? ==> FirstNotified(observers, at.value, connection, id)
      ensures at.None? ==> forall j :: 0 <= j < |observers| ==> !NotificationAwaitsAck(observers[j], connection, id)
    {
      for j := 0 to |observers|
        invariant forall k :: 0 <= k < j ==> !NotificationAwaitsAck(observers[k], connection, id)
      {
        if NotificationInFlight(observers[j].o) && observers[j].connection == Some(connection) && observers[j].o.messageId == id {
          return Some(j);
        }
      }
      at := None;
    }

    method FindObserver(connection: Option<nat>, token: seq<byte>) returns (at: Option<nat>)
      ensures at.Some? ==> at.value < |observers| && Observes(observers[at.value], connection, token)
      ensures at.None? ==> forall j :: 0 <= j < |observers| ==> !Observes(observers[j], connection, token)
    {
      for j := 0 to |observers|
        invariant forall k :: 0 <= k < j ==> !Observes(observers[k], connection, token)
      {
        if observers[j].connection == connection && observers[j].token == token {
          return Some(j);
        }
      }
      at := None;
    }

    /** Frees an observer and every request's pointer to it. */
    method ObserverFree(j: nat)
      requires Valid() && j < |observers|
      modifies this`requests, this`observers, this`activeObservers
      ensures Valid() && observers == RemoveAt(old(observers), j)
      ensures requests == Unlinked(old(requests), old(observers)[j].id)
      ensures old(Connected()) ==> Connected()
    {
      ObserverFreedOk(requests, observers, nextId, j);
      var id := observers[j].id;
      observers := RemoveAt(observers, j);
      activeObservers := activeObservers - 1;
      ghost var before := requests;
      for i := 0 to |requests|
        invariant observers == RemoveAt(old(observers), j) && activeObservers == |observers|
        invariant |requests| == |before| == activeRequests && nextId == old(nextId)
        invariant forall k :: 0 <= k < i ==> requests[k] == Unlinked(before, id)[k]
        invariant forall k :: i <= k < |requests| ==> requests[k] == before[k]
      {
        if requests[i].observer == Some(id) {
          requests := requests[i := requests[i].(observer := None)];
        }
      }
      assert requests == Unlinked(before, id);
    }

    // ------------------------------------------------------------ acks and resets

    /** An ack reaches a response or notification in flight, or nothing. */
    method HandleAckMessage(connection: nat, id: u16)
      requires Valid()
      modifies this
      ensures SameLimits()
      ensures Valid()
      ensures error == old(error) && ack == old(ack) && rst == old(rst)
      ensures forall i: nat :: FirstAwaiting(old(requests), i, connection, id) ==>
                observers == old(observers) && requests == Stored(old(requests), i, Acked(old(requests)[i], id))
      ensures (forall i :: 0 <= i < |old(requests)| ==> !AwaitsAck(old(requests)[i], connection, id)) ==>
                && requests == old(requests)
                && (forall j: nat :: FirstNotified(old(observers), j, connection, id) ==>
                      observers == old(observers)[j := Notified(old(observers)[j], NextId(old(messageId)))])
                && ((forall j :: 0 <= j < |old(observers)| ==> !NotificationAwaitsAck(old(observers)[j], connection, id)) ==>
                      observers == old(observers))
      ensures old(Connected()) ==> Connected()
    {
      hide HandleAck, RequestsOk, ObserversOk, NotificationInFlight, LastBlock, Acknowledged;
      var at := FindResponse(connection, id);
      if at.Some? {
        ghost var before := requests;
        UpdateRequest(at.value, HandleAck(requests[at.value].r, id));
        assert requests == Stored(before, at.value, Acked(before[at.value], id));
        return;
      }
      var notified := FindNotification(connection, id);
      if notified.Some? {
        ghost var before, nextId := observers, NextId(messageId);
        NotificationAckedAt(notified.value);
        assert observers == before[notified.value := Notified(before[notified.value], nextId)];
      }
    }

    /** The notification is done with; one that has been put off takes its place. */
    method NotificationAckedAt(j: nat)
      requires Valid() && j < |observers|
      modifies this`observers, this`messageId
      ensures Valid()
      ensures observers == old(observers)[j := Notified(old(observers)[j], NextId(old(messageId)))]
      ensures old(Connected()) ==> Connected()
    {
      hide RequestsOk;
      var o := observers[j].o;
      o := o.(payload := [], sendNow := false, waitingForAck := false);
      if o.pending.Some? {
        var id := NextMessageId();
        o := Promote(o, id);
      }
      ReplaceObserver(j, o);
    }

    method ReplaceObserver(j: nat, o: Observer)
      requires Valid() && j < |observers|
      modifies this`observers
      ensures Valid() && observers == old(observers)[j := old(observers)[j].(o := o)]
      ensures old(Connected()) ==> Connected()
    {
      SameObservers(requests, observers, nextId, j, o);
      observers := observers[j := observers[j].(o := o)];
    }

    method HandleRstMessage(connection: nat, id: u16)
      requires Valid()
      modifies this
      ensures SameLimits()
      ensures Valid()
      ensures error == old(error) && ack == old(ack) && rst == old(rst)
      ensures forall i: nat :: FirstAwaiting(old(requests), i, connection, id) ==>
                observers == old(observers) && requests == Stored(old(requests), i, Reset(old(requests)[i]))
      ensures (forall i :: 0 <= i < |old(requests)| ==> !AwaitsAck(old(requests)[i], connection, id)) ==>
                && (forall j: nat :: FirstNotified(old(observers), j, connection, id) ==>
                      observers == RemoveAt(old(observers), j) && requests == Unlinked(old(requests), old(observers)[j].id))
                && ((forall j :: 0 <= j < |old(observers)| ==> !NotificationAwaitsAck(old(observers)[j], connection, id)) ==>
                      requests == old(requests) && observers == old(observers))
      ensures old(Connected()) ==> Connected()
    {
      hide RequestsOk, NotificationInFlight;
      var at := FindResponse(connection, id);
      if at.Some? {
        ghost var before := requests;
        UpdateRequest(at.value, requests[at.value].r.(state := Finished));
        assert requests == Stored(before, at.value, Reset(before[at.value]));
        return;
      }
      var notified := FindNotification(connection, id);
      if notified.Some? {
        ObserverFree(notified.value);
      }
    }

    // ---------------------------------------------------------------- requests

    method QueueRst(connection: nat, id: u16)
      modifies this`rst
      ensures rst == AckAfter(old(rst), connection, id)
    {
      if rst.Some? {
        return;
      }
      rst := Some(MessageSlot(connection, id));
    }

    /** A request message arrives; returned is what the application is called
        with, if it is. A message with a critical option that is not understood is
        answered with an error or a reset and has no other effect. */
    method HandleRequestMessage(a: Arrival) returns (called: Option<seq<byte>>)
      requires Valid()
      modifies this
      ensures Valid()
      ensures maxRequests == old(maxRequests) && maxObservers == old(maxObservers)
      ensures maxRequestPayload == old(maxRequestPayload)
      ensures !a.understood ==> requests == old(requests) && observers == old(observers) && ack == old(ack) && called.None?
      ensures !a.understood && a.packet.kind == Con ==>
                rst == old(rst) && error == ErrorFor(old(error), a, Some(CODE_BAD_OPTION), NextId(old(messageId)))
      ensures !a.understood && a.packet.kind != Con ==>
                error == old(error) && rst == AckAfter(old(rst), a.connection, a.packet.messageId)
      ensures a.understood ==> rst == old(rst)
      ensures forall i: nat :: a.understood && FirstMatch(old(requests), i, a.connection, a.token) ==>
                  var r := old(requests)[i].r; var id := NextId(old(messageId));
                  var o := HandleRequestPacket(Some(r), a.packet, true, id, maxRequestPayload);
                  && requests == Taken(old(requests), i, o) && called == o.called && observers == old(observers)
                  && error == ErrorFor(old(error), a, FailureCode(r, a.packet, maxRequestPayload), id)
                  && ack == (if AckDue(r, a.packet, maxRequestPayload) then AckFor(old(ack), a) else old(ack))
      ensures a.understood && (forall i :: 0 <= i < |old(requests)| ==> !Matches(old(requests)[i], a.connection, a.token)) ==>
                if a.resource.None? || |old(requests)| >= maxRequests
                then
                  && requests == old(requests) && observers == old(observers) && called.None? && ack == old(ack)
                  && error == ErrorFor(old(error), a, Some(NoRequestCode(a)), NextId(old(messageId)))
                else
                  var id := NextId(old(messageId)); var r := NewServerRequest(a.packet, id);
                  var o := HandleRequestPacket(None, a.packet, true, id, maxRequestPayload);
                  && called == o.called && observers == AfterDeregistration(old(observers), a)
                  && requests == NewRequests(old(nextId), a, o) + Relinked(old(requests), observers)
                  && error == ErrorFor(old(error), a, NewFailure(a, id, maxRequestPayload), NextId(id))
                  && ack == (if NewAckDue(a, id, maxRequestPayload) then AckFor(old(ack), a) else old(ack))
      ensures old(Connected()) ==> Connected()
    {
      hide RequestsOk, ObserversOk, HandleRequestPacket, NextId, Relinked, AfterDeregistration;
      hide FailureCode, AckDue, NewFailure, NewAckDue, NewRequests, Taken;
      if !a.understood {
        if a.packet.kind == Con {
          MakeErrorResponse(a.connection, a.token, a.packet, CODE_BAD_OPTION);
        } else {
          QueueRst(a.connection, a.packet.messageId);
        }
        return None;
      }
      var at := FindRequest(a.connection, a.token);
      if at.Some? {
        called := HandleExisting(at.value, a);
      } else {
        called := HandleNewRequest(a);
      }
    }

    method HandleExisting(i: nat, a: Arrival) returns (called: Option<seq<byte>>)
      requires Valid() && i < |requests| && requests[i].connection == Some(a.connection)
      modifies this
      ensures Valid() && observers == old(observers) && rst == old(rst) && SameLimits()
      ensures var r := old(requests)[i].r; var id := NextId(old(messageId));
              var o := HandleRequestPacket(Some(r), a.packet, true, id, maxRequestPayload);
              && requests == Taken(old(requests), i, o) && called == o.called
              && error == ErrorFor(old(error), a, FailureCode(r, a.packet, maxRequestPayload), id)
              && ack == (if AckDue(r, a.packet, maxRequestPayload) then AckFor(old(ack), a) else old(ack))
      ensures old(Connected()) ==> Connected()
    {
      hide RequestsOk, ObserversOk, HandleData, NextId, BadBlock, More, Szx, Num, ErrorCode;
      called := None;
      var r, p := requests[i].r, a.packet;
      if r.messageId == p.messageId {
        // a duplicate is acknowledged like the original, but processed once
        if p.kind == Con {
          if !(r.state == Receiving && More(r.block1Ack)) {
            QueueAck(a.connection, p.messageId);
          }
        }
        UpdateRequest(i, HandleDuplicate(r, p.kind));
      } else if r.state == Receiving {
        called := HandleDataForRequest(i, a);
      } else if r.state == Responding && p.block2.Some? {
        HandleDataForResponse(i, a);
      } else {
        UpdateRequest(i, r);
      }
    }

    /** A packet for a request that is being received. */
    method HandleDataForRequest(i: nat, a: Arrival) returns (called: Option<seq<byte>>)
      requires Valid() && i < |requests| && requests[i].connection == Some(a.connection)
      modifies this
      ensures Valid() && observers == old(observers) && rst == old(rst) && SameLimits()
      ensures var r := old(requests)[i].r; var o := HandleData(r, a.packet, maxRequestPayload);
              && requests == Taken(old(requests), i, o) && called == o.called
              && error == (if o.request.Some? then old(error) else
                             ErrorFor(old(error), a, Some(ErrorCode(r, a.packet, maxRequestPayload)), NextId(old(messageId))))
              && ack == (if o.request.Some? && a.packet.kind == Con && !o.request.value.hasBlock1Ack
                         then AckFor(old(ack), a) else old(ack))
      ensures old(Connected()) ==> Connected()
    {
      hide RequestsOk, ObserversOk, HandleData, ErrorCode, NextId;
      var r, p := requests[i].r, a.packet;
      var outcome, code := ReceiveData(r, p, maxRequestPayload);
      if outcome.request.None? {
        MakeErrorResponse(a.connection, a.token, p, code);
        DropRequest(i);
      } else {
        if p.kind == Con && !outcome.request.value.hasBlock1Ack {
          QueueAck(a.connection, p.messageId);
        }
        UpdateRequest(i, outcome.request.value);
      }
      called := outcome.called;
    }

    /** The client asks for a block of the response. */
    method HandleDataForResponse(i: nat, a: Arrival)
      requires Valid() && i < |requests| && a.packet.block2.Some? && requests[i].connection == Some(a.connection)
      modifies this
      ensures Valid() && observers == old(observers) && rst == old(rst) && SameLimits()
      ensures var r := old(requests)[i].r; var bad := BadBlock(r, a.packet.block2.value); var id := NextId(old(messageId));
              && requests == Stored(old(requests), i, old(requests)[i].(r := HandleBlock2Request(r, a.packet, id)))
              && error == ErrorFor(old(error), a, if bad then Some(CODE_BAD_REQUEST) else None, id)
              && ack == (if !bad && a.packet.kind == Con then AckFor(old(ack), a) else old(ack))
      ensures old(Connected()) ==> Connected()
    {
      hide RequestsOk, ObserversOk, NextId, Szx, Num;
      var r, p := requests[i].r, a.packet;
      if BadBlock(r, p.block2.value) {
        MakeErrorResponse(a.connection, a.token, p, CODE_BAD_REQUEST);
        UpdateRequest(i, r.(state := Finished));
      } else {
        if p.kind == Con {
          QueueAck(a.connection, p.messageId);
        }
        var id := NextMessageId();
        UpdateRequest(i, HandleBlock2Request(r, p, id));
      }
    }

    /** A request no listed one matches: answered with an error if its resource
        does not exist or the table is full, else listed and handled. */
    method HandleNewRequest(a: Arrival) returns (called: Option<seq<byte>>)
      requires Valid()
      modifies this
      ensures Valid() && rst == old(rst) && SameLimits()
      ensures if a.resource.None? || |old(requests)| >= maxRequests
              then
                && requests == old(requests) && observers == old(observers) && called.None? && ack == old(ack)
                && error == ErrorFor(old(error), a, Some(NoRequestCode(a)), NextId(old(messageId)))
              else
                var id := NextId(old(messageId));
                var o := HandleRequestPacket(None, a.packet, true, id, maxRequestPayload);
                && called == o.called && observers == AfterDeregistration(old(observers), a)
                && requests == NewRequests(old(nextId), a, o) + Relinked(old(requests), observers)
                && error == ErrorFor(old(error), a, NewFailure(a, id, maxRequestPayload), NextId(id))
                && ack == (if NewAckDue(a, id, maxRequestPayload) then AckFor(old(ack), a) else old(ack))
      ensures old(Connected()) ==> Connected()
    {
      hide RequestsOk, ObserversOk, HandleData, NextId, ErrorCode, Relinked, AfterDeregistration;
      if a.resource.None? {
        MakeErrorResponse(a.connection, a.token, a.packet, CODE_NOT_FOUND);
        return None;
      }
      if activeRequests >= maxRequests {
        MakeErrorResponse(a.connection, a.token, a.packet, CODE_UNAVAILABLE);
        return None;
      }
      ghost var id := NextId(messageId);
      CreateRequest(a);
      ghost var listed := requests;
      called := HandleDataForRequest(0, a);
      TakenFirst(listed, HandleData(NewServerRequest(a.packet, id), a.packet, maxRequestPayload));
    }

    /** Lists a new request, after the observer it deregisters, if any, is gone. */
    method CreateRequest(a: Arrival)
      requires Valid()
      modifies this
      ensures Valid() && rst == old(rst) && SameLimits() && error == old(error) && ack == old(ack)
      ensures messageId == NextId(old(messageId)) && observers == AfterDeregistration(old(observers), a)
      ensures requests == [NewEntry(old(nextId), a, NewServerRequest(a.packet, messageId))] + Relinked(old(requests), observers)
      ensures old(Connected()) ==> Connected()
    {
      hide RequestsOk, ObserversOk, NextId, Relinked;
      var responseId := NextMessageId();
      if a.deregisters {
        DropObserver(Some(a.connection), a.token);
      } else {
        AllLinked(requests, observers, nextId);
      }
      InsertRequest(Entry(nextId, Some(a.connection), a.token, NewServerRequest(a.packet, responseId), false, a.registers, None));
    }

    /** Frees the observer with a connection and token, if there is one. */
    method DropObserver(connection: Option<nat>, token: seq<byte>)
      requires Valid()
      modifies this`requests, this`observers, this`activeObservers
      ensures Valid() && observers == Staying(old(observers), OfToken(connection, token))
      ensures requests == Relinked(old(requests), observers)
      ensures old(Connected()) ==> Connected()
    {
      hide RequestsOk, ObserversOk, Relinked, Unlinked, Staying;
      var at := FindObserver(connection, token);
      AllLinked(requests, observers, nextId);
      if at.Some? {
        OneObserver(observers, nextId, at.value, connection, token);
        UnlinkedIsRelinked(requests, observers, nextId, at.value);
        ObserverFree(at.value);
      } else {
        NoObserver(observers, connection, token);
      }
    }

    method InsertRequest(e: Entry)
      requires Valid() && e.id == nextId && !Dead(e) && e.observer.None? && OrphanOk(e)
      modifies this`requests, this`activeRequests, this`nextId
      ensures Valid() && requests == [e] + old(requests) && nextId == old(nextId) + 1
      ensures old(Connected()) && e.connection.Some? ==> Connected()
    {
      InsertedOk(requests, observers, nextId, e);
      requests := [e] + requests;
      activeRequests := activeRequests + 1;
      nextId := nextId + 1;
    }

    // ------------------------------------------------------------- application

    /** The application has set its response. */
    method ResponseReady(i: nat, code: nat, response: seq<byte>) returns (ok: bool)
      requires Valid() && i < |requests|
      modifies this`requests, this`activeRequests
      ensures Valid() && ok == old(requests)[i].connection.Some?
      ensures requests == Stored(old(requests), i, Answered(old(requests)[i], code, response))
      ensures old(Connected()) ==> Connected()
    {
      hide RequestsOk, ObserversOk, Respond;
      var e := requests[i];
      if e.connection.None? {
        UpdateRequest(i, e.r.(state := Finished));
        return false;
      }
      UpdateRequest(i, Respond(e.r, code, response));
      ok := true;
    }

    /** The application is done with a request; one it has not answered is
        answered with an error. */
    method RequestFree(i: nat)
      requires Valid() && i < |requests| && !requests[i].isFreed
      modifies this`requests, this`activeRequests
      ensures Valid()
      ensures requests == Stored(old(requests), i, FreedByUser(old(requests)[i]))
      ensures old(Connected()) ==> Connected()
    {
      hide RequestsOk, ObserversOk, Respond;
      ghost var before := requests;
      var e := requests[i];
      if e.r.state == Receiving || e.r.state == WithUser {
        e := Answered(e.(r := e.r.(block2Request := None)), CODE_INTERNAL_ERROR, RequestUnhandled());
      }
      AnsweredSame(before[i], CODE_INTERNAL_ERROR, RequestUnhandled());
      ObserverListed(requests, observers, nextId, i);
      StoreRequest(i, e.(isFreed := true));
    }

    /** Registers the request's token as an observer, in place of one it may have. */
    method AcceptObserve(i: nat, resource: nat) returns (ok: bool)
      requires Valid() && i < |requests|
      modifies this
      ensures Valid() && SameLimits() && error == old(error) && ack == old(ack) && rst == old(rst)
      ensures messageId == old(messageId)
      ensures var e := old(requests)[i]; var g := OfToken(e.connection, e.token);
              && (ok <==> e.isObserve && ((exists n :: n in old(observers) && IsGone(n, g)) || |old(observers)| < maxObservers))
              && (!ok ==> requests == old(requests) && observers == old(observers))
              && (ok ==>
                   && observers == [NewObserver(old(nextId), e, resource)] + Staying(old(observers), g)
                   && requests == Relinked(old(requests), Staying(old(observers), g))[i := e.(observer := Some(old(nextId)))])
      ensures old(Connected()) ==> (Connected() <==> !ok || old(requests)[i].connection.Some?)
    {
      hide RequestsOk, ObserversOk, Relinked, Staying;
      if !requests[i].isObserve {
        return false;
      }
      var connection, token := requests[i].connection, requests[i].token;
      var existing := FindObserver(connection, token);
      if existing.None? && activeObservers >= maxObservers {
        assert forall n :: n in observers ==> !IsGone(n, OfToken(connection, token));
        return false;
      }
      ghost var g := OfToken(connection, token);
      assert existing.Some? ==> observers[existing.value] in observers && IsGone(observers[existing.value], g);
      assert existing.None? ==> forall n :: n in observers ==> !IsGone(n, g);
      DropObserver(connection, token);
      assert requests[i] == Relink(old(requests)[i], observers);
      StayingHasNone(observers, old(observers), connection, token);
      InsertObserver(NewObserver(nextId, requests[i], resource));
      LinkedOk(requests, observers, nextId, i, observers[0].id);
      requests := requests[i := requests[i].(observer := Some(observers[0].id))];
      ok := true;
    }

    method InsertObserver(n: ObserverEntry)
      requires Valid() && n.id == nextId && forall j :: 0 <= j < |observers| ==> !Observes(observers[j], n.connection, n.token)
      modifies this`observers, this`activeObservers, this`nextId
      ensures Valid() && observers == [n] + old(observers) && nextId == old(nextId) + 1
      ensures old(Connected()) ==> (Connected() <==> n.connection.Some?)
    {
      ObserverInsertedOk(requests, observers, nextId, n);
      observers := [n] + observers;
      assert observers[0] == n && forall j :: 1 <= j < |observers| ==> observers[j] == old(observers)[j - 1];
      activeObservers := activeObservers + 1;
      nextId := nextId + 1;
    }

    /** Every observer of a resource gets a notification with the next message id,
        or, with a notification in flight, a pending one. */
    method ResourceNotify(resource: nat, payload: seq<byte>)
      requires Valid()
      modifies this`observers, this`messageId
      ensures Valid() && |observers| == |old(observers)| && messageId == IdAfter(old(observers), resource, old(messageId))
      ensures forall j :: 0 <= j < |observers| ==>
                observers[j] == Renotified(old(observers)[j], resource, payload, IdAfter(old(observers)[..j + 1], resource, old(messageId)))
      ensures old(Connected()) ==> Connected()
    {
      hide RequestsOk, ObserversOk, NextId;
      ghost var before := observers;
      for j := 0 to |observers|
        invariant Valid() && |observers| == |before| && messageId == IdAfter(before[..j], resource, old(messageId))
        invariant forall k :: j <= k < |observers| ==> observers[k] == before[k]
        invariant forall k :: 0 <= k < j ==>
                    observers[k] == Renotified(before[k], resource, payload, IdAfter(before[..k + 1], resource, old(messageId)))
      {
        assert before[..j + 1][..j] == before[..j];
        if observers[j].resource == resource {
          var o := observers[j].o;
          if o.waitingForAck {
            o := o.(pending := Some(payload));
          } else {
            var id := NextMessageId();
            o := Fresh(o, payload, id);
          }
          ReplaceObserver(j, o);
        }
      }
      assert before[..|before|] == before;
    }

    // ------------------------------------------------- deadlines and connections

    /** The deadlines of some requests and observers have passed. */
    method HandleTimeout(expired: set<nat>)
      requires Valid()
      modifies this`requests, this`activeRequests, this`observers, this`activeObservers
      ensures Valid() && requests == Relinked(AfterDeadlines(old(requests), expired), observers)
      ensures observers == AfterNotificationDeadlines(old(observers), expired)
      ensures old(Connected()) ==> Connected()
    {
      hide Valid, Connected, AfterNotificationDeadlines, AfterDeadlines, Relinked;
      ExpireRequests(expired);
      ExpireNotifications(expired);
    }

    method ExpireNotifications(expired: set<nat>)
      requires Valid()
      modifies this`requests, this`observers, this`activeObservers
      ensures Valid() && requests == Relinked(old(requests), observers)
      ensures observers == AfterNotificationDeadlines(old(observers), expired)
      ensures old(Connected()) ==> Connected()
    {
      hide RequestsOk, ObserversOk, AfterNotificationDeadlines, Relinked, Unlinked, RemoveAt, Connected;
      ghost var before, listed := observers, requests;
      AllLinked(requests, observers, nextId);
      var j := 0;
      ghost var k := 0;
      NotificationsStart(before, expired);
      while j < |observers|
        invariant Valid() && 0 <= k <= |before| && j == |AfterNotificationDeadlines(before[..k], expired)|
        invariant observers == AfterNotificationDeadlines(before[..k], expired) + before[k..]
        invariant requests == Relinked(listed, observers) && (old(Connected()) ==> Connected())
        decreases |before| - k
      {
        NotificationsStep(before, k, expired);
        NotificationBetween(AfterNotificationDeadlines(before[..k], expired), before, k, NotificationExpired(before[k], expired));
        if observers[j].id in expired && observers[j].o.waitingForAck {
          if observers[j].o.retransmissions > MAX_RETRANSMIT {
            UnlinkedIsRelinked(listed, observers, nextId, j);
            ObserverFree(j);
          } else {
            SameIdsRelink(listed, observers, j, observers[j].o.(waitingForAck := false, sendNow := true));
            ReplaceObserver(j, observers[j].o.(waitingForAck := false, sendNow := true));
            j := j + 1;
          }
        } else {
          j := j + 1;
        }
        k := k + 1;
      }
      assert before[..k] == before;
    }

    method ExpireRequests(expired: set<nat>)
      requires Valid()
      modifies this`requests, this`activeRequests
      ensures Valid() && requests == AfterDeadlines(old(requests), expired)
      ensures old(Connected()) ==> Connected()
    {
      hide RequestTimeout, AfterDeadlines, Dead, Stored, RequestsOk, ObserversOk;
      ghost var before := requests;
      var i := 0;
      ghost var k := 0;
      DeadlinesStart(before, expired);
      while i < |requests|
        invariant 0 <= k <= |before| && i == |AfterDeadlines(before[..k], expired)|
        invariant requests == AfterDeadlines(before[..k], expired) + before[k..]
        invariant activeRequests == |requests|
        decreases |before| - k
      {
        DeadlinesStep(before, k, expired);
        PutBetween(AfterDeadlines(before[..k], expired), before, k, Expired(before[k], expired));
        var e := requests[i];
        if e.id in expired {
          e := e.(r := RequestTimeout(e.r), isFreed := e.isFreed || e.r.state == Receiving);
        }
        var kept := PutRequest(i, e);
        i := if kept then i + 1 else i;
        k := k + 1;
      }
      assert before[..k] == before;
      assert requests == AfterDeadlines(before, expired);
      AfterDeadlinesOk(before, observers, nextId, expired);
      if old(Connected()) {
        OrphansOk(before, observers, nextId);
        DueAfterDeadlines(before, expired);
      }
    }

    /** Puts back a changed entry, or frees it. */
    method PutRequest(i: nat, e: Entry) returns (kept: bool)
      requires i < |requests| && activeRequests == |requests|
      modifies this`requests, this`activeRequests
      ensures requests == Stored(old(requests), i, e) && activeRequests == |requests| && kept == !Dead(e)
    {
      kept := !(e.isFreed && e.r.state == Finished);
      if kept {
        requests := requests[i := e];
      } else {
        requests := RemoveAt(requests, i);
        activeRequests := activeRequests - 1;
      }
    }

    /** Everything of a connection that is gone goes, but for what the application
        still holds. */
    method RemoveConnection(connection: nat)
      requires Valid()
      modifies this
      ensures Valid()
      ensures SameLimits() && messageId == old(messageId) && observers == Staying(old(observers), OfConnection(connection))
      ensures requests == AfterDisconnect(Relinked(old(requests), observers), connection)
      ensures ack == (if old(ack).Some? && old(ack).value.connection == connection then None else old(ack))
      ensures rst == (if old(rst).Some? && old(rst).value.connection == connection then None else old(rst))
      ensures error == (if old(error).Some? && old(error).value.connection == connection then None else old(error))
      ensures old(Connected()) ==> (Connected() <==> NoContinueOwed(old(requests), connection))
    {
      hide RequestsOk, ObserversOk, AfterDisconnect, Relinked, Staying;
      ghost var before, beforeObservers := requests, observers;
      DropObservers(connection);
      DisconnectRequests(connection);
      if old(Connected()) {
        DisconnectConnectedExactly(before, beforeObservers, connection);
      }
      if ack.Some? && ack.value.connection == connection {
        ack := None;
      }
      if rst.Some? && rst.value.connection == connection {
        rst := None;
      }
      if error.Some? && error.value.connection == connection {
        error := None;
      }
    }

    method DropObservers(connection: nat)
      requires Valid()
      modifies this`requests, this`observers, this`activeObservers
      ensures Valid() && observers == Staying(old(observers), OfConnection(connection))
      ensures requests == Relinked(old(requests), observers)
      ensures old(Connected()) ==> Connected()
    {
      hide RequestsOk, ObserversOk, Relinked, Unlinked, RemoveAt, Staying;
      ghost var before, g := observers, OfConnection(connection);
      AllLinked(requests, observers, nextId);
      StayingStart(before, g);
      var j := 0;
      ghost var k := 0;
      while j < |observers|
        invariant Valid() && 0 <= k <= |before| && j == |Staying(before[..k], g)|
        invariant observers == Staying(before[..k], g) + before[k..]
        invariant requests == Relinked(old(requests), observers) && (old(Connected()) ==> Connected())
        decreases |before| - k
      {
        StayingStep(before, k, g);
        NotificationBetween(Staying(before[..k], g), before, k, before[k]);
        if observers[j].connection == Some(connection) {
          UnlinkedIsRelinked(old(requests), observers, nextId, j);
          ObserverFree(j);
        } else {
          j := j + 1;
        }
        k := k + 1;
      }
      assert before[..k] == before;
      assert observers == Staying(before, g);
    }

    method DisconnectRequests(connection: nat)
      requires Valid()
      modifies this`requests, this`activeRequests
      ensures Valid() && requests == AfterDisconnect(old(requests), connection)
    {
      hide AfterDisconnect, Dead, Disconnected, Stored, RequestsOk, ObserversOk;
      ghost var before := requests;
      var i := 0;
      ghost var k := 0;
      DisconnectStart(before, connection);
      while i < |requests|
        invariant 0 <= k <= |before| && i == |AfterDisconnect(before[..k], connection)|
        invariant requests == AfterDisconnect(before[..k], connection) + before[k..]
        invariant activeRequests == |requests|
        decreases |before| - k
      {
        DisconnectStep(before, k, connection);
        PutBetween(AfterDisconnect(before[..k], connection), before, k, Disconnected(before[k], connection));
        var e := DisconnectRequest(requests[i], connection);
        var kept := PutRequest(i, e);
        i := if kept then i + 1 else i;
        k := k + 1;
      }
      assert before[..k] == before;
      assert requests == AfterDisconnect(before, connection);
      AfterDisconnectOk(before, observers, nextId, connection);
    }

    // ------------------------------------------------------------------ sending

    /** Is there something to send? */
    method NextEventIsSend() returns (send: bool)
      ensures send <==> NextItem(Out()).Some?
    {
      if error.Some? || ack.Some? || rst.Some? {
        return true;
      }
      for i := 0 to |requests|
        invariant forall j :: 0 <= j < i ==> !SendDue(requests[j])
      {
        if (requests[i].r.state == Receiving || requests[i].r.state == WithUser) && requests[i].r.hasBlock1Ack {
          return true;
        } else if requests[i].r.state == Responding && requests[i].r.sendNow {
          return true;
        }
      }
      for j := 0 to |observers|
        invariant forall k :: 0 <= k < j ==> !observers[k].o.sendNow
      {
        if observers[j].o.sendNow {
          return true;
        }
      }
      send := false;
    }

    /** The connection the next packet goes to; none also for a request that has
        lost its connection. */
    method GetConnectionSend() returns (connection: Option<nat>)
      ensures connection == ConnectionOf(Out())
      ensures Connected() ==> (connection.Some? <==> NextItem(Out()).Some?)
    {
      if error.Some? {
        return Some(error.value.connection);
      }
      if ack.Some? {
        return Some(ack.value.connection);
      }
      if rst.Some? {
        return Some(rst.value.connection);
      }
      for i := 0 to |requests|
        invariant forall j :: 0 <= j < i ==> !SendDue(requests[j])
      {
        if (requests[i].r.state == Receiving || requests[i].r.state == WithUser) && requests[i].r.hasBlock1Ack {
          assert FirstDue(requests) == i;
          return requests[i].connection;
        } else if requests[i].r.state == Responding && requests[i].r.sendNow {
          assert FirstDue(requests) == i;
          return requests[i].connection;
        }
      }
      for j := 0 to |observers|
        invariant forall k :: 0 <= k < j ==> !observers[k].o.sendNow
      {
        if observers[j].o.sendNow {
          assert FirstNotification(observers) == j;
          return observers[j].connection;
        }
      }
      connection := None;
    }

    /** Sends one packet into a buffer. What does not fit stays to be sent, except
        that a response or Continue counts as sent. */
    method HandleSend(fits: bool)
      requires Valid()
      modifies this
      ensures SameLimits() && messageId == old(messageId)
      ensures Valid() && Out() == if fits || SentRegardless(old(Out())) then AfterSend(old(Out())) else old(Out())
      ensures old(Connected()) ==> Connected()
    {
      hide RequestsOk, ObserversOk;
      if error.Some? {
        error := if fits then None else error;
        return;
      }
      if ack.Some? {
        ack := if fits then None else ack;
        return;
      }
      if rst.Some? {
        rst := if fits then None else rst;
        return;
      }
      SendDueItem(fits);
    }

    /** The first due response, or else the first due notification. */
    method SendDueItem(fits: bool)
      requires Valid() && error.None? && ack.None? && rst.None?
      modifies this
      ensures SameLimits() && messageId == old(messageId)
      ensures Valid() && Out() == if fits || SentRegardless(old(Out())) then AfterSend(old(Out())) else old(Out())
      ensures old(Connected()) ==> Connected()
    {
      hide Valid, FirstNotification;
      for i := 0 to |requests|
        invariant Valid() && Out() == old(Out())
        invariant forall j :: 0 <= j < i ==> !SendDue(requests[j])
      {
        var r := requests[i].r;
        if (r.state == Receiving || r.state == WithUser) && r.hasBlock1Ack {
          assert FirstDue(requests) == i;
          SendFrom(i, r.(hasBlock1Ack := false));
          return;
        } else if r.state == Responding && r.sendNow {
          assert FirstDue(requests) == i;
          SendFrom(i, ResponseSent(r));
          return;
        }
      }
      assert FirstDue(requests) == |requests|;
      SendNotification(fits);
    }

    method SendNotification(fits: bool)
      requires Valid() && error.None? && ack.None? && rst.None? && FirstDue(requests) == |requests|
      modifies this`observers
      ensures Valid() && Out() == if fits then AfterSend(old(Out())) else old(Out())
      ensures old(Connected()) ==> Connected()
    {
      hide Valid, Connected, FirstDue;
      for j := 0 to |observers|
        invariant Valid() && Out() == old(Out()) && (old(Connected()) ==> Connected())
        invariant forall k :: 0 <= k < j ==> !observers[k].o.sendNow
      {
        if observers[j].o.sendNow {
          assert FirstNotification(observers) == j;
          if fits {
            ReplaceObserver(j, NotificationSent(observers[j]).o);
          }
          return;
        }
      }
    }

    method SendFrom(i: nat, r: ServerRequest)
      requires Valid() && i < |requests| && r.state == requests[i].r.state
      modifies this`requests
      ensures Valid() && requests == old(requests)[i := old(requests)[i].(r := r)]
      ensures var e := old(requests)[i].(r := r);
              old(Connected()) && (SendDue(e) ==> e.connection.Some?) ==> Connected()
    {
      NotDead(requests, observers, nextId, i, r);
      ObserverListed(requests, observers, nextId, i);
      StoredOk(requests, observers, nextId, i, requests[i].(r := r));
      requests := requests[i := requests[i].(r := r)];
    }

    /** Sending into buffers that fit, as long as there is something to send, ends,
        after as many packets as there were pending items. */
    method Drain() returns (sends: nat)
      requires Valid()
      modifies this
      ensures SameLimits()
      ensures Valid() && Pending(Out()) == 0 && sends == old(Pending(Out()))
      ensures old(Connected()) ==> Connected()
    {
      hide Pending, AfterSend, NextItem, RequestsOk, ObserversOk;
      sends := 0;
      SendingDrains(Out());
      var more := NextEventIsSend();
      while more
        invariant Valid() && SameLimits() && (more <==> NextItem(Out()).Some?)
        invariant sends + Pending(Out()) == old(Pending(Out())) && (old(Connected()) ==> Connected())
        invariant !more ==> Pending(Out()) == 0
        decreases Pending(Out())
      {
        SendingDrains(Out());
        HandleSend(true);
        sends := sends + 1;
        SendingDrains(Out());
        more := NextEventIsSend();
      }
    }
  }

  /** Gives up a request whose connection is gone, unless its user still has it. */
  method DisconnectRequest(entry: Entry, connection: nat) returns (e: Entry)
    ensures e == Disconnected(entry, connection)
  {
    e := entry;
    if e.connection == Some(connection) {
      if e.r.state == Receiving {
        e := e.(r := e.r.(state := Finished), isFreed := true);
      } else if e.r.state == Responding {
        e := e.(r := e.r.(state := Finished));
      } else {
        e := e.(connection := None);
      }
    }
  }

  /** What becomes of the list around the entry being looked at. */
  lemma PutBetween(front: seq<Entry>, before: seq<Entry>, k: nat, e: Entry)
    requires k < |before|
    ensures (front + before[k..])[|front|] == before[k]
    ensures Stored(front + before[k..], |front|, e) == (if Dead(e) then front else front + [e]) + before[k + 1..]
  {
    hide Dead;
    var list := front + before[k..];
    assert RemoveAt(list, |front|) == front + before[k + 1..];
    assert list[|front| := e] == front + [e] + before[k + 1..];
  }

  lemma NotificationBetween(front: seq<ObserverEntry>, before: seq<ObserverEntry>, k: nat, n: ObserverEntry)
    requires k < |before|
    ensures (front + before[k..])[|front|] == before[k]
    ensures RemoveAt(front + before[k..], |front|) == front + before[k + 1..]
    ensures (front + before[k..])[|front| := n] == front + [n] + before[k + 1..]
    ensures front + before[k..] == front + [before[k]] + before[k + 1..]
  {
  }

  lemma NotificationsStart(before: seq<ObserverEntry>, expired: set<nat>)
    ensures AfterNotificationDeadlines(before[..0], expired) + before[0..] == before
    ensures AfterNotificationDeadlines(before[..0], expired) == []
  {
  }

  lemma NotificationsStep(before: seq<ObserverEntry>, k: nat, expired: set<nat>)
    requires k < |before|
    ensures var front := AfterNotificationDeadlines(before[..k], expired); var n := before[k];
            AfterNotificationDeadlines(before[..k + 1], expired) ==
            if Unreachable(n, expired) then front else front + [NotificationExpired(n, expired)]
  {
    assert before[..k + 1][..k] == before[..k];
  }

  lemma DeadlinesStart(before: seq<Entry>, expired: set<nat>)
    ensures AfterDeadlines(before[..0], expired) + before[0..] == before && AfterDeadlines(before[..0], expired) == []
  {
  }

  lemma DeadlinesStep(before: seq<Entry>, k: nat, expired: set<nat>)
    requires k < |before|
    ensures var front := AfterDeadlines(before[..k], expired); var e := Expired(before[k], expired);
            AfterDeadlines(before[..k + 1], expired) == if Dead(e) then front else front + [e]
  {
    assert before[..k + 1][..k] == before[..k];
  }

  lemma DisconnectStart(before: seq<Entry>, connection: nat)
    ensures AfterDisconnect(before[..0], connection) + before[0..] == before && AfterDisconnect(before[..0], connection) == []
  {
  }

  lemma DisconnectStep(before: seq<Entry>, k: nat, connection: nat)
    requires k < |before|
    ensures var front := AfterDisconnect(before[..k], connection); var e := Disconnected(before[k], connection);
            AfterDisconnect(before[..k + 1], connection) == if Dead(e) then front else front + [e]
  {
    assert before[..k + 1][..k] == before[..k];
  }

  lemma StayingStart(before: seq<ObserverEntry>, g: Gone)
    ensures Staying(before[..0], g) + before[0..] == before && Staying(before[..0], g) == []
  {
  }

  lemma StayingStep(before: seq<ObserverEntry>, k: nat, g: Gone)
    requires k < |before|
    ensures var front := Staying(before[..k], g);
            Staying(before[..k + 1], g) == if IsGone(before[k], g) then front else front + [before[k]]
  {
    assert before[..k + 1][..k] == before[..k];
  }

  lemma NotDead(requests: seq<Entry>, observers: seq<ObserverEntry>, nextId: nat, i: nat, r: ServerRequest)
    requires RequestsOk(requests, observers, nextId) && i < |requests| && r.state == requests[i].r.state
    ensures !Dead(requests[i].(r := r))
  {
  }

  /** The list after a packet for one of its requests. */
  function Taken(requests: seq<Entry>, i: nat, o: Outcome): seq<Entry>
    requires i < |requests|
  {
    if o.request.None? then RemoveAt(requests, i) else Stored(requests, i, requests[i].(r := o.request.value))
  }

  function Answered(e: Entry, code: nat, response: seq<byte>): Entry {
    if e.connection.None? then e.(r := e.r.(state := Finished)) else e.(r := Respond(e.r, code, response))
  }

  function FreedByUser(e: Entry): Entry {
    (if e.r.state == Receiving || e.r.state == WithUser
     then Answered(e.(r := e.r.(block2Request := None)), CODE_INTERNAL_ERROR, RequestUnhandled())
     else e).(isFreed := true)
  }

  lemma AnsweredSame(e: Entry, code: nat, response: seq<byte>)
    ensures var e' := Answered(e.(r := e.r.(block2Request := None)), code, response);
            e'.id == e.id && e'.observer == e.observer && OrphanOk(e')
  {
    hide Respond;
  }

  lemma ObserverListed(requests: seq<Entry>, observers: seq<ObserverEntry>, nextId: nat, i: nat)
    requires RequestsOk(requests, observers, nextId) && i < |requests|
    ensures (requests[i].observer.Some? ==> HasObserver(observers, requests[i].observer.value)) && OrphanOk(requests[i])
  {
  }

  lemma OrphansOk(requests: seq<Entry>, observers: seq<ObserverEntry>, nextId: nat)
    requires RequestsOk(requests, observers, nextId)
    ensures forall i :: 0 <= i < |requests| ==> OrphanOk(requests[i])
  {
  }

  lemma InsertedOk(requests: seq<Entry>, observers: seq<ObserverEntry>, nextId: nat, e: Entry)
    requires RequestsOk(requests, observers, nextId) && ObserversOk(observers, nextId)
    requires e.id == nextId && !Dead(e) && e.observer.None? && OrphanOk(e)
    ensures RequestsOk([e] + requests, observers, nextId + 1) && ObserversOk(observers, nextId + 1)
  {
    hide HasObserver;
  }

  lemma ObserverInsertedOk(requests: seq<Entry>, observers: seq<ObserverEntry>, nextId: nat, n: ObserverEntry)
    requires RequestsOk(requests, observers, nextId) && ObserversOk(observers, nextId)
    requires n.id == nextId && forall j :: 0 <= j < |observers| ==> !Observes(observers[j], n.connection, n.token)
    ensures RequestsOk(requests, [n] + observers, nextId + 1) && ObserversOk([n] + observers, nextId + 1)
  {
    var list := [n] + observers;
    forall i | 0 <= i < |requests| && requests[i].observer.Some? ensures HasObserver(list, requests[i].observer.value) {
      var k :| 0 <= k < |observers| && observers[k].id == requests[i].observer.value;
      assert list[k + 1].id == requests[i].observer.value;
    }
  }

  lemma OneObserver(observers: seq<ObserverEntry>, nextId: nat, j: nat, connection: Option<nat>, token: seq<byte>)
    requires ObserversOk(observers, nextId) && j < |observers| && Observes(observers[j], connection, token)
    ensures Staying(observers, OfToken(connection, token)) == RemoveAt(observers, j)
  {
    AllButOneStay(observers, j, OfToken(connection, token));
  }

  lemma NoObserver(observers: seq<ObserverEntry>, connection: Option<nat>, token: seq<byte>)
    requires forall j :: 0 <= j < |observers| ==> !Observes(observers[j], connection, token)
    ensures Staying(observers, OfToken(connection, token)) == observers
  {
    AllStay(observers, OfToken(connection, token));
  }

  lemma StayingHasNone(staying: seq<ObserverEntry>, observers: seq<ObserverEntry>, connection: Option<nat>, token: seq<byte>)
    requires staying == Staying(observers, OfToken(connection, token))
    ensures forall j :: 0 <= j < |staying| ==> !Observes(staying[j], connection, token)
  {
    NoneGone(observers, OfToken(connection, token));
  }

  lemma {:induction false} NoneGone(observers: seq<ObserverEntry>, g: Gone)
    ensures forall j :: 0 <= j < |Staying(observers, g)| ==> !IsGone(Staying(observers, g)[j], g)
  {
    if observers != [] {
      NoneGone(observers[..|observers| - 1], g);
    }
  }

  lemma LinkedOk(requests: seq<Entry>, observers: seq<ObserverEntry>, nextId: nat, i: nat, id: nat)
    requires RequestsOk(requests, observers, nextId) && i < |requests| && observers != [] && observers[0].id == id
    ensures RequestsOk(requests[i := requests[i].(observer := Some(id))], observers, nextId)
  {
    assert HasObserver(observers, id);
  }

  function NextId(id: u16): u16 { (id + 1) % 0x1_0000 }

  /** The message id after each observer of a resource without a notification in
      flight has got the next one. */
  function IdAfter(observers: seq<ObserverEntry>, resource: nat, id: u16): u16 {
    if observers == [] then id else
      var n, front := observers[|observers| - 1], IdAfter(observers[..|observers| - 1], resource, id);
      if n.resource == resource && !n.o.waitingForAck then NextId(front) else front
  }

  function Renotified(n: ObserverEntry, resource: nat, payload: seq<byte>, id: u16): ObserverEntry {
    if n.resource != resource then n
    else n.(o := ObserverStep(Notifying(n.o, 0, false), Notify(payload, id)).o)
  }

  function Notified(n: ObserverEntry, nextId: u16): ObserverEntry { n.(o := Acknowledged(n.o, nextId)) }

  predicate Matches(e: Entry, connection: nat, token: seq<byte>) {
    e.token == token && e.connection == Some(connection)
  }

  /** The first listed request with a connection and token. */
  ghost predicate FirstMatch(requests: seq<Entry>, i: nat, connection: nat, token: seq<byte>) {
    i < |requests| && Matches(requests[i], connection, token) && forall j :: 0 <= j < i ==> !Matches(requests[j], connection, token)
  }

  function NewEntry(id: nat, a: Arrival, r: ServerRequest): Entry {
    Entry(id, Some(a.connection), a.token, r, false, a.registers, None)
  }

  /** What a new request leaves in front of the list: nothing if it was dropped. */
  function NewRequests(id: nat, a: Arrival, o: Outcome): seq<Entry> {
    if o.request.Some? then [NewEntry(id, a, o.request.value)] else []
  }

  function NewObserver(id: nat, e: Entry, resource: nat): ObserverEntry
  {
    ObserverEntry(id, e.connection, e.token, resource, Observer(Con, 0, 0, [], false, false, 0, None))
  }

  function AfterDeregistration(observers: seq<ObserverEntry>, a: Arrival): seq<ObserverEntry> {
    if a.deregisters then Staying(observers, OfToken(Some(a.connection), a.token)) else observers
  }

  function NoRequestCode(a: Arrival): nat {
    if a.resource.None? then CODE_NOT_FOUND else CODE_UNAVAILABLE
  }

  /** The error slot after a message that may have been answered with an error. */
  function ErrorFor(slot: Option<ErrorSlot>, a: Arrival, code: Option<nat>, nextId: u16): Option<ErrorSlot> {
    if code.None? then slot else ErrorAfter(slot, a.connection, a.token, a.packet, code.value, nextId)
  }

  function AckFor(slot: Option<MessageSlot>, a: Arrival): Option<MessageSlot> {
    AckAfter(slot, a.connection, a.packet.messageId)
  }

  /** The error a new request is answered with, if it is dropped at once. */
  function NewFailure(a: Arrival, id: u16, maxPayload: nat): Option<nat> {
    var r := NewServerRequest(a.packet, id);
    if HandleData(r, a.packet, maxPayload).request.None? then Some(ErrorCode(r, a.packet, maxPayload)) else None
  }

  predicate NewAckDue(a: Arrival, id: u16, maxPayload: nat) {
    var o := HandleData(NewServerRequest(a.packet, id), a.packet, maxPayload);
    o.request.Some? && a.packet.kind == Con && !o.request.value.hasBlock1Ack
  }

  lemma TakenFirst(listed: seq<Entry>, o: Outcome)
    requires listed != [] && !listed[0].isFreed
    ensures Taken(listed, 0, o) ==
            (if o.request.Some? then [listed[0].(r := o.request.value)] else []) + listed[1..]
  {
  }

  predicate AwaitsAck(e: Entry, connection: nat, id: u16) {
    InFlight(e.r) && e.connection == Some(connection) && e.r.responseId == id
  }

  ghost predicate FirstAwaiting(requests: seq<Entry>, i: nat, connection: nat, id: u16) {
    i < |requests| && AwaitsAck(requests[i], connection, id) && forall j :: 0 <= j < i ==> !AwaitsAck(requests[j], connection, id)
  }

  ghost predicate FirstNotified(observers: seq<ObserverEntry>, j: nat, connection: nat, id: u16) {
    && j < |observers| && NotificationAwaitsAck(observers[j], connection, id)
    && forall k :: 0 <= k < j ==> !NotificationAwaitsAck(observers[k], connection, id)
  }

  predicate NotificationAwaitsAck(n: ObserverEntry, connection: nat, id: u16) {
    NotificationInFlight(n.o) && n.connection == Some(connection) && n.o.messageId == id
  }

  predicate Observes(n: ObserverEntry, connection: Option<nat>, token: seq<byte>) {
    n.connection == connection && n.token == token
  }

  function Acked(e: Entry, id: u16): Entry { e.(r := HandleAck(e.r, id)) }

  function Reset(e: Entry): Entry { e.(r := e.r.(state := Finished)) }

  lemma SameObservers(requests: seq<Entry>, observers: seq<ObserverEntry>, nextId: nat, j: nat, o: Observer)
    requires RequestsOk(requests, observers, nextId) && ObserversOk(observers, nextId) && j < |observers|
    ensures RequestsOk(requests, observers[j := observers[j].(o := o)], nextId)
    ensures ObserversOk(observers[j := observers[j].(o := o)], nextId)
  {
    var list := observers[j := observers[j].(o := o)];
    forall i | 0 <= i < |requests| && requests[i].observer.Some? ensures HasObserver(list, requests[i].observer.value) {
      var k :| 0 <= k < |observers| && observers[k].id == requests[i].observer.value;
      assert list[k].id == requests[i].observer.value;
    }
  }
}
