/** A CoAP client: the list of its requests, each a structure of its own, and the
    two slots for a reset and an ack. Messages are matched to requests by token and
    connection, or by message id and connection. */
module CoapClientList {
  import opened Basics
  import opened CoapBlock
  import opened CoapClient
  import opened CoapClientCode

  datatype Slot = Slot(connection: nat, messageId: u16)

  datatype Event = SendEvent | CallbackEvent | WaitEvent | NothingEvent

  datatype Sent =
    | SentRst(slot: Slot)
    | SentAck(slot: Slot)
    | SentRequest(connection: nat, token: nat, packet: RequestPacket)
    | SentNothing

  function NextId(id: u16): u16 { (id + 1) % 0x1_0000 }

  // ----------------------------------------------------------------- matching

  predicate EmptyAck(m: Reply) { m.kind == Ack && m.code == 0 }

  /** Is a message for this request? Acks and resets are matched by message id, all
      others by token. */
  predicate Matches(l: Listed, m: Reply, connection: nat, token: nat) {
    l.connection == connection &&
    if EmptyAck(m) then l.c.state == WaitAck && l.c.messageId == m.messageId
    else if m.kind == Rst then
      (l.c.state == WaitAck || (l.c.state == WaitResponse && l.c.kind == Non)) && l.c.messageId == m.messageId
    else l.token == token
  }

  ghost predicate FirstMatch(list: seq<Listed>, i: nat, m: Reply, connection: nat, token: nat) {
    i < |list| && Matches(list[i], m, connection, token) && forall j :: 0 <= j < i ==> !Matches(list[j], m, connection, token)
  }

  ghost predicate NoMatch(list: seq<Listed>, m: Reply, connection: nat, token: nat) {
    forall i :: 0 <= i < |list| ==> !Matches(list[i], m, connection, token)
  }

  /** Can a message be answered with a reset? */
  predicate Resets(m: Reply) { m.kind == Con || m.kind == Non }

  // ---------------------------------------------------------------- invariant

  /** A request keeps its place in the body, and before it is sent has not begun. */
  ghost predicate RequestOk(c: Client) {
    ClientOk(c) && (c.state == Idle ==> c.block1Size == DEFAULT_SZX && c.block1Offset == 0 && c.block2.None?)
  }

  ghost predicate ListOk(list: seq<Listed>, tokenCounter: nat) {
    && (forall i, j :: 0 <= i < j < |list| ==> list[i].token != list[j].token)
    && (forall i :: 0 <= i < |list| ==> list[i].token <= tokenCounter && RequestOk(list[i].c))
  }

  /** A response is for one request at most. */
  lemma OneMatch(list: seq<Listed>, tokenCounter: nat, i: nat, j: nat, m: Reply, connection: nat, token: nat)
    requires ListOk(list, tokenCounter) && i < |list| && j < |list| && !EmptyAck(m) && m.kind != Rst
    requires Matches(list[i], m, connection, token) && Matches(list[j], m, connection, token)
    ensures i == j
  {
  }

  lemma InOrder(list: seq<Listed>, tokenCounter: nat, i: nat)
    requires ListOk(list, tokenCounter) && i < |list|
    ensures RequestOk(list[i].c)
  {
  }

  lemma NewInOrder(k: RequestConfig)
    requires BodyFits(k.body)
    ensures RequestOk(NewRequest(k))
  {
    NewRequestOk(k);
  }

  lemma NewOk(list: seq<Listed>, tokenCounter: nat, l: Listed)
    requires ListOk(list, tokenCounter) && l.token == tokenCounter + 1 && RequestOk(l.c)
    ensures ListOk([l] + list, tokenCounter + 1)
  {
    hide RequestOk;
  }

  lemma ChangedOk(list: seq<Listed>, tokenCounter: nat, i: nat, c: Client)
    requires ListOk(list, tokenCounter) && i < |list| && RequestOk(c)
    ensures ListOk(list[i := list[i].(c := c)], tokenCounter)
  {
  }

  /** Whatever the message, a request stays in order. */
  lemma MessageKeepsOk(c: Client, m: Reply, id: u16, maxPayload: nat)
    requires RequestOk(c)
    ensures RequestOk(HandleMessage(c, m, id, maxPayload))
  {
    hide ClientOk, HandleResponse, Size;
    MessageKeeps(c, m, id, maxPayload);
    OffsetInBody(c);
    if Waiting(c) {
      ResponseIsNotIdle(c, m, id, maxPayload);
    }
  }

  lemma ResponseIsNotIdle(c: Client, m: Reply, id: u16, maxPayload: nat)
    requires ClientOk(c) && Waiting(c)
    ensures HandleResponse(c, m, id, maxPayload).state != Idle
  {
    hide Place, Size;
  }

  // ---------------------------------------------------------------- what is next

  predicate Pending(l: Listed) { l.c.state == SendRequest || l.c.state == DoneCallback }

  predicate NeedWait(l: Listed) { l.c.state == WaitAck || (l.c.state == WaitResponse && l.timeout != 0) }

  /** The first request that has something to send or to tell, or the length of the list. */
  function FirstPending(list: seq<Listed>): (i: nat)
    ensures i <= |list|
    ensures i < |list| ==> Pending(list[i])
    ensures forall j :: 0 <= j < i ==> !Pending(list[j])
  {
    if list == [] || Pending(list[0]) then 0 else
      var i := 1 + FirstPending(list[1..]);
      assert forall j :: 0 < j < |list| ==> list[j] == list[1..][j - 1];
      i
  }

  function Work(list: seq<Listed>): nat {
    if list == [] then 0 else
      Work(list[..|list| - 1]) + (match list[|list| - 1].c.state case SendRequest => 2 case DoneCallback => 1 case _ => 0)
  }

  lemma {:induction false} WorkChanges(list: seq<Listed>, i: nat, c: Client)
    requires i < |list|
    ensures Work(list[i := list[i].(c := c)]) ==
            Work(list) - Work([list[i]]) + Work([list[i].(c := c)])
    ensures Work(list) >= Work([list[i]])
    decreases |list|
  {
    var n := |list| - 1;
    var list' := list[i := list[i].(c := c)];
    assert [list[i]][..0] == [] && [list[i].(c := c)][..0] == [];
    if i < n {
      WorkChanges(list[..n], i, c);
      assert list'[..n] == list[..n][i := list[..n][i].(c := c)];
    } else {
      assert list'[..n] == list[..n];
    }
  }

  lemma WorkOf(l: Listed)
    ensures Work([l]) == match l.c.state case SendRequest => 2 case DoneCallback => 1 case _ => 0
  {
    assert [l][..0] == [];
  }

  /** The end of a request that has not ended yet. */
  function GivenUp(c: Client): Client {
    if Active(c) then c.(status := Stopped, state := DoneCallback) else c
  }

  lemma GivenUpOk(c: Client)
    requires RequestOk(c)
    ensures RequestOk(GivenUp(c)) && RequestOk(Stop(c))
  {
  }

  lemma TimeoutOk(c: Client, maxRetransmits: nat)
    requires RequestOk(c)
    ensures RequestOk(HandleTimeout(c, maxRetransmits))
  {
  }

  lemma SentOk(c: Client)
    requires RequestOk(c)
    ensures RequestOk(PacketSent(c)) && RequestOk(SendFailed(c)) && RequestOk(c.(state := Done)) && RequestOk(c.(state := SendRequest))
  {
  }

  /** A longer body for a request that has none yet. */
  lemma BodyOk(c: Client, body: seq<byte>)
    requires RequestOk(c) && c.state == Idle && BodyFits(body)
    ensures RequestOk(c.(body := body))
  {
    NewRequestOk(RequestConfig(c.kind, c.messageId, body, c.contentFormat));
  }

  /** The first n requests of the list are as given, the others as before. */
  ghost predicate Upto(list: seq<Listed>, before: seq<Listed>, after: seq<Listed>, n: nat) {
    && n <= |list| == |before| == |after|
    && (forall i :: 0 <= i < n ==> list[i] == after[i])
    && (forall i :: n <= i < |list| ==> list[i] == before[i])
  }

  /** The list after the deadlines of some requests, given by their tokens, have
      passed. */
  function AfterDeadlines(list: seq<Listed>, passed: set<nat>, maxRetransmits: nat): (after: seq<Listed>)
    ensures |after| == |list|
    ensures forall i :: 0 <= i < |list| ==>
              after[i] == if NeedWait(list[i]) && list[i].token in passed
                          then list[i].(c := HandleTimeout(list[i].c, maxRetransmits)) else list[i]
  {
    seq(|list|, i requires 0 <= i < |list| =>
      if NeedWait(list[i]) && list[i].token in passed
      then list[i].(c := HandleTimeout(list[i].c, maxRetransmits)) else list[i])
  }

  /** The list after the requests of a connection, or all, have been given up. */
  function AfterStop(list: seq<Listed>, connection: Option<nat>): (after: seq<Listed>)
    ensures |after| == |list|
    ensures forall i :: 0 <= i < |list| ==>
              after[i] == if connection.None? || list[i].connection == connection.value
                          then list[i].(c := GivenUp(list[i].c)) else list[i]
  {
    seq(|list|, i requires 0 <= i < |list| =>
      if connection.None? || list[i].connection == connection.value
      then list[i].(c := GivenUp(list[i].c)) else list[i])
  }

  lemma AfterDeadlinesOk(list: seq<Listed>, tokenCounter: nat, passed: set<nat>, maxRetransmits: nat)
    requires ListOk(list, tokenCounter)
    ensures ListOk(AfterDeadlines(list, passed, maxRetransmits), tokenCounter)
  {
    hide RequestOk, HandleTimeout;
    forall i | 0 <= i < |list| ensures RequestOk(HandleTimeout(list[i].c, maxRetransmits)) {
      TimeoutOk(list[i].c, maxRetransmits);
    }
  }

  lemma AfterStopOk(list: seq<Listed>, tokenCounter: nat, connection: Option<nat>)
    requires ListOk(list, tokenCounter)
    ensures ListOk(AfterStop(list, connection), tokenCounter)
  {
    hide RequestOk, GivenUp;
    forall i | 0 <= i < |list| ensures RequestOk(GivenUp(list[i].c)) {
      GivenUpOk(list[i].c);
    }
  }

  class RequestList {
    var requests: seq<ClientRequest>
    var rst: Option<Slot>
    var ack: Option<Slot>
    var messageIdCounter: u16
    var tokenCounter: nat
    const maxRetransmits: nat
    const maxResponsePayload: nat

    ghost function List(): (list: seq<Listed>)
      reads this, set r | r in requests
      ensures |list| == |requests|
      ensures forall i :: 0 <= i < |list| ==> list[i] == requests[i].Entry()
    {
      seq(|requests|, i requires 0 <= i < |requests| reads this, set r | r in requests => requests[i].Entry())
    }

    /** The requests are different structures with different tokens, and each is in
        order. */
    ghost predicate Valid()
      reads this, set r | r in requests
    {
      && (forall i, j :: 0 <= i < j < |requests| ==> requests[i] != requests[j])
      && ListOk(List(), tokenCounter)
    }

    constructor (retransmits: nat, payloadLimit: nat)
      ensures Valid() && requests == [] && rst.None? && ack.None?
      ensures maxRetransmits == retransmits && maxResponsePayload == payloadLimit
    {
      requests, rst, ack, messageIdCounter, tokenCounter := [], None, None, 0, 0;
      maxRetransmits, maxResponsePayload := retransmits, payloadLimit;
    }

    // ----------------------------------------------------------- application

    /** A new request is in front of the list, with a token no other has. */
    method RequestNew(connection: nat) returns (request: ClientRequest)
      requires Valid()
      modifies this
      ensures Valid() && fresh(request) && requests == [request] + old(requests)
      ensures rst == old(rst) && ack == old(ack) && tokenCounter == old(tokenCounter) + 1 == request.token
      ensures messageIdCounter == NextId(old(messageIdCounter))
      ensures request.Entry() == Listed(connection, tokenCounter, DEFAULT_TIMEOUT,
                                        NewRequest(RequestConfig(Con, messageIdCounter, [], None)))
      ensures List() == [request.Entry()] + old(List())
    {
      hide ListOk, RequestOk, NewRequest, ClientRequest.Model;
      ghost var before, counter := List(), tokenCounter;
      tokenCounter := tokenCounter + 1;
      messageIdCounter := (messageIdCounter + 1) % 0x1_0000;
      request := new ClientRequest(RequestConfig(Con, messageIdCounter, [], None), connection, tokenCounter);
      requests := [request] + requests;
      assert forall i :: 1 <= i < |requests| ==> requests[i] == old(requests)[i - 1];
      assert List() == [request.Entry()] + before;
      NewInOrder(RequestConfig(Con, messageIdCounter, [], None));
      NewOk(before, counter, request.Entry());
    }

    /** Gives a request that has not been sent its body, unless it has one. */
    method SetPayload(i: nat, body: seq<byte>) returns (ok: bool)
      requires Valid() && i < |requests| && requests[i].state == Idle && BodyFits(body)
      modifies requests[i]
      ensures Valid() && ok == (old(requests[i].payload) == [])
      ensures List() == if ok then old(List())[i := old(List())[i].(c := old(requests[i].Model()).(body := body))] else old(List())
    {
      hide ListOk, RequestOk;
      ghost var before := List();
      if |requests[i].payload| > 0 {
        return false;
      }
      InOrder(before, tokenCounter, i);
      BodyOk(before[i].c, body);
      requests[i].payload := body;
      Changed(before, i);
      ok := true;
    }

    /** Only the i-th request has changed, and is in order. */
    lemma Changed(before: seq<Listed>, i: nat)
      requires i < |requests| == |before| && ListOk(before, tokenCounter) && RequestOk(requests[i].Model())
      requires forall j, k :: 0 <= j < k < |requests| ==> requests[j] != requests[k]
      requires requests[i].Entry() == before[i].(c := requests[i].Model())
      requires forall j :: 0 <= j < |requests| && j != i ==> requests[j].Entry() == before[j]
      ensures Valid() && List() == before[i := before[i].(c := requests[i].Model())]
    {
      hide RequestOk, ListOk;
      assert List() == before[i := before[i].(c := requests[i].Model())];
      ChangedOk(before, tokenCounter, i, requests[i].Model());
    }

    /** The fields of the list itself but for slots and counters. */
    twostate predicate SameRequests()
      reads this
    {
      requests == old(requests) && tokenCounter == old(tokenCounter)
    }

    /** Queues a request for sending. */
    method RequestSend(i: nat)
      requires Valid() && i < |requests|
      modifies requests[i]
      ensures Valid() && List() == old(List())[i := old(List())[i].(c := old(requests[i].Model()).(state := SendRequest))]
    {
      hide ListOk, RequestOk;
      ghost var before := List();
      InOrder(before, tokenCounter, i);
      SentOk(before[i].c);
      requests[i].state := SendRequest;
      Changed(before, i);
    }

    method RequestCancel(i: nat)
      requires Valid() && i < |requests|
      modifies requests[i]
      ensures Valid() && List() == old(List())[i := old(List())[i].(c := Stop(old(requests[i].Model())))]
    {
      hide ListOk, RequestOk;
      ghost var before := List();
      InOrder(before, tokenCounter, i);
      GivenUpOk(before[i].c);
      requests[i].Cancel();
      Changed(before, i);
    }

    method RequestFree(i: nat)
      requires Valid() && i < |requests|
      modifies this
      ensures Valid() && requests == old(requests)[..i] + old(requests)[i + 1..]
      ensures List() == old(List())[..i] + old(List())[i + 1..]
      ensures rst == old(rst) && ack == old(ack) && tokenCounter == old(tokenCounter) && messageIdCounter == old(messageIdCounter)
    {
      hide RequestOk, ClientRequest.Entry;
      ghost var before := List();
      requests := requests[..i] + requests[i + 1..];
      assert forall j :: 0 <= j < |requests| ==> requests[j] == old(requests)[if j < i then j else j + 1];
      assert List() == before[..i] + before[i + 1..];
    }

    // --------------------------------------------------------------- messages

    method FindRequest(connection: nat, token: nat) returns (at: Option<nat>)
      ensures at.Some? ==> at.value < |requests| && requests[at.value].connection == connection && requests[at.value].token == token
      ensures at.Some? ==> forall j :: 0 <= j < at.value ==> !(requests[j].connection == connection && requests[j].token == token)
      ensures at.None? ==> forall j :: 0 <= j < |requests| ==> !(requests[j].connection == connection && requests[j].token == token)
    {
      for i := 0 to |requests|
        invariant forall j :: 0 <= j < i ==> !(requests[j].connection == connection && requests[j].token == token)
      {
        if requests[i].connection == connection && requests[i].token == token {
          return Some(i);
        }
      }
      at := None;
    }

    method HandleAck(m: Reply, connection: nat, ghost token: nat)
      requires Valid() && EmptyAck(m) && !Rejected(m)
      modifies set r | r in requests
      ensures Valid()
      ensures forall i: nat :: FirstMatch(old(List()), i, m, connection, token) ==>
                List() == old(List())[i := old(List())[i].(c := old(List())[i].c.(state := WaitResponse))]
      ensures NoMatch(old(List()), m, connection, token) ==> List() == old(List())
    {
      hide ListOk, RequestOk;
      ghost var before := List();
      for i := 0 to |requests|
        invariant List() == before
        invariant forall j :: 0 <= j < i ==> !Matches(before[j], m, connection, token)
      {
        assert before[i] == requests[i].Entry();
        if requests[i].state == WaitAck {
          if requests[i].messageId == m.messageId && requests[i].connection == connection {
            InOrder(before, tokenCounter, i);
            AckedOk(before[i].c);
            requests[i].state := WaitResponse;
            Changed(before, i);
            return;
          }
        }
      }
    }

    method HandleRst(m: Reply, connection: nat, ghost token: nat)
      requires Valid() && m.kind == Rst && !EmptyAck(m) && !Rejected(m)
      modifies set r | r in requests
      ensures Valid()
      ensures forall i: nat :: FirstMatch(old(List()), i, m, connection, token) ==>
                List() == old(List())[i := old(List())[i].(c := old(List())[i].c.(status := WasReset, state := DoneCallback))]
      ensures NoMatch(old(List()), m, connection, token) ==> List() == old(List())
    {
      hide ListOk, RequestOk;
      ghost var before := List();
      for i := 0 to |requests|
        invariant List() == before
        invariant forall j :: 0 <= j < i ==> !Matches(before[j], m, connection, token)
      {
        assert before[i] == requests[i].Entry();
        if requests[i].state == WaitAck || (requests[i].state == WaitResponse && requests[i].kind == Non) {
          if requests[i].messageId == m.messageId && requests[i].connection == connection {
            InOrder(before, tokenCounter, i);
            AckedOk(before[i].c);
            requests[i].status := WasReset;
            requests[i].state := DoneCallback;
            Changed(before, i);
            return;
          }
        }
      }
    }

    /** A message that is not an empty ack or a reset, for the request with its token. */
    method HandleRequestResponse(i: nat, m: Reply)
      requires Valid() && i < |requests| && !EmptyAck(m) && m.kind != Rst && !Rejected(m)
      modifies this, requests[i]
      ensures Valid() && SameRequests()
      ensures var before := old(List())[i]; var id := NextId(old(messageIdCounter));
              && before.c.block1Offset <= |before.c.body|
              && List() == old(List())[i := before.(c := HandleMessage(before.c, m, id, maxResponsePayload))]
              && messageIdCounter == (if Waiting(before.c) && List()[i].c.state == SendRequest then id else old(messageIdCounter))
              && ack == (if Waiting(before.c) && AckDue(before.c, m, maxResponsePayload)
                         then Some(Slot(before.connection, m.messageId)) else old(ack))
              && rst == (if !Waiting(before.c) && Resets(m) then Some(Slot(before.connection, m.messageId)) else old(rst))
    {
      hide ListOk, RequestOk, HandleResponse, AckDue, Undecodable;
      ghost var before := List();
      var request := requests[i];
      InOrder(before, tokenCounter, i);
      PlaceInBody(before[i].c);
      MessageKeepsOk(before[i].c, m, NextId(messageIdCounter), maxResponsePayload);
      if request.state == WaitAck || request.state == WaitResponse {
        var id := (messageIdCounter + 1) % 0x1_0000;
        var _, acks := request.ParseAndHandleResponse(m, id, maxResponsePayload);
        // the next message id has been taken if there is something to send again
        if request.state == SendRequest {
          messageIdCounter := id;
        }
        if acks {
          ack := Some(Slot(request.connection, m.messageId));
        }
        Changed(before, i);
      } else {
        if m.kind == Non || m.kind == Con {
          rst := Some(Slot(request.connection, m.messageId));
        }
        assert before[i := before[i].(c := before[i].c)] == before;
        assert List() == before;
      }
    }

    /** A message for this client: it changes the one request it is for, the first
        that matches, as that request has it, and no other. */
    method HandlePacket(m: Reply, connection: nat, token: nat)
      requires Valid()
      modifies this, set r | r in requests
      ensures Valid() && SameRequests()
      ensures Rejected(m) ==>
                && List() == old(List()) && ack == old(ack) && messageIdCounter == old(messageIdCounter)
                && rst == (if Resets(m) then Some(Slot(connection, m.messageId)) else old(rst))
      ensures forall i: nat :: !Rejected(m) && FirstMatch(old(List()), i, m, connection, token) ==>
                var before := old(List())[i]; var id := NextId(old(messageIdCounter)); var answers := !EmptyAck(m) && m.kind != Rst;
                && before.c.block1Offset <= |before.c.body|
                && List() == old(List())[i := before.(c := HandleMessage(before.c, m, id, maxResponsePayload))]
                && messageIdCounter ==
                     (if answers && Waiting(before.c) && List()[i].c.state == SendRequest then id else old(messageIdCounter))
                && ack == (if answers && Waiting(before.c) && AckDue(before.c, m, maxResponsePayload)
                           then Some(Slot(connection, m.messageId)) else old(ack))
                && rst == (if answers && !Waiting(before.c) && Resets(m) then Some(Slot(connection, m.messageId)) else old(rst))
      ensures !Rejected(m) && NoMatch(old(List()), m, connection, token) ==>
                && List() == old(List()) && ack == old(ack) && messageIdCounter == old(messageIdCounter)
                && rst == (if !EmptyAck(m) && Resets(m) then Some(Slot(connection, m.messageId)) else old(rst))
    {
      hide ListOk, RequestOk, HandleResponse, AckDue, Szx;
      AllInBody(List(), tokenCounter);
      if m.repeatedBlock || (m.block1.Some? && Szx(m.block1.value) == 7) || (m.block2.Some? && Szx(m.block2.value) == 7) {
        if m.kind == Con || m.kind == Non {
          rst := Some(Slot(connection, m.messageId));
        }
        assert List() == old(List());
        return;
      }
      if m.kind == Ack && m.code == 0 {
        HandleAck(m, connection, token);
        return;
      }
      if m.kind == Rst {
        HandleRst(m, connection, token);
        return;
      }
      HandleByToken(m, connection, token);
    }

    /** A message that is not an empty ack or a reset. */
    method HandleByToken(m: Reply, connection: nat, token: nat)
      requires Valid() && !Rejected(m) && !EmptyAck(m) && m.kind != Rst
      modifies this, set r | r in requests
      ensures Valid() && SameRequests()
      ensures forall i: nat :: FirstMatch(old(List()), i, m, connection, token) ==>
                var before := old(List())[i]; var id := NextId(old(messageIdCounter));
                && before.c.block1Offset <= |before.c.body|
                && List() == old(List())[i := before.(c := HandleMessage(before.c, m, id, maxResponsePayload))]
                && messageIdCounter == (if Waiting(before.c) && List()[i].c.state == SendRequest then id else old(messageIdCounter))
                && ack == (if Waiting(before.c) && AckDue(before.c, m, maxResponsePayload)
                           then Some(Slot(connection, m.messageId)) else old(ack))
                && rst == (if !Waiting(before.c) && Resets(m) then Some(Slot(connection, m.messageId)) else old(rst))
      ensures NoMatch(old(List()), m, connection, token) ==>
                && List() == old(List()) && ack == old(ack) && messageIdCounter == old(messageIdCounter)
                && rst == (if Resets(m) then Some(Slot(connection, m.messageId)) else old(rst))
    {
      hide ListOk, RequestOk, HandleMessage, AckDue, Rejected;
      AllInBody(List(), tokenCounter);
      var at := FindRequest(connection, token);
      assert forall i :: 0 <= i < |requests| ==> List()[i] == requests[i].Entry();
      if at.Some? {
        HandleRequestResponse(at.value, m);
      } else if m.kind == Non || m.kind == Con {
        rst := Some(Slot(connection, m.messageId));
        assert List() == old(List());
      }
    }

    // ------------------------------------------------- deadlines and connections

    method HandleDeadlines(passed: set<nat>)
      requires Valid()
      modifies set r | r in requests
      ensures Valid() && List() == AfterDeadlines(old(List()), passed, maxRetransmits)
    {
      hide ListOk, RequestOk, HandleTimeout;
      ghost var before := List();
      ghost var after := AfterDeadlines(before, passed, maxRetransmits);
      for i := 0 to |requests|
        invariant Upto(List(), before, after, i)
      {
        var request := requests[i];
        assert request.Entry() == before[i];
        if request.state == WaitAck || (request.state == WaitResponse && request.timeout != 0) {
          if request.token in passed {
            request.HandleDeadline(maxRetransmits);
          }
        }
        assert forall j :: 0 <= j < |requests| && j != i ==> requests[j] != request;
      }
      assert List() == after;
      AfterDeadlinesOk(before, tokenCounter, passed, maxRetransmits);
    }

    /** Gives up all requests, as when the client stops, or those of a connection
        that is gone. */
    method GiveUp(connection: Option<nat>)
      requires Valid()
      modifies set r | r in requests
      ensures Valid() && List() == AfterStop(old(List()), connection)
    {
      hide ListOk, RequestOk;
      ghost var before := List();
      ghost var after := AfterStop(before, connection);
      for i := 0 to |requests|
        invariant Upto(List(), before, after, i)
      {
        var request := requests[i];
        assert request.Entry() == before[i];
        if connection.None? || request.connection == connection.value {
          if request.state != DoneCallback && request.state != Done {
            request.status := Stopped;
            request.state := DoneCallback;
          }
        }
        assert forall j :: 0 <= j < |requests| && j != i ==> requests[j] != request;
      }
      assert List() == after;
      AfterStopOk(before, tokenCounter, connection);
    }

    // ------------------------------------------------------------------ events

    /** What is to be done next: send, tell the application, wait, or nothing. */
    method GetNextEvent() returns (event: Event)
      requires Valid()
      ensures event == NextEvent(List(), rst.Some? || ack.Some?)
    {
      hide ListOk, FirstPending;
      if rst.Some? {
        return SendEvent;
      }
      if ack.Some? {
        return SendEvent;
      }
      var shouldWait := false;
      for i := 0 to |requests|
        invariant forall j :: 0 <= j < i ==> !Pending(List()[j])
        invariant shouldWait <==> exists j :: 0 <= j < i && NeedWait(List()[j])
      {
        assert List()[i] == requests[i].Entry();
        if requests[i].state == DoneCallback {
          FirstIs(List(), i);
          return CallbackEvent;
        }
        if requests[i].state == SendRequest {
          FirstIs(List(), i);
          return SendEvent;
        }
        if requests[i].state == WaitAck || (requests[i].state == WaitResponse && requests[i].timeout != 0) {
          shouldWait := true;
        }
      }
      FirstIs(List(), |requests|);
      event := if shouldWait then WaitEvent else NothingEvent;
    }

    /** Creates one packet for a buffer: the reset, the ack, or the packet of the
        first request that has one to send. After GetNextEvent has said to send, that
        is the very request it found. */
    method CreatePacket(room: nat, header: nat) returns (sent: Sent)
      requires Valid()
      modifies this, set r | r in requests
      ensures Valid() && SameRequests() && messageIdCounter == old(messageIdCounter)
      ensures old(rst).Some? ==> sent == SentRst(old(rst).value) && rst.None? && ack == old(ack) && List() == old(List())
      ensures old(rst).None? && old(ack).Some? ==> sent == SentAck(old(ack).value) && ack.None? && rst.None? && List() == old(List())
      ensures old(rst).None? && old(ack).None? ==> rst.None? && ack.None?
      ensures forall i: nat :: old(rst).None? && old(ack).None? && FirstToSend(old(List()), i) ==>
                && old(List())[i].c.block1Offset <= |old(List())[i].c.body|
                && var l := old(List())[i]; var packet := CoapClient.CreatePacket(l.c);
                   if header + |packet.payload| <= room
                   then sent == SentRequest(l.connection, l.token, packet) && List() == old(List())[i := l.(c := PacketSent(l.c))]
                   else sent == SentNothing && List() == old(List())[i := l.(c := SendFailed(l.c))]
      ensures old(rst).None? && old(ack).None? && (forall i :: 0 <= i < |old(List())| ==> old(List())[i].c.state != SendRequest) ==>
                sent == SentNothing && List() == old(List())
    {
      hide ListOk, RequestOk, CoapClient.CreatePacket;
      ghost var before := List();
      if rst.Some? {
        sent := SentRst(rst.value);
        rst := None;
        assert List() == before;
        return;
      } else if ack.Some? {
        sent := SentAck(ack.value);
        ack := None;
        assert List() == before;
        return;
      }
      for i := 0 to |requests|
        invariant List() == before && rst.None? && ack.None? && SameRequests() && messageIdCounter == old(messageIdCounter)
        invariant forall j :: 0 <= j < i ==> before[j].c.state != SendRequest
      {
        assert before[i] == requests[i].Entry();
        if requests[i].state == SendRequest {
          sent := CreateFor(i, room, header);
          return;
        }
      }
      sent := SentNothing;
    }

    method CreateFor(i: nat, room: nat, header: nat) returns (sent: Sent)
      requires Valid() && i < |requests|
      modifies requests[i]
      ensures Valid()
      ensures var l := old(List())[i];
              && l.c.block1Offset <= |l.c.body|
              && var packet := CoapClient.CreatePacket(l.c);
                 if header + |packet.payload| <= room
                 then sent == SentRequest(l.connection, l.token, packet) && List() == old(List())[i := l.(c := PacketSent(l.c))]
                 else sent == SentNothing && List() == old(List())[i := l.(c := SendFailed(l.c))]
    {
      hide ListOk, RequestOk, CoapClient.CreatePacket;
      ghost var before := List();
      InOrder(before, tokenCounter, i);
      PlaceInBody(before[i].c);
      SentOk(before[i].c);
      var packet := requests[i].RequestCreatePacket(room, header);
      Changed(before, i);
      sent := if packet.Some? then SentRequest(requests[i].connection, requests[i].token, packet.value) else SentNothing;
    }

    /** Tells the application of the first request that has ended. */
    method HandleCallback() returns (told: Option<nat>)
      requires Valid()
      modifies set r | r in requests
      ensures Valid()
      ensures told.None? ==> List() == old(List()) && forall i :: 0 <= i < |requests| ==> old(List())[i].c.state != DoneCallback
      ensures told.Some? ==>
                var i := told.value;
                && i < |requests| && old(List())[i].c.state == DoneCallback
                && (forall j :: 0 <= j < i ==> old(List())[j].c.state != DoneCallback)
                && List() == old(List())[i := old(List())[i].(c := old(List())[i].c.(state := Done))]
    {
      hide ListOk, RequestOk;
      ghost var before := List();
      for i := 0 to |requests|
        invariant List() == before
        invariant forall j :: 0 <= j < i ==> before[j].c.state != DoneCallback
      {
        assert before[i] == requests[i].Entry();
        if requests[i].state == DoneCallback {
          InOrder(before, tokenCounter, i);
          SentOk(before[i].c);
          requests[i].state := Done;
          Changed(before, i);
          return Some(i);
        }
      }
      told := None;
    }

    /** Doing what is to be done next, as long as that is not waiting, ends: after no
        more steps than there are slots taken, requests that have ended, and twice
        the requests to be sent. */
    method Drain(room: nat, header: nat) returns (steps: nat)
      requires Valid()
      modifies this, set r | r in requests
      ensures Valid() && SameRequests()
      ensures rst.None? && ack.None? && forall i :: 0 <= i < |requests| ==> !Pending(List()[i])
      ensures steps <= old(Load())
    {
      hide ListOk, Work, Valid;
      steps := 0;
      var event := GetNextEvent();
      while event == SendEvent || event == CallbackEvent
        invariant Valid() && SameRequests() && event == NextEvent(List(), rst.Some? || ack.Some?)
        invariant steps + Load() <= old(Load())
        decreases Load()
      {
        Step(event, room, header);
        steps := steps + 1;
        event := GetNextEvent();
      }
    }

    ghost function Load(): nat
      reads this, set r | r in requests
    {
      (if rst.Some? then 1 else 0) + (if ack.Some? then 1 else 0) + Work(List())
    }

    /** One step of the event loop. */
    method Step(event: Event, room: nat, header: nat)
      requires Valid() && event == NextEvent(List(), rst.Some? || ack.Some?) && (event == SendEvent || event == CallbackEvent)
      modifies this, set r | r in requests
      ensures Valid() && SameRequests() && Load() < old(Load())
    {
      hide ListOk, Work, Valid;
      ghost var before, i := List(), FirstPending(List());
      if event == SendEvent {
        if i < |before| && rst.None? && ack.None? {
          SendIsFirst(before);
        }
        var sent := CreatePacket(room, header);
        if i < |before| && List() == before[i := before[i].(c := List()[i].c)] {
          WorkChanges(before, i, List()[i].c);
          WorkOf(before[i]);
          WorkOf(before[i].(c := List()[i].c));
        }
      } else {
        var told := HandleCallback();
        var k := told.value;
        WorkChanges(before, k, List()[k].c);
        WorkOf(before[k]);
        WorkOf(before[k].(c := List()[k].c));
      }
    }
  }

  lemma AllInBody(list: seq<Listed>, tokenCounter: nat)
    requires ListOk(list, tokenCounter)
    ensures forall i :: 0 <= i < |list| ==> list[i].c.block1Offset <= |list[i].c.body|
  {
  }

  /** What is to be done next, given whether a slot is taken. */
  function NextEvent(list: seq<Listed>, slot: bool): Event {
    var i := FirstPending(list);
    if slot then SendEvent
    else if i < |list| then (if list[i].c.state == SendRequest then SendEvent else CallbackEvent)
    else if exists j :: 0 <= j < |list| && NeedWait(list[j]) then WaitEvent
    else NothingEvent
  }

  ghost predicate FirstToSend(list: seq<Listed>, i: nat) {
    i < |list| && list[i].c.state == SendRequest && forall j :: 0 <= j < i ==> list[j].c.state != SendRequest
  }

  /** When the list says to send, the request that it says so for is the first one
      with a packet to send. */
  lemma SendIsFirst(list: seq<Listed>)
    ensures FirstPending(list) < |list| && NextEvent(list, false) == SendEvent ==> FirstToSend(list, FirstPending(list))
  {
  }

  lemma FirstIs(list: seq<Listed>, i: nat)
    requires i <= |list| && (i < |list| ==> Pending(list[i])) && forall j :: 0 <= j < i ==> !Pending(list[j])
    ensures FirstPending(list) == i
  {
  }

  lemma AckedOk(c: Client)
    requires RequestOk(c)
    ensures RequestOk(c.(state := WaitResponse)) && RequestOk(c.(status := WasReset, state := DoneCallback))
  {
  }

  lemma PlaceInBody(c: Client)
    requires RequestOk(c)
    ensures c.block1Offset <= |c.body|
  {
  }
}
