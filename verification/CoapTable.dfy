/** The lists a CoAP server keeps: requests and observers, and the three places
    where an error, an ack and a reset wait to be sent. */
module CoapTable {
  import opened Basics
  import opened CoapBlock
  import opened CoapClient
  import opened CoapServer
  import opened CoapRetransmit

  /** A listed request; id stands for its address. */
  datatype Entry = Entry(
    id: nat,
    connection: Option<nat>,
    token: seq<byte>,
    r: ServerRequest,
    isFreed: bool,
    isObserve: bool,
    observer: Option<nat>)

  datatype ObserverEntry = ObserverEntry(id: nat, connection: Option<nat>, token: seq<byte>, resource: nat, o: Observer)

  datatype ErrorSlot = ErrorSlot(connection: nat, token: seq<byte>, code: nat, kind: Kind, messageId: u16)

  datatype MessageSlot = MessageSlot(connection: nat, messageId: u16)

  // ---------------------------------------------------------------- invariant

  /** Freed by the application and done: must not be listed. */
  predicate Dead(e: Entry) {
    e.isFreed && e.r.state == Finished
  }

  /** Only a request that its application holds, or that is done, may have lost its
      connection. */
  predicate OrphanOk(e: Entry) {
    e.connection.None? ==> e.r.state == WithUser || e.r.state == Finished
  }

  predicate HasObserver(observers: seq<ObserverEntry>, id: nat) {
    exists j :: 0 <= j < |observers| && observers[j].id == id
  }

  ghost predicate RequestsOk(requests: seq<Entry>, observers: seq<ObserverEntry>, nextId: nat) {
    && (forall i, j :: 0 <= i < j < |requests| ==> requests[i].id != requests[j].id)
    && (forall i :: 0 <= i < |requests| ==> requests[i].id < nextId && !Dead(requests[i]) && OrphanOk(requests[i]))
    && (forall i :: 0 <= i < |requests| && requests[i].observer.Some? ==> HasObserver(observers, requests[i].observer.value))
  }

  /** At most one observer per connection and token. */
  ghost predicate ObserversOk(observers: seq<ObserverEntry>, nextId: nat) {
    && (forall i, j :: 0 <= i < j < |observers| ==>
          observers[i].id != observers[j].id &&
          !(observers[i].connection == observers[j].connection && observers[i].token == observers[j].token))
    && (forall i :: 0 <= i < |observers| ==> observers[i].id < nextId)
  }

  // ------------------------------------------------------------ list operations

  function RemoveAt<T>(list: seq<T>, i: nat): (rest: seq<T>)
    requires i < |list|
    ensures |rest| == |list| - 1
    ensures forall j :: 0 <= j < |rest| ==> rest[j] == if j < i then list[j] else list[j + 1]
  {
    list[..i] + list[i + 1..]
  }

  /** The list after an entry has changed; it goes once it is dead. */
  function Stored(requests: seq<Entry>, i: nat, e: Entry): seq<Entry>
    requires i < |requests|
  {
    if Dead(e) then RemoveAt(requests, i) else requests[i := e]
  }

  lemma StoredOk(requests: seq<Entry>, observers: seq<ObserverEntry>, nextId: nat, i: nat, e: Entry)
    requires RequestsOk(requests, observers, nextId) && i < |requests| && e.id == requests[i].id
    requires (e.observer.Some? ==> HasObserver(observers, e.observer.value)) && OrphanOk(e)
    ensures RequestsOk(Stored(requests, i, e), observers, nextId)
  {
    hide HasObserver;
  }

  /** No request points to an observer that has been freed. */
  function Unlinked(requests: seq<Entry>, id: nat): (list: seq<Entry>)
    ensures |list| == |requests|
    ensures forall i :: 0 <= i < |list| ==>
              list[i] == if requests[i].observer == Some(id) then requests[i].(observer := None) else requests[i]
  {
    seq(|requests|, i requires 0 <= i < |requests| =>
      if requests[i].observer == Some(id) then requests[i].(observer := None) else requests[i])
  }

  lemma RemovedObserver(observers: seq<ObserverEntry>, j: nat, id: nat)
    requires j < |observers| && HasObserver(observers, id) && id != observers[j].id
    ensures HasObserver(RemoveAt(observers, j), id)
  {
    var k :| 0 <= k < |observers| && observers[k].id == id;
    var rest := RemoveAt(observers, j);
    assert rest[if k < j then k else k - 1].id == id;
  }

  lemma ObserverFreedOk(requests: seq<Entry>, observers: seq<ObserverEntry>, nextId: nat, j: nat)
    requires RequestsOk(requests, observers, nextId) && ObserversOk(observers, nextId) && j < |observers|
    ensures RequestsOk(Unlinked(requests, observers[j].id), RemoveAt(observers, j), nextId)
    ensures ObserversOk(RemoveAt(observers, j), nextId)
  {
    hide HasObserver;
    var list := Unlinked(requests, observers[j].id);
    forall i | 0 <= i < |list| && list[i].observer.Some?
      ensures HasObserver(RemoveAt(observers, j), list[i].observer.value)
    {
      assert requests[i].observer == list[i].observer;
      RemovedObserver(observers, j, list[i].observer.value);
    }
  }

  /** An entry without its pointer, should its observer no longer be listed. */
  ghost function Relink(e: Entry, observers: seq<ObserverEntry>): Entry {
    if e.observer.Some? && !HasObserver(observers, e.observer.value) then e.(observer := None) else e
  }

  ghost function Relinked(requests: seq<Entry>, observers: seq<ObserverEntry>): (list: seq<Entry>)
    ensures |list| == |requests|
    ensures forall i :: 0 <= i < |list| ==> list[i] == Relink(requests[i], observers)
  {
    seq(|requests|, i requires 0 <= i < |requests| => Relink(requests[i], observers))
  }

  lemma AllLinked(requests: seq<Entry>, observers: seq<ObserverEntry>, nextId: nat)
    requires RequestsOk(requests, observers, nextId)
    ensures Relinked(requests, observers) == requests
  {
    hide HasObserver;
  }

  lemma ListedElsewhere(observers: seq<ObserverEntry>, nextId: nat, j: nat, id: nat)
    requires ObserversOk(observers, nextId) && j < |observers|
    ensures HasObserver(RemoveAt(observers, j), id) <==> HasObserver(observers, id) && id != observers[j].id
  {
    var rest := RemoveAt(observers, j);
    if HasObserver(observers, id) && id != observers[j].id {
      RemovedObserver(observers, j, id);
    }
    if HasObserver(rest, id) {
      var k :| 0 <= k < |rest| && rest[k].id == id;
      var m := if k < j then k else k + 1;
      assert rest[k] == observers[m];
      assert observers[m].id == id && m != j;
    }
  }

  /** Taking the pointers to a freed observer away leaves those to listed ones. */
  lemma UnlinkedIsRelinked(requests: seq<Entry>, observers: seq<ObserverEntry>, nextId: nat, j: nat)
    requires ObserversOk(observers, nextId) && j < |observers|
    ensures Unlinked(Relinked(requests, observers), observers[j].id) == Relinked(requests, RemoveAt(observers, j))
  {
    hide RemoveAt, HasObserver, ObserversOk;
    var rest, id := RemoveAt(observers, j), observers[j].id;
    forall i | 0 <= i < |requests|
      ensures Unlinked(Relinked(requests, observers), id)[i] == Relinked(requests, rest)[i]
    {
      if requests[i].observer.Some? {
        ListedElsewhere(observers, nextId, j, requests[i].observer.value);
      }
    }
  }

  lemma SameIdsRelink(requests: seq<Entry>, observers: seq<ObserverEntry>, j: nat, o: Observer)
    requires j < |observers|
    ensures Relinked(requests, observers[j := observers[j].(o := o)]) == Relinked(requests, observers)
  {
    var list := observers[j := observers[j].(o := o)];
    forall id: nat ensures HasObserver(list, id) <==> HasObserver(observers, id) {
      if HasObserver(observers, id) {
        var k :| 0 <= k < |observers| && observers[k].id == id;
        assert list[k].id == id;
      }
    }
  }

  /** Which observers go: those of a connection, or the one with a token. */
  datatype Gone = OfConnection(connection: nat) | OfToken(peer: Option<nat>, token: seq<byte>)

  predicate IsGone(n: ObserverEntry, g: Gone) {
    match g
    case OfConnection(connection) => n.connection == Some(connection)
    case OfToken(peer, token) => n.connection == peer && n.token == token
  }

  function Staying(observers: seq<ObserverEntry>, g: Gone): seq<ObserverEntry> {
    if observers == [] then [] else
      var n := observers[|observers| - 1];
      Staying(observers[..|observers| - 1], g) + if IsGone(n, g) then [] else [n]
  }

  lemma {:induction false} AllStay(observers: seq<ObserverEntry>, g: Gone)
    requires forall j :: 0 <= j < |observers| ==> !IsGone(observers[j], g)
    ensures Staying(observers, g) == observers
  {
    if observers != [] {
      AllStay(observers[..|observers| - 1], g);
    }
  }

  lemma {:induction false} AllButOneStay(observers: seq<ObserverEntry>, j: nat, g: Gone)
    requires j < |observers| && forall k :: 0 <= k < |observers| ==> (IsGone(observers[k], g) <==> k == j)
    ensures Staying(observers, g) == RemoveAt(observers, j)
  {
    var n := |observers| - 1;
    if j == n {
      AllStay(observers[..n], g);
    } else {
      AllButOneStay(observers[..n], j, g);
    }
  }

  // --------------------------------------------------------- what is to be sent

  predicate ContinueDue(r: ServerRequest) {
    (r.state == Receiving || r.state == WithUser) && r.hasBlock1Ack
  }

  predicate SendDue(e: Entry) {
    ContinueDue(e.r) || (e.r.state == Responding && e.r.sendNow)
  }

  /** The first request with something to send, or the length of the list. */
  function FirstDue(requests: seq<Entry>): (i: nat)
    ensures i <= |requests|
    ensures i < |requests| ==> SendDue(requests[i])
    ensures forall j :: 0 <= j < i ==> !SendDue(requests[j])
  {
    if requests == [] || SendDue(requests[0]) then 0 else
      var i := 1 + FirstDue(requests[1..]);
      assert forall j :: 0 < j < |requests| ==> requests[j] == requests[1..][j - 1];
      i
  }

  function FirstNotification(observers: seq<ObserverEntry>): (i: nat)
    ensures i <= |observers|
    ensures i < |observers| ==> observers[i].o.sendNow
    ensures forall j :: 0 <= j < i ==> !observers[j].o.sendNow
  {
    if observers == [] || observers[0].o.sendNow then 0 else
      var i := 1 + FirstNotification(observers[1..]);
      assert forall j :: 0 < j < |observers| ==> observers[j] == observers[1..][j - 1];
      i
  }

  datatype Item = ErrorItem | AckItem | RstItem | RequestItem(i: nat) | ObserverItem(j: nat)

  /** The error slot after an error; one already waiting is kept. */
  function ErrorAfter(slot: Option<ErrorSlot>, connection: nat, token: seq<byte>, p: RequestPacket, code: nat, nextId: u16): Option<ErrorSlot> {
    if slot.Some? then slot
    else if p.kind == Con then Some(ErrorSlot(connection, token, code, Ack, p.messageId))
    else Some(ErrorSlot(connection, token, code, Non, nextId))
  }

  /** The ack slot after an ack; one already waiting is kept. */
  function AckAfter(slot: Option<MessageSlot>, connection: nat, id: u16): Option<MessageSlot> {
    if slot.Some? then slot else Some(MessageSlot(connection, id))
  }

  datatype Outgoing = Outgoing(error: Option<ErrorSlot>, ack: Option<MessageSlot>, rst: Option<MessageSlot>,
                               requests: seq<Entry>, observers: seq<ObserverEntry>)

  /** The one thing to send next: slots first, then requests, then observers. */
  function NextItem(q: Outgoing): (item: Option<Item>)
    ensures item.Some? && item.value.RequestItem? ==> item.value.i < |q.requests|
    ensures item.Some? && item.value.ObserverItem? ==> item.value.j < |q.observers|
  {
    if q.error.Some? then Some(ErrorItem)
    else if q.ack.Some? then Some(AckItem)
    else if q.rst.Some? then Some(RstItem)
    else if FirstDue(q.requests) < |q.requests| then Some(RequestItem(FirstDue(q.requests)))
    else if FirstNotification(q.observers) < |q.observers| then Some(ObserverItem(FirstNotification(q.observers)))
    else None
  }

  function ConnectionOf(q: Outgoing): Option<nat> {
    match NextItem(q)
    case None => None
    case Some(ErrorItem) => Some(q.error.value.connection)
    case Some(AckItem) => Some(q.ack.value.connection)
    case Some(RstItem) => Some(q.rst.value.connection)
    case Some(RequestItem(i)) => q.requests[i].connection
    case Some(ObserverItem(j)) => q.observers[j].connection
  }

  function EntrySent(e: Entry): Entry {
    if ContinueDue(e.r) then e.(r := e.r.(hasBlock1Ack := false)) else e.(r := ResponseSent(e.r))
  }

  function NotificationSent(n: ObserverEntry): ObserverEntry {
    n.(o := if n.o.kind == Con
            then n.o.(sendNow := false, waitingForAck := true, retransmissions := n.o.retransmissions + 1)
            else n.o.(sendNow := false, payload := []))
  }

  function AfterSend(q: Outgoing): Outgoing {
    match NextItem(q)
    case None => q
    case Some(ErrorItem) => q.(error := None)
    case Some(AckItem) => q.(ack := None)
    case Some(RstItem) => q.(rst := None)
    case Some(RequestItem(i)) => q.(requests := q.requests[i := EntrySent(q.requests[i])])
    case Some(ObserverItem(j)) => q.(observers := q.observers[j := NotificationSent(q.observers[j])])
  }

  /** Is the next item a response or Continue, which counts as sent even if its
      packet did not fit the buffer? */
  predicate SentRegardless(q: Outgoing) {
    NextItem(q).Some? && NextItem(q).value.RequestItem?
  }

  // ------------------------------------------------------ is there a connection?

  /** Everything that is to be sent has a connection, and so has every observer, to
      which there may be something to send at any time. */
  ghost predicate AllConnected(requests: seq<Entry>, observers: seq<ObserverEntry>) {
    && (forall i :: 0 <= i < |requests| && SendDue(requests[i]) ==> requests[i].connection.Some?)
    && (forall j :: 0 <= j < |observers| ==> observers[j].connection.Some?)
  }

  /** Then the next item can be sent. */
  lemma NextIsConnected(q: Outgoing)
    requires AllConnected(q.requests, q.observers)
    ensures ConnectionOf(q).Some? <==> NextItem(q).Some?
  {
    hide SendDue;
  }

  lemma StoredConnected(requests: seq<Entry>, observers: seq<ObserverEntry>, i: nat, e: Entry)
    requires AllConnected(requests, observers) && i < |requests| && (SendDue(e) ==> e.connection.Some?)
    ensures AllConnected(Stored(requests, i, e), observers)
  {
    hide SendDue, Dead;
  }

  /** Does the application hold a request of a connection with a Continue still to
      be sent? */
  predicate ContinueOwed(e: Entry, connection: nat) {
    e.connection == Some(connection) && e.r.state == WithUser && e.r.hasBlock1Ack
  }

  predicate NoContinueOwed(requests: seq<Entry>, connection: nat) {
    forall i :: 0 <= i < |requests| ==> !ContinueOwed(requests[i], connection)
  }

  /** Losing a connection leaves something to send without one exactly if the
      application holds a request of it with a Continue still to be sent. */
  lemma DisconnectConnectedExactly(requests: seq<Entry>, observers: seq<ObserverEntry>, connection: nat)
    requires AllConnected(requests, observers)
    ensures var staying := Staying(observers, OfConnection(connection));
            AllConnected(AfterDisconnect(Relinked(requests, staying), connection), staying)
            <==> NoContinueOwed(requests, connection)
  {
    hide SendDue, Relink, ContinueOwed, Staying, AfterDisconnect;
    var staying := Staying(observers, OfConnection(connection));
    var relinked := Relinked(requests, staying);
    StayingAre(observers, OfConnection(connection));
    RelinkedSame(requests, staying);
    forall i | 0 <= i < |requests|
      ensures SendDue(relinked[i]) ==> relinked[i].connection.Some?
      ensures ContinueOwed(relinked[i], connection) <==> ContinueOwed(requests[i], connection)
    {
      SameDue(requests[i], relinked[i], connection);
    }
    forall j | 0 <= j < |staying| ensures staying[j].connection.Some? {
      assert staying[j] in staying;
    }
    DueAfterDisconnect(relinked, connection);
    assert NoContinueOwed(relinked, connection) <==> NoContinueOwed(requests, connection);
  }

  lemma SameDue(e: Entry, f: Entry, connection: nat)
    requires e.(observer := None) == f.(observer := None)
    ensures (SendDue(e) <==> SendDue(f)) && e.connection == f.connection
    ensures ContinueOwed(e, connection) <==> ContinueOwed(f, connection)
  {
  }

  lemma RelinkedSame(requests: seq<Entry>, observers: seq<ObserverEntry>)
    ensures forall i :: 0 <= i < |requests| ==> Relinked(requests, observers)[i].(observer := None) == requests[i].(observer := None)
  {
  }

  lemma {:induction false} StayingAre(observers: seq<ObserverEntry>, g: Gone)
    ensures forall n :: n in Staying(observers, g) <==> n in observers && !IsGone(n, g)
  {
    if observers != [] {
      var k := |observers| - 1;
      StayingAre(observers[..k], g);
      assert observers == observers[..k] + [observers[k]];
    }
  }

  ghost predicate DueConnected(requests: seq<Entry>) {
    forall i :: 0 <= i < |requests| && SendDue(requests[i]) ==> requests[i].connection.Some?
  }

  lemma {:induction false} DueAfterDisconnect(requests: seq<Entry>, connection: nat)
    requires DueConnected(requests)
    ensures DueConnected(AfterDisconnect(requests, connection)) <==> NoContinueOwed(requests, connection)
  {
    hide SendDue, Disconnected, ContinueOwed, Dead;
    if requests != [] {
      var n := |requests| - 1;
      var front, e := AfterDisconnect(requests[..n], connection), Disconnected(requests[n], connection);
      DueAfterDisconnect(requests[..n], connection);
      DueDisconnected(requests[n], connection);
      assert NoContinueOwed(requests, connection) <==>
               NoContinueOwed(requests[..n], connection) && !ContinueOwed(requests[n], connection);
      DuePushed(front, e);
    }
  }

  lemma DuePushed(front: seq<Entry>, e: Entry)
    ensures DueConnected(front + [e]) <==> DueConnected(front) && (SendDue(e) ==> e.connection.Some?)
  {
    hide SendDue;
    var list := front + [e];
    assert forall i :: 0 <= i < |front| ==> list[i] == front[i];
    assert list[|front|] == e;
  }

  lemma DueDisconnected(e: Entry, connection: nat)
    requires SendDue(e) ==> e.connection.Some?
    ensures var f := Disconnected(e, connection);
            && ((SendDue(f) ==> f.connection.Some?) <==> !ContinueOwed(e, connection))
            && (Dead(f) ==> !SendDue(f))
  {
  }

  lemma {:induction false} DueAfterDeadlines(requests: seq<Entry>, expired: set<nat>)
    requires DueConnected(requests) && forall i :: 0 <= i < |requests| ==> OrphanOk(requests[i])
    ensures DueConnected(AfterDeadlines(requests, expired))
  {
    hide SendDue, Dead, Expired;
    if requests != [] {
      var n := |requests| - 1;
      DueAfterDeadlines(requests[..n], expired);
      DueExpired(requests[n], expired);
      DuePushed(AfterDeadlines(requests[..n], expired), Expired(requests[n], expired));
    }
  }

  lemma DueExpired(e: Entry, expired: set<nat>)
    requires (SendDue(e) ==> e.connection.Some?) && OrphanOk(e)
    ensures SendDue(Expired(e, expired)) ==> Expired(e, expired).connection.Some?
  {
  }

  // ----------------------------------------------------- the drain terminates

  function DueCount(requests: seq<Entry>): nat {
    if requests == [] then 0 else (if SendDue(requests[0]) then 1 else 0) + DueCount(requests[1..])
  }

  function NotificationCount(observers: seq<ObserverEntry>): nat {
    if observers == [] then 0 else (if observers[0].o.sendNow then 1 else 0) + NotificationCount(observers[1..])
  }

  /** How many items there are to send. */
  function Pending(q: Outgoing): nat {
    (if q.error.Some? then 1 else 0) + (if q.ack.Some? then 1 else 0) + (if q.rst.Some? then 1 else 0)
    + DueCount(q.requests) + NotificationCount(q.observers)
  }

  lemma {:induction false} DueRemoved(requests: seq<Entry>, i: nat, e: Entry)
    requires i < |requests| && SendDue(requests[i]) && !SendDue(e)
    ensures DueCount(requests[i := e]) == DueCount(requests) - 1
  {
    if i > 0 {
      assert requests[i := e][1..] == requests[1..][i - 1 := e];
      DueRemoved(requests[1..], i - 1, e);
    } else {
      assert requests[i := e][1..] == requests[1..];
    }
  }

  lemma {:induction false} NotificationRemoved(observers: seq<ObserverEntry>, j: nat, n: ObserverEntry)
    requires j < |observers| && observers[j].o.sendNow && !n.o.sendNow
    ensures NotificationCount(observers[j := n]) == NotificationCount(observers) - 1
  {
    if j > 0 {
      assert observers[j := n][1..] == observers[1..][j - 1 := n];
      NotificationRemoved(observers[1..], j - 1, n);
    } else {
      assert observers[j := n][1..] == observers[1..];
    }
  }

  lemma {:induction false} NothingDue(requests: seq<Entry>)
    ensures FirstDue(requests) == |requests| <==> DueCount(requests) == 0
  {
    if requests != [] {
      NothingDue(requests[1..]);
    }
  }

  lemma {:induction false} NoNotification(observers: seq<ObserverEntry>)
    ensures FirstNotification(observers) == |observers| <==> NotificationCount(observers) == 0
  {
    if observers != [] {
      NoNotification(observers[1..]);
    }
  }

  /** There is something to send exactly while something is pending, and sending
      it leaves exactly one item fewer. */
  lemma SendingDrains(q: Outgoing)
    ensures NextItem(q).None? <==> Pending(q) == 0
    ensures NextItem(q).Some? ==> Pending(AfterSend(q)) == Pending(q) - 1
  {
    hide ResponseSent;
    NothingDue(q.requests);
    NoNotification(q.observers);
    if NextItem(q).Some? {
      match NextItem(q).value
      case RequestItem(i) =>
        NotDueAfter(q.requests[i]);
        DueRemoved(q.requests, i, EntrySent(q.requests[i]));
      case ObserverItem(j) => NotificationRemoved(q.observers, j, NotificationSent(q.observers[j]));
      case _ =>
    }
  }

  lemma NotDueAfter(e: Entry)
    requires SendDue(e)
    ensures !SendDue(EntrySent(e))
  {
  }

  // --------------------------------------------------------------- list walks

  /** The requests after the deadlines in a set of ids have passed: what is still
      being received is dropped, a response is sent again or ends. */
  function AfterDeadlines(requests: seq<Entry>, expired: set<nat>): seq<Entry> {
    if requests == [] then [] else
      var e := requests[|requests| - 1];
      var front := AfterDeadlines(requests[..|requests| - 1], expired);
      var e' := Expired(e, expired);
      if Dead(e') then front else front + [e']
  }

  /** The observers after the deadlines of their notifications have passed. */
  function AfterNotificationDeadlines(observers: seq<ObserverEntry>, expired: set<nat>): seq<ObserverEntry> {
    if observers == [] then [] else
      var n := observers[|observers| - 1];
      var front := AfterNotificationDeadlines(observers[..|observers| - 1], expired);
      if Unreachable(n, expired) then front else front + [NotificationExpired(n, expired)]
  }

  /** Has the last copy of a notification not been acknowledged in time? */
  predicate Unreachable(n: ObserverEntry, expired: set<nat>) {
    n.id in expired && n.o.waitingForAck && n.o.retransmissions > MAX_RETRANSMIT
  }

  function NotificationExpired(n: ObserverEntry, expired: set<nat>): ObserverEntry {
    if n.id in expired && n.o.waitingForAck then n.(o := n.o.(waitingForAck := false, sendNow := true)) else n
  }

  function Expired(e: Entry, expired: set<nat>): Entry {
    if e.id !in expired then e
    else e.(r := RequestTimeout(e.r), isFreed := e.isFreed || e.r.state == Receiving)
  }

  /** The requests after a connection is gone. */
  function AfterDisconnect(requests: seq<Entry>, connection: nat): seq<Entry> {
    if requests == [] then [] else
      var front := AfterDisconnect(requests[..|requests| - 1], connection);
      var e := Disconnected(requests[|requests| - 1], connection);
      if Dead(e) then front else front + [e]
  }

  function Disconnected(e: Entry, connection: nat): Entry {
    if e.connection != Some(connection) then e
    else if e.r.state == Receiving then e.(r := e.r.(state := Finished), isFreed := true)
    else if e.r.state == Responding then e.(r := e.r.(state := Finished))
    else e.(connection := None)
  }

  /** The entries of a shorter list come, unchanged in what matters, from a longer one. */
  ghost predicate ComesFrom(list: seq<Entry>, requests: seq<Entry>) {
    && (forall e :: e in list ==> !Dead(e) && OrphanOk(e) && exists f :: f in requests && f.id == e.id && f.observer == e.observer)
    && (forall i, j :: 0 <= i < j < |list| ==> list[i].id != list[j].id)
  }

  lemma ComesFromOk(list: seq<Entry>, requests: seq<Entry>, observers: seq<ObserverEntry>, nextId: nat)
    requires RequestsOk(requests, observers, nextId) && ComesFrom(list, requests)
    ensures RequestsOk(list, observers, nextId)
  {
    hide HasObserver;
    forall i | 0 <= i < |list|
      ensures list[i].id < nextId && !Dead(list[i]) && OrphanOk(list[i])
      ensures list[i].observer.Some? ==> HasObserver(observers, list[i].observer.value)
    {
      assert list[i] in list;
      var f :| f in requests && f.id == list[i].id && f.observer == list[i].observer;
    }
  }

  lemma AppendComesFrom(front: seq<Entry>, e: Entry, requests: seq<Entry>, f: Entry)
    requires ComesFrom(front, requests) && e.id == f.id && e.observer == f.observer && OrphanOk(e)
    requires forall x :: x in requests ==> x.id != f.id
    ensures ComesFrom(if Dead(e) then front else front + [e], requests + [f])
  {
    var list := if Dead(e) then front else front + [e];
    forall x | x in list ensures !Dead(x) && OrphanOk(x) && exists y :: y in requests + [f] && y.id == x.id && y.observer == x.observer {
      if x in front {
        var y :| y in requests && y.id == x.id && y.observer == x.observer;
        assert y in requests + [f];
      } else {
        assert f in requests + [f];
      }
    }
    forall i | 0 <= i < |front| ensures front[i].id != e.id {
      assert front[i] in front;
    }
  }

  lemma OrphanAfter(e: Entry, expired: set<nat>, connection: nat)
    requires OrphanOk(e)
    ensures OrphanOk(Expired(e, expired)) && OrphanOk(Disconnected(e, connection))
  {
  }

  lemma EmptyComesFrom()
    ensures ComesFrom([], [])
  {
  }

  lemma {:induction false} DeadlinesComeFrom(requests: seq<Entry>, expired: set<nat>)
    requires forall i, j :: 0 <= i < j < |requests| ==> requests[i].id != requests[j].id
    requires forall i :: 0 <= i < |requests| ==> OrphanOk(requests[i])
    ensures ComesFrom(AfterDeadlines(requests, expired), requests)
  {
    hide RequestTimeout, ComesFrom, Dead;
    EmptyComesFrom();
    if requests != [] {
      var n := |requests| - 1;
      DeadlinesComeFrom(requests[..n], expired);
      OrphanAfter(requests[n], expired, 0);
      AppendComesFrom(AfterDeadlines(requests[..n], expired), Expired(requests[n], expired), requests[..n], requests[n]);
      assert requests == requests[..n] + [requests[n]];
    }
  }

  lemma AfterDeadlinesOk(requests: seq<Entry>, observers: seq<ObserverEntry>, nextId: nat, expired: set<nat>)
    requires RequestsOk(requests, observers, nextId)
    ensures RequestsOk(AfterDeadlines(requests, expired), observers, nextId)
  {
    hide HasObserver;
    DeadlinesComeFrom(requests, expired);
    ComesFromOk(AfterDeadlines(requests, expired), requests, observers, nextId);
  }

  lemma {:induction false} DisconnectComesFrom(requests: seq<Entry>, connection: nat)
    requires forall i, j :: 0 <= i < j < |requests| ==> requests[i].id != requests[j].id
    requires forall i :: 0 <= i < |requests| ==> OrphanOk(requests[i])
    ensures ComesFrom(AfterDisconnect(requests, connection), requests)
  {
    if requests != [] {
      var n := |requests| - 1;
      DisconnectComesFrom(requests[..n], connection);
      OrphanAfter(requests[n], {}, connection);
      AppendComesFrom(AfterDisconnect(requests[..n], connection), Disconnected(requests[n], connection), requests[..n], requests[n]);
      assert requests == requests[..n] + [requests[n]];
    }
  }

  lemma AfterDisconnectOk(requests: seq<Entry>, observers: seq<ObserverEntry>, nextId: nat, connection: nat)
    requires RequestsOk(requests, observers, nextId)
    ensures RequestsOk(AfterDisconnect(requests, connection), observers, nextId)
  {
    hide HasObserver;
    DisconnectComesFrom(requests, connection);
    ComesFromOk(AfterDisconnect(requests, connection), requests, observers, nextId);
  }
}
