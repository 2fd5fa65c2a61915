/** Retransmission of responses and notifications (section 4.2 of RFC 7252): what
    an ack or reset may affect, and how often a message id is transmitted. */
module CoapRetransmit {
  import opened Basics
  import opened CoapBlock
  import opened CoapClient
  import opened CoapServer

  // ---------------------------------------------------------------- responses

  /** A response with the number of times its message id has been transmitted since
      it was assigned. */
  datatype Sending = Sending(r: ServerRequest, sent: nat)

  datatype Event =
    | Sends
    | TimesOut
    | HearsAck(id: u16)
    | HearsRst(id: u16)
    | HearsBlockRequest(p: RequestPacket, id: u16)

  function Step(s: Sending, e: Event): Sending {
    match e
    case Sends => if s.r.state == Responding && s.r.sendNow then Sending(ResponseSent(s.r), s.sent + 1) else s
    case TimesOut => s.(r := RequestTimeout(s.r))
    case HearsAck(id) => s.(r := HandleAck(s.r, id))
    case HearsRst(id) => s.(r := HandleRst(s.r, id))
    case HearsBlockRequest(p, id) =>
      if s.r.state == Responding && s.r.messageId != p.messageId && p.block2.Some? && !BadBlock(s.r, p.block2.value)
      then Sending(HandleBlock2Request(s.r, p, id), 0) else s
  }

  function Run(s: Sending, events: seq<Event>): Sending
    decreases |events|
  {
    if events == [] then s else Run(Step(s, events[0]), events[1..])
  }

  /** A response that has just been made ready. */
  ghost predicate Starts(s: Sending) {
    && s.sent == 0
    && s.r.state == Responding && s.r.sendNow && !s.r.waitingForAck && s.r.retransmissions == 0
  }

  /** Only a message id that has been transmitted waits for an ack. */
  ghost predicate Transmitted(s: Sending) {
    s.r.waitingForAck ==> s.sent > 0
  }

  lemma {:induction false} InFlightWasTransmitted(s: Sending, events: seq<Event>)
    requires Transmitted(s)
    ensures Transmitted(Run(s, events))
    decreases |events|
  {
    if events != [] {
      InFlightWasTransmitted(Step(s, events[0]), events[1..]);
    }
  }

  /** An ack or reset changes nothing unless the response's current message id
      has been transmitted and not yet acknowledged; an ack ends the response
      exactly when the block it acknowledges reaches the end of the payload; and
      a duplicate of it changes nothing. */
  lemma AckMeansTransmitted(s: Sending, events: seq<Event>, id: u16)
    requires Starts(s)
    ensures var now := Run(s, events);
            && (HandleAck(now.r, id) != now.r || HandleRst(now.r, id) != now.r ==> now.r.responseId == id && now.sent > 0)
            && (now.r.state == Responding ==>
                 (HandleAck(now.r, id).state == Finished <==>
                  now.r.waitingForAck && now.r.responseId == id && (now.r.block2Current + 1) * Size(now.r.block2Size) >= |now.r.response|))
            && HandleAck(HandleAck(now.r, id), id) == HandleAck(now.r, id)
  {
    hide Run;
    InFlightWasTransmitted(s, events);
  }

  /** An ack that leaves the response waiting for the next block request, and the
      retransmission of the acknowledged block already queued. */
  predicate CrossesRetransmission(r: ServerRequest, e: Event) {
    e.HearsAck? && InFlight(r) && r.responseId == e.id && !LastBlock(r) && r.sendNow
  }

  predicate NeverCrosses(s: Sending, events: seq<Event>)
    decreases |events|
  {
    events == [] || (!CrossesRetransmission(s.r, events[0]) && NeverCrosses(Step(s, events[0]), events[1..]))
  }

  /** The retransmission counter counts the transmissions of the current id. */
  ghost predicate Counted(s: Sending) {
    && s.r.kind == Con
    && s.sent <= 1 + MAX_RETRANSMIT
    && (s.r.state == Responding && s.r.waitingForAck ==> s.r.retransmissions == s.sent > 0)
    && (s.r.state == Responding && s.r.waitingForAck && s.r.sendNow ==> s.sent <= MAX_RETRANSMIT)
    && (s.r.state == Responding && !s.r.waitingForAck && s.r.sendNow ==> s.sent == 0 && s.r.retransmissions == 0)
  }

  lemma CountedStep(s: Sending, e: Event)
    requires Counted(s) && !CrossesRetransmission(s.r, e)
    ensures Counted(Step(s, e))
  {
    hide LastBlock, BadBlock;
  }

  /** As long as no ack crosses a queued retransmission, each message id is
      transmitted at most 1 + MAX_RETRANSMIT times. */
  lemma {:induction false} TransmissionsAreBounded(s: Sending, events: seq<Event>)
    requires Counted(s) && NeverCrosses(s, events)
    ensures Run(s, events).sent <= 1 + MAX_RETRANSMIT
    decreases |events|
  {
    hide Step, CrossesRetransmission;
    if events != [] {
      CountedStep(s, events[0]);
      TransmissionsAreBounded(Step(s, events[0]), events[1..]);
    }
  }

  lemma StartsCounted(s: Sending)
    requires Starts(s) && s.r.kind == Con
    ensures Counted(s)
  {
  }

  /** One time around: transmitted, timed out, and acknowledged before the
      retransmission is sent. */
  function Around(id: u16): seq<Event> { [Sends, TimesOut, HearsAck(id)] }

  function Rounds(id: u16, n: nat): seq<Event> {
    if n == 0 then [] else Around(id) + Rounds(id, n - 1)
  }

  lemma {:induction false} RunConcat(s: Sending, a: seq<Event>, b: seq<Event>)
    ensures Run(s, a + b) == Run(Run(s, a), b)
    decreases |a|
  {
    if a == [] {
      assert a + b == b;
    } else {
      assert (a + b)[1..] == a[1..] + b;
      RunConcat(Step(s, a[0]), a[1..], b);
    }
  }

  lemma OneRound(s: Sending)
    requires s.r.kind == Con && s.r.state == Responding && s.r.sendNow && s.r.retransmissions == 0 && !LastBlock(s.r)
    ensures var s' := Run(s, Around(s.r.responseId));
            s'.sent == s.sent + 1 && s'.r == s.r.(waitingForAck := false)
  {
    hide LastBlock;
    var a, b, c := Sends, TimesOut, HearsAck(s.r.responseId);
    assert Around(s.r.responseId)[1..] == [b, c] && [b, c][1..] == [c] && [c][1..] == [];
    var s1 := Step(s, a);
    var s2 := Step(s1, b);
    SameBlock(s.r, s2.r);
    var s3 := Step(s2, c);
    assert Run(s3, []) == s3;
    assert Run(s2, [c]) == s3;
    assert Run(s1, [b, c]) == s3;
  }

  lemma SameBlock(r: ServerRequest, r': ServerRequest)
    requires r'.block2Current == r.block2Current && r'.block2Size == r.block2Size && r'.response == r.response
    ensures LastBlock(r') == LastBlock(r)
  {
  }

  /** When acks do cross queued retransmissions there is no bound: a block that
      is not the last can be made to be transmitted any number of times with one
      and the same message id. */
  lemma {:induction false} CrossingAcksRemoveTheBound(s: Sending, n: nat)
    requires s.r.kind == Con && s.r.state == Responding && s.r.sendNow && s.r.retransmissions == 0 && !LastBlock(s.r)
    ensures var s' := Run(s, Rounds(s.r.responseId, n));
            s'.sent == s.sent + n && s'.r.responseId == s.r.responseId
    decreases n
  {
    hide Run, LastBlock;
    if n == 0 {
      EmptyRun(s);
    } else {
      var s1 := Run(s, Around(s.r.responseId));
      OneRound(s);
      SameBlock(s.r, s1.r);
      RunConcat(s, Around(s.r.responseId), Rounds(s.r.responseId, n - 1));
      CrossingAcksRemoveTheBound(s1, n - 1);
    }
  }

  lemma EmptyRun(s: Sending)
    ensures Run(s, []) == s
  {
  }

  predicate SameId(events: seq<Event>) {
    forall e :: e in events ==> !e.HearsBlockRequest?
  }

  lemma {:induction false} RoundsKeepId(id: u16, n: nat)
    ensures SameId(Rounds(id, n))
    decreases n
  {
    if n > 0 {
      RoundsKeepId(id, n - 1);
    }
  }

  lemma {:induction false} LastBlockNeverCrosses(s: Sending, events: seq<Event>)
    requires LastBlock(s.r) && SameId(events)
    ensures NeverCrosses(s, events)
    decreases |events|
  {
    hide LastBlock;
    if events != [] {
      assert events[0] in events;
      SameBlock(s.r, Step(s, events[0]).r);
      LastBlockNeverCrosses(Step(s, events[0]), events[1..]);
    }
  }

  /** The message id a response is made ready with is bounded, whatever happens,
      exactly if the block it is for is the last. */
  lemma BoundedExactlyForLastBlocks(s: Sending)
    requires Starts(s) && s.r.kind == Con
    ensures (forall events :: SameId(events) ==> Run(s, events).sent <= 1 + MAX_RETRANSMIT) <==> LastBlock(s.r)
  {
    hide Run, LastBlock, SameId, NeverCrosses;
    if LastBlock(s.r) {
      forall events | SameId(events) ensures Run(s, events).sent <= 1 + MAX_RETRANSMIT {
        LastBlockNeverCrosses(s, events);
        StartsCounted(s);
        TransmissionsAreBounded(s, events);
      }
    } else {
      var events := Rounds(s.r.responseId, 2 + MAX_RETRANSMIT);
      RoundsKeepId(s.r.responseId, 2 + MAX_RETRANSMIT);
      CrossingAcksRemoveTheBound(s, 2 + MAX_RETRANSMIT);
      assert Run(s, events).sent > 1 + MAX_RETRANSMIT;
    }
  }

  /** Acknowledged and with nothing queued, a message id is not sent again. */
  lemma {:induction false} Silent(s: Sending, events: seq<Event>)
    requires SameId(events) && !(s.r.state == Responding && (s.r.sendNow || s.r.waitingForAck)) && s.r.state != Receiving
    ensures Run(s, events).sent == s.sent
    decreases |events|
  {
    if events != [] {
      assert events[0] in events;
      Silent(Step(s, events[0]), events[1..]);
    }
  }

  /** Acknowledged and with nothing queued, no ack changes it any more. */
  lemma {:induction false} Settled(s: Sending, events: seq<Event>, id: u16)
    requires SameId(events) && !(s.r.state == Responding && (s.r.sendNow || s.r.waitingForAck)) && s.r.state != Receiving
    ensures HandleAck(Run(s, events).r, id) == Run(s, events).r
    decreases |events|
  {
    if events != [] {
      assert events[0] in events;
      Settled(Step(s, events[0]), events[1..], id);
    }
  }

  /** However late a duplicate of an ack arrives, it changes nothing, exactly if the
      block acknowledged is the last or no retransmission was queued when the ack
      arrived the first time. */
  lemma DuplicateAckIsIgnoredExactly(s: Sending)
    requires InFlight(s.r)
    ensures var id := s.r.responseId; var after := Step(s, HearsAck(id));
            (forall events :: SameId(events) ==> HandleAck(Run(after, events).r, id) == Run(after, events).r)
            <==> LastBlock(s.r) || !s.r.sendNow
  {
    hide LastBlock;
    var id := s.r.responseId;
    var after := Step(s, HearsAck(id));
    if LastBlock(s.r) || !s.r.sendNow {
      forall events | SameId(events) ensures HandleAck(Run(after, events).r, id) == Run(after, events).r {
        Settled(after, events, id);
      }
    } else {
      var once := [Sends];
      assert once[1..] == [] && SameId(once);
      assert Run(after, once) == Run(Step(after, Sends), []);
      EmptyRun(Step(after, Sends));
      SameBlock(s.r, Step(after, Sends).r);
      assert HandleAck(Run(after, once).r, id) != Run(after, once).r;
    }
  }

  /** An ack of a block that is not the last keeps its message id from being
      transmitted again exactly if no retransmission is queued when it arrives. */
  lemma AckStopsItsIdExactly(s: Sending)
    requires InFlight(s.r) && !LastBlock(s.r)
    ensures (forall events :: SameId(events) ==> Run(Step(s, HearsAck(s.r.responseId)), events).sent == s.sent) <==> !s.r.sendNow
  {
    hide LastBlock;
    var after := Step(s, HearsAck(s.r.responseId));
    if s.r.sendNow {
      var once := [Sends];
      assert once[1..] == [] && SameId(once);
      assert Run(after, once) == Run(Step(after, Sends), []);
      EmptyRun(Step(after, Sends));
      assert Run(after, once).sent == s.sent + 1;
    } else {
      forall events | SameId(events) ensures Run(after, events).sent == s.sent {
        Silent(after, events);
      }
    }
  }

  // ------------------------------------------------------------------ requests

  /** A client's request with the number of times its message id has been transmitted
      since it was assigned. */
  datatype Requesting = Requesting(c: Client, sent: nat)

  datatype RequestEvent =
    | Transmits
    | CannotTransmit
    | Hears(m: Reply, id: u16, maxPayload: nat)
    | DeadlinePasses
    | IsStopped

  /** A message that makes the request be sent again assigns a new message id. */
  function RequestStep(q: Requesting, e: RequestEvent, maxRetransmits: nat): Requesting
    requires ClientOk(q.c)
  {
    match e
    case Transmits => if q.c.state == SendRequest then Requesting(PacketSent(q.c), q.sent + 1) else q
    case CannotTransmit => if q.c.state == SendRequest then q.(c := SendFailed(q.c)) else q
    case Hears(m, id, maxPayload) =>
      var c := HandleMessage(q.c, m, id, maxPayload);
      Requesting(c, if Waiting(q.c) && c.state == SendRequest then 0 else q.sent)
    case DeadlinePasses => q.(c := HandleTimeout(q.c, maxRetransmits))
    case IsStopped => q.(c := Stop(q.c))
  }

  /** The counter counts the retransmissions of the current message id. */
  ghost predicate RequestCounted(q: Requesting, maxRetransmits: nat) {
    && ClientOk(q.c)
    && q.sent <= 1 + maxRetransmits
    && q.c.retransmissions <= maxRetransmits
    && (q.c.state == SendRequest ==> q.sent == q.c.retransmissions)
    && (Waiting(q.c) ==> q.sent == q.c.retransmissions + 1)
  }

  /** A message leaves the counter alone or starts it anew. */
  lemma HearingCounts(c: Client, m: Reply, id: u16, maxPayload: nat)
    requires ClientOk(c)
    ensures var c' := HandleMessage(c, m, id, maxPayload);
            && (c'.retransmissions == c.retransmissions || c'.retransmissions == 0)
            && (Waiting(c') ==> Waiting(c) && c'.retransmissions == c.retransmissions)
            && (c'.state == SendRequest ==> c' == c || (Waiting(c) && c'.retransmissions == 0))
  {
    hide ClientOk, Place, Received, Classify, CanAdopt;
    OffsetInBody(c);
  }

  lemma RequestCountedStep(q: Requesting, e: RequestEvent, maxRetransmits: nat)
    requires RequestCounted(q, maxRetransmits)
    ensures RequestCounted(RequestStep(q, e, maxRetransmits), maxRetransmits)
  {
    hide HandleMessage, Size, Multiple;
    if e.Hears? {
      HearingCounts(q.c, e.m, e.id, e.maxPayload);
      MessageKeeps(q.c, e.m, e.id, e.maxPayload);
    }
  }

  ghost function RequestRun(q: Requesting, events: seq<RequestEvent>, maxRetransmits: nat): Requesting
    requires RequestCounted(q, maxRetransmits)
    decreases |events|
  {
    if events == [] then q else
      RequestCountedStep(q, events[0], maxRetransmits);
      RequestRun(RequestStep(q, events[0], maxRetransmits), events[1..], maxRetransmits)
  }

  lemma {:induction false} RequestRunCounted(q: Requesting, events: seq<RequestEvent>, maxRetransmits: nat)
    requires RequestCounted(q, maxRetransmits)
    ensures RequestCounted(RequestRun(q, events, maxRetransmits), maxRetransmits)
    decreases |events|
  {
    hide RequestStep, ClientOk;
    if events != [] {
      RequestCountedStep(q, events[0], maxRetransmits);
      RequestRunCounted(RequestStep(q, events[0], maxRetransmits), events[1..], maxRetransmits);
    }
  }

  lemma NewRequestCounted(k: RequestConfig, maxRetransmits: nat)
    requires BodyFits(k.body)
    ensures RequestCounted(Requesting(NewRequest(k).(state := SendRequest), 0), maxRetransmits)
  {
    hide Size, Multiple;
    NewRequestOk(k);
  }

  /** A request that has been queued for sending, after any events. */
  ghost function Requested(k: RequestConfig, events: seq<RequestEvent>, maxRetransmits: nat): Requesting
    requires BodyFits(k.body)
  {
    NewRequestCounted(k, maxRetransmits);
    RequestRun(Requesting(NewRequest(k).(state := SendRequest), 0), events, maxRetransmits)
  }

  /** Each message id of a request, the first as well as those of further chunks and
      blocks, is transmitted at most 1 + maxRetransmits times, whatever is heard; and
      while an ack or a response is waited for, at least once. */
  lemma RequestsAreBounded(k: RequestConfig, events: seq<RequestEvent>, maxRetransmits: nat)
    requires BodyFits(k.body)
    ensures var q := Requested(k, events, maxRetransmits);
            q.sent <= 1 + maxRetransmits && (Waiting(q.c) ==> q.sent > 0)
  {
    hide RequestRun;
    NewRequestCounted(k, maxRetransmits);
    RequestRunCounted(Requesting(NewRequest(k).(state := SendRequest), 0), events, maxRetransmits);
  }

  // ------------------------------------------------------------- notifications

  /** An observer with its current and its pending notification. */
  datatype Observer = Observer(
    kind: Kind,
    messageId: u16,
    sequenceNumber: nat,
    payload: seq<byte>,
    sendNow: bool,
    waitingForAck: bool,
    retransmissions: nat,
    pending: Option<seq<byte>>)

  /** An observer with the number of times its message id has been transmitted
      as a notification; none while it has not been assigned. */
  datatype Notifying = Notifying(o: Observer, sent: nat, removed: bool)

  datatype ObserverEvent =
    | Notify(payload: seq<byte>, id: u16)
    | SendsNotification
    | NotificationTimesOut
    | NotificationAcked(id: u16, nextId: u16)
    | NotificationReset(id: u16)

  /** Has the current notification been sent as a confirmable message and not
      been acknowledged? */
  predicate NotificationInFlight(o: Observer) {
    o.waitingForAck || (o.sendNow && o.retransmissions > 0)
  }

  function Fresh(o: Observer, payload: seq<byte>, id: u16): Observer {
    o.(payload := payload, messageId := id, sequenceNumber := o.sequenceNumber + 1,
       retransmissions := 0, sendNow := true, waitingForAck := false)
  }

  function Promote(o: Observer, id: u16): Observer {
    if o.pending.None? then o else Fresh(o, o.pending.value, id).(pending := None)
  }

  /** The notification is done with; one that was put off takes its place. */
  function Acknowledged(o: Observer, nextId: u16): Observer {
    Promote(o.(payload := [], sendNow := false, waitingForAck := false), nextId)
  }

  function ObserverStep(n: Notifying, e: ObserverEvent): Notifying {
    var o := n.o;
    if n.removed then n
    else
      match e
      case Notify(payload, id) =>
        if o.waitingForAck then n.(o := o.(pending := Some(payload)))
        else Notifying(Fresh(o, payload, id), 0, false)
      case SendsNotification =>
        if !o.sendNow then n
        else if o.kind == Con then
          Notifying(o.(sendNow := false, waitingForAck := true, retransmissions := o.retransmissions + 1), n.sent + 1, false)
        else Notifying(o.(sendNow := false, payload := []), n.sent + 1, false)
      case NotificationTimesOut =>
        if !o.waitingForAck then n
        else if o.retransmissions > MAX_RETRANSMIT then n.(removed := true)
        else n.(o := o.(waitingForAck := false, sendNow := true))
      case NotificationAcked(id, nextId) =>
        if !(NotificationInFlight(o) && o.messageId == id) then n
        else Notifying(Acknowledged(o, nextId), if o.pending.Some? then 0 else n.sent, false)
      case NotificationReset(id) =>
        if NotificationInFlight(o) && o.messageId == id then n.(removed := true) else n
  }

  function ObserverRun(n: Notifying, events: seq<ObserverEvent>): Notifying
    decreases |events|
  {
    if events == [] then n else ObserverRun(ObserverStep(n, events[0]), events[1..])
  }

  /** The state an observer is registered in. */
  predicate Registered(n: Notifying) {
    n.o.kind == Con && !n.o.sendNow && !n.o.waitingForAck && n.o.retransmissions == 0 && n.sent == 0 && n.o.pending.None? && !n.removed
  }

  /** The counter counts the transmissions, and a pending notification waits for
      an ack or a queued retransmission. */
  ghost predicate NotifyingOk(n: Notifying) {
    && n.o.kind == Con
    && n.sent == n.o.retransmissions <= 1 + MAX_RETRANSMIT
    && (n.o.waitingForAck ==> n.sent > 0 && !n.o.sendNow)
    && (n.o.sendNow ==> n.sent <= MAX_RETRANSMIT)
    && (n.o.pending.Some? ==> n.removed || NotificationInFlight(n.o) || n.o.sendNow)
  }

  lemma NotifyingStep(n: Notifying, e: ObserverEvent)
    requires NotifyingOk(n)
    ensures NotifyingOk(ObserverStep(n, e))
  {
  }

  lemma {:induction false} NotifyingRun(n: Notifying, events: seq<ObserverEvent>)
    requires NotifyingOk(n)
    ensures NotifyingOk(ObserverRun(n, events))
    decreases |events|
  {
    hide ObserverStep, NotifyingOk;
    if events != [] {
      NotifyingStep(n, events[0]);
      NotifyingRun(ObserverStep(n, events[0]), events[1..]);
    }
  }

  /** Each notification's message id is transmitted at most 1 + MAX_RETRANSMIT
      times, and an ack or reset only affects an observer whose current message
      id has been transmitted. */
  lemma NotificationsAreBounded(n: Notifying, events: seq<ObserverEvent>, id: u16, nextId: u16)
    requires Registered(n)
    ensures var now := ObserverRun(n, events);
            && now.sent <= 1 + MAX_RETRANSMIT
            && (ObserverStep(now, NotificationAcked(id, nextId)) != now || ObserverStep(now, NotificationReset(id)) != now ==>
                  now.o.messageId == id && now.sent > 0)
  {
    hide ObserverRun;
    NotifyingRun(n, events);
  }
}
