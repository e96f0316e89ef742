/** Notification delivery: events are taken once, deliveries are retried with a growing delay a bounded
    number of times, and whatever cannot be delivered ends in exactly one dead-letter record. */
module Notifications {
  import opened Tables
  import opened Contracts

  datatype Settings = Settings(maxAttempts: nat, base: nat, cap: nat)

  /** The ranges that the configuration accepts; delays are in seconds. */
  predicate ValidSettings(settings: Settings) {
    1 <= settings.maxAttempts <= 20 && 1 <= settings.base <= 3600 && 1 <= settings.cap <= 86400
  }

  datatype Channel = Email | WhatsApp

  datatype Status = Pending | RetryScheduled | Sent | DeadLettered

  datatype Notification = Notification(
    event: Id,
    channel: Channel,
    recipient: string,
    status: Status,
    attemptCount: nat,
    nextAttemptAt: Option<Instant>)

  datatype Attempt = Attempt(number: nat, startedAt: Instant, successful: bool)

  datatype Reason = UnsupportedEvent | RecipientMissing | ContextInvalid | AttemptsExhausted

  datatype DeadLetter = DeadLetter(event: Id, notification: Option<Id>, reason: Reason)

  datatype Service = Service(
    notifications: seq<Notification>,
    attempts: Table<Id, Attempt>,
    deadLetters: seq<DeadLetter>,
    processed: set<Id>)

  const EMPTY_SERVICE := Service([], [], [], {})

  /** An event as it arrives, with what the recipient resolver answers and whether its template renders. */
  datatype Incoming = Incoming(
    event: Id,
    supported: bool,
    email: Option<string>,
    whatsapp: Option<string>,
    resolved: Option<Destination>,
    renderable: bool)

  datatype Destination = Destination(email: Option<string>, phone: Option<string>)

  datatype Error = NotificationNotFound

  /** What the provider did, and the moment the delivery was started. */
  datatype Reply = Reply(at: Instant, accepted: bool)

  // ---- taking an event ----

  function Addresses(email: Option<string>, phone: Option<string>): seq<(Channel, string)> {
    (if email.Some? && email.value != "" then [(Email, email.value)] else [])
    + (if phone.Some? && phone.value != "" then [(WhatsApp, phone.value)] else [])
  }

  /** Addresses in the payload win; only without any is the candidate resolved. */
  function Recipients(e: Incoming): seq<(Channel, string)> {
    var direct := Addresses(e.email, e.whatsapp);
    if |direct| > 0 || e.resolved.None? then direct else Addresses(e.resolved.value.email, e.resolved.value.phone)
  }

  function NewNotification(event: Id, recipient: (Channel, string)): Notification {
    Notification(event, recipient.0, recipient.1, Pending, 0, None)
  }

  function Records(event: Id, recipients: seq<(Channel, string)>): (records: seq<Notification>)
    ensures |records| == |recipients|
  {
    seq(|recipients|, i requires 0 <= i < |recipients| => NewNotification(event, recipients[i]))
  }

  function Refuse(s: Service, event: Id, reason: Reason): Service {
    s.(deadLetters := s.deadLetters + [DeadLetter(event, None, reason)], processed := s.processed + {event})
  }

  function Accept(s: Service, e: Incoming): Service {
    if e.event in s.processed then s
    else if !e.supported then Refuse(s, e.event, UnsupportedEvent)
    else if |Recipients(e)| == 0 then Refuse(s, e.event, RecipientMissing)
    else if !e.renderable then Refuse(s, e.event, ContextInvalid)
    else
      s.(notifications := s.notifications + Records(e.event, Recipients(e)), processed := s.processed + {e.event})
  }

  // ---- delivering ----

  function Pow2(n: nat): (p: nat)
    ensures p >= 1
  {
    if n == 0 then 1 else 2 * Pow2(n - 1)
  }

  function Least(a: int, b: int): int {
    if a <= b then a else b
  }

  /** Seconds to wait after failed attempt number `attempt`. */
  function Delay(settings: Settings, attempt: nat): int
    requires attempt > 0
  {
    Least(settings.base * Pow2(attempt - 1), settings.cap)
  }

  predicate Terminal(status: Status) {
    status in {Sent, DeadLettered}
  }

  predicate Due(n: Notification, now: Instant) {
    !Terminal(n.status) && (n.nextAttemptAt.None? || n.nextAttemptAt.value <= now)
  }

  function Attempted(settings: Settings, n: Notification, reply: Reply): Notification {
    var count := n.attemptCount + 1;
    if reply.accepted then n.(attemptCount := count, status := Sent, nextAttemptAt := None)
    else if count >= settings.maxAttempts then n.(attemptCount := count, status := DeadLettered, nextAttemptAt := None)
    else
      n.(attemptCount := count, status := RetryScheduled,
         nextAttemptAt := Some(reply.at + SECOND * Delay(settings, count)))
  }

  function Deliver(s: Service, settings: Settings, id: Id, reply: Reply): Service {
    if id >= |s.notifications| || !Due(s.notifications[id], reply.at) then s
    else
      var after := Attempted(settings, s.notifications[id], reply);
      s.(notifications := s.notifications[id := after],
         attempts := s.attempts + [(id, Attempt(after.attemptCount, reply.at, reply.accepted))],
         deadLetters := s.deadLetters
           + (if after.status == DeadLettered then [DeadLetter(after.event, Some(id), AttemptsExhausted)] else []))
  }

  function DeliverAll(s: Service, settings: Settings, ids: seq<Id>, reply: nat -> Reply): Service {
    if |ids| == 0 then s
    else Deliver(DeliverAll(s, settings, ids[..|ids| - 1], reply), settings, ids[|ids| - 1], reply(|ids| - 1))
  }

  /** The due notifications, oldest first. */
  function DueIds(notifications: seq<Notification>, now: Instant): (ids: seq<Id>)
    ensures forall id: Id :: id in ids <==> id < |notifications| && Due(notifications[id], now)
    ensures forall k :: 0 <= k < |ids| ==> ids[k] < |notifications|
    ensures forall j, k :: 0 <= j < k < |ids| ==> ids[j] < ids[k]
  {
    if |notifications| == 0 then []
    else
      var n := |notifications| - 1;
      DueIds(notifications[..n], now) + (if Due(notifications[n], now) then [n] else [])
  }

  // ---- runs ----

  datatype Op =
    | AcceptOp(incoming: Incoming)
    | DeliverOp(id: Id, reply: Reply)

  function Step(settings: Settings, s: Service, op: Op): Service {
    match op
    case AcceptOp(e) => Accept(s, e)
    case DeliverOp(id, reply) => Deliver(s, settings, id, reply)
  }

  function StepAll(settings: Settings, s: Service, ops: seq<Op>): Service {
    if |ops| == 0 then s else Step(settings, StepAll(settings, s, ops[..|ops| - 1]), ops[|ops| - 1])
  }

  // ---- what every step keeps ----

  function Exhaustions(letters: seq<DeadLetter>, id: Id): nat {
    if |letters| == 0 then 0
    else Exhaustions(letters[..|letters| - 1], id) + (if letters[|letters| - 1].notification == Some(id) then 1 else 0)
  }

  /** Attempts are numbered from one, each waits out the delay after the one before, and only the last
      can have succeeded. */
  ghost predicate AttemptsOk(settings: Settings, rows: seq<Attempt>) {
    && |rows| <= settings.maxAttempts
    && (forall k :: 0 <= k < |rows| ==> rows[k].number == k + 1)
    && (forall k :: 0 <= k < |rows| - 1 ==> !rows[k].successful)
    && (forall k: nat :: k < |rows| - 1 ==> WaitedOut(settings, rows, k))
  }

  /** The attempt after attempt row `k` waited for the whole delay. */
  ghost predicate WaitedOut(settings: Settings, rows: seq<Attempt>, k: nat)
    requires k < |rows| - 1
  {
    rows[k].startedAt + SECOND * Delay(settings, k + 1) <= rows[k + 1].startedAt
  }

  /** The row says what its attempts say. */
  ghost predicate RowOk(settings: Settings, n: Notification, rows: seq<Attempt>, exhaustions: nat) {
    && AttemptsOk(settings, rows)
    && n.attemptCount == |rows|
    && (n.status == Pending <==> |rows| == 0)
    && (n.status == Sent <==> |rows| > 0 && rows[|rows| - 1].successful)
    && (n.status == DeadLettered <==> 0 < |rows| == settings.maxAttempts && !rows[|rows| - 1].successful)
    && n.nextAttemptAt == (if n.status == RetryScheduled
                           then Some(rows[|rows| - 1].startedAt + SECOND * Delay(settings, |rows|)) else None)
    && exhaustions == (if n.status == DeadLettered then 1 else 0)
  }

  ghost predicate Ok(settings: Settings, s: Service, id: Id) {
    if id < |s.notifications| then
      RowOk(settings, s.notifications[id], RowsOf(s.attempts, id), Exhaustions(s.deadLetters, id))
    else RowsOf(s.attempts, id) == [] && Exhaustions(s.deadLetters, id) == 0
  }

  ghost predicate HasNotification(s: Service, event: Id) {
    exists id :: 0 <= id < |s.notifications| && s.notifications[id].event == event
  }

  ghost predicate HasRefusal(s: Service, event: Id) {
    exists k :: 0 <= k < |s.deadLetters| && s.deadLetters[k].event == event && s.deadLetters[k].notification.None?
  }

  /** A processed event left notifications or a refusal, never both and never neither. */
  ghost predicate EventOk(s: Service, event: Id) {
    if event in s.processed then HasNotification(s, event) != HasRefusal(s, event)
    else !HasNotification(s, event) && !HasRefusal(s, event)
  }

  ghost predicate SameDelivery(a: Notification, b: Notification) {
    a.event == b.event && a.channel == b.channel
  }

  ghost predicate Inv(settings: Settings, s: Service) {
    && (forall id :: Ok(settings, s, id))
    && (forall event :: EventOk(s, event))
    && (forall i, j :: 0 <= i < j < |s.notifications| ==> !SameDelivery(s.notifications[i], s.notifications[j]))
  }

  lemma EmptyOk(settings: Settings)
    requires ValidSettings(settings)
    ensures Inv(settings, EMPTY_SERVICE)
  {
  }

  lemma ExhaustionsAppend(letters: seq<DeadLetter>, letter: DeadLetter, id: Id)
    ensures Exhaustions(letters + [letter], id)
         == Exhaustions(letters, id) + (if letter.notification == Some(id) then 1 else 0)
  {
    assert (letters + [letter])[..|letters|] == letters;
  }

  /** One attempt on a due row. */
  lemma AttemptKeepsRow(settings: Settings, n: Notification, rows: seq<Attempt>, reply: Reply)
    requires ValidSettings(settings) && RowOk(settings, n, rows, 0) && Due(n, reply.at)
    ensures var after := Attempted(settings, n, reply);
            RowOk(settings, after, rows + [Attempt(after.attemptCount, reply.at, reply.accepted)],
                  if after.status == DeadLettered then 1 else 0)
  {
    var longer := rows + [Attempt(n.attemptCount + 1, reply.at, reply.accepted)];
    forall k: nat | k < |longer| - 1 ensures WaitedOut(settings, longer, k) {
      if k < |rows| - 1 {
        assert WaitedOut(settings, rows, k);
      }
    }
  }

  lemma DeliverKeepsRow(settings: Settings, s: Service, id: Id, reply: Reply, other: Id)
    requires ValidSettings(settings) && Inv(settings, s)
    ensures Ok(settings, Deliver(s, settings, id, reply), other)
  {
    var s' := Deliver(s, settings, id, reply);
    assert Ok(settings, s, other) && Ok(settings, s, id);
    if s' != s {
      var after := s'.notifications[id];
      var row := (id, Attempt(after.attemptCount, reply.at, reply.accepted));
      RowsOfAppend(s.attempts, other, row);
      ExhaustionsAppend(s.deadLetters, DeadLetter(after.event, Some(id), AttemptsExhausted), other);
      assert RowsOf(s.attempts, other) + [] == RowsOf(s.attempts, other);
      assert s.deadLetters + [] == s.deadLetters;
      if other == id {
        AttemptKeepsRow(settings, s.notifications[id], RowsOf(s.attempts, id), reply);
      }
    }
  }

  lemma DeliverKeepsEvent(settings: Settings, s: Service, id: Id, reply: Reply, event: Id)
    requires EventOk(s, event)
    ensures EventOk(Deliver(s, settings, id, reply), event)
  {
    var s' := Deliver(s, settings, id, reply);
    if i :| 0 <= i < |s.notifications| && s.notifications[i].event == event {
      assert s'.notifications[i].event == event;
    }
    if i :| 0 <= i < |s'.notifications| && s'.notifications[i].event == event {
      assert s.notifications[i].event == event;
    }
    if k :| 0 <= k < |s.deadLetters| && s.deadLetters[k].event == event && s.deadLetters[k].notification.None? {
      assert s'.deadLetters[k] == s.deadLetters[k];
    }
    if k :| 0 <= k < |s'.deadLetters| && s'.deadLetters[k].event == event && s'.deadLetters[k].notification.None? {
      assert s.deadLetters[k] == s'.deadLetters[k];
    }
  }

  lemma DeliverKeeps(settings: Settings, s: Service, id: Id, reply: Reply)
    requires ValidSettings(settings) && Inv(settings, s)
    ensures Inv(settings, Deliver(s, settings, id, reply))
  {
    var s' := Deliver(s, settings, id, reply);
    forall other ensures Ok(settings, s', other) {
      DeliverKeepsRow(settings, s, id, reply, other);
    }
    forall event ensures EventOk(s', event) {
      assert EventOk(s, event);
      DeliverKeepsEvent(settings, s, id, reply, event);
    }
    forall i, j | 0 <= i < j < |s'.notifications| ensures !SameDelivery(s'.notifications[i], s'.notifications[j]) {
      assert !SameDelivery(s.notifications[i], s.notifications[j]);
    }
  }

  lemma RefuseKeeps(settings: Settings, s: Service, event: Id, reason: Reason)
    requires Inv(settings, s) && event !in s.processed
    ensures Inv(settings, Refuse(s, event, reason))
  {
    var s' := Refuse(s, event, reason);
    var letter := DeadLetter(event, None, reason);
    forall id ensures Ok(settings, s', id) {
      assert Ok(settings, s, id);
      ExhaustionsAppend(s.deadLetters, letter, id);
    }
    forall e ensures EventOk(s', e) {
      assert EventOk(s, e);
      RefusalAppears(s, event, reason, e);
    }
  }

  lemma RefusalAppears(s: Service, event: Id, reason: Reason, e: Id)
    ensures HasRefusal(Refuse(s, event, reason), e) <==> HasRefusal(s, e) || e == event
    ensures HasNotification(Refuse(s, event, reason), e) <==> HasNotification(s, e)
  {
    var s' := Refuse(s, event, reason);
    assert s'.deadLetters[|s.deadLetters|].event == event;
    if k :| 0 <= k < |s.deadLetters| && s.deadLetters[k].event == e && s.deadLetters[k].notification.None? {
      assert s'.deadLetters[k] == s.deadLetters[k];
    }
    if k :| 0 <= k < |s'.deadLetters| && s'.deadLetters[k].event == e && s'.deadLetters[k].notification.None?
            && k < |s.deadLetters| {
      assert s.deadLetters[k] == s'.deadLetters[k];
    }
  }

  lemma EnqueueKeeps(settings: Settings, s: Service, e: Incoming)
    requires ValidSettings(settings) && Inv(settings, s) && e.event !in s.processed
    requires e.supported && e.renderable && |Recipients(e)| > 0
    ensures Inv(settings, Accept(s, e))
  {
    var s' := Accept(s, e);
    forall id ensures Ok(settings, s', id) {
      assert Ok(settings, s, id);
    }
    assert EventOk(s, e.event);
    forall event ensures EventOk(s', event) {
      assert EventOk(s, event);
      NotificationsAppear(s, e, event);
    }
    forall i, j | 0 <= i < j < |s'.notifications| ensures !SameDelivery(s'.notifications[i], s'.notifications[j]) {
      if j < |s.notifications| {
        assert !SameDelivery(s.notifications[i], s.notifications[j]);
      } else if i < |s.notifications| {
        assert s.notifications[i].event != e.event;
      }
    }
  }

  lemma NotificationsAppear(s: Service, e: Incoming, event: Id)
    requires e.event !in s.processed && e.supported && e.renderable && |Recipients(e)| > 0
    ensures HasNotification(Accept(s, e), event) <==> HasNotification(s, event) || event == e.event
    ensures HasRefusal(Accept(s, e), event) <==> HasRefusal(s, event)
  {
    var s' := Accept(s, e);
    assert s'.notifications[|s.notifications|].event == e.event;
    if i :| 0 <= i < |s.notifications| && s.notifications[i].event == event {
      assert s'.notifications[i] == s.notifications[i];
    }
    if i :| 0 <= i < |s'.notifications| && s'.notifications[i].event == event && event != e.event {
      assert s.notifications[i] == s'.notifications[i];
    }
  }

  lemma StepKeeps(settings: Settings, s: Service, op: Op)
    requires ValidSettings(settings) && Inv(settings, s)
    ensures Inv(settings, Step(settings, s, op))
  {
    match op {
      case DeliverOp(id, reply) => DeliverKeeps(settings, s, id, reply);
      case AcceptOp(e) =>
        if e.event !in s.processed {
          if !e.supported {
            RefuseKeeps(settings, s, e.event, UnsupportedEvent);
          } else if |Recipients(e)| == 0 {
            RefuseKeeps(settings, s, e.event, RecipientMissing);
          } else if !e.renderable {
            RefuseKeeps(settings, s, e.event, ContextInvalid);
          } else {
            EnqueueKeeps(settings, s, e);
          }
        }
    }
  }

  lemma {:induction false} RunKeeps(settings: Settings, ops: seq<Op>)
    requires ValidSettings(settings)
    ensures Inv(settings, StepAll(settings, EMPTY_SERVICE, ops))
  {
    if |ops| == 0 {
      EmptyOk(settings);
    } else {
      RunKeeps(settings, ops[..|ops| - 1]);
      StepKeeps(settings, StepAll(settings, EMPTY_SERVICE, ops[..|ops| - 1]), ops[|ops| - 1]);
    }
  }

  ghost predicate Reachable(settings: Settings, s: Service) {
    exists ops :: StepAll(settings, EMPTY_SERVICE, ops) == s
  }

  lemma EmptyIsReachable(settings: Settings)
    ensures Reachable(settings, EMPTY_SERVICE)
  {
    assert StepAll(settings, EMPTY_SERVICE, []) == EMPTY_SERVICE;
  }

  lemma ReachableStep(settings: Settings, s: Service, op: Op)
    requires Reachable(settings, s)
    ensures Reachable(settings, Step(settings, s, op))
  {
    var ops :| StepAll(settings, EMPTY_SERVICE, ops) == s;
    assert (ops + [op])[..|ops|] == ops;
    assert StepAll(settings, EMPTY_SERVICE, ops + [op]) == Step(settings, s, op);
  }

  // ---- what holds in every run ----

  /** In every run the attempts of a notification are numbered and bounded, only the last can succeed,
      and it is dead-lettered iff it has exactly the maximal number of attempts, all failed, and then
      exactly one exhaustion record names it. */
  lemma {:induction false} DeliveryIsBounded(settings: Settings, ops: seq<Op>, id: Id)
    requires ValidSettings(settings)
    ensures var s := StepAll(settings, EMPTY_SERVICE, ops);
            id < |s.notifications| ==>
              && RowOk(settings, s.notifications[id], RowsOf(s.attempts, id), Exhaustions(s.deadLetters, id))
              && (s.notifications[id].status == DeadLettered <==>
                    && |RowsOf(s.attempts, id)| == settings.maxAttempts
                    && forall k :: 0 <= k < settings.maxAttempts ==> !RowsOf(s.attempts, id)[k].successful)
  {
    RunKeeps(settings, ops);
    assert Ok(settings, StepAll(settings, EMPTY_SERVICE, ops), id);
  }

  /** No event is lost without a trace, and none is both notified and refused. */
  lemma {:induction false} EveryEventIsAccounted(settings: Settings, ops: seq<Op>, event: Id)
    requires ValidSettings(settings)
    ensures EventOk(StepAll(settings, EMPTY_SERVICE, ops), event)
  {
    RunKeeps(settings, ops);
  }

  lemma {:induction false} ProcessedStays(settings: Settings, s: Service, ops: seq<Op>, event: Id)
    requires event in s.processed
    ensures event in StepAll(settings, s, ops).processed
  {
    if |ops| == 0 {
    } else {
      ProcessedStays(settings, s, ops[..|ops| - 1], event);
    }
  }

  /** Once an event has been taken, taking it again at any later point of any run changes nothing,
      whatever the redelivery carries. */
  lemma {:induction false} RedeliveryChangesNothing(settings: Settings, s: Service, e: Incoming,
                                                    ops: seq<Op>, again: Incoming)
    requires again.event == e.event
    ensures var later := StepAll(settings, Accept(s, e), ops);
            Accept(later, again) == later
  {
    ProcessedStays(settings, Accept(s, e), ops, e.event);
  }

  lemma DeliverAbsorbs(settings: Settings, s: Service, id: Id, reply: Reply, other: Id)
    requires other < |s.notifications| && Terminal(s.notifications[other].status)
    ensures var s' := Deliver(s, settings, id, reply);
            && other < |s'.notifications| && s'.notifications[other] == s.notifications[other]
            && RowsOf(s'.attempts, other) == RowsOf(s.attempts, other)
  {
    if id < |s.notifications| && Due(s.notifications[id], reply.at) {
      var count := Attempted(settings, s.notifications[id], reply).attemptCount;
      RowsOfAppend(s.attempts, other, (id, Attempt(count, reply.at, reply.accepted)));
      assert RowsOf(s.attempts, other) + [] == RowsOf(s.attempts, other);
    }
  }

  lemma StepAbsorbs(settings: Settings, s: Service, op: Op, id: Id)
    requires id < |s.notifications| && Terminal(s.notifications[id].status)
    ensures var s' := Step(settings, s, op);
            && id < |s'.notifications| && s'.notifications[id] == s.notifications[id]
            && RowsOf(s'.attempts, id) == RowsOf(s.attempts, id)
  {
    match op {
      case DeliverOp(other, reply) => DeliverAbsorbs(settings, s, other, reply, id);
      case AcceptOp(e) =>
    }
  }

  /** A sent or dead-lettered notification never changes again, and neither do its attempts. */
  lemma {:induction false} TerminalAbsorbs(settings: Settings, s: Service, ops: seq<Op>, id: Id)
    requires id < |s.notifications| && Terminal(s.notifications[id].status)
    ensures var s' := StepAll(settings, s, ops);
            && id < |s'.notifications| && s'.notifications[id] == s.notifications[id]
            && RowsOf(s'.attempts, id) == RowsOf(s.attempts, id)
  {
    if |ops| == 0 {
    } else {
      TerminalAbsorbs(settings, s, ops[..|ops| - 1], id);
      StepAbsorbs(settings, StepAll(settings, s, ops[..|ops| - 1]), ops[|ops| - 1], id);
    }
  }

  // ---- the total delay ----

  /** The delays scheduled after the first `failures` failed attempts. */
  function TotalDelay(settings: Settings, failures: nat): int {
    if failures == 0 then 0 else TotalDelay(settings, failures - 1) + Delay(settings, failures)
  }

  lemma Doubling(base: nat, n: nat)
    requires n > 0
    ensures base * (Pow2(n) - 1) == base * (Pow2(n - 1) - 1) + base * Pow2(n - 1)
  {
    var half := Pow2(n - 1);
    assert base * (2 * half - 1) == base * (half - 1) + base * half;
  }

  lemma DelayIsBounded(settings: Settings, attempt: nat)
    requires attempt > 0
    ensures 0 <= Delay(settings, attempt) <= settings.cap
    ensures Delay(settings, attempt) <= settings.base * Pow2(attempt - 1)
  {
    assert settings.base * Pow2(attempt - 1) >= 0;
  }

  /** The sum stays below the geometric series and below the capped one. */
  lemma {:induction false} TotalDelayIsBounded(settings: Settings, failures: nat)
    ensures 0 <= TotalDelay(settings, failures) <= settings.base * (Pow2(failures) - 1)
    ensures TotalDelay(settings, failures) <= failures * settings.cap
  {
    if failures == 0 {
    } else {
      TotalDelayIsBounded(settings, failures - 1);
      DelayIsBounded(settings, failures);
      Doubling(settings.base, failures);
      assert failures * settings.cap == (failures - 1) * settings.cap + settings.cap;
    }
  }

  /** While no delay reaches the cap the sum is exactly the geometric series. */
  lemma {:induction false} UncappedDelayIsExact(settings: Settings, failures: nat)
    requires forall k: nat {:trigger Pow2(k)} :: k < failures ==> settings.base * Pow2(k) <= settings.cap
    ensures TotalDelay(settings, failures) == settings.base * (Pow2(failures) - 1)
  {
    if failures == 0 {
    } else {
      UncappedDelayIsExact(settings, failures - 1);
      Doubling(settings.base, failures);
    }
  }

  /** The delays scheduled for one notification: one after every failure that was not the last allowed. */
  function Scheduled(settings: Settings, rows: seq<Attempt>): nat {
    if |rows| == 0 then 0
    else if rows[|rows| - 1].successful || |rows| >= settings.maxAttempts then |rows| - 1
    else |rows|
  }

  lemma {:induction false} TotalDelayGrows(settings: Settings, fewer: nat, more: nat)
    requires fewer <= more
    ensures TotalDelay(settings, fewer) <= TotalDelay(settings, more)
    decreases more
  {
    if fewer < more {
      TotalDelayGrows(settings, fewer, more - 1);
      DelayIsBounded(settings, more);
    }
  }

  /** In every run the delays scheduled for a notification add up to no more than the whole backoff:
      base * (2^(max - 1) - 1), or max - 1 times the cap. */
  lemma {:induction false} BackoffIsBounded(settings: Settings, ops: seq<Op>, id: Id)
    requires ValidSettings(settings)
    ensures var s := StepAll(settings, EMPTY_SERVICE, ops);
            id < |s.notifications| ==>
              var rows := RowsOf(s.attempts, id);
              && Scheduled(settings, rows) < settings.maxAttempts
              && TotalDelay(settings, Scheduled(settings, rows))
                 <= Least(settings.base * (Pow2(settings.maxAttempts - 1) - 1),
                          (settings.maxAttempts - 1) * settings.cap)
  {
    var s := StepAll(settings, EMPTY_SERVICE, ops);
    RunKeeps(settings, ops);
    assert Ok(settings, s, id);
    if id < |s.notifications| {
      ScheduledIsBounded(settings, RowsOf(s.attempts, id));
    }
  }

  lemma ScheduledIsBounded(settings: Settings, rows: seq<Attempt>)
    requires ValidSettings(settings) && AttemptsOk(settings, rows)
    ensures Scheduled(settings, rows) < settings.maxAttempts
    ensures TotalDelay(settings, Scheduled(settings, rows))
         <= Least(settings.base * (Pow2(settings.maxAttempts - 1) - 1), (settings.maxAttempts - 1) * settings.cap)
  {
    var most := settings.maxAttempts - 1;
    TotalDelayGrows(settings, Scheduled(settings, rows), most);
    TotalDelayIsBounded(settings, most);
  }

  /** The last attempt starts at least the scheduled delays after the first. */
  lemma {:induction false} DelaysAreWaitedOut(settings: Settings, rows: seq<Attempt>, k: nat)
    requires AttemptsOk(settings, rows) && k < |rows|
    ensures rows[0].startedAt + SECOND * TotalDelay(settings, k) <= rows[k].startedAt
  {
    if k == 0 {
    } else {
      DelaysAreWaitedOut(settings, rows, k - 1);
      assert WaitedOut(settings, rows, k - 1);
    }
  }

  // ---- what a retry batch achieves ----

  lemma DeliverLeavesOthers(s: Service, settings: Settings, id: Id, reply: Reply, other: Id)
    requires other != id && other < |s.notifications|
    ensures var s' := Deliver(s, settings, id, reply);
            |s'.notifications| == |s.notifications| && s'.notifications[other] == s.notifications[other]
  {
  }

  /** A batch leaves the notifications that it does not name alone. */
  lemma {:induction false} BatchLeaves(s: Service, settings: Settings, ids: seq<Id>, reply: nat -> Reply, id: Id)
    requires id < |s.notifications| && id !in ids
    ensures var s' := DeliverAll(s, settings, ids, reply);
            |s'.notifications| == |s.notifications| && s'.notifications[id] == s.notifications[id]
  {
    if |ids| == 0 {
    } else {
      var init := ids[..|ids| - 1];
      BatchLeaves(s, settings, init, reply, id);
      DeliverLeavesOthers(DeliverAll(s, settings, init, reply), settings, ids[|ids| - 1], reply(|ids| - 1), id);
    }
  }

  /** A batch attempts each of its due notifications once. */
  lemma {:induction false} BatchAttempts(s: Service, settings: Settings, ids: seq<Id>, reply: nat -> Reply, k: nat)
    requires k < |ids| && forall i, j :: 0 <= i < j < |ids| ==> ids[i] != ids[j]
    requires ids[k] < |s.notifications| && Due(s.notifications[ids[k]], reply(k).at)
    ensures var s' := DeliverAll(s, settings, ids, reply);
            && |s'.notifications| == |s.notifications|
            && s'.notifications[ids[k]] == Attempted(settings, s.notifications[ids[k]], reply(k))
  {
    var init, last := ids[..|ids| - 1], |ids| - 1;
    if k < last {
      BatchAttempts(s, settings, init, reply, k);
      DeliverLeavesOthers(DeliverAll(s, settings, init, reply), settings, ids[last], reply(last), ids[k]);
    } else {
      BatchLeaves(s, settings, init, reply, ids[k]);
    }
  }

  lemma DelayIsPositive(settings: Settings, attempt: nat)
    requires ValidSettings(settings) && attempt > 0
    ensures Delay(settings, attempt) >= 1
  {
    var p := Pow2(attempt - 1);
    assert settings.base * p == p + (settings.base - 1) * p;
    assert (settings.base - 1) * p >= 0;
  }

  lemma AttemptedIsNotDue(settings: Settings, n: Notification, reply: Reply)
    requires ValidSettings(settings)
    ensures !Due(Attempted(settings, n, reply), reply.at)
  {
    DelayIsPositive(settings, n.attemptCount + 1);
  }

  /** A retry run whose batch covers everything due leaves nothing due at that moment. */
  lemma RetryClears(s: Service, settings: Settings, now: Instant, reply: nat -> Reply, id: Id)
    requires ValidSettings(settings) && id < |s.notifications| && forall k :: reply(k).at == now
    ensures var s' := DeliverAll(s, settings, DueIds(s.notifications, now), reply);
            id < |s'.notifications| && !Due(s'.notifications[id], now)
  {
    var ids := DueIds(s.notifications, now);
    if id !in ids {
      BatchLeaves(s, settings, ids, reply, id);
    } else {
      var k: nat :| k < |ids| && ids[k] == id;
      BatchAttempts(s, settings, ids, reply, k);
      AttemptedIsNotDue(settings, s.notifications[id], reply(k));
    }
  }
}
