/** The notification service on its mutable tables. Every method takes steps of Notifications; what the
    providers reply is a parameter. */
module NotificationService {
  import opened Tables
  import opened Contracts
  import opened Notifications

  class NotificationService {
    const settings: Settings
    var notifications: seq<Notification>
    var attempts: Table<Id, Attempt>
    var deadLetters: seq<DeadLetter>
    var processed: set<Id>

    function Model(): Service
      reads this
    {
      Service(notifications, attempts, deadLetters, processed)
    }

    ghost predicate Valid()
      reads this
    {
      ValidSettings(settings) && Reachable(settings, Model())
    }

    constructor (settings: Settings)
      requires ValidSettings(settings)
      ensures Valid() && Model() == EMPTY_SERVICE && this.settings == settings
    {
      this.settings := settings;
      notifications, attempts, deadLetters, processed := [], [], [], {};
      new;
      EmptyIsReachable(settings);
    }

    method RecordRefusal(event: Id, reason: Reason)
      modifies this`deadLetters, this`processed
      ensures Model() == Refuse(old(Model()), event, reason)
    {
      deadLetters := deadLetters + [DeadLetter(event, None, reason)];
      processed := processed + {event};
    }

    /** Commits what an event asks for: new notifications, or the record that it was refused. */
    method TakeEvent(e: Incoming) returns (records: seq<Id>)
      requires Valid()
      modifies this`notifications, this`deadLetters, this`processed
      ensures Valid() && Model() == Accept(old(Model()), e)
      ensures records == NewIds(|old(notifications)|, |notifications|)
    {
      ReachableStep(settings, Model(), AcceptOp(e));
      records := [];
      if e.event in processed {
        return;
      }
      if !e.supported {
        RecordRefusal(e.event, UnsupportedEvent);
        return;
      }
      var recipients := Recipients(e);
      if |recipients| == 0 {
        RecordRefusal(e.event, RecipientMissing);
        return;
      }
      if !e.renderable {
        RecordRefusal(e.event, ContextInvalid);
        return;
      }
      records := NewIds(|notifications|, |notifications| + |recipients|);
      notifications := notifications + Records(e.event, recipients);
      processed := processed + {e.event};
    }

    /** Takes an event and then delivers each of its new notifications once. */
    method Consume(e: Incoming, reply: nat -> Reply) returns (records: seq<Id>)
      requires Valid()
      modifies this`notifications, this`attempts, this`deadLetters, this`processed
      ensures Valid()
      ensures records == NewIds(|old(notifications)|, |Accept(old(Model()), e).notifications|)
      ensures Model() == DeliverAll(Accept(old(Model()), e), settings, records, reply)
    {
      records := TakeEvent(e);
      DeliverEach(records, reply);
    }

    method DeliverEach(ids: seq<Id>, reply: nat -> Reply)
      requires Valid()
      modifies this`notifications, this`attempts, this`deadLetters
      ensures Valid() && Model() == DeliverAll(old(Model()), settings, ids, reply)
    {
      for k := 0 to |ids|
        invariant Valid() && Model() == DeliverAll(old(Model()), settings, ids[..k], reply)
      {
        assert ids[..k + 1][..k] == ids[..k];
        DeliverOne(ids[k], reply(k));
      }
      assert ids[..|ids|] == ids;
    }

    /** One attempt on one notification, if it is due. */
    method DeliverOne(id: Id, reply: Reply)
      requires Valid()
      modifies this`notifications, this`attempts, this`deadLetters
      ensures Valid() && Model() == Deliver(old(Model()), settings, id, reply)
    {
      ReachableStep(settings, Model(), DeliverOp(id, reply));
      if id >= |notifications| {
        return;
      }
      var record := notifications[id];
      if record.status == Sent || record.status == DeadLettered {
        return;
      }
      if record.nextAttemptAt.Some? && record.nextAttemptAt.value > reply.at {
        return;
      }
      attempts := attempts + [(id, Attempt(record.attemptCount + 1, reply.at, reply.accepted))];
      Record(id, reply);
    }

    /** The outcome of an attempt: sent, given up, or waiting for the next one. */
    method Record(id: Id, reply: Reply)
      requires id < |notifications|
      modifies this`notifications, this`deadLetters
      ensures notifications == old(notifications)[id := Attempted(settings, old(notifications)[id], reply)]
      ensures deadLetters == old(deadLetters)
        + (if notifications[id].status == DeadLettered
           then [DeadLetter(notifications[id].event, Some(id), AttemptsExhausted)] else [])
    {
      var record := notifications[id];
      var count := record.attemptCount + 1;
      if reply.accepted {
        notifications := notifications[id := record.(attemptCount := count, status := Sent, nextAttemptAt := None)];
      } else if count >= settings.maxAttempts {
        notifications := notifications[id := record.(attemptCount := count, status := DeadLettered,
                                                     nextAttemptAt := None)];
        deadLetters := deadLetters + [DeadLetter(record.event, Some(id), AttemptsExhausted)];
      } else {
        var delay := Delay(settings, count);
        notifications := notifications[id := record.(attemptCount := count, status := RetryScheduled,
                                                      nextAttemptAt := Some(reply.at + SECOND * delay))];
      }
    }

    method SelectDue(now: Instant) returns (ids: seq<Id>)
      ensures ids == DueIds(notifications, now)
    {
      ids := [];
      for i := 0 to |notifications|
        invariant ids == DueIds(notifications[..i], now)
      {
        assert notifications[..i + 1][..i] == notifications[..i];
        if Due(notifications[i], now) {
          ids := ids + [i];
        }
      }
      assert notifications[..|notifications|] == notifications;
    }

    /** One attempt on each of the oldest due notifications, and how many of them went out. */
    method RetryDue(now: Instant, batch: nat, accepts: nat -> bool) returns (delivered: nat)
      requires Valid()
      modifies this`notifications, this`attempts, this`deadLetters
      ensures Valid()
      ensures var ids := Oldest(DueIds(old(notifications), now), batch);
              && Model() == DeliverAll(old(Model()), settings, ids, AllAt(now, accepts))
              && delivered == Accepted(accepts, |ids|)
    {
      var due := SelectDue(now);
      forall k | 0 <= k < |due| ensures due[k] < |notifications| && Due(notifications[due[k]], now) {
        assert due[k] in due;
      }
      delivered := DeliverBatch(now, Oldest(due, batch), accepts);
    }

    method DeliverBatch(now: Instant, ids: seq<Id>, accepts: nat -> bool) returns (delivered: nat)
      requires Valid()
      requires forall j, k :: 0 <= j < k < |ids| ==> ids[j] < ids[k]
      requires forall k :: 0 <= k < |ids| ==> ids[k] < |notifications| && Due(notifications[ids[k]], now)
      modifies this`notifications, this`attempts, this`deadLetters
      ensures Valid() && Model() == DeliverAll(old(Model()), settings, ids, AllAt(now, accepts))
      ensures delivered == Accepted(accepts, |ids|)
    {
      delivered := 0;
      ghost var start, reply := Model(), AllAt(now, accepts);
      for k := 0 to |ids|
        invariant Valid() && Model() == DeliverAll(start, settings, ids[..k], reply)
        invariant delivered == Accepted(accepts, k)
      {
        assert ids[..k + 1][..k] == ids[..k];
        assert ids[k] !in ids[..k];
        BatchLeaves(start, settings, ids[..k], reply, ids[k]);
        DeliverOne(ids[k], Reply(now, accepts(k)));
        if notifications[ids[k]].status == Sent {
          delivered := delivered + 1;
        }
      }
      assert ids[..|ids|] == ids;
    }
  }

  /** The ids of the rows appended between two table sizes. */
  function NewIds(first: nat, end: nat): (ids: seq<Id>) {
    if first >= end then [] else NewIds(first, end - 1) + [end - 1]
  }

  function Oldest(ids: seq<Id>, batch: nat): seq<Id> {
    if |ids| <= batch then ids else ids[..batch]
  }

  /** A batch starts all its deliveries at one moment. */
  function AllAt(now: Instant, accepts: nat -> bool): nat -> Reply {
    (k: nat) => Reply(now, accepts(k))
  }

  function Accepted(accepts: nat -> bool, n: nat): nat {
    if n == 0 then 0 else Accepted(accepts, n - 1) + (if accepts(n - 1) then 1 else 0)
  }
}
