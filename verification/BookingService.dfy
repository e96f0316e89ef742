/** The booking service on its mutable tables. Every method is proved to take the committed step
    of BookingModel, so every state of an instance is one the theorems about runs speak of. */
module BookingService {
  import opened Tables
  import opened Contracts
  import opened BookingStates
  import opened Availability
  import opened BookingModel
  import opened BookingSafety
  import opened HoldStore
  import opened AvailabilitySync
  import WeeklyRules

  /** A UUID that no row uses yet. */
  method NewId(used: set<Id>) returns (id: Id)
    ensures id !in used
  {
    id := 0;
    var rest := used;
    while rest != {}
      invariant forall i :: i in used && i !in rest ==> i < id
    {
      var i :| i in rest;
      rest := rest - {i};
      id := if i < id then id else i + 1;
    }
  }

  lemma KeyIsUnique(settings: Settings, db: Db, candidate: Id, key: Id, b: Id)
    requires ValidSettings(settings) && Reachable(settings, db) && IsBookingFor(db.bookings, candidate, key, b)
    ensures ExistingBooking(db.bookings, candidate, key) == Some(b)
  {
    ReachableOk(settings, db);
    var chosen := ExistingBooking(db.bookings, candidate, key).value;
    assert b != chosen ==> Compatible(db.bookings[b], db.bookings[chosen]);
  }

  class BookingService {
    var now: Instant
    var slots: map<Id, Slot>
    var bookings: map<Id, Booking>
    var history: Table<Id, HistoryRow>
    var eligibility: map<Id, Eligibility>
    var processed: set<EventId>
    var outbox: Table<Id, BookingEvent>
    const holds: RedisHoldStore
    const settings: Settings

    ghost function Model(): Db
      reads this, holds
    {
      Db(now, slots, bookings, history, eligibility, processed, outbox, holds.entries)
    }

    ghost predicate Valid()
      reads this, holds
    {
      Reachable(settings, Model()) && ValidSettings(settings) && holds.ttl == settings.holdTtl
    }

    constructor (settings: Settings, now: Instant)
      requires ValidSettings(settings)
      ensures Valid() && fresh(holds) && this.settings == settings && Model() == EmptyDb(now)
    {
      this.settings := settings;
      this.now := now;
      slots, bookings, history, eligibility, processed, outbox := map[], map[], [], map[], {}, [];
      holds := new RedisHoldStore(settings.holdTtl);
      new;
      EmptyIsReachable(settings, now);
    }

    /** The environment's step: the clock moves and the hold store expires with it. */
    method AdvanceClock(to: Instant)
      requires Valid() && now <= to
      modifies this, holds
      ensures Valid() && Model() == Tick(old(Model()), to)
    {
      ReachableNext(settings, Model(), TickOp(to), Tick(Model(), to));
      now := to;
      holds.DropExpired(to);
    }

    method Generate(interviewer: Id, windows: seq<Window>, ids: seq<Id>) returns (result: Result<(), Error>)
      requires Valid() && |ids| == |windows|
      modifies this`slots
      ensures Valid()
      ensures (Model(), result) == GenerateSlots(old(Model()), settings, interviewer, windows, ids)
    {
      ReachableNext(settings, Model(), GenerateOp(interviewer, windows, ids),
                    GenerateSlots(Model(), settings, interviewer, windows, ids).0);
      if interviewer !in eligibility || !eligibility[interviewer].verified {
        return Err(InterviewerNotVerified);
      }
      if exists w :: w in windows && w.last - w.first != settings.duration {
        return Err(InvalidSlotDuration);
      }
      if !FreshIds(slots, ids) {
        return Err(DuplicateId);
      }
      InsertEach(interviewer, windows, ids);
      return Ok(());
    }

    method InsertEach(interviewer: Id, windows: seq<Window>, ids: seq<Id>)
      requires |ids| == |windows|
      modifies this`slots
      ensures slots == InsertSlots(old(slots), interviewer, windows, ids)
    {
      for n := 0 to |windows|
        invariant slots == InsertSlots(old(slots), interviewer, windows[..n], ids[..n])
      {
        var row := Slot(interviewer, windows[n].first, windows[n].last, SlotAvailable, None, None, None);
        assert windows[..n + 1][..n] == windows[..n] && ids[..n + 1][..n] == ids[..n];
        if !exists i :: i in slots && SameWindow(slots[i], row) {
          slots := slots[ids[n] := row];
        }
      }
      assert windows[..|windows|] == windows && ids[..|ids|] == ids;
    }

    /** Take the Redis key first, then the slot row; give the key back if the row refuses. */
    method Hold(slotId: Id, candidate: Id, token: Token) returns (result: Result<Instant, Error>)
      requires Valid()
      modifies this`slots, holds
      ensures Valid()
      ensures (Model(), result) == BookingModel.Hold(old(Model()), settings, slotId, candidate, token)
    {
      ReachableNext(settings, Model(), HoldOp(slotId, candidate, token),
                    BookingModel.Hold(Model(), settings, slotId, candidate, token).0);
      var acquired := holds.Acquire(slotId, token, now);
      if !acquired {
        return Err(SlotUnavailable);
      }
      if slotId !in slots
         || slots[slotId].startsAt <= now
         || slots[slotId].interviewer !in eligibility
         || !eligibility[slots[slotId].interviewer].verified
         || slots[slotId].status in {SlotBooked, SlotBlocked}
         || (slots[slotId].status == SlotHeld
             && slots[slotId].holdExpiresAt.Some? && slots[slotId].holdExpiresAt.value > now)
      {
        var _ := holds.Release(slotId, token);
        assert holds.entries == old(holds.entries);
        return Err(SlotUnavailable);
      }
      var expires := now + settings.holdTtl;
      slots := slots[slotId := slots[slotId].(
                 status := SlotHeld,
                 heldBy := Some(candidate),
                 holdTokenHash := Some(Sha256(token)),
                 holdExpiresAt := Some(expires))];
      return Ok(expires);
    }

    method FindBooking(candidate: Id, key: Id) returns (found: Option<Id>)
      requires Valid()
      ensures found == ExistingBooking(bookings, candidate, key)
    {
      if b :| b in bookings && bookings[b].candidate == candidate && bookings[b].idempotencyKey == key {
        KeyIsUnique(settings, Model(), candidate, key, b);
        return Some(b);
      }
      return None;
    }

    method Create(slotId: Id, candidate: Id, token: Token, key: Id, newId: Id) returns (result: Result<Id, Error>)
      requires Valid()
      modifies this`slots, this`bookings, this`history, this`outbox, holds
      ensures Valid()
      ensures (Model(), result) == CreateBooking(old(Model()), slotId, candidate, token, key, newId)
    {
      ReachableNext(settings, Model(), CreateOp(slotId, candidate, token, key, newId),
                    CreateBooking(Model(), slotId, candidate, token, key, newId).0);
      var existing := FindBooking(candidate, key);
      if existing.Some? {
        return Ok(existing.value);
      }
      var matches := holds.Matches(slotId, token);
      if !matches {
        return Err(InvalidOrExpiredHold);
      }
      if slotId !in slots
         || slots[slotId].startsAt <= now
         || slots[slotId].interviewer !in eligibility
         || !eligibility[slots[slotId].interviewer].verified
         || slots[slotId].status != SlotHeld
         || slots[slotId].heldBy != Some(candidate)
         || slots[slotId].holdTokenHash != Some(Sha256(token))
         || slots[slotId].holdExpiresAt.None?
         || slots[slotId].holdExpiresAt.value <= now
      {
        return Err(InvalidOrExpiredHold);
      }
      var slot := slots[slotId];
      var booking := Booking(slotId, candidate, slot.interviewer, slot.startsAt, slot.endsAt,
                             PaymentPending, true, PRICE, INR, key, None);
      if !CommitAllowed(bookings, newId, booking) {
        return Err(BookingOverlap);
      }
      bookings := bookings[newId := booking];
      history := history + [(newId, HistoryRow(None, PaymentPending))];
      slots := slots[slotId := slot.(status := SlotBooked, holdTokenHash := None, holdExpiresAt := None)];
      outbox := outbox + [(newId, BookingCreated)];
      var _ := holds.Release(slotId, token);
      return Ok(newId);
    }

    method TransitionTo(id: Id, target: BookingStatus) returns (result: Result<(), Error>)
      requires Valid()
      modifies this`slots, this`bookings, this`history, this`outbox
      ensures Valid()
      ensures (Model(), result) == Transition(old(Model()), id, target)
    {
      ReachableNext(settings, Model(), TransitionOp(id, target), Transition(Model(), id, target).0);
      if id !in bookings {
        return Err(BookingNotFound);
      }
      if !CanTransition(bookings[id].status, target) {
        return Err(InvalidBookingTransition);
      }
      var previous := bookings[id].status;
      bookings := bookings[id := bookings[id].(status := target, occupiesTime := OccupiesTime(target))];
      history := history + [(id, HistoryRow(Some(previous), target))];
      Publish(id, target);
      if !bookings[id].occupiesTime {
        SetSlotAvailable(bookings[id].slot);
      }
      return Ok(());
    }

    method Publish(id: Id, target: BookingStatus)
      modifies this`outbox
      ensures Model() == Announce(old(Model()), id, target)
    {
      if target == Confirmed {
        outbox := outbox + [(id, BookingConfirmed)];
      } else if target == Cancelled {
        outbox := outbox + [(id, BookingCancelled)];
      } else if target == Rescheduled {
        outbox := outbox + [(id, BookingRescheduled)];
      }
    }

    /** UPDATE slots SET status = 'available' WHERE id = slot: no condition on the old status. */
    method SetSlotAvailable(slot: Id)
      modifies this`slots
      ensures slots == if slot in old(slots) then old(slots)[slot := old(slots)[slot].(status := SlotAvailable)]
                       else old(slots)
    {
      if slot in slots {
        slots := slots[slot := slots[slot].(status := SlotAvailable)];
      }
    }

    method Cancel(id: Id, candidate: Id) returns (result: Result<(), Error>)
      requires Valid()
      modifies this`slots, this`bookings, this`history, this`outbox
      ensures Valid()
      ensures (Model(), result) == CancelByCandidate(old(Model()), id, candidate)
    {
      if id !in bookings || bookings[id].candidate != candidate {
        return Err(BookingNotFound);
      }
      result := TransitionTo(id, Cancelled);
    }

    /** Move the booking through the target statuses in order; stop at the first that is not allowed. */
    method Walk(id: Id, targets: seq<BookingStatus>) returns (allowed: bool)
      requires id in bookings
      modifies this`bookings, this`history
      ensures allowed <==> MoveAlong(old(Model()), id, targets).Some?
      ensures allowed ==> Model() == MoveAlong(old(Model()), id, targets).value && id in bookings
    {
      ghost var start := Model();
      for n := 0 to |targets|
        invariant id in bookings
        invariant MoveAlong(Model(), id, targets[n..]) == MoveAlong(start, id, targets)
      {
        var previous := bookings[id].status;
        if !CanTransition(previous, targets[n]) {
          return false;
        }
        assert targets[n..][1..] == targets[n + 1..];
        ghost var before := Model();
        bookings := bookings[id := bookings[id].(status := targets[n], occupiesTime := OccupiesTime(targets[n]))];
        history := history + [(id, HistoryRow(Some(previous), targets[n]))];
        assert Model() == Move(before, id, targets[n]);
      }
      return true;
    }

    /** Announce a confirmation, and free the slot of a booking that no longer occupies its time. */
    method Finish(id: Id)
      requires id in bookings
      modifies this`slots, this`outbox
      ensures Model() == Release(ConfirmationOf(old(Model()), id), id)
    {
      if bookings[id].status == Confirmed {
        outbox := outbox + [(id, BookingConfirmed)];
      }
      if !bookings[id].occupiesTime {
        SetSlotAvailable(bookings[id].slot);
      }
    }

    /** Apply a payment event once: walk the target statuses in order and roll everything
        back if one of them is not allowed. */
    method ApplyPayment(event: EventId, kind: PaymentEventType, payment: Id, id: Id, amount: int, currency: Currency)
      returns (result: Result<(), Error>)
      requires Valid()
      modifies this`slots, this`bookings, this`history, this`outbox, this`processed
      ensures Valid()
      ensures (Model(), result) == HandlePayment(old(Model()), event, kind, payment, id, amount, currency)
    {
      ReachableNext(settings, Model(), PaymentOp(event, kind, payment, id, amount, currency),
                    HandlePayment(Model(), event, kind, payment, id, amount, currency).0);
      if event in processed {
        return Ok(());
      }
      if id !in bookings {
        return Err(BookingNotFound);
      }
      if amount != bookings[id].amount || currency != bookings[id].currency {
        return Err(PaymentAmountMismatch);
      }
      var targets := PaymentTargets(kind);
      if targets.None? {
        return Err(UnsupportedPaymentEvent);
      }
      var savedBookings, savedHistory, savedProcessed := bookings, history, processed;
      bookings := bookings[id := bookings[id].(payment := Some(payment))];
      processed := processed + {event};
      var allowed := Walk(id, targets.value);
      if !allowed {
        bookings, history, processed := savedBookings, savedHistory, savedProcessed;
        return Err(InvalidBookingTransition);
      }
      Finish(id);
      return Ok(());
    }

    method SetInterviewerEligibility(
      event: EventId, interviewer: Id, verified: bool, kind: InterviewerEvent, occurredAt: Option<Instant>)
      requires Valid()
      modifies this`eligibility, this`processed
      ensures Valid()
      ensures Model() == SetEligibility(old(Model()), event, interviewer, verified, kind, occurredAt)
    {
      ReachableNext(settings, Model(), EligibilityOp(event, interviewer, verified, kind, occurredAt),
                    SetEligibility(Model(), event, interviewer, verified, kind, occurredAt));
      if event in processed {
        return;
      }
      var when := if occurredAt.Some? then occurredAt.value else now;
      UpsertEligibility(interviewer, verified, kind, when);
      processed := processed + {event};
    }

    /** INSERT ... ON CONFLICT DO UPDATE WHERE the stored row is older and not deleted. */
    method UpsertEligibility(interviewer: Id, verified: bool, kind: InterviewerEvent, when: Instant)
      modifies this`eligibility
      ensures eligibility == old(eligibility)[interviewer :=
                                      Project(EligibilityOf(old(Model()), interviewer), verified, kind, when)]
    {
      var deleted := kind == Deleted;
      if interviewer !in eligibility
         || (eligibility[interviewer].updatedAt < when && !eligibility[interviewer].deleted)
      {
        eligibility := eligibility[interviewer := Eligibility(verified && !deleted, deleted, when)];
      } else {
        assert eligibility == eligibility[interviewer := eligibility[interviewer]];
      }
    }

    method ExpireOldHolds()
      requires Valid()
      modifies this`slots
      ensures Valid() && Model() == ExpireHolds(old(Model()))
    {
      ReachableNext(settings, Model(), ExpireOp, ExpireHolds(Model()));
      slots := map i | i in slots ::
        if slots[i].status == SlotHeld && slots[i].holdExpiresAt.Some? && slots[i].holdExpiresAt.value <= now then
          slots[i].(status := SlotAvailable, heldBy := None, holdTokenHash := None, holdExpiresAt := None)
        else slots[i];
    }

    // ---- availability runs ----

    function Existing(snapshot: Snapshot): set<Id>
      reads this
    {
      set i | i in slots && InScope(slots[i], snapshot, now)
    }

    /** The snapshot's windows without those that meet a booked or live-held slot. */
    method WantedWindows(snapshot: Snapshot) returns (desired: set<Window>)
      requires ValidSettings(settings) && WeeklyRules.TimesOfDay(snapshot.rules)
      ensures WantedAre(Model(), settings, snapshot, desired)
    {
      var wanted: set<Window> := {};
      if snapshot.interviewer in eligibility && eligibility[snapshot.interviewer].verified && snapshot.skills > 0 {
        wanted := Windows(snapshot, now, settings.duration);
      }
      var occupied := set i | i in Existing(snapshot) && Occupied(slots[i], now);
      desired := set w | w in wanted &&
        !exists i :: i in occupied && slots[i].startsAt < w.last && slots[i].endsAt > w.first;
      forall w ensures Taken(Model(), snapshot, w) <==>
        exists i :: i in occupied && slots[i].startsAt < w.last && slots[i].endsAt > w.first
      {
      }
    }

    function KnownWindows(snapshot: Snapshot): (known: set<Window>)
      reads this
      ensures KnownIs(Model(), snapshot, known)
    {
      set i | i in Existing(snapshot) :: Window(slots[i].startsAt, slots[i].endsAt)
    }

    /** Block the free slots that are no longer wanted and reopen the blocked ones that are. */
    method ReviewExisting(snapshot: Snapshot, desired: set<Window>)
      requires WantedAre(Model(), settings, snapshot, desired)
      modifies this`slots
      ensures Reviewed(old(Model()), settings, snapshot, slots)
      ensures |slots| == |old(slots)|
    {
      ghost var db := Model();
      var todo := Existing(snapshot);
      ghost var existing := todo;
      while todo != {}
        invariant todo <= existing && slots.Keys == db.slots.Keys
        invariant forall i :: i in slots ==>
          slots[i] == if i in todo then db.slots[i] else ReconciledSlot(db, settings, snapshot, db.slots[i])
      {
        var i :| i in todo;
        todo := todo - {i};
        var slot := slots[i];
        if slot.status == SlotBooked
           || (slot.status == SlotHeld && slot.holdExpiresAt.Some? && slot.holdExpiresAt.value > now)
        {
          continue;
        }
        if Window(slot.startsAt, slot.endsAt) !in desired {
          slots := slots[i := slot.(status := SlotBlocked, holdExpiresAt := None,
                                    holdTokenHash := None, heldBy := None)];
        } else if slot.status == SlotBlocked {
          slots := slots[i := slot.(status := SlotAvailable)];
        }
      }
      SameKeysSameSize(slots, db.slots);
    }

    /** INSERT ... ON CONFLICT DO NOTHING of one free slot, whose window is new. */
    method InsertFree(interviewer: Id, w: Window) returns (id: Id)
      requires forall i :: i in slots ==> !SameWindow(slots[i], FreshSlot(interviewer, w))
      modifies this`slots
      ensures id !in old(slots) && slots == old(slots)[id := FreshSlot(interviewer, w)]
      ensures |slots| == |old(slots)| + 1
    {
      id := NewId(slots.Keys);
      var row := Slot(interviewer, w.first, w.last, SlotAvailable, None, None, None);
      assert row == FreshSlot(interviewer, w);
      slots := if exists i :: i in slots && SameWindow(slots[i], row) then slots else slots[id := row];
    }

    /** Insert a free slot for every wanted window in `missing`. */
    method AddMissing(snapshot: Snapshot, missing: set<Window>) returns (count: nat)
      requires NoneOf(slots, snapshot.interviewer, missing)
      modifies this`slots
      ensures count == |missing| && |slots| == |old(slots)| + count
      ensures AddedExactly(old(slots), slots, snapshot.interviewer, missing)
    {
      count := 0;
      var todo := missing;
      while todo != {}
        invariant count + |todo| == |missing| && |slots| == |old(slots)| + count
        invariant Placed(old(slots), slots, snapshot.interviewer, missing, todo)
      {
        var w :| w in todo;
        ghost var before := slots;
        NotAmong(slots, snapshot.interviewer, todo, w);
        var id := InsertFree(snapshot.interviewer, w);
        PlacedOneMore(old(slots), before, slots, snapshot.interviewer, missing, todo, w, id);
        todo := todo - {w};
        count := count + 1;
      }
      assert missing - todo == missing;
    }

    /** The reviewed slots of `db` and the missing ones make the reconciled table. */
    method AddWanted(ghost db: Db, snapshot: Snapshot, desired: set<Window>, known: set<Window>) returns (count: nat)
      requires ValidSettings(settings) && Current(db, snapshot) && Model() == db.(slots := slots)
      requires WantedAre(db, settings, snapshot, desired) && KnownIs(db, snapshot, known)
      requires Reviewed(db, settings, snapshot, slots)
      modifies this`slots
      ensures Reconciled(db, settings, snapshot, Model())
      ensures |slots| == |old(slots)| + count
    {
      count := 0;
      if snapshot.skills > 0 {
        MissingIsNew(db, settings, snapshot, desired, known, slots);
        count := AddMissing(snapshot, desired - known);
      }
      RunIsReconciled(db, settings, snapshot, desired, known, old(slots), Model());
    }

    /** Review the slots that exist and add those that are missing. */
    method Rewrite(snapshot: Snapshot) returns (count: nat)
      requires ValidSettings(settings) && WeeklyRules.TimesOfDay(snapshot.rules) && Current(Model(), snapshot)
      modifies this`slots
      ensures Reconciled(old(Model()), settings, snapshot, Model())
      ensures |slots| == |old(slots)| + count
    {
      ghost var db := Model();
      var desired := WantedWindows(snapshot);
      var known := KnownWindows(snapshot);
      ReviewExisting(snapshot, desired);
      count := AddWanted(db, snapshot, desired, known);
    }

    /** One interviewer's reconciliation transaction. */
    method Reconcile(snapshot: Snapshot) returns (count: nat)
      requires Valid() && WeeklyRules.TimesOfDay(snapshot.rules)
      modifies this`slots
      ensures Valid()
      ensures Reconciled(old(Model()), settings, snapshot, Model())
      ensures |slots| == |old(slots)| + count
    {
      ghost var db := Model();
      if snapshot.interviewer !in eligibility || eligibility[snapshot.interviewer].updatedAt > snapshot.observedAt {
        return 0;
      }
      count := Rewrite(snapshot);
      ReachableNext(settings, db, ReconcileOp(snapshot), Model());
    }

    /** The whole run for one snapshot: project the eligibility, then reconcile the slots. */
    method Synchronize(snapshot: Snapshot, event: EventId) returns (count: nat)
      requires Valid() && WeeklyRules.TimesOfDay(snapshot.rules)
      modifies this`slots, this`eligibility, this`processed
      ensures Valid()
      ensures Reconciled(AfterEligibility(old(Model()), event, snapshot), settings, snapshot, Model())
      ensures |slots| == |old(slots)| + count
    {
      SetInterviewerEligibility(event, snapshot.interviewer, snapshot.verified,
                                if snapshot.deleted then Deleted else SnapshotTaken, Some(snapshot.observedAt));
      count := Reconcile(snapshot);
    }
  }

  ghost predicate WantedAre(db: Db, settings: Settings, snapshot: Snapshot, desired: set<Window>) {
    forall w :: w in desired <==> Desired(db, settings, snapshot, w)
  }

  ghost predicate Reviewed(db: Db, settings: Settings, snapshot: Snapshot, slots: map<Id, Slot>) {
    && slots.Keys == db.slots.Keys
    && forall i :: i in slots ==> slots[i] == ReconciledSlot(db, settings, snapshot, db.slots[i])
  }

  lemma SameKeysSameSize(slots: map<Id, Slot>, others: map<Id, Slot>)
    requires slots.Keys == others.Keys
    ensures |slots| == |others|
  {
    assert |slots| == |slots.Keys| && |others| == |others.Keys|;
  }

  /** No slot of the interviewer has one of the windows. */
  ghost predicate NoneOf(slots: map<Id, Slot>, interviewer: Id, windows: set<Window>) {
    forall i, w :: i in slots && w in windows ==> !SameWindow(slots[i], FreshSlot(interviewer, w))
  }

  ghost predicate IsNew(before: map<Id, Slot>, after: map<Id, Slot>, i: Id) {
    i in after && i !in before
  }

  /** The new slots are free and stand for the windows one to one. */
  ghost predicate AddedExactly(before: map<Id, Slot>, after: map<Id, Slot>, interviewer: Id, windows: set<Window>) {
    && (forall i :: i in before ==> i in after && after[i] == before[i])
    && (forall i :: IsNew(before, after, i) ==>
          WindowOf(after[i]) in windows && after[i] == FreshSlot(interviewer, WindowOf(after[i])))
    && (forall i, j :: (IsNew(before, after, i) && IsNew(before, after, j) &&
                        WindowOf(after[i]) == WindowOf(after[j])) ==>
          i == j)
    && (forall w :: w in windows ==> exists i :: IsNew(before, after, i) && WindowOf(after[i]) == w)
  }

  /** Progress of the loop: the windows in `todo` are still to come, the others have their slots. */
  ghost predicate Placed(first: map<Id, Slot>, slots: map<Id, Slot>, interviewer: Id, missing: set<Window>,
      todo: set<Window>) {
    todo <= missing && NoneOf(slots, interviewer, todo) && AddedExactly(first, slots, interviewer, missing - todo)
  }

  lemma PlacedOneMore(
    first: map<Id, Slot>, before: map<Id, Slot>, after: map<Id, Slot>, interviewer: Id, missing: set<Window>,
    todo: set<Window>, w: Window, id: Id)
    requires Placed(first, before, interviewer, missing, todo) && w in todo
    requires id !in before && after == before[id := FreshSlot(interviewer, w)]
    ensures Placed(first, after, interviewer, missing, todo - {w})
  {
    NoneLeft(before, after, interviewer, todo, w, id);
    AddedOneMore(first, before, after, interviewer, missing - todo, w, id);
    assert missing - (todo - {w}) == (missing - todo) + {w};
  }

  lemma NotAmong(slots: map<Id, Slot>, interviewer: Id, windows: set<Window>, w: Window)
    requires NoneOf(slots, interviewer, windows) && w in windows
    ensures forall i :: i in slots ==> !SameWindow(slots[i], FreshSlot(interviewer, w))
  {
  }

  lemma NoneLeft(before: map<Id, Slot>, after: map<Id, Slot>, interviewer: Id, windows: set<Window>, w: Window, id: Id)
    requires NoneOf(before, interviewer, windows) && after == before[id := FreshSlot(interviewer, w)]
    ensures NoneOf(after, interviewer, windows - {w})
  {
  }

  lemma AddedOneMore(
    first: map<Id, Slot>, before: map<Id, Slot>, after: map<Id, Slot>, interviewer: Id, windows: set<Window>, w: Window,
    id: Id)
    requires AddedExactly(first, before, interviewer, windows) && w !in windows
    requires id !in before && after == before[id := FreshSlot(interviewer, w)]
    ensures AddedExactly(first, after, interviewer, windows + {w})
  {
    forall i, j | IsNew(first, after, i) && IsNew(first, after, j) && WindowOf(after[i]) == WindowOf(after[j])
      ensures i == j
    {
      assert i != id ==> IsNew(first, before, i);
      assert j != id ==> IsNew(first, before, j);
    }
    forall v | v in windows + {w} ensures exists i :: IsNew(first, after, i) && WindowOf(after[i]) == v {
      if v == w {
        assert IsNew(first, after, id);
      } else {
        var i :| IsNew(first, before, i) && WindowOf(before[i]) == v;
        assert IsNew(first, after, i) && WindowOf(after[i]) == v;
      }
    }
  }

  ghost predicate KnownIs(db: Db, snapshot: Snapshot, known: set<Window>) {
    forall w :: w in known <==> Known(db, snapshot, w)
  }

  /** No slot, reviewed or not, carries a window that is wanted and unknown. */
  lemma MissingIsNew(db: Db, settings: Settings, snapshot: Snapshot, desired: set<Window>, known: set<Window>,
      slots: map<Id, Slot>)
    requires ValidSettings(settings) && WantedAre(db, settings, snapshot, desired) && KnownIs(db, snapshot, known)
    requires Reviewed(db, settings, snapshot, slots)
    ensures NoneOf(slots, snapshot.interviewer, desired - known)
  {
    forall i, w | i in slots && w in desired - known
      ensures !SameWindow(slots[i], FreshSlot(snapshot.interviewer, w))
    {
      WindowShape(snapshot, db.now, settings.duration, w);
      SameWindowIsKnown(db, settings, snapshot, i, w);
    }
  }

  lemma SameWindowIsKnown(db: Db, settings: Settings, snapshot: Snapshot, i: Id, w: Window)
    requires i in db.slots && w.first > db.now
    ensures SameWindow(ReconciledSlot(db, settings, snapshot, db.slots[i]), FreshSlot(snapshot.interviewer, w)) ==>
              Known(db, snapshot, w)
  {
    ReconciledShape(db, settings, snapshot, db.slots[i]);
    if SameWindow(db.slots[i], FreshSlot(snapshot.interviewer, w)) {
      assert InScope(db.slots[i], snapshot, db.now) && WindowOf(db.slots[i]) == w;
    }
  }

  /** Without skills nothing is wanted, and with them every wanted and unknown window gets its slot. */
  lemma RunIsReconciled(
    db: Db, settings: Settings, snapshot: Snapshot, desired: set<Window>, known: set<Window>,
    reviewed: map<Id, Slot>, db': Db)
    requires Current(db, snapshot) && db' == db.(slots := db'.slots)
    requires WantedAre(db, settings, snapshot, desired) && KnownIs(db, snapshot, known)
    requires Reviewed(db, settings, snapshot, reviewed)
    requires if snapshot.skills > 0 then AddedExactly(reviewed, db'.slots, snapshot.interviewer, desired - known)
             else db'.slots == reviewed
    ensures Reconciled(db, settings, snapshot, db')
  {
    forall i | IsAdded(db, db'.slots, i)
      ensures db'.slots[i] == FreshSlot(snapshot.interviewer, WindowOf(db'.slots[i]))
      ensures Desired(db, settings, snapshot, WindowOf(db'.slots[i])) && !Known(db, snapshot, WindowOf(db'.slots[i]))
    {
      assert IsNew(reviewed, db'.slots, i);
    }
    forall i, j | IsAdded(db, db'.slots, i) && IsAdded(db, db'.slots, j) &&
                  WindowOf(db'.slots[i]) == WindowOf(db'.slots[j])
      ensures i == j
    {
      assert IsNew(reviewed, db'.slots, i) && IsNew(reviewed, db'.slots, j);
    }
    forall w | Desired(db, settings, snapshot, w) && !Known(db, snapshot, w)
      ensures exists i :: IsAdded(db, db'.slots, i) && WindowOf(db'.slots[i]) == w
    {
      assert w in desired - known;
      var i :| IsNew(reviewed, db'.slots, i) && WindowOf(db'.slots[i]) == w;
      assert IsAdded(db, db'.slots, i);
    }
  }
}
