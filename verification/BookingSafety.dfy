/** The invariant that links slots, bookings, history and outbox, kept by every step,
    and what it gives in every reachable state. */
module BookingSafety {
  import opened Tables
  import opened Contracts
  import opened BookingStates
  import opened Availability
  import opened BookingModel

  // ---- the invariant ----

  ghost predicate SlotsOk(slots: map<Id, Slot>) {
    && (forall i :: i in slots ==> slots[i].startsAt < slots[i].endsAt)
    && (forall i :: i in slots && slots[i].status == SlotHeld ==>
          slots[i].heldBy.Some? && slots[i].holdTokenHash.Some? && slots[i].holdExpiresAt.Some?)
    && (forall i, j :: i in slots && j in slots && i != j ==> !SameWindow(slots[i], slots[j]))
  }

  /** A booking row repeats its slot's interviewer and times and its status's flag. */
  ghost predicate RowOk(slots: map<Id, Slot>, booking: Booking) {
    && booking.slot in slots
    && booking.interviewer == slots[booking.slot].interviewer
    && booking.startsAt == slots[booking.slot].startsAt
    && booking.endsAt == slots[booking.slot].endsAt
    && booking.occupiesTime == OccupiesTime(booking.status)
    && booking.amount == PRICE && booking.currency == INR
  }

  ghost predicate RowsOk(slots: map<Id, Slot>, bookings: map<Id, Booking>) {
    forall b :: b in bookings ==> RowOk(slots, bookings[b])
  }

  /** The unique and exclusion constraints of the bookings table. */
  ghost predicate Constraints(bookings: map<Id, Booking>) {
    forall a, b :: a in bookings && b in bookings && a != b ==> Compatible(bookings[a], bookings[b])
  }

  ghost predicate Holds(bookings: map<Id, Booking>, b: Id, slot: Id) {
    b in bookings && bookings[b].occupiesTime && bookings[b].slot == slot
  }

  ghost predicate Active(bookings: map<Id, Booking>, slot: Id) {
    exists b :: Holds(bookings, b, slot)
  }

  ghost predicate BookedAgrees(slots: map<Id, Slot>, bookings: map<Id, Booking>) {
    forall i :: i in slots ==> (slots[i].status == SlotBooked <==> Active(bookings, i))
  }

  ghost predicate ChainOk(history: Table<Id, HistoryRow>, bookings: map<Id, Booking>, b: Id) {
    var rows := RowsOf(history, b);
    if b in bookings then IsPath(rows) && rows[|rows| - 1].to == bookings[b].status else rows == []
  }

  ghost predicate HistoryOk(history: Table<Id, HistoryRow>, bookings: map<Id, Booking>) {
    forall b :: ChainOk(history, bookings, b)
  }

  /** The events that a chain of statuses announces. */
  function Announcements(rows: seq<HistoryRow>): seq<BookingEvent> {
    if |rows| == 0 then [] else Announcements(rows[..|rows| - 1]) + Announced(rows[|rows| - 1].to)
  }

  ghost predicate OutboxOk(outbox: Table<Id, BookingEvent>, history: Table<Id, HistoryRow>) {
    forall b :: RowsOf(outbox, b) == Announcements(RowsOf(history, b))
  }

  ghost predicate EligibilityOk(eligibility: map<Id, Eligibility>) {
    forall i :: i in eligibility && eligibility[i].deleted ==> !eligibility[i].verified
  }

  ghost predicate HoldsLive(holds: map<Id, HoldEntry>, now: Instant) {
    forall k :: k in holds ==> holds[k].expiresAt > now
  }

  ghost predicate Inv(db: Db) {
    && SlotsOk(db.slots)
    && RowsOk(db.slots, db.bookings)
    && Constraints(db.bookings)
    && BookedAgrees(db.slots, db.bookings)
    && HistoryOk(db.history, db.bookings)
    && OutboxOk(db.outbox, db.history)
    && EligibilityOk(db.eligibility)
    && HoldsLive(db.holds, db.now)
  }

  lemma EmptyOk(now: Instant)
    ensures Inv(EmptyDb(now))
  {
  }

  // ---- moving a booking ----

  lemma AnnouncementsAppend(rows: seq<HistoryRow>, row: HistoryRow)
    ensures Announcements(rows + [row]) == Announcements(rows) + Announced(row.to)
  {
    assert (rows + [row])[..|rows|] == rows;
  }

  /** Only a booking that occupies its time can move, so a flag never comes back on. */
  lemma MoveKeepsConstraints(db: Db, id: Id, target: BookingStatus)
    requires RowsOk(db.slots, db.bookings) && Constraints(db.bookings)
    requires id in db.bookings && CanTransition(db.bookings[id].status, target)
    ensures db.bookings[id].occupiesTime
    ensures RowsOk(db.slots, Move(db, id, target).bookings) && Constraints(Move(db, id, target).bookings)
  {
    TransitionsClimb(db.bookings[id].status, target);
    assert RowOk(db.slots, db.bookings[id]);
    var after := Move(db, id, target).bookings;
    forall a, b | a in after && b in after && a != b ensures Compatible(after[a], after[b]) {
      assert Compatible(db.bookings[a], db.bookings[b]);
    }
    forall b | b in after ensures RowOk(db.slots, after[b]) {
      assert RowOk(db.slots, db.bookings[b]);
    }
  }

  lemma MoveKeepsHistory(db: Db, id: Id, target: BookingStatus)
    requires HistoryOk(db.history, db.bookings)
    requires id in db.bookings && CanTransition(db.bookings[id].status, target)
    ensures HistoryOk(Move(db, id, target).history, Move(db, id, target).bookings)
    ensures forall b :: RowsOf(Move(db, id, target).history, b) ==
                        RowsOf(db.history, b)
                        + (if b == id then [HistoryRow(Some(db.bookings[id].status), target)] else [])
  {
    var row := HistoryRow(Some(db.bookings[id].status), target);
    var after := Move(db, id, target);
    forall b
      ensures RowsOf(after.history, b) == RowsOf(db.history, b) + (if b == id then [row] else [])
      ensures ChainOk(after.history, after.bookings, b)
    {
      RowsOfAppend(db.history, b, (id, row));
      assert ChainOk(db.history, db.bookings, b);
      if b == id {
        PathExtends(RowsOf(db.history, b), target);
      } else {
        assert RowsOf(db.history, b) + [] == RowsOf(db.history, b);
      }
    }
  }

  lemma AppendedEvents(outbox: Table<Id, BookingEvent>, id: Id, event: BookingEvent, b: Id)
    ensures RowsOf(outbox + [(id, event)], b) == RowsOf(outbox, b) + (if b == id then [event] else [])
  {
    RowsOfAppend(outbox, b, (id, event));
  }

  /** Appending one history row together with the events it announces keeps the two tables in step. */
  lemma OutboxFollows(
    outbox: Table<Id, BookingEvent>, history: Table<Id, HistoryRow>,
    outbox': Table<Id, BookingEvent>, id: Id, row: HistoryRow)
    requires OutboxOk(outbox, history)
    requires outbox' == outbox + (if Announced(row.to) == [] then [] else [(id, Announced(row.to)[0])])
    ensures OutboxOk(outbox', history + [(id, row)])
  {
    forall b ensures RowsOf(outbox', b) == Announcements(RowsOf(history + [(id, row)], b)) {
      RowsOfAppend(history, b, (id, row));
      AnnouncementsAppend(RowsOf(history, b), row);
      if Announced(row.to) != [] {
        AppendedEvents(outbox, id, Announced(row.to)[0], b);
        assert Announced(row.to) == [Announced(row.to)[0]];
      } else {
        assert outbox' == outbox;
        assert RowsOf(outbox, b) + [] == RowsOf(outbox, b);
      }
      assert RowsOf(history, b) + [] == RowsOf(history, b);
    }
  }

  /** Releasing the slot of a booking that has just stopped occupying its time frees nobody else's slot. */
  lemma ReleaseAgrees(slots: map<Id, Slot>, bookings: map<Id, Booking>, id: Id, moved: Booking, slots': map<Id, Slot>)
    requires RowsOk(slots, bookings) && Constraints(bookings) && BookedAgrees(slots, bookings)
    requires id in bookings && bookings[id].occupiesTime && moved.slot == bookings[id].slot
    requires slots' == (if moved.occupiesTime then slots
                        else slots[moved.slot := slots[moved.slot].(status := SlotAvailable)])
    ensures BookedAgrees(slots', bookings[id := moved])
  {
    var after := bookings[id := moved];
    forall i | i in slots' ensures slots'[i].status == SlotBooked <==> Active(after, i) {
      if moved.occupiesTime || i != moved.slot {
        if b :| Holds(bookings, b, i) {
          assert Holds(after, b, i);
        }
        if b :| Holds(after, b, i) {
          assert Holds(bookings, b, i);
        }
      } else {
        forall b ensures !Holds(after, b, i) {
          if b in bookings && b != id {
            assert Compatible(bookings[b], bookings[id]);
          }
        }
      }
    }
  }

  lemma ReleaseKeepsRows(slots: map<Id, Slot>, bookings: map<Id, Booking>, i: Id, status: SlotStatus)
    requires SlotsOk(slots) && RowsOk(slots, bookings) && i in slots && status != SlotHeld
    ensures SlotsOk(slots[i := slots[i].(status := status)])
    ensures RowsOk(slots[i := slots[i].(status := status)], bookings)
  {
    var after := slots[i := slots[i].(status := status)];
    forall j, k | j in after && k in after && j != k ensures !SameWindow(after[j], after[k]) {
      assert !SameWindow(slots[j], slots[k]);
    }
    forall b | b in bookings ensures RowOk(after, bookings[b]) {
      assert RowOk(slots, bookings[b]);
    }
  }

  /** What a transition writes, table by table. */
  lemma TransitionEffect(db: Db, id: Id, target: BookingStatus)
    requires id in db.bookings && CanTransition(db.bookings[id].status, target)
    ensures var after, slot := Transition(db, id, target).0, db.bookings[id].slot;
            && after == db.(slots := after.slots, bookings := after.bookings, history := after.history,
                            outbox := after.outbox)
            && after.bookings == Move(db, id, target).bookings
            && after.history == db.history + [(id, HistoryRow(Some(db.bookings[id].status), target))]
            && after.outbox == Announce(db, id, target).outbox
            && after.slots == if OccupiesTime(target) || slot !in db.slots then db.slots
                              else db.slots[slot := db.slots[slot].(status := SlotAvailable)]
  {
  }

  lemma TransitionKeeps(db: Db, id: Id, target: BookingStatus)
    requires Inv(db)
    ensures Inv(Transition(db, id, target).0)
  {
    if id in db.bookings && CanTransition(db.bookings[id].status, target) {
      TransitionEffect(db, id, target);
      MovedKeeps(db, id, target, Transition(db, id, target).0);
    }
  }

  lemma MovedKeeps(db: Db, id: Id, target: BookingStatus, after: Db)
    requires Inv(db) && id in db.bookings && CanTransition(db.bookings[id].status, target)
    requires after == db.(slots := after.slots, bookings := after.bookings, history := after.history,
                          outbox := after.outbox)
    requires after.bookings == Move(db, id, target).bookings
    requires after.history == db.history + [(id, HistoryRow(Some(db.bookings[id].status), target))]
    requires after.outbox == Announce(db, id, target).outbox
    requires var slot := db.bookings[id].slot;
             after.slots == if OccupiesTime(target) || slot !in db.slots then db.slots
                            else db.slots[slot := db.slots[slot].(status := SlotAvailable)]
    ensures Inv(after)
  {
    MovedKeepsHistory(db, id, target, after);
    MovedKeepsRows(db, id, target, after);
  }

  lemma MovedKeepsHistory(db: Db, id: Id, target: BookingStatus, after: Db)
    requires HistoryOk(db.history, db.bookings) && OutboxOk(db.outbox, db.history)
    requires id in db.bookings && CanTransition(db.bookings[id].status, target)
    requires after.bookings == Move(db, id, target).bookings
    requires after.history == db.history + [(id, HistoryRow(Some(db.bookings[id].status), target))]
    requires after.outbox == Announce(db, id, target).outbox
    ensures HistoryOk(after.history, after.bookings) && OutboxOk(after.outbox, after.history)
  {
    MoveKeepsHistory(db, id, target);
    OutboxFollows(db.outbox, db.history, after.outbox, id, HistoryRow(Some(db.bookings[id].status), target));
  }

  lemma MovedKeepsRows(db: Db, id: Id, target: BookingStatus, after: Db)
    requires SlotsOk(db.slots) && RowsOk(db.slots, db.bookings)
    requires Constraints(db.bookings) && BookedAgrees(db.slots, db.bookings)
    requires id in db.bookings && CanTransition(db.bookings[id].status, target)
    requires after.bookings == Move(db, id, target).bookings
    requires var slot := db.bookings[id].slot;
             after.slots == if OccupiesTime(target) || slot !in db.slots then db.slots
                            else db.slots[slot := db.slots[slot].(status := SlotAvailable)]
    ensures SlotsOk(after.slots) && RowsOk(after.slots, after.bookings)
    ensures Constraints(after.bookings) && BookedAgrees(after.slots, after.bookings)
  {
    var moved := after.bookings[id];
    assert RowOk(db.slots, db.bookings[id]);
    MoveKeepsConstraints(db, id, target);
    ReleaseAgrees(db.slots, db.bookings, id, moved, after.slots);
    ReleaseKeepsRows(db.slots, after.bookings, moved.slot, SlotAvailable);
  }

  /** A capture moves a booking through BOOKED to CONFIRMED and announces the confirmation only:
      the same as two ordinary transitions. */
  lemma CaptureIsTwoTransitions(db: Db, id: Id)
    requires id in db.bookings && MoveAlong(db, id, [Booked, Confirmed]).Some?
    ensures Release(ConfirmationOf(MoveAlong(db, id, [Booked, Confirmed]).value, id), id)
         == Transition(Transition(db, id, Booked).0, id, Confirmed).0
  {
    var booked := Move(db, id, Booked);
    FirstMove(db, id, Booked, Confirmed);
    BookingIsSilent(db, id);
    SingleMove(booked, id, Confirmed);
  }

  lemma FirstMove(db: Db, id: Id, first: BookingStatus, second: BookingStatus)
    requires id in db.bookings && MoveAlong(db, id, [first, second]).Some?
    ensures CanTransition(db.bookings[id].status, first) && CanTransition(first, second)
    ensures MoveAlong(db, id, [first, second]) == MoveAlong(Move(db, id, first), id, [second])
  {
    assert [first, second][1..] == [second];
    assert MoveAlong(Move(db, id, first), id, [second]).Some?;
    assert Move(db, id, first).bookings[id].status == first;
  }

  /** Moving to BOOKED keeps the slot and announces nothing. */
  lemma BookingIsSilent(db: Db, id: Id)
    requires id in db.bookings && CanTransition(db.bookings[id].status, Booked)
    ensures Transition(db, id, Booked).0 == Move(db, id, Booked)
  {
    assert OccupiesTime(Booked);
  }

  lemma SingleMove(db: Db, id: Id, target: BookingStatus)
    requires id in db.bookings && CanTransition(db.bookings[id].status, target)
    ensures MoveAlong(db, id, [target]) == Some(Move(db, id, target))
    ensures target != Cancelled && target != Rescheduled ==>
              Release(ConfirmationOf(Move(db, id, target), id), id) == Transition(db, id, target).0
  {
    assert [target][1..] == [];
  }

  /** Every accepted payment event is one or two ordinary transitions of the paid booking. */
  lemma PaymentIsTransitions(db: Db, kind: PaymentEventType, id: Id)
    requires id in db.bookings && PaymentTargets(kind).Some?
    requires MoveAlong(db, id, PaymentTargets(kind).value).Some?
    ensures Release(ConfirmationOf(MoveAlong(db, id, PaymentTargets(kind).value).value, id), id)
         == match kind
            case CapturedEvent => Transition(Transition(db, id, Booked).0, id, Confirmed).0
            case FailedEvent => Transition(db, id, PaymentFailed).0
            case _ => Transition(db, id, Refunded).0
  {
    match kind {
      case CapturedEvent => CaptureIsTwoTransitions(db, id);
      case FailedEvent => SingleMove(db, id, PaymentFailed);
      case RefundedEvent => SingleMove(db, id, Refunded);
    }
  }

  function Paid(db: Db, event: EventId, payment: Id, id: Id): Db
    requires id in db.bookings
  {
    db.(bookings := db.bookings[id := db.bookings[id].(payment := Some(payment))], processed := db.processed + {event})
  }

  lemma PaymentKeeps(db: Db, event: EventId, kind: PaymentEventType, payment: Id, id: Id, amount: int,
      currency: Currency)
    requires Inv(db)
    ensures Inv(HandlePayment(db, event, kind, payment, id, amount, currency).0)
  {
    var after := HandlePayment(db, event, kind, payment, id, amount, currency).0;
    if after != db {
      var paid := Paid(db, event, payment, id);
      PaymentIsTransitions(paid, kind, id);
      PaymentIdKeeps(db, id, payment, paid);
      SettlementKeeps(paid, kind, id);
    }
  }

  lemma SettlementKeeps(db: Db, kind: PaymentEventType, id: Id)
    requires Inv(db)
    ensures Inv(Transition(Transition(db, id, Booked).0, id, Confirmed).0)
    ensures Inv(Transition(db, id, PaymentFailed).0)
    ensures Inv(Transition(db, id, Refunded).0)
  {
    TransitionKeeps(db, id, Booked);
    TransitionKeeps(Transition(db, id, Booked).0, id, Confirmed);
    TransitionKeeps(db, id, PaymentFailed);
    TransitionKeeps(db, id, Refunded);
  }

  lemma PaymentIdKeeps(db: Db, id: Id, payment: Id, paid: Db)
    requires Inv(db) && id in db.bookings
    requires paid == db.(bookings := db.bookings[id := db.bookings[id].(payment := Some(payment))],
                         processed := paid.processed)
    ensures Inv(paid)
  {
    PaymentIdKeepsRows(db, id, payment, paid.bookings);
    PaymentIdAgrees(db.slots, db.bookings, id, payment);
    forall b ensures ChainOk(paid.history, paid.bookings, b) {
      assert ChainOk(db.history, db.bookings, b);
    }
  }

  lemma PaymentIdKeepsRows(db: Db, id: Id, payment: Id, bookings: map<Id, Booking>)
    requires RowsOk(db.slots, db.bookings) && Constraints(db.bookings) && id in db.bookings
    requires bookings == db.bookings[id := db.bookings[id].(payment := Some(payment))]
    ensures RowsOk(db.slots, bookings) && Constraints(bookings)
  {
    forall b | b in bookings ensures RowOk(db.slots, bookings[b]) {
      assert RowOk(db.slots, db.bookings[b]);
    }
    forall a, b | a in bookings && b in bookings && a != b ensures Compatible(bookings[a], bookings[b]) {
      assert Compatible(db.bookings[a], db.bookings[b]);
    }
  }

  lemma PaymentIdAgrees(slots: map<Id, Slot>, bookings: map<Id, Booking>, id: Id, payment: Id)
    requires BookedAgrees(slots, bookings) && id in bookings
    ensures BookedAgrees(slots, bookings[id := bookings[id].(payment := Some(payment))])
  {
    var paid := bookings[id := bookings[id].(payment := Some(payment))];
    forall i | i in slots ensures Active(paid, i) <==> Active(bookings, i) {
      if b :| Holds(bookings, b, i) {
        assert Holds(paid, b, i);
      }
      if b :| Holds(paid, b, i) {
        assert Holds(bookings, b, i);
      }
    }
  }

  // ---- creating a booking ----

  /** With the invariant, a slot that can be claimed carries no occupying booking:
      the unique index on active slots cannot be what refuses the commit. */
  lemma ActiveIndexNeverTrips(db: Db, slot: Id, candidate: Id, token: Token)
    requires Inv(db) && slot in db.slots && Claimable(db.slots[slot], db.eligibility, db.now, candidate, token)
    ensures forall b :: b in db.bookings && db.bookings[b].occupiesTime ==> db.bookings[b].slot != slot
  {
    forall b | b in db.bookings && db.bookings[b].occupiesTime ensures db.bookings[b].slot != slot {
      assert Holds(db.bookings, b, db.bookings[b].slot);
    }
  }

  lemma NewRowKeepsConstraints(bookings: map<Id, Booking>, id: Id, booking: Booking)
    requires Constraints(bookings) && CommitAllowed(bookings, id, booking)
    ensures Constraints(bookings[id := booking])
  {
    var after := bookings[id := booking];
    forall a, b | a in after && b in after && a != b ensures Compatible(after[a], after[b]) {
      if a == id {
        assert Compatible(bookings[b], booking);
      } else if b == id {
        assert Compatible(bookings[a], booking);
      } else {
        assert Compatible(bookings[a], bookings[b]);
      }
    }
  }

  lemma NewRowKeepsHistory(history: Table<Id, HistoryRow>, bookings: map<Id, Booking>, id: Id, booking: Booking)
    requires HistoryOk(history, bookings) && id !in bookings && booking.status == PaymentPending
    ensures HistoryOk(history + [(id, HistoryRow(None, PaymentPending))], bookings[id := booking])
  {
    var history', bookings' := history + [(id, HistoryRow(None, PaymentPending))], bookings[id := booking];
    forall b ensures ChainOk(history', bookings', b) {
      RowsOfAppend(history, b, (id, HistoryRow(None, PaymentPending)));
      assert ChainOk(history, bookings, b);
      assert RowsOf(history, b) + [] == RowsOf(history, b);
    }
  }

  lemma BookedSlotAgrees(slots: map<Id, Slot>, bookings: map<Id, Booking>, id: Id, booking: Booking,
      slots': map<Id, Slot>)
    requires BookedAgrees(slots, bookings) && id !in bookings && booking.occupiesTime && booking.slot in slots
    requires booking.slot in slots' && slots' == slots[booking.slot := slots'[booking.slot]]
    requires slots'[booking.slot].status == SlotBooked
    ensures BookedAgrees(slots', bookings[id := booking])
  {
    var after := bookings[id := booking];
    assert Holds(after, id, booking.slot);
    forall i | i in slots' && i != booking.slot ensures slots'[i].status == SlotBooked <==> Active(after, i) {
      if b :| Holds(bookings, b, i) {
        assert Holds(after, b, i);
      }
      if b :| Holds(after, b, i) {
        assert Holds(bookings, b, i);
      }
    }
  }

  /** A change of one slot that keeps its window, and its links while held, keeps the slot rows. */
  lemma SlotChangeKeepsRows(slots: map<Id, Slot>, bookings: map<Id, Booking>, i: Id, slot: Slot)
    requires SlotsOk(slots) && RowsOk(slots, bookings) && i in slots && SameWindow(slot, slots[i])
    requires slot.status == SlotHeld ==> slot.heldBy.Some? && slot.holdTokenHash.Some? && slot.holdExpiresAt.Some?
    ensures SlotsOk(slots[i := slot]) && RowsOk(slots[i := slot], bookings)
  {
    var after := slots[i := slot];
    forall j, k | j in after && k in after && j != k ensures !SameWindow(after[j], after[k]) {
      assert !SameWindow(slots[j], slots[k]);
    }
    forall b | b in bookings ensures RowOk(after, bookings[b]) {
      assert RowOk(slots, bookings[b]);
    }
  }

  lemma CreateKeeps(db: Db, slot: Id, candidate: Id, token: Token, key: Id, newId: Id)
    requires Inv(db)
    ensures Inv(CreateBooking(db, slot, candidate, token, key, newId).0)
  {
    var after := CreateBooking(db, slot, candidate, token, key, newId).0;
    if after != db {
      var booking := NewBooking(slot, db.slots[slot], candidate, key);
      NewRowKeepsConstraints(db.bookings, newId, booking);
      NewRowKeepsHistory(db.history, db.bookings, newId, booking);
      OutboxFollows(db.outbox, db.history, after.outbox, newId, HistoryRow(None, PaymentPending));
      BookedSlotAgrees(db.slots, db.bookings, newId, booking, after.slots);
      SlotChangeKeepsRows(db.slots, db.bookings, slot, after.slots[slot]);
      assert RowsOk(after.slots, after.bookings) by {
        assert RowOk(after.slots, booking);
        assert forall b :: b in db.bookings ==> RowOk(after.slots, db.bookings[b]);
      }
    }
  }

  // ---- slots that change without a booking ----

  /** Slots may change as they like as long as windows stay, nothing becomes or stops being booked,
      and new slots are unbooked. */
  lemma SlotsChangeAgrees(slots: map<Id, Slot>, bookings: map<Id, Booking>, slots': map<Id, Slot>)
    requires RowsOk(slots, bookings) && BookedAgrees(slots, bookings)
    requires forall i :: i in slots ==> i in slots' && SameWindow(slots[i], slots'[i])
    requires forall i :: i in slots ==> (slots'[i].status == SlotBooked <==> slots[i].status == SlotBooked)
    requires forall i :: i in slots' && i !in slots ==> slots'[i].status != SlotBooked
    ensures RowsOk(slots', bookings) && BookedAgrees(slots', bookings)
  {
    forall b | b in bookings ensures RowOk(slots', bookings[b]) {
      assert RowOk(slots, bookings[b]);
    }
    forall i | i in slots' ensures slots'[i].status == SlotBooked <==> Active(bookings, i) {
      if i !in slots {
        forall b ensures !Holds(bookings, b, i) {
          assert b in bookings ==> RowOk(slots, bookings[b]);
        }
      }
    }
  }

  lemma HoldKeeps(db: Db, settings: Settings, slot: Id, candidate: Id, token: Token)
    requires Inv(db) && ValidSettings(settings)
    ensures Inv(Hold(db, settings, slot, candidate, token).0)
  {
    var after := Hold(db, settings, slot, candidate, token).0;
    if after != db {
      SlotChangeKeepsRows(db.slots, db.bookings, slot, after.slots[slot]);
      SlotsChangeAgrees(db.slots, db.bookings, after.slots);
    }
  }

  lemma ExpireKeepsSlots(slots: map<Id, Slot>, now: Instant)
    requires SlotsOk(slots)
    ensures SlotsOk(map i | i in slots :: ExpireSlot(slots[i], now))
  {
    var after := map i | i in slots :: ExpireSlot(slots[i], now);
    forall i, j | i in after && j in after && i != j ensures !SameWindow(after[i], after[j]) {
      assert !SameWindow(slots[i], slots[j]);
    }
  }

  lemma ExpireKeeps(db: Db)
    requires Inv(db)
    ensures Inv(ExpireHolds(db))
  {
    ExpireKeepsSlots(db.slots, db.now);
    SlotsChangeAgrees(db.slots, db.bookings, ExpireHolds(db).slots);
  }

  lemma InsertKeeps(slots: map<Id, Slot>, bookings: map<Id, Booking>, id: Id, slot: Slot)
    requires SlotsOk(slots) && RowsOk(slots, bookings) && BookedAgrees(slots, bookings)
    requires id !in slots && slot.startsAt < slot.endsAt && slot.status == SlotAvailable
    ensures SlotsOk(InsertSlot(slots, id, slot)) && RowsOk(InsertSlot(slots, id, slot), bookings)
    ensures BookedAgrees(InsertSlot(slots, id, slot), bookings)
  {
    var after := InsertSlot(slots, id, slot);
    if after != slots {
      SlotsChangeAgrees(slots, bookings, after);
    }
  }

  /** Inserting keeps every row, and adds none under an id that was not given. */
  ghost predicate Inserted(slots: map<Id, Slot>, after: map<Id, Slot>, ids: seq<Id>) {
    && (forall i :: i in after ==> i in slots || i in ids)
    && (forall i :: i in slots ==> i in after && after[i] == slots[i])
  }

  lemma {:induction false} InsertsFrame(slots: map<Id, Slot>, interviewer: Id, windows: seq<Window>, ids: seq<Id>)
    requires |ids| == |windows| && FreshIds(slots, ids)
    ensures Inserted(slots, InsertSlots(slots, interviewer, windows, ids), ids)
  {
    if |windows| == 0 {
    } else {
      var n := |windows| - 1;
      InsertsFrame(slots, interviewer, windows[..n], ids[..n]);
      assert ids == ids[..n] + [ids[n]];
    }
  }

  lemma FreshPrefix(slots: map<Id, Slot>, after: map<Id, Slot>, ids: seq<Id>, n: nat)
    requires n < |ids| && FreshIds(slots, ids) && Inserted(slots, after, ids[..n])
    ensures FreshIds(slots, ids[..n]) && ids[n] !in after
  {
  }

  /** The slots and what the bookings table says about them. */
  ghost predicate TablesOk(slots: map<Id, Slot>, bookings: map<Id, Booking>) {
    SlotsOk(slots) && RowsOk(slots, bookings) && BookedAgrees(slots, bookings)
  }

  predicate Forward(windows: seq<Window>) {
    forall k :: 0 <= k < |windows| ==> windows[k].first < windows[k].last
  }

  lemma InsertKeepsTables(slots: map<Id, Slot>, bookings: map<Id, Booking>, id: Id, interviewer: Id, w: Window)
    requires TablesOk(slots, bookings) && id !in slots && w.first < w.last
    ensures TablesOk(InsertSlot(slots, id, FreshSlot(interviewer, w)), bookings)
  {
    InsertKeeps(slots, bookings, id, FreshSlot(interviewer, w));
  }

  lemma {:induction false} InsertsKeep(
    slots: map<Id, Slot>, bookings: map<Id, Booking>, interviewer: Id, windows: seq<Window>, ids: seq<Id>)
    requires TablesOk(slots, bookings)
    requires |ids| == |windows| && FreshIds(slots, ids) && Forward(windows)
    ensures TablesOk(InsertSlots(slots, interviewer, windows, ids), bookings)
  {
    if |windows| == 0 {
    } else {
      var n := |windows| - 1;
      var before := InsertSlots(slots, interviewer, windows[..n], ids[..n]);
      assert FreshIds(slots, ids[..n]) && Forward(windows[..n]);
      InsertsFrame(slots, interviewer, windows[..n], ids[..n]);
      FreshPrefix(slots, before, ids, n);
      InsertsKeep(slots, bookings, interviewer, windows[..n], ids[..n]);
      InsertKeepsTables(before, bookings, ids[n], interviewer, windows[n]);
    }
  }

  lemma GenerateKeeps(db: Db, settings: Settings, interviewer: Id, windows: seq<Window>, ids: seq<Id>)
    requires Inv(db) && ValidSettings(settings) && |ids| == |windows|
    ensures Inv(GenerateSlots(db, settings, interviewer, windows, ids).0)
  {
    if GenerateSlots(db, settings, interviewer, windows, ids).1.Ok? {
      assert Forward(windows) by {
        forall k | 0 <= k < |windows| ensures windows[k].first < windows[k].last {
          assert windows[k] in windows;
        }
      }
      InsertsKeep(db.slots, db.bookings, interviewer, windows, ids);
    }
  }

  lemma EligibilityKeeps(db: Db, event: EventId, interviewer: Id, verified: bool, kind: InterviewerEvent,
      occurredAt: Option<Instant>)
    requires Inv(db)
    ensures Inv(SetEligibility(db, event, interviewer, verified, kind, occurredAt))
  {
  }

  lemma ReconciledShape(db: Db, settings: Settings, snapshot: Snapshot, slot: Slot)
    ensures SameWindow(ReconciledSlot(db, settings, snapshot, slot), slot)
    ensures ReconciledSlot(db, settings, snapshot, slot).status == SlotBooked <==> slot.status == SlotBooked
    ensures ReconciledSlot(db, settings, snapshot, slot).status == SlotHeld ==>
              ReconciledSlot(db, settings, snapshot, slot) == slot
  {
  }

  lemma AddedShape(db: Db, settings: Settings, snapshot: Snapshot, db': Db, i: Id)
    requires ValidSettings(settings) && Current(db, snapshot) && Reconciled(db, settings, snapshot, db')
    requires IsAdded(db, db'.slots, i)
    ensures db.now < db'.slots[i].startsAt < db'.slots[i].endsAt
    ensures db'.slots[i].status == SlotAvailable && db'.slots[i].interviewer == snapshot.interviewer
  {
    WindowShape(snapshot, db.now, settings.duration, WindowOf(db'.slots[i]));
  }

  lemma ReconcileKeepsSlots(db: Db, settings: Settings, snapshot: Snapshot, db': Db)
    requires Inv(db) && ValidSettings(settings) && Current(db, snapshot) && Reconciled(db, settings, snapshot, db')
    ensures SlotsOk(db'.slots)
  {
    forall i | i in db'.slots
      ensures db'.slots[i].startsAt < db'.slots[i].endsAt
      ensures db'.slots[i].status == SlotHeld ==> i in db.slots && db'.slots[i] == db.slots[i]
    {
      if i in db.slots {
        ReconciledShape(db, settings, snapshot, db.slots[i]);
      } else {
        AddedShape(db, settings, snapshot, db', i);
      }
    }
    forall i, j | i in db'.slots && j in db'.slots && i != j ensures !SameWindow(db'.slots[i], db'.slots[j]) {
      AddedApart(db, settings, snapshot, db', i, j);
    }
  }

  lemma ReconcileKeeps(db: Db, settings: Settings, snapshot: Snapshot, db': Db)
    requires Inv(db) && ValidSettings(settings) && Reconciled(db, settings, snapshot, db')
    ensures Inv(db')
  {
    if Current(db, snapshot) {
      ReconcileKeepsSlots(db, settings, snapshot, db');
      forall i | i in db.slots
        ensures i in db'.slots && SameWindow(db.slots[i], db'.slots[i])
        ensures db'.slots[i].status == SlotBooked <==> db.slots[i].status == SlotBooked
      {
        ReconciledShape(db, settings, snapshot, db.slots[i]);
      }
      forall i | i in db'.slots && i !in db.slots ensures db'.slots[i].status != SlotBooked {
        AddedShape(db, settings, snapshot, db', i);
      }
      SlotsChangeAgrees(db.slots, db.bookings, db'.slots);
    }
  }

  lemma AddedApart(db: Db, settings: Settings, snapshot: Snapshot, db': Db, i: Id, j: Id)
    requires Inv(db) && ValidSettings(settings) && Current(db, snapshot) && Reconciled(db, settings, snapshot, db')
    requires i in db'.slots && j in db'.slots && i != j
    ensures !SameWindow(db'.slots[i], db'.slots[j])
  {
    if i in db.slots && j in db.slots {
      ReconciledShape(db, settings, snapshot, db.slots[i]);
      ReconciledShape(db, settings, snapshot, db.slots[j]);
      assert !SameWindow(db.slots[i], db.slots[j]);
    } else if i !in db.slots {
      AddedIsNew(db, settings, snapshot, db', i, j);
    } else {
      AddedIsNew(db, settings, snapshot, db', j, i);
    }
  }

  lemma AddedIsNew(db: Db, settings: Settings, snapshot: Snapshot, db': Db, i: Id, j: Id)
    requires ValidSettings(settings) && Current(db, snapshot) && Reconciled(db, settings, snapshot, db')
    requires IsAdded(db, db'.slots, i) && j in db'.slots && i != j
    ensures !SameWindow(db'.slots[i], db'.slots[j])
  {
    WindowShape(snapshot, db.now, settings.duration, WindowOf(db'.slots[i]));
    if j in db.slots {
      UnknownWindow(db, snapshot, WindowOf(db'.slots[i]), j);
    } else {
      assert IsAdded(db, db'.slots, j);
    }
  }

  lemma UnknownWindow(db: Db, snapshot: Snapshot, w: Window, j: Id)
    requires !Known(db, snapshot, w) && j in db.slots
    ensures !(InScope(db.slots[j], snapshot, db.now) && WindowOf(db.slots[j]) == w)
  {
  }

  // ---- every step and every run ----

  lemma NextKeeps(settings: Settings, db: Db, op: Op, db': Db)
    requires ValidSettings(settings) && Inv(db) && Next(settings, db, op, db')
    ensures Inv(db')
  {
    match op {
      case TickOp(to) =>
      case GenerateOp(interviewer, windows, ids) => GenerateKeeps(db, settings, interviewer, windows, ids);
      case HoldOp(slot, holder, token) => HoldKeeps(db, settings, slot, holder, token);
      case CreateOp(slot, candidate, token, key, newId) => CreateKeeps(db, slot, candidate, token, key, newId);
      case TransitionOp(id, target) => TransitionKeeps(db, id, target);
      case CancelOp(id, candidate) => TransitionKeeps(db, id, Cancelled);
      case PaymentOp(event, kind, payment, id, amount, currency) =>
        PaymentKeeps(db, event, kind, payment, id, amount, currency);
      case EligibilityOp(event, interviewer, verified, kind, occurredAt) =>
        EligibilityKeeps(db, event, interviewer, verified, kind, occurredAt);
      case ExpireOp => ExpireKeeps(db);
      case ReconcileOp(snapshot) => ReconcileKeeps(db, settings, snapshot, db');
    }
  }

  lemma {:induction false} RunKeeps(settings: Settings, states: seq<Db>, ops: seq<Op>, i: nat)
    requires ValidSettings(settings) && IsRun(settings, states, ops) && Inv(states[0]) && i < |states|
    ensures Inv(states[i])
  {
    if i == 0 {
    } else {
      RunKeeps(settings, states, ops, i - 1);
      assert StepAt(settings, states, ops, i - 1);
      NextKeeps(settings, states[i - 1], ops[i - 1], states[i]);
    }
  }

  lemma EmptyIsReachable(settings: Settings, now: Instant)
    ensures Reachable(settings, EmptyDb(now))
  {
    var states, ops: seq<Op> := [EmptyDb(now)], [];
    assert IsRun(settings, states, ops) && states[|states| - 1] == EmptyDb(now);
  }

  lemma {:induction false} RunExtends(settings: Settings, states: seq<Db>, ops: seq<Op>, op: Op, db': Db)
    requires IsRun(settings, states, ops) && Next(settings, states[|states| - 1], op, db')
    ensures IsRun(settings, states + [db'], ops + [op])
  {
    var states', ops' := states + [db'], ops + [op];
    forall i | 0 <= i < |ops'| ensures StepAt(settings, states', ops', i) {
      if i < |ops| {
        assert StepAt(settings, states, ops, i);
      }
    }
  }

  /** A committed step leads from a reachable state to a reachable state. */
  lemma ReachableNext(settings: Settings, db: Db, op: Op, db': Db)
    requires Reachable(settings, db) && Next(settings, db, op, db')
    ensures Reachable(settings, db')
  {
    var states, ops, now :| IsRun(settings, states, ops) && states[0] == EmptyDb(now) && states[|states| - 1] == db;
    RunExtends(settings, states, ops, op, db');
    var states', ops' := states + [db'], ops + [op];
    assert states'[0] == EmptyDb(now) && states'[|states'| - 1] == db';
  }

  lemma ReachableOk(settings: Settings, db: Db)
    requires ValidSettings(settings) && Reachable(settings, db)
    ensures Inv(db)
  {
    var states, ops, now :| IsRun(settings, states, ops) && states[0] == EmptyDb(now) && states[|states| - 1] == db;
    EmptyOk(now);
    RunKeeps(settings, states, ops, |states| - 1);
  }

  // ---- what the invariant says about reachable states ----

  ghost function Holders(bookings: map<Id, Booking>, slot: Id): set<Id> {
    set b | b in bookings && bookings[b].occupiesTime && bookings[b].slot == slot
  }

  /** A slot is booked iff exactly one booking occupies it, no other status has any,
      and the stored flag is the one the status determines. */
  lemma BookedIffOneBooking(settings: Settings, db: Db, slot: Id)
    requires ValidSettings(settings) && Reachable(settings, db) && slot in db.slots
    ensures db.slots[slot].status == SlotBooked <==> |Holders(db.bookings, slot)| == 1
    ensures db.slots[slot].status != SlotBooked <==> Holders(db.bookings, slot) == {}
    ensures forall b :: b in db.bookings ==> db.bookings[b].occupiesTime == OccupiesTime(db.bookings[b].status)
  {
    ReachableOk(settings, db);
    var holders := Holders(db.bookings, slot);
    if b: Id :| Holds(db.bookings, b, slot) {
      forall other | other in holders ensures other == b {
        assert other != b ==> Compatible(db.bookings[other], db.bookings[b]);
      }
      assert holders == {b};
    } else {
      assert forall b :: b in holders ==> Holds(db.bookings, b, slot);
      assert holders == {};
    }
    forall b | b in db.bookings ensures db.bookings[b].occupiesTime == OccupiesTime(db.bookings[b].status) {
      assert RowOk(db.slots, db.bookings[b]);
    }
  }

  /** No two bookings that occupy time share a slot, nor a candidate or an interviewer at one moment. */
  lemma NobodyIsDoubleBooked(settings: Settings, db: Db, a: Id, b: Id)
    requires ValidSettings(settings) && Reachable(settings, db)
    requires a in db.bookings && b in db.bookings && a != b
    requires OccupiesTime(db.bookings[a].status) && OccupiesTime(db.bookings[b].status)
    ensures db.bookings[a].slot != db.bookings[b].slot
    ensures db.bookings[a].candidate == db.bookings[b].candidate
            || db.bookings[a].interviewer == db.bookings[b].interviewer ==>
              !TimesOverlap(db.bookings[a], db.bookings[b])
  {
    ReachableOk(settings, db);
    assert RowOk(db.slots, db.bookings[a]) && RowOk(db.slots, db.bookings[b]);
    assert Compatible(db.bookings[a], db.bookings[b]);
  }

  /** The constraints that can refuse a new booking: its idempotency key, or an overlap in time. */
  predicate Conflicts(other: Booking, mine: Booking) {
    || (other.candidate == mine.candidate && other.idempotencyKey == mine.idempotencyKey)
    || (other.occupiesTime && TimesOverlap(other, mine)
        && (other.candidate == mine.candidate || other.interviewer == mine.interviewer))
  }

  /** When the commit of a claimed slot is refused, some overlap or idempotency conflict is the
      reason: dropping the active-slot index would change no outcome. */
  lemma RefusalIsNeverTheSlotIndex(settings: Settings, db: Db, slot: Id, candidate: Id, token: Token, key: Id,
      newId: Id)
    requires ValidSettings(settings) && Reachable(settings, db)
    requires slot in db.slots && Claimable(db.slots[slot], db.eligibility, db.now, candidate, token)
    ensures CommitAllowed(db.bookings, newId, NewBooking(slot, db.slots[slot], candidate, key)) <==>
            newId !in db.bookings
            && forall b :: b in db.bookings ==>
                    !Conflicts(db.bookings[b], NewBooking(slot, db.slots[slot], candidate, key))
  {
    ReachableOk(settings, db);
    ActiveIndexNeverTrips(db, slot, candidate, token);
  }

  /** Every booking's history is a connected chain from creation to its status, at most nine
      rows long, and the outbox holds exactly the announcements of that chain, in order. */
  lemma AuditChain(settings: Settings, db: Db, b: Id)
    requires ValidSettings(settings) && Reachable(settings, db) && b in db.bookings
    ensures IsPath(RowsOf(db.history, b)) && |RowsOf(db.history, b)| <= 9
    ensures RowsOf(db.history, b)[|RowsOf(db.history, b)| - 1].to == db.bookings[b].status
    ensures RowsOf(db.outbox, b) == Announcements(RowsOf(db.history, b))
  {
    ReachableOk(settings, db);
    assert ChainOk(db.history, db.bookings, b);
    PathIsShortAndSimple(RowsOf(db.history, b));
  }

  function Occurrences(events: seq<BookingEvent>, event: BookingEvent): nat {
    if |events| == 0 then 0
    else Occurrences(events[..|events| - 1], event) + (if events[|events| - 1] == event then 1 else 0)
  }

  lemma {:induction false} OccurrencesSplit(a: seq<BookingEvent>, b: seq<BookingEvent>, event: BookingEvent)
    ensures Occurrences(a + b, event) == Occurrences(a, event) + Occurrences(b, event)
  {
    if |b| == 0 {
      assert a + b == a;
    } else {
      var init := b[..|b| - 1];
      OccurrencesSplit(a, init, event);
      assert (a + b)[..|a + b| - 1] == a + init;
    }
  }

  /** Some row of the history announces the event. */
  ghost predicate Announces(rows: seq<HistoryRow>, event: BookingEvent) {
    exists i :: 0 <= i < |rows| && Announced(rows[i].to) == [event]
  }

  lemma AnnouncesLast(rows: seq<HistoryRow>, event: BookingEvent)
    requires |rows| > 0
    ensures Announces(rows, event) <==>
            Announces(rows[..|rows| - 1], event) || Announced(rows[|rows| - 1].to) == [event]
  {
    var init := rows[..|rows| - 1];
    if i :| 0 <= i < |init| && Announced(init[i].to) == [event] {
      assert rows[i] == init[i];
    }
    if i :| 0 <= i < |rows| && Announced(rows[i].to) == [event] && i < |init| {
      assert rows[i] == init[i];
    }
  }

  /** Different statuses announce different events. */
  lemma NotAnnouncedBefore(rows: seq<HistoryRow>, event: BookingEvent)
    requires |rows| > 0 && Announced(rows[|rows| - 1].to) == [event]
    requires forall i :: 0 <= i < |rows| - 1 ==> rows[i].to != rows[|rows| - 1].to
    ensures !Announces(rows[..|rows| - 1], event)
  {
    forall i | 0 <= i < |rows| - 1 ensures Announced(rows[i].to) != [event] {
    }
  }

  lemma {:induction false} AnnouncedOnce(rows: seq<HistoryRow>, event: BookingEvent)
    requires forall i, j :: 0 <= i < j < |rows| ==> rows[i].to != rows[j].to
    ensures Occurrences(Announcements(rows), event) == if Announces(rows, event) then 1 else 0
  {
    if |rows| == 0 {
    } else {
      var init, last := rows[..|rows| - 1], rows[|rows| - 1];
      AnnouncedOnce(init, event);
      OccurrencesSplit(Announcements(init), Announced(last.to), event);
      OneAnnouncement(last.to, event);
      AnnouncesLast(rows, event);
      if Announced(last.to) == [event] {
        NotAnnouncedBefore(rows, event);
      }
    }
  }

  lemma OneAnnouncement(status: BookingStatus, event: BookingEvent)
    ensures Occurrences(Announced(status), event) == if Announced(status) == [event] then 1 else 0
  {
    if |Announced(status)| == 1 {
      assert Announced(status)[..0] == [];
    }
  }

  /** Each event kind is announced at most once per booking, and exactly if the booking got there. */
  lemma EventsAtMostOnce(settings: Settings, db: Db, b: Id, event: BookingEvent)
    requires ValidSettings(settings) && Reachable(settings, db) && b in db.bookings
    ensures Occurrences(RowsOf(db.outbox, b), event) == if Announces(RowsOf(db.history, b), event) then 1 else 0
  {
    AuditChain(settings, db, b);
    PathIsShortAndSimple(RowsOf(db.history, b));
    AnnouncedOnce(RowsOf(db.history, b), event);
  }
}
