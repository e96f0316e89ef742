/** From a successful hold until it expires, only the holder's own booking can touch the slot. */
module HoldExclusivity {
  import opened Tables
  import opened Contracts
  import opened BookingStates
  import opened Availability
  import opened BookingModel
  import opened BookingSafety

  /** `slot` is held for `holder` under `token` until `expires`. */
  predicate HeldFor(db: Db, slot: Id, holder: Id, token: Token, expires: Instant) {
    && slot in db.slots
    && db.slots[slot].status == SlotHeld
    && db.slots[slot].heldBy == Some(holder)
    && db.slots[slot].holdTokenHash == Some(Sha256(token))
    && db.slots[slot].holdExpiresAt == Some(expires)
  }

  /** The one step that may take a held slot: its holder books it with the hold's token. */
  predicate ClaimsHold(op: Op, slot: Id, holder: Id, token: Token) {
    op.CreateOp? && op.bookedSlot == slot && op.candidate == holder && op.token == token
  }

  lemma HoldSucceeds(db: Db, settings: Settings, slot: Id, candidate: Id, token: Token)
    requires Hold(db, settings, slot, candidate, token).1.Ok?
    ensures var (db', r) := Hold(db, settings, slot, candidate, token);
            HeldFor(db', slot, candidate, token, r.value) && r.value == db.now + settings.holdTtl
  {
  }

  /** A held slot belongs to no booking, so no booking's release can free it. */
  lemma ReleaseMissesHeld(db: Db, id: Id, slot: Id)
    requires Inv(db) && id in db.bookings && slot in db.slots && db.slots[slot].status == SlotHeld
    ensures db.bookings[id].occupiesTime ==> db.bookings[id].slot != slot
  {
    if db.bookings[id].occupiesTime {
      assert Holds(db.bookings, id, db.bookings[id].slot);
    }
  }

  lemma TransitionMissesHeld(db: Db, id: Id, target: BookingStatus, slot: Id)
    requires Inv(db) && slot in db.slots && db.slots[slot].status == SlotHeld
    ensures slot in Transition(db, id, target).0.slots && Transition(db, id, target).0.slots[slot] == db.slots[slot]
  {
    if id in db.bookings && CanTransition(db.bookings[id].status, target) {
      TransitionEffect(db, id, target);
      TransitionsClimb(db.bookings[id].status, target);
      assert RowOk(db.slots, db.bookings[id]);
      ReleaseMissesHeld(db, id, slot);
    }
  }

  lemma PaymentMissesHeld(
    db: Db, event: EventId, kind: PaymentEventType, payment: Id, id: Id, amount: int, currency: Currency, slot: Id)
    requires Inv(db) && slot in db.slots && db.slots[slot].status == SlotHeld
    ensures var after := HandlePayment(db, event, kind, payment, id, amount, currency).0;
            slot in after.slots && after.slots[slot] == db.slots[slot]
  {
    var after := HandlePayment(db, event, kind, payment, id, amount, currency).0;
    if after != db {
      var paid := Paid(db, event, payment, id);
      PaymentIsTransitions(paid, kind, id);
      PaymentIdKeeps(db, id, payment, paid);
      SettlementKeeps(paid, kind, id);
      match kind {
        case CapturedEvent =>
          TransitionMissesHeld(paid, id, Booked, slot);
          TransitionKeeps(paid, id, Booked);
          TransitionMissesHeld(Transition(paid, id, Booked).0, id, Confirmed, slot);
        case FailedEvent => TransitionMissesHeld(paid, id, PaymentFailed, slot);
        case RefundedEvent => TransitionMissesHeld(paid, id, Refunded, slot);
      }
    }
  }

  lemma GenerateMissesSlots(db: Db, settings: Settings, interviewer: Id, windows: seq<Window>, ids: seq<Id>, slot: Id)
    requires Inv(db) && ValidSettings(settings) && |ids| == |windows| && slot in db.slots
    ensures var after := GenerateSlots(db, settings, interviewer, windows, ids).0;
            slot in after.slots && after.slots[slot] == db.slots[slot]
  {
    if GenerateSlots(db, settings, interviewer, windows, ids).1.Ok? {
      InsertsFrame(db.slots, interviewer, windows, ids);
    }
  }

  /** One step of anybody, other than the holder's claim, leaves a live-held slot as it is. */
  lemma StepKeepsHeldSlot(
    settings: Settings, db: Db, op: Op, db': Db, slot: Id, holder: Id, token: Token, expires: Instant)
    requires ValidSettings(settings) && Inv(db) && Next(settings, db, op, db')
    requires HeldFor(db, slot, holder, token, expires) && db.now < expires
    requires !ClaimsHold(op, slot, holder, token)
    ensures slot in db'.slots && db'.slots[slot] == db.slots[slot]
  {
    match op {
      case GenerateOp(interviewer, windows, ids) => GenerateMissesSlots(db, settings, interviewer, windows, ids, slot);
      case TransitionOp(id, target) => TransitionMissesHeld(db, id, target, slot);
      case CancelOp(id, candidate) => TransitionMissesHeld(db, id, Cancelled, slot);
      case PaymentOp(event, kind, payment, id, amount, currency) =>
        PaymentMissesHeld(db, event, kind, payment, id, amount, currency, slot);
      case _ =>
    }
  }

  /** The step makes a booking of the slot. */
  ghost predicate BooksSlot(db: Db, db': Db, slot: Id) {
    exists b :: b in db'.bookings && b !in db.bookings && db'.bookings[b].slot == slot
  }

  /** Step number `j` of the run makes a booking of the slot. */
  ghost predicate BookedAt(states: seq<Db>, j: nat, slot: Id)
    requires j + 1 < |states|
  {
    BooksSlot(states[j], states[j + 1], slot)
  }

  /** An attempt to book either makes a booking of the slot or changes nothing at all. */
  lemma AttemptBooksOrNothing(db: Db, slot: Id, candidate: Id, token: Token, key: Id, newId: Id)
    ensures var db' := CreateBooking(db, slot, candidate, token, key, newId).0;
            db' == db || (newId !in db.bookings && newId in db'.bookings && db'.bookings[newId].slot == slot)
  {
  }

  /** A step that books nothing of a live-held slot leaves the slot as it is, the holder's own refused
      attempts included. */
  lemma UnbookedStepKeepsHeldSlot(
    settings: Settings, db: Db, op: Op, db': Db, slot: Id, holder: Id, token: Token, expires: Instant)
    requires ValidSettings(settings) && Inv(db) && Next(settings, db, op, db')
    requires HeldFor(db, slot, holder, token, expires) && db.now < expires
    requires !BooksSlot(db, db', slot)
    ensures slot in db'.slots && db'.slots[slot] == db.slots[slot]
  {
    if ClaimsHold(op, slot, holder, token) {
      AttemptBooksOrNothing(db, op.bookedSlot, op.candidate, op.token, op.key, op.newId);
    } else {
      StepKeepsHeldSlot(settings, db, op, db', slot, holder, token, expires);
    }
  }

  /** Over any run, up to any state before the expiry and until a booking of the slot is made, the slot
      row keeps every field: no other hold, expiry, availability run, release of an old booking or
      refused attempt changes it. */
  lemma {:induction false} HoldIsExclusive(
    settings: Settings, states: seq<Db>, ops: seq<Op>, slot: Id, holder: Id, token: Token, expires: Instant, i: nat)
    requires ValidSettings(settings) && IsRun(settings, states, ops) && Inv(states[0])
    requires HeldFor(states[0], slot, holder, token, expires)
    requires i < |states| && states[i].now < expires
    requires forall j: nat :: j < i ==> !BookedAt(states, j, slot)
    ensures slot in states[i].slots && states[i].slots[slot] == states[0].slots[slot]
    decreases i
  {
    if i == 0 {
    } else {
      assert StepAt(settings, states, ops, i - 1) && !BookedAt(states, i - 1, slot);
      ClockIsMonotone(settings, states[i - 1], ops[i - 1], states[i]);
      HoldIsExclusive(settings, states, ops, slot, holder, token, expires, i - 1);
      RunKeeps(settings, states, ops, i - 1);
      UnbookedStepKeepsHeldSlot(settings, states[i - 1], ops[i - 1], states[i], slot, holder, token, expires);
    }
  }

  lemma TransitionAddsNoBooking(db: Db, id: Id, target: BookingStatus)
    ensures Transition(db, id, target).0.bookings.Keys == db.bookings.Keys
  {
    if id in db.bookings && CanTransition(db.bookings[id].status, target) {
      TransitionEffect(db, id, target);
    }
  }

  lemma PaymentAddsNoBooking(db: Db, event: EventId, kind: PaymentEventType, payment: Id, id: Id, amount: int,
      currency: Currency)
    ensures HandlePayment(db, event, kind, payment, id, amount, currency).0.bookings.Keys == db.bookings.Keys
  {
    var after := HandlePayment(db, event, kind, payment, id, amount, currency).0;
    if after != db {
      var paid := Paid(db, event, payment, id);
      PaymentIsTransitions(paid, kind, id);
      TransitionAddsNoBooking(paid, id, Booked);
      TransitionAddsNoBooking(Transition(paid, id, Booked).0, id, Confirmed);
      TransitionAddsNoBooking(paid, id, PaymentFailed);
      TransitionAddsNoBooking(paid, id, Refunded);
    }
  }

  lemma OnlyCreateBooks(settings: Settings, db: Db, op: Op, db': Db)
    requires Next(settings, db, op, db') && !op.CreateOp?
    ensures db'.bookings.Keys == db.bookings.Keys
  {
    match op {
      case PaymentOp(event, kind, payment, id, amount, currency) =>
        PaymentAddsNoBooking(db, event, kind, payment, id, amount, currency);
      case TransitionOp(id, target) => TransitionAddsNoBooking(db, id, target);
      case CancelOp(id, candidate) => TransitionAddsNoBooking(db, id, Cancelled);
      case _ =>
    }
  }

  /** Whoever books a live-held slot is its holder. */
  lemma BookerIsTheHolder(
    settings: Settings, db: Db, op: Op, db': Db, slot: Id, holder: Id, token: Token, expires: Instant)
    requires ValidSettings(settings) && Inv(db) && Next(settings, db, op, db')
    requires HeldFor(db, slot, holder, token, expires) && db.now < expires && BooksSlot(db, db', slot)
    ensures ClaimsHold(op, slot, holder, token)
    ensures forall b :: b in db'.bookings && b !in db.bookings ==>
              db'.bookings[b].slot == slot && db'.bookings[b].candidate == holder
  {
    if !op.CreateOp? {
      OnlyCreateBooks(settings, db, op, db');
    }
  }

  /** Over any run, the first booking of a held slot that is made before the hold expires is the
      holder's, whatever attempts were refused before it. */
  lemma {:induction false} FirstBookingIsTheHolders(
    settings: Settings, states: seq<Db>, ops: seq<Op>, slot: Id, holder: Id, token: Token, expires: Instant,
    i: nat, b: Id)
    requires ValidSettings(settings) && IsRun(settings, states, ops) && Inv(states[0])
    requires HeldFor(states[0], slot, holder, token, expires)
    requires i < |ops| && states[i].now < expires
    requires forall j: nat :: j < i ==> !BookedAt(states, j, slot)
    requires b in states[i + 1].bookings && b !in states[i].bookings && states[i + 1].bookings[b].slot == slot
    ensures ClaimsHold(ops[i], slot, holder, token)
    ensures states[i + 1].bookings[b].candidate == holder
  {
    HoldIsExclusive(settings, states, ops, slot, holder, token, expires, i);
    RunKeeps(settings, states, ops, i);
    assert StepAt(settings, states, ops, i);
    BookerIsTheHolder(settings, states[i], ops[i], states[i + 1], slot, holder, token, expires);
  }

  lemma TransitionKeepsClock(db: Db, id: Id, target: BookingStatus)
    ensures Transition(db, id, target).0.now == db.now
  {
  }

  lemma PaymentKeepsClock(db: Db, event: EventId, kind: PaymentEventType, payment: Id, id: Id, amount: int,
      currency: Currency)
    ensures HandlePayment(db, event, kind, payment, id, amount, currency).0.now == db.now
  {
    var after := HandlePayment(db, event, kind, payment, id, amount, currency).0;
    if after != db {
      var paid := Paid(db, event, payment, id);
      PaymentIsTransitions(paid, kind, id);
      TransitionKeepsClock(paid, id, Booked);
      TransitionKeepsClock(Transition(paid, id, Booked).0, id, Confirmed);
      TransitionKeepsClock(paid, id, PaymentFailed);
      TransitionKeepsClock(paid, id, Refunded);
    }
  }

  lemma ClockIsMonotone(settings: Settings, db: Db, op: Op, db': Db)
    requires Next(settings, db, op, db')
    ensures db.now <= db'.now
    ensures !op.TickOp? ==> db'.now == db.now
  {
    match op {
      case PaymentOp(event, kind, payment, id, amount, currency) =>
        PaymentKeepsClock(db, event, kind, payment, id, amount, currency);
      case TransitionOp(id, target) => TransitionKeepsClock(db, id, target);
      case CancelOp(id, candidate) => TransitionKeepsClock(db, id, Cancelled);
      case _ =>
    }
  }

  /** Whoever takes a live-held slot is its holder, and gets a booking of it. */
  lemma OnlyTheHolderBooks(
    settings: Settings, db: Db, op: Op, db': Db, slot: Id, holder: Id, token: Token, expires: Instant)
    requires ValidSettings(settings) && Inv(db) && Next(settings, db, op, db')
    requires HeldFor(db, slot, holder, token, expires) && db.now < expires
    requires slot in db'.slots && db'.slots[slot] != db.slots[slot]
    ensures ClaimsHold(op, slot, holder, token)
    ensures db'.slots[slot].status == SlotBooked
    ensures op.newId !in db.bookings && op.newId in db'.bookings
    ensures db'.bookings[op.newId].slot == slot && db'.bookings[op.newId].candidate == holder
  {
    if !ClaimsHold(op, slot, holder, token) {
      StepKeepsHeldSlot(settings, db, op, db', slot, holder, token, expires);
    }
  }
}
