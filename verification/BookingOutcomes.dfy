/** When each booking operation succeeds and what it then leaves behind, stated on the tables themselves. */
module BookingOutcomes {
  import opened Tables
  import opened Contracts
  import opened BookingStates
  import opened Availability
  import opened BookingModel
  import opened BookingSafety
  import opened HoldExclusivity
  import AvailabilitySync

  // ---- holding a slot ----

  /** A slot can be held iff Redis has no entry for it and it is listed: in the future, with a verified
      interviewer, and free or under a hold that has run out. A refusal changes nothing. */
  lemma HoldOutcome(db: Db, settings: Settings, slot: Id, candidate: Id, token: Token)
    requires Inv(db)
    ensures Hold(db, settings, slot, candidate, token).1.Ok? <==>
            && slot !in db.holds && slot in db.slots && db.slots[slot].startsAt > db.now
            && db.slots[slot].interviewer in db.eligibility && db.eligibility[db.slots[slot].interviewer].verified
            && AvailabilitySync.OnOffer(db.slots[slot], db.now)
    ensures Hold(db, settings, slot, candidate, token).1.Err? ==>
              Hold(db, settings, slot, candidate, token) == (db, Err(SlotUnavailable))
  {
  }

  /** Redis keeps the hold's entry, with its token, until it expires. */
  predicate EntryFor(db: Db, slot: Id, token: Token, expires: Instant) {
    slot in db.holds && db.holds[slot] == HoldEntry(token, expires)
  }

  lemma HoldLeavesEntry(db: Db, settings: Settings, slot: Id, candidate: Id, token: Token)
    requires Hold(db, settings, slot, candidate, token).1.Ok?
    ensures EntryFor(Hold(db, settings, slot, candidate, token).0, slot, token, db.now + settings.holdTtl)
  {
  }

  lemma StepKeepsEntry(settings: Settings, db: Db, op: Op, db': Db, slot: Id, token: Token, expires: Instant)
    requires Next(settings, db, op, db') && EntryFor(db, slot, token, expires) && db'.now < expires
    requires !BooksSlot(db, db', slot)
    ensures EntryFor(db', slot, token, expires)
  {
    match op {
      case CreateOp(other, candidate, given, key, newId) =>
        AttemptBooksOrNothing(db, other, candidate, given, key, newId);
      case TransitionOp(id, target) => TransitionKeepsHolds(db, id, target);
      case CancelOp(id, candidate) => TransitionKeepsHolds(db, id, Cancelled);
      case PaymentOp(event, kind, payment, id, amount, currency) =>
        PaymentKeepsHolds(db, event, kind, payment, id, amount, currency);
      case _ =>
    }
  }

  lemma TransitionKeepsHolds(db: Db, id: Id, target: BookingStatus)
    ensures Transition(db, id, target).0.holds == db.holds
  {
  }

  lemma PaymentKeepsHolds(db: Db, event: EventId, kind: PaymentEventType, payment: Id, id: Id, amount: int,
      currency: Currency)
    ensures HandlePayment(db, event, kind, payment, id, amount, currency).0.holds == db.holds
  {
    if HandlePayment(db, event, kind, payment, id, amount, currency).0 != db {
      var paid := Paid(db, event, payment, id);
      PaymentIsTransitions(paid, kind, id);
      TransitionKeepsHolds(paid, id, Booked);
      TransitionKeepsHolds(Transition(paid, id, Booked).0, id, Confirmed);
      TransitionKeepsHolds(paid, id, PaymentFailed);
      TransitionKeepsHolds(paid, id, Refunded);
    }
  }

  /** Over any run, up to the expiry and until the slot is booked, the hold's entry stays. */
  lemma {:induction false} EntryStays(
    settings: Settings, states: seq<Db>, ops: seq<Op>, slot: Id, token: Token, expires: Instant, i: nat)
    requires IsRun(settings, states, ops) && EntryFor(states[0], slot, token, expires)
    requires i < |states| && states[i].now < expires
    requires forall j: nat :: j < i ==> !BookedAt(states, j, slot)
    ensures EntryFor(states[i], slot, token, expires)
  {
    if i == 0 {
    } else {
      assert StepAt(settings, states, ops, i - 1) && !BookedAt(states, i - 1, slot);
      ClockIsMonotone(settings, states[i - 1], ops[i - 1], states[i]);
      EntryStays(settings, states, ops, slot, token, expires, i - 1);
      StepKeepsEntry(settings, states[i - 1], ops[i - 1], states[i], slot, token, expires);
    }
  }

  // ---- booking ----

  /** The hold, in Redis and on the slot row, is the candidate's and still runs. */
  ghost predicate HasClaim(db: Db, slot: Id, candidate: Id, token: Token) {
    && slot in db.holds && db.holds[slot].token == token && slot in db.slots
    && var row := db.slots[slot];
       && row.startsAt > db.now && row.interviewer in db.eligibility && db.eligibility[row.interviewer].verified
       && row.status == SlotHeld && row.heldBy == Some(candidate) && row.holdTokenHash == Some(Sha256(token))
       && row.holdExpiresAt.Some? && row.holdExpiresAt.value > db.now
  }

  /** No booking that occupies its time involves the candidate or the interviewer at the slot's time. */
  ghost predicate TimeIsFree(db: Db, slot: Slot, candidate: Id) {
    forall b :: b in db.bookings && db.bookings[b].occupiesTime
                && (db.bookings[b].candidate == candidate || db.bookings[b].interviewer == slot.interviewer) ==>
      db.bookings[b].endsAt <= slot.startsAt || slot.endsAt <= db.bookings[b].startsAt
  }

  /** With a key not used before, a booking is made iff the candidate has the claim and everybody is free. */
  lemma CreateOutcome(db: Db, slot: Id, candidate: Id, token: Token, key: Id, newId: Id)
    requires Inv(db) && forall b :: !IsBookingFor(db.bookings, candidate, key, b)
    ensures CreateBooking(db, slot, candidate, token, key, newId).1 ==
            if !HasClaim(db, slot, candidate, token) then Err(InvalidOrExpiredHold)
            else if newId in db.bookings || !TimeIsFree(db, db.slots[slot], candidate) then Err(BookingOverlap)
            else Ok(newId)
    ensures CreateBooking(db, slot, candidate, token, key, newId).1.Err? ==>
              CreateBooking(db, slot, candidate, token, key, newId).0 == db
  {
    if HasClaim(db, slot, candidate, token) {
      ActiveIndexNeverTrips(db, slot, candidate, token);
      FreeIsAllowed(db, slot, candidate, key, newId);
    }
  }

  lemma FreeIsAllowed(db: Db, slot: Id, candidate: Id, key: Id, newId: Id)
    requires slot in db.slots && forall b :: !IsBookingFor(db.bookings, candidate, key, b)
    requires forall b :: b in db.bookings && db.bookings[b].occupiesTime ==> db.bookings[b].slot != slot
    ensures CommitAllowed(db.bookings, newId, NewBooking(slot, db.slots[slot], candidate, key)) <==>
            newId !in db.bookings && TimeIsFree(db, db.slots[slot], candidate)
  {
    var mine := NewBooking(slot, db.slots[slot], candidate, key);
    forall b | b in db.bookings
      ensures Compatible(db.bookings[b], mine) <==>
              !(&& db.bookings[b].occupiesTime
                && (db.bookings[b].candidate == candidate || db.bookings[b].interviewer == mine.interviewer)
                && db.bookings[b].startsAt < mine.endsAt && mine.startsAt < db.bookings[b].endsAt)
    {
      assert !IsBookingFor(db.bookings, candidate, key, b);
    }
  }

  /** The booking copies its slot's interviewer and times and waits for the session price; the slot is
      booked, the hold is gone, and nothing else changes. */
  lemma CreateLeaves(db: Db, slot: Id, candidate: Id, token: Token, key: Id, newId: Id)
    requires CreateBooking(db, slot, candidate, token, key, newId).0 != db
    ensures slot in db.slots
    ensures var row := db.slots[slot];
            CreateBooking(db, slot, candidate, token, key, newId).0 ==
            Db(db.now,
               db.slots[slot := Slot(row.interviewer, row.startsAt, row.endsAt, SlotBooked, row.heldBy, None, None)],
               db.bookings[newId := Booking(slot, candidate, row.interviewer, row.startsAt, row.endsAt,
                                            PaymentPending, true, 20000, INR, key, None)],
               db.history + [(newId, HistoryRow(None, PaymentPending))],
               db.eligibility, db.processed,
               db.outbox + [(newId, BookingCreated)],
               db.holds - {slot})
  {
    assert CreateBooking(db, slot, candidate, token, key, newId).0.holds == db.holds - {slot};
  }

  /** Asking again with a used key returns the candidate's one booking with that key. */
  lemma RepeatedKeyReturns(db: Db, slot: Id, candidate: Id, token: Token, key: Id, newId: Id, b: Id)
    requires Inv(db) && b in db.bookings
    requires db.bookings[b].candidate == candidate && db.bookings[b].idempotencyKey == key
    ensures CreateBooking(db, slot, candidate, token, key, newId) == (db, Ok(b))
  {
    assert IsBookingFor(db.bookings, candidate, key, b);
    var found := ExistingBooking(db.bookings, candidate, key).value;
    assert !Compatible(db.bookings[found], db.bookings[b]);
  }

  /** Over any run, as long as a hold has neither run out nor been used, its holder can book: only a
      suspended interviewer, a slot that has begun or an engagement at that time is in the way. */
  lemma {:induction false} HolderCanBook(
    settings: Settings, states: seq<Db>, ops: seq<Op>, slot: Id, holder: Id, token: Token, expires: Instant,
    i: nat, key: Id, newId: Id)
    requires ValidSettings(settings) && IsRun(settings, states, ops) && Inv(states[0])
    requires HeldFor(states[0], slot, holder, token, expires) && EntryFor(states[0], slot, token, expires)
    requires i < |states| && states[i].now < expires
    requires forall j: nat :: j < i ==> !BookedAt(states, j, slot)
    requires newId !in states[i].bookings && forall b :: !IsBookingFor(states[i].bookings, holder, key, b)
    ensures slot in states[0].slots
    ensures var row, db := states[0].slots[slot], states[i];
            CreateBooking(db, slot, holder, token, key, newId).1.Ok? <==>
            && row.startsAt > db.now && row.interviewer in db.eligibility && db.eligibility[row.interviewer].verified
            && TimeIsFree(db, row, holder)
  {
    HoldIsExclusive(settings, states, ops, slot, holder, token, expires, i);
    EntryStays(settings, states, ops, slot, token, expires, i);
    RunKeeps(settings, states, ops, i);
    CreateOutcome(states[i], slot, holder, token, key, newId);
  }

  // ---- moving a booking ----

  /** Where a booking may come from, target by target. */
  function Sources(target: BookingStatus): set<BookingStatus> {
    match target
    case PaymentPending => {}
    case Booked => {PaymentPending}
    case Confirmed => {Booked}
    case Ready => {Confirmed}
    case InProgress => {Ready}
    case Completed => {InProgress}
    case FeedbackPending => {Completed}
    case FeedbackSubmitted => {FeedbackPending}
    case Settled => {FeedbackSubmitted}
    case Cancelled => {PaymentPending, Booked, Confirmed}
    case PaymentFailed => {PaymentPending}
    case CandidateNoShow => {Ready}
    case InterviewerNoShow => {Ready}
    case TechnicalFailure => {Ready, InProgress}
    case Refunded => {Booked, Confirmed}
    case Rescheduled => {Confirmed}
  }

  lemma SourcesMatch(current: BookingStatus, target: BookingStatus)
    ensures CanTransition(current, target) <==> current in Sources(target)
  {
  }

  /** The statuses after which a booking no longer needs its time. */
  predicate Ends(status: BookingStatus) {
    || status == Cancelled || status == PaymentFailed || status == Refunded || status == Rescheduled
    || status == Settled || status == CandidateNoShow || status == InterviewerNoShow || status == TechnicalFailure
  }

  /** What a status announces when the booking reaches it. */
  function EventsOn(id: Id, target: BookingStatus): Table<Id, BookingEvent> {
    if target == Confirmed then [(id, BookingConfirmed)]
    else if target == Cancelled then [(id, BookingCancelled)]
    else if target == Rescheduled then [(id, BookingRescheduled)]
    else []
  }

  /** The booking has the status, its history the move, the outbox the status's event, and its slot is free
      iff the status ends it. */
  ghost predicate HasMoved(db: Db, db': Db, id: Id, target: BookingStatus) {
    && id in db.bookings && db.bookings[id].slot in db.slots
    && var was, ends := db.bookings[id], Ends(target);
       && db' == db.(slots := db'.slots, bookings := db'.bookings, history := db'.history, outbox := db'.outbox)
       && db'.bookings == db.bookings[id := was.(status := target, occupiesTime := !ends)]
       && db'.history == db.history + [(id, HistoryRow(Some(was.status), target))]
       && db'.slots == (if ends then db.slots[was.slot := db.slots[was.slot].(status := SlotAvailable)] else db.slots)
       && db'.outbox == db.outbox + EventsOn(id, target)
  }

  lemma TransitionMoves(db: Db, id: Id, target: BookingStatus)
    requires id in db.bookings && db.bookings[id].slot in db.slots && CanTransition(db.bookings[id].status, target)
    ensures HasMoved(db, Transition(db, id, target).0, id, target)
  {
    TransitionEffect(db, id, target);
    AnnouncesOn(db, id, target);
  }

  lemma AnnouncesOn(db: Db, id: Id, target: BookingStatus)
    ensures Announce(db, id, target).outbox == db.outbox + EventsOn(id, target)
  {
    assert db.outbox + [] == db.outbox;
  }

  /** A transition succeeds iff the booking is where the target may come from, and a refusal changes nothing. */
  lemma TransitionOutcome(db: Db, id: Id, target: BookingStatus)
    requires Inv(db)
    ensures var (db', r) := Transition(db, id, target);
            && (r.Ok? <==> id in db.bookings && db.bookings[id].status in Sources(target))
            && (r.Ok? ==> HasMoved(db, db', id, target))
            && (r.Err? ==> db' == db
                           && r.error == if id in db.bookings then InvalidBookingTransition else BookingNotFound)
  {
    if id in db.bookings {
      SourcesMatch(db.bookings[id].status, target);
      assert RowOk(db.slots, db.bookings[id]);
      if CanTransition(db.bookings[id].status, target) {
        TransitionMoves(db, id, target);
      }
    }
  }

  /** Only the booking's own candidate cancels it, and only before the session is ready; to anybody else
      the booking does not exist. */
  lemma CancelOutcome(db: Db, id: Id, candidate: Id)
    requires Inv(db)
    ensures var (db', r) := CancelByCandidate(db, id, candidate);
            && (r.Ok? <==> && id in db.bookings && db.bookings[id].candidate == candidate
                           && db.bookings[id].status in {PaymentPending, Booked, Confirmed})
            && (r.Ok? ==> HasMoved(db, db', id, Cancelled))
            && (r.Err? ==> db' == db
                           && r.error == if id in db.bookings && db.bookings[id].candidate == candidate
                                         then InvalidBookingTransition else BookingNotFound)
  {
    TransitionOutcome(db, id, Cancelled);
  }

  // ---- payment events ----

  /** An event of a kind not listed is refused, one already processed is skipped, and one for another
      amount or currency is refused. */
  lemma PaymentIsGuarded(db: Db, event: EventId, kind: PaymentEventType, payment: Id, id: Id, amount: int,
      currency: Currency)
    ensures var result := HandlePayment(db, event, kind, payment, id, amount, currency);
            && (event in db.processed ==> result == (db, Ok(())))
            && (event !in db.processed && id !in db.bookings ==> result == (db, Err(BookingNotFound)))
            && (event !in db.processed && id in db.bookings
                && (amount != db.bookings[id].amount || currency != db.bookings[id].currency) ==>
                  result == (db, Err(PaymentAmountMismatch)))
  {
  }

  /** When an event for the right amount succeeds. */
  predicate Succeeds(kind: PaymentEventType, status: BookingStatus) {
    || (kind == CapturedEvent && status == PaymentPending)
    || (kind == FailedEvent && status == PaymentPending)
    || (kind == RefundedEvent && status in {Booked, Confirmed})
  }

  /** A capture or a failure succeeds iff the booking waits for payment, a refund iff it is booked or
      confirmed; only an unlisted kind is unsupported; a refusal changes nothing. */
  lemma PaymentOutcome(db: Db, event: EventId, kind: PaymentEventType, payment: Id, id: Id, amount: int,
      currency: Currency)
    requires Inv(db) && event !in db.processed && id in db.bookings
    requires amount == db.bookings[id].amount && currency == db.bookings[id].currency
    ensures var (db', r) := HandlePayment(db, event, kind, payment, id, amount, currency);
            && (r.Ok? <==> Succeeds(kind, db.bookings[id].status))
            && (r == Err(UnsupportedPaymentEvent) <==> kind == UnknownEvent)
            && (r.Err? && kind != UnknownEvent ==> r == Err(InvalidBookingTransition))
            && (r.Err? ==> db' == db)
  {
    WalkSucceeds(Paid(db, event, payment, id), kind, id);
  }

  lemma WalkSucceeds(db: Db, kind: PaymentEventType, id: Id)
    requires id in db.bookings
    ensures PaymentTargets(kind).None? <==> kind == UnknownEvent
    ensures PaymentTargets(kind).Some? ==>
              (MoveAlong(db, id, PaymentTargets(kind).value).Some? <==> Succeeds(kind, db.bookings[id].status))
  {
    match kind {
      case CapturedEvent => CaptureWalks(db, id);
      case FailedEvent => OneMoveWalks(db, id, PaymentFailed);
      case RefundedEvent => OneMoveWalks(db, id, Refunded);
      case UnknownEvent =>
    }
  }

  lemma OneMoveWalks(db: Db, id: Id, target: BookingStatus)
    requires id in db.bookings
    ensures MoveAlong(db, id, [target]).Some? <==> CanTransition(db.bookings[id].status, target)
  {
    assert [target][1..] == [];
  }

  lemma CaptureWalks(db: Db, id: Id)
    requires id in db.bookings
    ensures MoveAlong(db, id, [Booked, Confirmed]).Some? <==> CanTransition(db.bookings[id].status, Booked)
  {
    assert [Booked, Confirmed][1..] == [Confirmed];
    if CanTransition(db.bookings[id].status, Booked) {
      OneMoveWalks(Move(db, id, Booked), id, Confirmed);
    }
  }

  /** What an accepted payment event leaves: the payment and the event id are stored, the booking has
      `status`, and its slot is free iff that ends it. */
  ghost predicate HasSettled(db: Db, db': Db, event: EventId, payment: Id, id: Id, status: BookingStatus,
      events: Table<Id, BookingEvent>) {
    && id in db.bookings && db.bookings[id].slot in db.slots
    && var was := db.bookings[id];
       && db'.bookings ==
          db.bookings[id := was.(status := status, occupiesTime := !Ends(status), payment := Some(payment))]
       && db'.slots == (if Ends(status) then db.slots[was.slot := db.slots[was.slot].(status := SlotAvailable)]
                        else db.slots)
       && db'.processed == db.processed + {event} && db'.outbox == db.outbox + events
       && db'.eligibility == db.eligibility && db'.holds == db.holds
  }

  /** A capture confirms the booking, announces it once and keeps the slot; a failure or a refund ends the
      booking and frees the slot. */
  lemma PaymentLeaves(db: Db, event: EventId, kind: PaymentEventType, payment: Id, id: Id, amount: int,
      currency: Currency)
    requires Inv(db) && event !in db.processed
    requires HandlePayment(db, event, kind, payment, id, amount, currency).1.Ok?
    ensures var db' := HandlePayment(db, event, kind, payment, id, amount, currency).0;
            match kind
            case CapturedEvent => HasSettled(db, db', event, payment, id, Confirmed, [(id, BookingConfirmed)])
            case FailedEvent => HasSettled(db, db', event, payment, id, PaymentFailed, [])
            case RefundedEvent => HasSettled(db, db', event, payment, id, Refunded, [])
            case UnknownEvent => false
  {
    var paid := Paid(db, event, payment, id);
    assert RowOk(db.slots, db.bookings[id]);
    PaymentOutcome(db, event, kind, payment, id, amount, currency);
    PaymentIsTransitions(paid, kind, id);
    match kind {
      case CapturedEvent => CaptureLeaves(db, event, payment, id);
      case FailedEvent => EndLeaves(db, event, payment, id, PaymentFailed);
      case RefundedEvent => EndLeaves(db, event, payment, id, Refunded);
    }
  }

  lemma CaptureLeaves(db: Db, event: EventId, payment: Id, id: Id)
    requires id in db.bookings && db.bookings[id].slot in db.slots && db.bookings[id].status == PaymentPending
    ensures var paid := Paid(db, event, payment, id);
            HasSettled(db, Transition(Transition(paid, id, Booked).0, id, Confirmed).0, event, payment, id, Confirmed,
                       [(id, BookingConfirmed)])
  {
    var paid := Paid(db, event, payment, id);
    TransitionEffect(paid, id, Booked);
    TransitionEffect(Transition(paid, id, Booked).0, id, Confirmed);
  }

  lemma EndLeaves(db: Db, event: EventId, payment: Id, id: Id, target: BookingStatus)
    requires id in db.bookings && db.bookings[id].slot in db.slots && target in {PaymentFailed, Refunded}
    requires CanTransition(db.bookings[id].status, target)
    ensures var paid := Paid(db, event, payment, id);
            HasSettled(db, Transition(paid, id, target).0, event, payment, id, target, [])
  {
    TransitionEffect(Paid(db, event, payment, id), id, target);
  }

  // ---- slots ----

  /** The expiry job frees exactly the holds that have run out, and leaves no such hold behind. */
  lemma ExpireOutcome(db: Db, i: Id)
    requires Inv(db) && i in db.slots
    ensures var row, row' := db.slots[i], ExpireHolds(db).slots[i];
            && (row' != row <==> row.status == SlotHeld && row.holdExpiresAt.value <= db.now)
            && (row' != row ==>
                  row' == Slot(row.interviewer, row.startsAt, row.endsAt, SlotAvailable, None, None, None))
            && (row'.status == SlotHeld ==> row'.holdExpiresAt.value > db.now)
    ensures ExpireHolds(db) == db.(slots := ExpireHolds(db).slots) && ExpireHolds(db).slots.Keys == db.slots.Keys
  {
  }

  ghost predicate HasWindow(slots: map<Id, Slot>, interviewer: Id, w: Window, i: Id) {
    i in slots && slots[i].interviewer == interviewer && slots[i].startsAt == w.first && slots[i].endsAt == w.last
  }

  /** All slots that exist stay, every window has one, and a new one is free. */
  ghost predicate Generated(before: map<Id, Slot>, after: map<Id, Slot>, interviewer: Id, windows: seq<Window>) {
    && (forall i :: i in before ==> i in after && after[i] == before[i])
    && (forall w :: w in windows ==> exists i :: HasWindow(after, interviewer, w, i))
    && (forall i :: i in after && i !in before ==>
          after[i] == Slot(interviewer, after[i].startsAt, after[i].endsAt, SlotAvailable, None, None, None)
          && Window(after[i].startsAt, after[i].endsAt) in windows)
  }

  lemma {:induction false} InsertsGenerate(slots: map<Id, Slot>, interviewer: Id, windows: seq<Window>, ids: seq<Id>)
    requires |ids| == |windows| && FreshIds(slots, ids)
    ensures forall i :: i in InsertSlots(slots, interviewer, windows, ids) ==> i in slots || i in ids
    ensures Generated(slots, InsertSlots(slots, interviewer, windows, ids), interviewer, windows)
  {
    if |windows| == 0 {
    } else {
      var n := |windows| - 1;
      InsertsGenerate(slots, interviewer, windows[..n], ids[..n]);
      InsertGenerates(slots, InsertSlots(slots, interviewer, windows[..n], ids[..n]), interviewer, windows, ids[n]);
    }
  }

  lemma InsertGenerates(before: map<Id, Slot>, slots: map<Id, Slot>, interviewer: Id, windows: seq<Window>, id: Id)
    requires |windows| > 0 && id !in slots && Generated(before, slots, interviewer, windows[..|windows| - 1])
    ensures var w := windows[|windows| - 1];
            Generated(before, InsertSlot(slots, id, FreshSlot(interviewer, w)), interviewer, windows)
  {
    var last := windows[|windows| - 1];
    var after := InsertSlot(slots, id, FreshSlot(interviewer, last));
    forall w | w in windows ensures exists i :: HasWindow(after, interviewer, w, i) {
      if w == last {
        if i :| i in slots && SameWindow(slots[i], FreshSlot(interviewer, last)) {
          assert HasWindow(after, interviewer, w, i);
        } else {
          assert HasWindow(after, interviewer, w, id);
        }
      } else {
        assert w in windows[..|windows| - 1];
        var i :| HasWindow(slots, interviewer, w, i);
        assert HasWindow(after, interviewer, w, i);
      }
    }
  }

  /** Slots are generated for a verified interviewer and windows of the session's length, all or none. */
  lemma GenerateOutcome(db: Db, settings: Settings, interviewer: Id, windows: seq<Window>, ids: seq<Id>)
    requires |ids| == |windows| && forall k :: 0 <= k < |ids| ==> ids[k] !in db.slots
    requires forall j, k :: 0 <= j < k < |ids| ==> ids[j] != ids[k]
    ensures var (db', r) := GenerateSlots(db, settings, interviewer, windows, ids);
            && (r.Ok? <==> && interviewer in db.eligibility && db.eligibility[interviewer].verified
                           && forall w :: w in windows ==> w.last == w.first + settings.duration)
            && (r.Ok? ==> db' == db.(slots := db'.slots) && Generated(db.slots, db'.slots, interviewer, windows))
            && (r.Err? ==>
                  db' == db && r.error ==
                  if interviewer in db.eligibility && db.eligibility[interviewer].verified then InvalidSlotDuration
                  else InterviewerNotVerified)
  {
    InsertsGenerate(db.slots, interviewer, windows, ids);
  }
}
