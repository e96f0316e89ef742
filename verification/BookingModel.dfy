/** The booking database, its hold store and every committed step on them, as values.
    BookingService.dfy runs these steps on mutable tables; BookingSafety.dfy proves what they keep. */
module BookingModel {
  import opened Tables
  import opened Contracts
  import opened BookingStates
  import opened Availability

  // ---- tables ----

  datatype SlotStatus = SlotAvailable | SlotHeld | SlotBooked | SlotBlocked

  type Token = nat

  /** SHA-256 is taken to be injective. */
  datatype TokenHash = Sha256(token: Token)

  datatype Slot = Slot(
    interviewer: Id,
    startsAt: Instant,
    endsAt: Instant,
    status: SlotStatus,
    heldBy: Option<Id>,
    holdTokenHash: Option<TokenHash>,
    holdExpiresAt: Option<Instant>)

  datatype Booking = Booking(
    slot: Id,
    candidate: Id,
    interviewer: Id,
    startsAt: Instant,
    endsAt: Instant,
    status: BookingStatus,
    occupiesTime: bool,
    amount: int,
    currency: Currency,
    idempotencyKey: Id,
    payment: Option<Id>)

  datatype Eligibility = Eligibility(verified: bool, deleted: bool, updatedAt: Instant)

  datatype BookingEvent = BookingCreated | BookingConfirmed | BookingCancelled | BookingRescheduled

  /** An entry of the Redis hold store; an entry past its expiry no longer exists. */
  datatype HoldEntry = HoldEntry(token: Token, expiresAt: Instant)

  datatype Settings = Settings(holdTtl: int, duration: int)

  /** The ranges the configuration accepts: a hold lives 1 to 1800 seconds, a session 15 to 60 minutes. */
  predicate ValidSettings(settings: Settings) {
    && SECOND <= settings.holdTtl <= 1800 * SECOND
    && 15 * 60 * SECOND <= settings.duration <= 60 * 60 * SECOND
  }

  datatype Db = Db(
    now: Instant,
    slots: map<Id, Slot>,
    bookings: map<Id, Booking>,
    history: Table<Id, HistoryRow>,
    eligibility: map<Id, Eligibility>,
    processed: set<EventId>,
    outbox: Table<Id, BookingEvent>,
    holds: map<Id, HoldEntry>)

  datatype Error =
    | InterviewerNotVerified
    | InvalidSlotDuration
    | SlotUnavailable
    | InvalidOrExpiredHold
    | BookingOverlap
    | BookingNotFound
    | InvalidBookingTransition
    | PaymentAmountMismatch
    | UnsupportedPaymentEvent
    | DuplicateId

  function EmptyDb(now: Instant): Db {
    Db(now, map[], map[], [], map[], {}, [], map[])
  }

  // ---- reading ----

  predicate Verified(eligibility: map<Id, Eligibility>, interviewer: Id) {
    interviewer in eligibility && eligibility[interviewer].verified
  }

  predicate LiveHold(slot: Slot, now: Instant) {
    slot.status == SlotHeld && slot.holdExpiresAt.Some? && slot.holdExpiresAt.value > now
  }

  /** A slot nobody else may take: booked, or held and not yet expired. */
  predicate Occupied(slot: Slot, now: Instant) {
    slot.status == SlotBooked || LiveHold(slot, now)
  }

  predicate Holdable(slot: Slot, eligibility: map<Id, Eligibility>, now: Instant) {
    && slot.startsAt > now
    && Verified(eligibility, slot.interviewer)
    && slot.status != SlotBooked && slot.status != SlotBlocked
    && !LiveHold(slot, now)
  }

  predicate Claimable(slot: Slot, eligibility: map<Id, Eligibility>, now: Instant, candidate: Id, token: Token) {
    && slot.startsAt > now
    && Verified(eligibility, slot.interviewer)
    && slot.status == SlotHeld
    && slot.heldBy == Some(candidate)
    && slot.holdTokenHash == Some(Sha256(token))
    && slot.holdExpiresAt.Some? && slot.holdExpiresAt.value > now
  }

  predicate HoldMatches(holds: map<Id, HoldEntry>, slot: Id, token: Token) {
    slot in holds && holds[slot].token == token
  }

  predicate SameWindow(a: Slot, b: Slot) {
    a.interviewer == b.interviewer && a.startsAt == b.startsAt && a.endsAt == b.endsAt
  }

  predicate TimesOverlap(a: Booking, b: Booking) {
    a.startsAt < b.endsAt && b.startsAt < a.endsAt
  }

  /** The unique and exclusion constraints between two different booking rows. */
  predicate Compatible(a: Booking, b: Booking) {
    && !(a.candidate == b.candidate && a.idempotencyKey == b.idempotencyKey)
    && (a.occupiesTime && b.occupiesTime ==>
          && a.slot != b.slot
          && (a.candidate == b.candidate || a.interviewer == b.interviewer ==> !TimesOverlap(a, b)))
  }

  predicate CommitAllowed(bookings: map<Id, Booking>, id: Id, booking: Booking) {
    id !in bookings && forall b :: b in bookings ==> Compatible(bookings[b], booking)
  }

  ghost predicate IsBookingFor(bookings: map<Id, Booking>, candidate: Id, key: Id, b: Id) {
    b in bookings && bookings[b].candidate == candidate && bookings[b].idempotencyKey == key
  }

  ghost function ExistingBooking(bookings: map<Id, Booking>, candidate: Id, key: Id): (found: Option<Id>)
    ensures found.Some? ==> IsBookingFor(bookings, candidate, key, found.value)
    ensures found.None? ==> forall b :: !IsBookingFor(bookings, candidate, key, b)
  {
    if exists b :: IsBookingFor(bookings, candidate, key, b) then
      var b :| IsBookingFor(bookings, candidate, key, b);
      Some(b)
    else None
  }

  // ---- steps ----

  /** Time passes; Redis drops the entries whose time to live is over. */
  function Tick(db: Db, to: Instant): Db {
    db.(now := to, holds := map k | k in db.holds && db.holds[k].expiresAt > to :: db.holds[k])
  }

  function FreshSlot(interviewer: Id, w: Window): Slot {
    Slot(interviewer, w.first, w.last, SlotAvailable, None, None, None)
  }

  /** INSERT ... ON CONFLICT DO NOTHING on the (interviewer, start, end) key. */
  ghost function InsertSlot(slots: map<Id, Slot>, id: Id, slot: Slot): map<Id, Slot> {
    if exists i :: i in slots && SameWindow(slots[i], slot) then slots else slots[id := slot]
  }

  ghost function InsertSlots(slots: map<Id, Slot>, interviewer: Id, windows: seq<Window>, ids: seq<Id>): map<Id, Slot>
    requires |ids| == |windows|
  {
    if |windows| == 0 then slots
    else
      var n := |windows| - 1;
      InsertSlot(InsertSlots(slots, interviewer, windows[..n], ids[..n]), ids[n], FreshSlot(interviewer, windows[n]))
  }

  predicate FreshIds(slots: map<Id, Slot>, ids: seq<Id>) {
    && (forall k :: 0 <= k < |ids| ==> ids[k] !in slots)
    && (forall j, k :: 0 <= j < k < |ids| ==> ids[j] != ids[k])
  }

  ghost function GenerateSlots(db: Db, settings: Settings, interviewer: Id, windows: seq<Window>, ids: seq<Id>)
    : (Db, Result<(), Error>)
    requires |ids| == |windows|
  {
    if !Verified(db.eligibility, interviewer) then (db, Err(InterviewerNotVerified))
    else if exists w :: w in windows && w.last - w.first != settings.duration then (db, Err(InvalidSlotDuration))
    else if !FreshIds(db.slots, ids) then (db, Err(DuplicateId))
    else (db.(slots := InsertSlots(db.slots, interviewer, windows, ids)), Ok(()))
  }

  function Hold(db: Db, settings: Settings, slot: Id, candidate: Id, token: Token)
    : (Db, Result<Instant, Error>)
  {
    if slot in db.holds then (db, Err(SlotUnavailable))
    else if slot !in db.slots || !Holdable(db.slots[slot], db.eligibility, db.now) then (db, Err(SlotUnavailable))
    else
      var expires := db.now + settings.holdTtl;
      (db.(holds := db.holds[slot := HoldEntry(token, expires)],
           slots := db.slots[slot := db.slots[slot].(
                      status := SlotHeld,
                      heldBy := Some(candidate),
                      holdTokenHash := Some(Sha256(token)),
                      holdExpiresAt := Some(expires))]),
       Ok(expires))
  }

  function NewBooking(slotId: Id, slot: Slot, candidate: Id, key: Id): Booking {
    Booking(slotId, candidate, slot.interviewer, slot.startsAt, slot.endsAt,
            PaymentPending, true, PRICE, INR, key, None)
  }

  ghost function CreateBooking(db: Db, slot: Id, candidate: Id, token: Token, key: Id, newId: Id)
    : (Db, Result<Id, Error>)
  {
    match ExistingBooking(db.bookings, candidate, key)
    case Some(b) => (db, Ok(b))
    case None =>
      if !HoldMatches(db.holds, slot, token) then (db, Err(InvalidOrExpiredHold))
      else if slot !in db.slots || !Claimable(db.slots[slot], db.eligibility, db.now, candidate, token) then
        (db, Err(InvalidOrExpiredHold))
      else
        var booking := NewBooking(slot, db.slots[slot], candidate, key);
        if !CommitAllowed(db.bookings, newId, booking) then (db, Err(BookingOverlap))
        else
          (db.(bookings := db.bookings[newId := booking],
               history := db.history + [(newId, HistoryRow(None, PaymentPending))],
               slots := db.slots[slot := db.slots[slot].(
                          status := SlotBooked, holdTokenHash := None, holdExpiresAt := None)],
               outbox := db.outbox + [(newId, BookingCreated)],
               holds := map k | k in db.holds && k != slot :: db.holds[k]),
           Ok(newId))
  }

  /** A status change with its derived flag and its history row. */
  function Move(db: Db, id: Id, target: BookingStatus): Db
    requires id in db.bookings
  {
    db.(bookings := db.bookings[id := db.bookings[id].(status := target, occupiesTime := OccupiesTime(target))],
        history := db.history + [(id, HistoryRow(Some(db.bookings[id].status), target))])
  }

  /** The unguarded slot update that follows every move to a status that frees the time. */
  function Release(db: Db, id: Id): Db
    requires id in db.bookings
  {
    var slot := db.bookings[id].slot;
    if !db.bookings[id].occupiesTime && slot in db.slots then
      db.(slots := db.slots[slot := db.slots[slot].(status := SlotAvailable)])
    else db
  }

  function Announced(status: BookingStatus): seq<BookingEvent> {
    match status
    case PaymentPending => [BookingCreated]
    case Confirmed => [BookingConfirmed]
    case Cancelled => [BookingCancelled]
    case Rescheduled => [BookingRescheduled]
    case _ => []
  }

  /** The event of a transition, if its target has one. */
  function Announce(db: Db, id: Id, target: BookingStatus): Db {
    match target
    case Confirmed => db.(outbox := db.outbox + [(id, BookingConfirmed)])
    case Cancelled => db.(outbox := db.outbox + [(id, BookingCancelled)])
    case Rescheduled => db.(outbox := db.outbox + [(id, BookingRescheduled)])
    case _ => db
  }

  function Transition(db: Db, id: Id, target: BookingStatus): (Db, Result<(), Error>) {
    if id !in db.bookings then (db, Err(BookingNotFound))
    else if !CanTransition(db.bookings[id].status, target) then (db, Err(InvalidBookingTransition))
    else (Release(Announce(Move(db, id, target), id, target), id), Ok(()))
  }

  function CancelByCandidate(db: Db, id: Id, candidate: Id): (Db, Result<(), Error>) {
    if id !in db.bookings || db.bookings[id].candidate != candidate then (db, Err(BookingNotFound))
    else Transition(db, id, Cancelled)
  }

  function PaymentTargets(kind: PaymentEventType): Option<seq<BookingStatus>> {
    match kind
    case CapturedEvent => Some([Booked, Confirmed])
    case FailedEvent => Some([PaymentFailed])
    case RefundedEvent => Some([Refunded])
    case UnknownEvent => None
  }

  /** All the moves in order, or nothing if one of them is not allowed. */
  function MoveAlong(db: Db, id: Id, targets: seq<BookingStatus>): (moved: Option<Db>)
    requires id in db.bookings
    ensures moved.Some? ==> id in moved.value.bookings
    decreases |targets|
  {
    if |targets| == 0 then Some(db)
    else if !CanTransition(db.bookings[id].status, targets[0]) then None
    else MoveAlong(Move(db, id, targets[0]), id, targets[1..])
  }

  function ConfirmationOf(db: Db, id: Id): Db
    requires id in db.bookings
  {
    if db.bookings[id].status == Confirmed then db.(outbox := db.outbox + [(id, BookingConfirmed)]) else db
  }

  function HandlePayment(db: Db, event: EventId, kind: PaymentEventType, payment: Id, id: Id, amount: int,
      currency: Currency)
    : (Db, Result<(), Error>)
  {
    if event in db.processed then (db, Ok(()))
    else if id !in db.bookings then (db, Err(BookingNotFound))
    else if amount != db.bookings[id].amount || currency != db.bookings[id].currency then
      (db, Err(PaymentAmountMismatch))
    else if PaymentTargets(kind).None? then (db, Err(UnsupportedPaymentEvent))
    else
      var paid := db.(bookings := db.bookings[id := db.bookings[id].(payment := Some(payment))],
                      processed := db.processed + {event});
      var moved := MoveAlong(paid, id, PaymentTargets(kind).value);
      if moved.None? then (db, Err(InvalidBookingTransition))
      else (Release(ConfirmationOf(moved.value, id), id), Ok(()))
  }

  /** The upsert of one interviewer's eligibility: the newest event wins and deletion is final. */
  function Project(row: Option<Eligibility>, verified: bool, event: InterviewerEvent, when: Instant): Eligibility {
    var incoming := Eligibility(verified && event != Deleted, event == Deleted, when);
    match row
    case None => incoming
    case Some(current) => if current.updatedAt < when && !current.deleted then incoming else current
  }

  function EligibilityOf(db: Db, interviewer: Id): Option<Eligibility> {
    if interviewer in db.eligibility then Some(db.eligibility[interviewer]) else None
  }

  function SetEligibility(db: Db, event: EventId, interviewer: Id, verified: bool, kind: InterviewerEvent,
      occurredAt: Option<Instant>): Db {
    if event in db.processed then db
    else
      var when := if occurredAt.Some? then occurredAt.value else db.now;
      db.(eligibility := db.eligibility[interviewer := Project(EligibilityOf(db, interviewer), verified, kind, when)],
          processed := db.processed + {event})
  }

  function ExpireSlot(slot: Slot, now: Instant): Slot {
    if slot.status == SlotHeld && slot.holdExpiresAt.Some? && slot.holdExpiresAt.value <= now then
      slot.(status := SlotAvailable, heldBy := None, holdTokenHash := None, holdExpiresAt := None)
    else slot
  }

  function ExpireHolds(db: Db): Db {
    db.(slots := map i | i in db.slots :: ExpireSlot(db.slots[i], db.now))
  }

  // ---- one interviewer's availability reconciliation ----

  /** The snapshot is used only if no newer eligibility event has been applied. */
  predicate Current(db: Db, snapshot: Snapshot) {
    && snapshot.interviewer in db.eligibility
    && db.eligibility[snapshot.interviewer].updatedAt <= snapshot.observedAt
  }

  predicate InScope(slot: Slot, snapshot: Snapshot, now: Instant) {
    slot.interviewer == snapshot.interviewer && slot.startsAt > now
  }

  /** Some booked or live-held future slot of the interviewer is in the way. */
  ghost predicate Taken(db: Db, snapshot: Snapshot, w: Window) {
    exists i :: i in db.slots && InScope(db.slots[i], snapshot, db.now) && Occupied(db.slots[i], db.now)
             && db.slots[i].startsAt < w.last && db.slots[i].endsAt > w.first
  }

  /** The windows that ought to be on offer after the run. */
  ghost predicate Desired(db: Db, settings: Settings, snapshot: Snapshot, w: Window) {
    && Verified(db.eligibility, snapshot.interviewer) && snapshot.skills > 0
    && IsWindow(snapshot, db.now, settings.duration, w)
    && !Taken(db, snapshot, w)
  }

  function WindowOf(slot: Slot): Window {
    Window(slot.startsAt, slot.endsAt)
  }

  ghost predicate Known(db: Db, snapshot: Snapshot, w: Window) {
    exists i :: i in db.slots && InScope(db.slots[i], snapshot, db.now) && WindowOf(db.slots[i]) == w
  }

  function BlockSlot(slot: Slot): Slot {
    slot.(status := SlotBlocked, holdExpiresAt := None, holdTokenHash := None, heldBy := None)
  }

  /** What the run does to a slot that already exists. */
  ghost function ReconciledSlot(db: Db, settings: Settings, snapshot: Snapshot, slot: Slot): Slot {
    if !InScope(slot, snapshot, db.now) || Occupied(slot, db.now) then slot
    else if !Desired(db, settings, snapshot, WindowOf(slot)) then BlockSlot(slot)
    else if slot.status == SlotBlocked then slot.(status := SlotAvailable)
    else slot
  }

  ghost predicate IsAdded(db: Db, after: map<Id, Slot>, i: Id) {
    i in after && i !in db.slots
  }

  /** A run may number its new slots as it likes, so this relates the states. */
  ghost predicate Reconciled(db: Db, settings: Settings, snapshot: Snapshot, db': Db) {
    if !Current(db, snapshot) then db' == db
    else
      && db' == db.(slots := db'.slots)
      && (forall i :: i in db.slots ==>
            i in db'.slots && db'.slots[i] == ReconciledSlot(db, settings, snapshot, db.slots[i]))
      && (forall i :: IsAdded(db, db'.slots, i) ==>
            && db'.slots[i] == FreshSlot(snapshot.interviewer, WindowOf(db'.slots[i]))
            && Desired(db, settings, snapshot, WindowOf(db'.slots[i]))
            && !Known(db, snapshot, WindowOf(db'.slots[i])))
      && (forall i, j :: (IsAdded(db, db'.slots, i) && IsAdded(db, db'.slots, j)
                          && WindowOf(db'.slots[i]) == WindowOf(db'.slots[j])) ==> i == j)
      && (forall w :: Desired(db, settings, snapshot, w) && !Known(db, snapshot, w) ==>
            exists i :: IsAdded(db, db'.slots, i) && WindowOf(db'.slots[i]) == w)
  }

  // ---- runs ----

  datatype Op =
    | TickOp(to: Instant)
    | GenerateOp(generateFor: Id, windows: seq<Window>, ids: seq<Id>)
    | HoldOp(heldSlot: Id, holder: Id, newToken: Token)
    | CreateOp(bookedSlot: Id, candidate: Id, token: Token, key: Id, newId: Id)
    | TransitionOp(moved: Id, target: BookingStatus)
    | CancelOp(cancelled: Id, cancelledBy: Id)
    | PaymentOp(paymentEvent: EventId, kind: PaymentEventType, payment: Id, paidBooking: Id,
                amount: int, currency: Currency)
    | EligibilityOp(event: EventId, interviewer: Id, verified: bool, lifecycle: InterviewerEvent,
                    occurredAt: Option<Instant>)
    | ExpireOp
    | ReconcileOp(snapshot: Snapshot)

  ghost predicate Next(settings: Settings, db: Db, op: Op, db': Db) {
    match op
    case TickOp(to) => db.now <= to && db' == Tick(db, to)
    case GenerateOp(interviewer, windows, ids) =>
      |ids| == |windows| && db' == GenerateSlots(db, settings, interviewer, windows, ids).0
    case HoldOp(slot, holder, token) => db' == Hold(db, settings, slot, holder, token).0
    case CreateOp(slot, candidate, token, key, newId) => db' == CreateBooking(db, slot, candidate, token, key, newId).0
    case TransitionOp(id, target) => db' == Transition(db, id, target).0
    case CancelOp(id, candidate) => db' == CancelByCandidate(db, id, candidate).0
    case PaymentOp(event, kind, payment, id, amount, currency) =>
      db' == HandlePayment(db, event, kind, payment, id, amount, currency).0
    case EligibilityOp(event, interviewer, verified, kind, occurredAt) =>
      db' == SetEligibility(db, event, interviewer, verified, kind, occurredAt)
    case ExpireOp => db' == ExpireHolds(db)
    case ReconcileOp(snapshot) => Reconciled(db, settings, snapshot, db')
  }

  /** A run: consecutive states joined by one committed step each. */
  ghost predicate IsRun(settings: Settings, states: seq<Db>, ops: seq<Op>) {
    && |states| == |ops| + 1
    && forall i :: 0 <= i < |ops| ==> StepAt(settings, states, ops, i)
  }

  /** Step number `i` of a run. */
  ghost predicate StepAt(settings: Settings, states: seq<Db>, ops: seq<Op>, i: nat)
    requires i < |ops| < |states|
  {
    Next(settings, states[i], ops[i], states[i + 1])
  }

  ghost predicate Reachable(settings: Settings, db: Db) {
    exists states, ops, now ::
      IsRun(settings, states, ops) && states[0] == EmptyDb(now) && states[|states| - 1] == db
  }
}
