/** The payment ledger and the booking service joined by the broker: payment events are delivered
    at least once, in any order and with any duplicates, while both services take steps of their own. */
module Saga {
  import opened Tables
  import opened Contracts
  import opened BookingModel
  import BookingStates
  import BookingSafety
  import Ledger = PaymentLedger
  import PaymentOutcomes
  import PaymentSafety

  datatype System = System(ledger: Ledger.Ledger, db: Db)

  /** Delivering row `row` of the payment outbox may happen any number of times, at any time
      after the row exists. */
  datatype Action =
    | Pay(payment: Ledger.PaymentOp)
    | Schedule(step: Op)
    | Deliver(row: nat)

  /** Booking steps other than admin transitions and payment events from elsewhere. */
  predicate OwnStep(op: Op) {
    && !op.TransitionOp? && !op.PaymentOp?
    && (op.EligibilityOp? ==> !op.event.PaymentOutbox?)
  }

  function DeliveryOf(event: Ledger.LedgerEvent, row: nat): Op {
    PaymentOp(PaymentOutbox(row), event.kind, event.payment, event.booking, event.amount, event.currency)
  }

  ghost predicate Next(settings: Settings, s: System, action: Action, s': System) {
    match action
    case Pay(op) => s' == s.(ledger := Ledger.Step(s.ledger, op))
    case Schedule(op) =>
      OwnStep(op) && s'.ledger == s.ledger && BookingModel.Next(settings, s.db, op, s'.db)
    case Deliver(row) =>
      && row < |s.ledger.outbox| && s'.ledger == s.ledger
      && BookingModel.Next(settings, s.db, DeliveryOf(s.ledger.outbox[row], row), s'.db)
  }

  ghost predicate IsRun(settings: Settings, states: seq<System>, actions: seq<Action>) {
    && |states| == |actions| + 1
    && (exists now :: states[0] == System(Ledger.EMPTY_LEDGER, EmptyDb(now)))
    && forall i :: 0 <= i < |actions| ==> StepAt(settings, states, actions, i)
  }

  /** Step number `i` of a run. */
  ghost predicate StepAt(settings: Settings, states: seq<System>, actions: seq<Action>, i: nat)
    requires i < |actions| < |states|
  {
    Next(settings, states[i], actions[i], states[i + 1])
  }

  // ---- the invariant across both services ----

  /** The booking's history contains the status. */
  ghost predicate Visited(db: Db, b: Id, status: BookingStates.BookingStatus) {
    exists k :: 0 <= k < |RowsOf(db.history, b)| && RowsOf(db.history, b)[k].to == status
  }

  /** An applied capture event for exactly the booking's amount. */
  ghost predicate PaidBy(s: System, b: Id, row: nat) {
    && row < |s.ledger.outbox|
    && PaymentOutbox(row) in s.db.processed
    && b in s.db.bookings
    && s.ledger.outbox[row].kind == CapturedEvent
    && s.ledger.outbox[row].booking == b
    && s.ledger.outbox[row].amount == s.db.bookings[b].amount
    && s.ledger.outbox[row].currency == s.db.bookings[b].currency
  }

  ghost predicate Backed(s: System, b: Id) {
    Visited(s.db, b, BookingStates.Booked) || Visited(s.db, b, BookingStates.Confirmed) ==>
      exists row: nat :: PaidBy(s, b, row)
  }

  ghost predicate Inv(s: System) {
    && PaymentSafety.Inv(s.ledger)
    && BookingSafety.Inv(s.db)
    && forall b :: Backed(s, b)
  }

  // ---- ledger steps only append events ----

  lemma OutboxGrows(l: Ledger.Ledger, op: Ledger.PaymentOp)
    ensures l.outbox <= Ledger.Step(l, op).outbox
  {
  }

  lemma PaidStays(s: System, s': System, b: Id, row: nat)
    requires PaidBy(s, b, row)
    requires s.ledger.outbox <= s'.ledger.outbox && s.db.processed <= s'.db.processed
    requires b in s'.db.bookings
    requires s'.db.bookings[b].amount == s.db.bookings[b].amount
           && s'.db.bookings[b].currency == s.db.bookings[b].currency
    ensures PaidBy(s', b, row)
  {
  }

  // ---- what a booking step does to one booking's history ----

  /** A step keeps every booking with its price, forgets no processed event, and appends to a booking's
      history only rows whose targets are in `targets`. */
  ghost predicate Advances(db: Db, db': Db, b: Id, targets: set<BookingStates.BookingStatus>) {
    && (b in db.bookings ==>
          && b in db'.bookings
          && db'.bookings[b].amount == db.bookings[b].amount
          && db'.bookings[b].currency == db.bookings[b].currency)
    && db.processed <= db'.processed
    && (forall status :: Visited(db', b, status) ==> Visited(db, b, status) || status in targets)
  }

  lemma VisitedAppend(history: Table<Id, BookingStates.HistoryRow>, row: (Id, BookingStates.HistoryRow), b: Id,
      status: BookingStates.BookingStatus)
    ensures (exists k :: 0 <= k < |RowsOf(history + [row], b)| && RowsOf(history + [row], b)[k].to == status) <==>
            (exists k :: 0 <= k < |RowsOf(history, b)| && RowsOf(history, b)[k].to == status)
            || (row.0 == b && row.1.to == status)
  {
    RowsOfAppend(history, b, row);
    var before, after := RowsOf(history, b), RowsOf(history + [row], b);
    if k :| 0 <= k < |before| && before[k].to == status {
      assert after[k] == before[k];
    }
    if row.0 == b && row.1.to == status {
      assert after[|before|] == row.1;
    }
  }

  lemma TransitionFrame(db: Db, id: Id, target: BookingStates.BookingStatus, b: Id)
    requires id in db.bookings
    ensures var db' := Transition(db, id, target).0;
            && db'.processed == db.processed
            && (b in db.bookings ==>
                  && b in db'.bookings
                  && db'.bookings[b].amount == db.bookings[b].amount
                  && db'.bookings[b].currency == db.bookings[b].currency)
            && (db'.history == db.history
                || db'.history == db.history + [(id, BookingStates.HistoryRow(Some(db.bookings[id].status), target))])
  {
    if BookingStates.CanTransition(db.bookings[id].status, target) {
      BookingSafety.TransitionEffect(db, id, target);
    }
  }

  lemma TransitionAdvances(db: Db, id: Id, target: BookingStates.BookingStatus, b: Id)
    ensures Advances(db, Transition(db, id, target).0, b, if id == b then {target} else {})
  {
    if id in db.bookings {
      TransitionFrame(db, id, target, b);
      var row := (id, BookingStates.HistoryRow(Some(db.bookings[id].status), target));
      forall status
        ensures Visited(Transition(db, id, target).0, b, status) ==>
          Visited(db, b, status) || (id == b && status == target)
      {
        VisitedAppend(db.history, row, b, status);
      }
    }
  }

  lemma AdvancesTrans(db: Db, mid: Db, after: Db, b: Id, first: set<BookingStates.BookingStatus>,
      second: set<BookingStates.BookingStatus>)
    requires Advances(db, mid, b, first) && Advances(mid, after, b, second)
    ensures Advances(db, after, b, first + second)
  {
  }

  lemma CreateAdvances(db: Db, slot: Id, candidate: Id, token: Token, key: Id, newId: Id, b: Id)
    ensures Advances(db, CreateBooking(db, slot, candidate, token, key, newId).0, b, {BookingStates.PaymentPending})
  {
    if CreateBooking(db, slot, candidate, token, key, newId).0 != db {
      var row := (newId, BookingStates.HistoryRow(None, BookingStates.PaymentPending));
      forall status
        ensures Visited(CreateBooking(db, slot, candidate, token, key, newId).0, b, status) ==>
                  Visited(db, b, status) || status == BookingStates.PaymentPending
      {
        VisitedAppend(db.history, row, b, status);
      }
    }
  }

  lemma OwnStepAdvances(settings: Settings, db: Db, op: Op, db': Db, b: Id)
    requires OwnStep(op) && BookingModel.Next(settings, db, op, db')
    ensures Advances(db, db', b, {BookingStates.PaymentPending, BookingStates.Cancelled})
  {
    match op {
      case CreateOp(slot, candidate, token, key, newId) => CreateAdvances(db, slot, candidate, token, key, newId, b);
      case CancelOp(id, candidate) => TransitionAdvances(db, id, BookingStates.Cancelled, b);
      case _ =>
    }
  }

  /** Where a payment event may take a booking. */
  function EventTargets(kind: PaymentEventType): set<BookingStates.BookingStatus> {
    match kind
    case CapturedEvent => {BookingStates.Booked, BookingStates.Confirmed}
    case FailedEvent => {BookingStates.PaymentFailed}
    case RefundedEvent => {BookingStates.Refunded}
    case UnknownEvent => {}
  }

  /** An event that changes anything was not processed before, is afterwards, matches the booking's
      amount, and advances only its own booking. */
  lemma PaymentAdvances(
    db: Db, event: EventId, kind: PaymentEventType, payment: Id, id: Id, amount: int, currency: Currency, b: Id)
    ensures var db' := HandlePayment(db, event, kind, payment, id, amount, currency).0;
            && Advances(db, db', b, if id == b then EventTargets(kind) else {})
            && (db' != db ==>
                  && event !in db.processed && event in db'.processed
                  && id in db.bookings && amount == db.bookings[id].amount && currency == db.bookings[id].currency)
  {
    var db' := HandlePayment(db, event, kind, payment, id, amount, currency).0;
    if db' != db {
      var paid := BookingSafety.Paid(db, event, payment, id);
      BookingSafety.PaymentIsTransitions(paid, kind, id);
      SettlementAdvances(paid, kind, id, db', b);
      assert Advances(db, paid, b, {});
    }
  }

  lemma SettlementAdvances(paid: Db, kind: PaymentEventType, id: Id, db': Db, b: Id)
    requires db' == match kind
                    case CapturedEvent =>
                      Transition(Transition(paid, id, BookingStates.Booked).0, id, BookingStates.Confirmed).0
                    case FailedEvent => Transition(paid, id, BookingStates.PaymentFailed).0
                    case _ => Transition(paid, id, BookingStates.Refunded).0
    requires kind != UnknownEvent
    ensures Advances(paid, db', b, if id == b then EventTargets(kind) else {})
  {
    match kind {
      case CapturedEvent =>
        var booked := Transition(paid, id, BookingStates.Booked).0;
        TransitionAdvances(paid, id, BookingStates.Booked, b);
        TransitionAdvances(booked, id, BookingStates.Confirmed, b);
        AdvancesTrans(paid, booked, db', b,
                      if id == b then {BookingStates.Booked} else {},
                      if id == b then {BookingStates.Confirmed} else {});
      case FailedEvent => TransitionAdvances(paid, id, BookingStates.PaymentFailed, b);
      case RefundedEvent => TransitionAdvances(paid, id, BookingStates.Refunded, b);
    }
  }

  // ---- the invariant holds in every run ----

  lemma BackedAdvances(s: System, s': System, b: Id, targets: set<BookingStates.BookingStatus>)
    requires Backed(s, b) && Advances(s.db, s'.db, b, targets) && s.ledger.outbox <= s'.ledger.outbox
    requires BookingStates.Booked !in targets && BookingStates.Confirmed !in targets
    ensures Backed(s', b)
  {
    if Visited(s'.db, b, BookingStates.Booked) || Visited(s'.db, b, BookingStates.Confirmed) {
      var row: nat :| PaidBy(s, b, row);
      PaidStays(s, s', b, row);
    }
  }

  /** What one delivery does to a booking. */
  ghost predicate Delivered(s: System, row: nat, s': System, b: Id) {
    && row < |s.ledger.outbox| && s'.ledger == s.ledger
    && Advances(s.db, s'.db, b,
                if s.ledger.outbox[row].booking == b then EventTargets(s.ledger.outbox[row].kind) else {})
    && (s'.db != s.db ==>
          && PaymentOutbox(row) !in s.db.processed && PaymentOutbox(row) in s'.db.processed
          && s.ledger.outbox[row].booking in s.db.bookings
          && s.ledger.outbox[row].amount == s.db.bookings[s.ledger.outbox[row].booking].amount
          && s.ledger.outbox[row].currency == s.db.bookings[s.ledger.outbox[row].booking].currency)
  }

  lemma DeliveryIsPayment(settings: Settings, s: System, row: nat, s': System)
    requires Next(settings, s, Deliver(row), s')
    ensures row < |s.ledger.outbox| && s'.ledger == s.ledger
    ensures var e := s.ledger.outbox[row];
            s'.db == HandlePayment(s.db, PaymentOutbox(row), e.kind, e.payment, e.booking, e.amount, e.currency).0
  {
  }

  lemma DeliveryAdvances(settings: Settings, s: System, row: nat, s': System, b: Id)
    requires Next(settings, s, Deliver(row), s')
    ensures Delivered(s, row, s', b)
  {
    DeliveryIsPayment(settings, s, row, s');
    PaymentDelivers(s, row, s', b);
  }

  lemma PaymentDelivers(s: System, row: nat, s': System, b: Id)
    requires row < |s.ledger.outbox| && s'.ledger == s.ledger
    requires var e := s.ledger.outbox[row];
             s'.db == HandlePayment(s.db, PaymentOutbox(row), e.kind, e.payment, e.booking, e.amount, e.currency).0
    ensures Delivered(s, row, s', b)
  {
    var e := s.ledger.outbox[row];
    PaymentAdvances(s.db, PaymentOutbox(row), e.kind, e.payment, e.booking, e.amount, e.currency, b);
  }

  lemma DeliverKeepsBacking(s: System, row: nat, s': System, b: Id)
    requires Backed(s, b) && Delivered(s, row, s', b)
    ensures Backed(s', b)
  {
    var e := s.ledger.outbox[row];
    if e.booking == b && e.kind == CapturedEvent {
      if s'.db != s.db {
        assert PaidBy(s', b, row);
      }
    } else if e.booking == b {
      BackedAdvances(s, s', b, EventTargets(e.kind));
    } else {
      BackedAdvances(s, s', b, {});
    }
  }

  lemma NextKeeps(settings: Settings, s: System, action: Action, s': System)
    requires ValidSettings(settings) && Inv(s) && Next(settings, s, action, s')
    ensures Inv(s')
  {
    match action {
      case Pay(op) =>
        PaymentSafety.StepKeeps(s.ledger, op);
        OutboxGrows(s.ledger, op);
        forall b ensures Backed(s', b) {
          assert Backed(s, b);
          BackedAdvances(s, s', b, {});
        }
      case Schedule(op) =>
        BookingSafety.NextKeeps(settings, s.db, op, s'.db);
        forall b ensures Backed(s', b) {
          assert Backed(s, b);
          OwnStepAdvances(settings, s.db, op, s'.db, b);
          BackedAdvances(s, s', b, {BookingStates.PaymentPending, BookingStates.Cancelled});
        }
      case Deliver(row) =>
        BookingSafety.NextKeeps(settings, s.db, DeliveryOf(s.ledger.outbox[row], row), s'.db);
        forall b ensures Backed(s', b) {
          assert Backed(s, b);
          DeliveryAdvances(settings, s, row, s', b);
          DeliverKeepsBacking(s, row, s', b);
        }
    }
  }

  lemma {:induction false} RunKeeps(settings: Settings, states: seq<System>, actions: seq<Action>, i: nat)
    requires ValidSettings(settings) && IsRun(settings, states, actions) && i < |states|
    ensures Inv(states[i])
  {
    if i == 0 {
      var now :| states[0] == System(Ledger.EMPTY_LEDGER, EmptyDb(now));
      PaymentSafety.EmptyOk();
      BookingSafety.EmptyOk(now);
    } else {
      RunKeeps(settings, states, actions, i - 1);
      assert StepAt(settings, states, actions, i - 1);
      NextKeeps(settings, states[i - 1], actions[i - 1], states[i]);
    }
  }

  // ---- main results ----

  lemma {:induction false} AnnouncedIsCounted(outbox: seq<Ledger.LedgerEvent>, row: nat)
    requires row < |outbox|
    ensures PaymentSafety.Announcements(outbox, outbox[row].payment, outbox[row].kind) > 0
  {
    if row < |outbox| - 1 {
      AnnouncedIsCounted(outbox[..|outbox| - 1], row);
    }
  }

  /** The payment of a booking, captured for exactly the booking's amount and announced once. */
  ghost predicate CapturedFor(s: System, b: Id, p: Id) {
    && b in s.db.bookings && p < |s.ledger.payments|
    && s.ledger.payments[p].booking == b
    && PaymentSafety.WasCaptured(s.ledger.payments[p].status)
    && PaymentSafety.Announcements(s.ledger.outbox, p, CapturedEvent) == 1
    && s.ledger.payments[p].amount == s.db.bookings[b].amount
  }

  lemma PaidIsCaptured(s: System, b: Id, row: nat)
    requires Inv(s) && PaidBy(s, b, row)
    ensures CapturedFor(s, b, s.ledger.outbox[row].payment)
  {
    var e := s.ledger.outbox[row];
    assert e in s.ledger.outbox && PaymentSafety.EventOk(s.ledger.payments, e);
    AnnouncedIsCounted(s.ledger.outbox, row);
    assert PaymentSafety.Sound(s.ledger.payments[e.payment], PaymentSafety.BooksOf(s.ledger, e.payment));
  }

  /** `p` is the one payment of the booking. */
  ghost predicate OnlyPayment(l: Ledger.Ledger, b: Id, p: Id) {
    forall q: Id :: q < |l.payments| && l.payments[q].booking == b ==> q == p
  }

  lemma VisitedIsCaptured(s: System, b: Id) returns (p: Id)
    requires Inv(s) && Visited(s.db, b, BookingStates.Confirmed)
    ensures CapturedFor(s, b, p)
  {
    assert Backed(s, b);
    var row: nat :| PaidBy(s, b, row);
    p := s.ledger.outbox[row].payment;
    PaidIsCaptured(s, b, row);
  }

  lemma PaymentIsOnly(l: Ledger.Ledger, b: Id, p: Id)
    requires Ledger.Constraints(l) && p < |l.payments| && l.payments[p].booking == b
    ensures OnlyPayment(l, b, p)
  {
    forall q: Id | q < |l.payments| && q != p ensures l.payments[q].booking != b {
      PaymentSafety.BookingIsUnique(l, p, q);
    }
  }

  ghost predicate VisitsOnce(db: Db, b: Id) {
    forall j, k :: 0 <= j < k < |RowsOf(db.history, b)| ==> RowsOf(db.history, b)[j].to != RowsOf(db.history, b)[k].to
  }

  lemma HistoryIsSimple(db: Db, b: Id)
    requires BookingSafety.HistoryOk(db.history, db.bookings)
    ensures VisitsOnce(db, b)
  {
    assert BookingSafety.ChainOk(db.history, db.bookings, b);
    if b in db.bookings {
      BookingStates.PathIsShortAndSimple(RowsOf(db.history, b));
    }
  }

  /** Some earlier action of the run reported the payment captured. */
  ghost predicate Reported(actions: seq<Action>, i: nat, p: Id, payment: Ledger.Payment) {
    exists k: nat :: k < i && ReportsAt(actions, k, p, payment)
  }

  /** Action number `k` reports the capture: the provider, by a capture webhook for the payment's order,
      amount and currency, or the payment's own candidate, in development. */
  ghost predicate ReportsAt(actions: seq<Action>, k: nat, p: Id, payment: Ledger.Payment) {
    k < |actions| && actions[k].Pay? && PaymentOutcomes.Captures(actions[k].payment, p, payment)
  }

  lemma LedgerSteps(settings: Settings, states: seq<System>, actions: seq<Action>, i: nat)
    requires IsRun(settings, states, actions) && i < |actions|
    ensures states[i + 1].ledger ==
            if actions[i].Pay? then Ledger.Step(states[i].ledger, actions[i].payment) else states[i].ledger
  {
    assert StepAt(settings, states, actions, i);
  }

  lemma ReportStays(actions: seq<Action>, i: nat, p: Id, before: Ledger.Payment, after: Ledger.Payment)
    requires Reported(actions, i, p, before) && PaymentOutcomes.SamePayment(before, after)
    ensures Reported(actions, i + 1, p, after)
  {
    var k: nat :| k < i && ReportsAt(actions, k, p, before);
    assert ReportsAt(actions, k, p, after);
  }

  /** A capture the ledger has announced was reported before. */
  lemma {:induction false} AnnouncedWasReported(settings: Settings, states: seq<System>, actions: seq<Action>,
      i: nat, p: Id)
    requires ValidSettings(settings) && IsRun(settings, states, actions) && i < |states|
    requires PaymentSafety.Announcements(states[i].ledger.outbox, p, CapturedEvent) > 0
    ensures p < |states[i].ledger.payments| && Reported(actions, i, p, states[i].ledger.payments[p])
  {
    if i == 0 {
    } else {
      if PaymentSafety.Announcements(states[i - 1].ledger.outbox, p, CapturedEvent) > 0 {
        AnnouncedWasReported(settings, states, actions, i - 1, p);
      }
      RunReports(settings, states, actions, i - 1, p);
    }
  }

  /** One step of the run keeps announced captures reported. */
  lemma RunReports(settings: Settings, states: seq<System>, actions: seq<Action>, i: nat, p: Id)
    requires ValidSettings(settings) && IsRun(settings, states, actions) && i < |actions|
    requires PaymentSafety.Announcements(states[i + 1].ledger.outbox, p, CapturedEvent) > 0
    requires PaymentSafety.Announcements(states[i].ledger.outbox, p, CapturedEvent) > 0 ==>
               p < |states[i].ledger.payments| && Reported(actions, i, p, states[i].ledger.payments[p])
    ensures p < |states[i + 1].ledger.payments| && Reported(actions, i + 1, p, states[i + 1].ledger.payments[p])
  {
    LedgerSteps(settings, states, actions, i);
    RunKeeps(settings, states, actions, i);
    StepReports(actions, i, states[i].ledger, states[i + 1].ledger, p);
  }

  lemma StepReports(actions: seq<Action>, i: nat, l: Ledger.Ledger, l': Ledger.Ledger, p: Id)
    requires i < |actions| && PaymentSafety.Inv(l)
    requires l' == if actions[i].Pay? then Ledger.Step(l, actions[i].payment) else l
    requires PaymentSafety.Announcements(l'.outbox, p, CapturedEvent) > 0
    requires PaymentSafety.Announcements(l.outbox, p, CapturedEvent) > 0 ==>
               p < |l.payments| && Reported(actions, i, p, l.payments[p])
    ensures p < |l'.payments| && Reported(actions, i + 1, p, l'.payments[p])
  {
    if actions[i].Pay? {
      PaymentOutcomes.CaptureOrigin(l, l', actions[i].payment, p);
    }
    if actions[i].Pay? && PaymentOutcomes.Captures(actions[i].payment, p, l'.payments[p]) {
      assert ReportsAt(actions, i, p, l'.payments[p]);
    } else {
      ReportStays(actions, i, p, l.payments[p], l'.payments[p]);
    }
  }

  /** In every run a booking visits CONFIRMED (and every other status) at most once, and CONFIRMED
      only if its one payment was captured for exactly its amount, as the provider or, in development, the
      payment's own candidate had reported before. */
  lemma {:induction false} ConfirmedOnlyIfCaptured(settings: Settings, states: seq<System>,
      actions: seq<Action>, i: nat, b: Id)
    requires ValidSettings(settings) && IsRun(settings, states, actions) && i < |states|
    ensures VisitsOnce(states[i].db, b)
    ensures Visited(states[i].db, b, BookingStates.Confirmed) ==>
              exists p: Id :: && CapturedFor(states[i], b, p) && OnlyPayment(states[i].ledger, b, p)
                              && Reported(actions, i, p, states[i].ledger.payments[p])
  {
    RunKeeps(settings, states, actions, i);
    ConfirmedState(states[i], b);
    if p: Id :| CapturedFor(states[i], b, p) && OnlyPayment(states[i].ledger, b, p) {
      AnnouncedWasReported(settings, states, actions, i, p);
    }
  }

  lemma ConfirmedState(s: System, b: Id)
    requires Inv(s)
    ensures VisitsOnce(s.db, b)
    ensures Visited(s.db, b, BookingStates.Confirmed) ==>
              exists p :: CapturedFor(s, b, p) && OnlyPayment(s.ledger, b, p)
  {
    HistoryIsSimple(s.db, b);
    if Visited(s.db, b, BookingStates.Confirmed) {
      var p := VisitedIsCaptured(s, b);
      PaymentIsOnly(s.ledger, b, p);
    }
  }

  /** Events that have been published or processed stay so. */
  ghost predicate Grows(s: System, s': System) {
    s.db.processed <= s'.db.processed && s.ledger.outbox <= s'.ledger.outbox
  }

  lemma NextGrows(settings: Settings, s: System, action: Action, s': System)
    requires Next(settings, s, action, s')
    ensures Grows(s, s')
  {
    match action {
      case Pay(op) => OutboxGrows(s.ledger, op);
      case Schedule(op) => OwnStepAdvances(settings, s.db, op, s'.db, 0);
      case Deliver(row) => DeliveryAdvances(settings, s, row, s', 0);
    }
  }

  ghost predicate GrowsAt(states: seq<System>, k: nat)
    requires k < |states| - 1
  {
    Grows(states[k], states[k + 1])
  }

  lemma {:induction false} RunGrows(settings: Settings, states: seq<System>, actions: seq<Action>)
    requires IsRun(settings, states, actions)
    ensures forall k: nat :: k < |states| - 1 ==> GrowsAt(states, k)
  {
    forall i: nat | i < |states| - 1 ensures GrowsAt(states, i) {
      assert StepAt(settings, states, actions, i);
      NextGrows(settings, states[i], actions[i], states[i + 1]);
    }
  }

  lemma {:induction false} ProcessedStays(states: seq<System>, i: nat, j: nat)
    requires forall k: nat :: k < |states| - 1 ==> GrowsAt(states, k)
    requires i <= j < |states|
    ensures Grows(states[i], states[j])
    decreases j
  {
    if i == j {
    } else {
      ProcessedStays(states, i, j - 1);
      assert GrowsAt(states, j - 1);
    }
  }

  /** Of all deliveries of one event in a run, at most one changes the booking database. */
  lemma {:induction false} EachEventCountsOnce(settings: Settings, states: seq<System>, actions: seq<Action>,
      i: nat, j: nat, row: nat)
    requires IsRun(settings, states, actions) && i < j < |actions|
    requires actions[i] == Deliver(row) && actions[j] == Deliver(row)
    requires states[i + 1].db != states[i].db
    ensures states[j + 1].db == states[j].db
  {
    DeliveredAt(settings, states, actions, i, row);
    DeliveredAt(settings, states, actions, j, row);
    RunGrows(settings, states, actions);
    ProcessedStays(states, i + 1, j);
  }

  /** A delivery that changes anything is the first of its event that does. */
  lemma {:induction false} DeliveredAt(settings: Settings, states: seq<System>, actions: seq<Action>, i: nat, row: nat)
    requires IsRun(settings, states, actions) && i < |actions| && actions[i] == Deliver(row)
    ensures states[i + 1].db != states[i].db ==>
              PaymentOutbox(row) !in states[i].db.processed && PaymentOutbox(row) in states[i + 1].db.processed
  {
    assert StepAt(settings, states, actions, i);
    DeliveryAdvances(settings, states[i], row, states[i + 1], 0);
  }

  /** The other half of the saga: a capture event not processed before confirms its booking if the booking
      is still waiting for payment, because both services pin the same price; and otherwise, a booking the
      candidate has cancelled included, it changes nothing and the money stays captured. */
  lemma CaptureConfirms(settings: Settings, s: System, row: nat, s': System)
    requires Inv(s) && Next(settings, s, Deliver(row), s')
    requires s.ledger.outbox[row].kind == CapturedEvent && PaymentOutbox(row) !in s.db.processed
    ensures var e := s.ledger.outbox[row];
            if e.booking in s.db.bookings && s.db.bookings[e.booking].status == BookingStates.PaymentPending then
              && e.booking in s'.db.bookings
              && s'.db.bookings[e.booking].status == BookingStates.Confirmed
              && s'.db.bookings[e.booking].payment == Some(e.payment)
            else s'.db == s.db
  {
    DeliveryIsPayment(settings, s, row, s');
    CaptureApplies(s, row, s'.db);
  }

  lemma CaptureApplies(s: System, row: nat, db': Db)
    requires Inv(s) && row < |s.ledger.outbox| && PaymentOutbox(row) !in s.db.processed
    requires s.ledger.outbox[row].kind == CapturedEvent
    requires var e := s.ledger.outbox[row];
             db' == HandlePayment(s.db, PaymentOutbox(row), e.kind, e.payment, e.booking, e.amount, e.currency).0
    ensures var e := s.ledger.outbox[row];
            if e.booking in s.db.bookings && s.db.bookings[e.booking].status == BookingStates.PaymentPending then
              && e.booking in db'.bookings
              && db'.bookings[e.booking].status == BookingStates.Confirmed
              && db'.bookings[e.booking].payment == Some(e.payment)
            else db' == s.db
  {
    var e := s.ledger.outbox[row];
    if e.booking in s.db.bookings {
      if s.db.bookings[e.booking].status == BookingStates.PaymentPending {
        PricesAgree(s, row);
        CaptureOfPending(s.db, PaymentOutbox(row), e.payment, e.booking, e.amount, e.currency);
      } else {
        CaptureOfOther(s.db, PaymentOutbox(row), e.payment, e.booking, e.amount, e.currency);
      }
    }
  }

  /** Only a booking that waits for payment can move to BOOKED. */
  lemma CaptureOfOther(db: Db, event: EventId, payment: Id, id: Id, amount: int, currency: Currency)
    requires id in db.bookings && db.bookings[id].status != BookingStates.PaymentPending
    ensures HandlePayment(db, event, CapturedEvent, payment, id, amount, currency).0 == db
  {
    assert !BookingStates.CanTransition(db.bookings[id].status, BookingStates.Booked);
  }

  lemma PricesAgree(s: System, row: nat)
    requires Inv(s) && row < |s.ledger.outbox| && s.ledger.outbox[row].kind == CapturedEvent
    requires s.ledger.outbox[row].booking in s.db.bookings
    ensures s.ledger.outbox[row].amount == s.db.bookings[s.ledger.outbox[row].booking].amount
    ensures s.ledger.outbox[row].currency == s.db.bookings[s.ledger.outbox[row].booking].currency
  {
    var e := s.ledger.outbox[row];
    assert e in s.ledger.outbox && PaymentSafety.EventOk(s.ledger.payments, e);
    assert BookingSafety.RowOk(s.db.slots, s.db.bookings[e.booking]);
  }

  lemma CaptureOfPending(db: Db, event: EventId, payment: Id, id: Id, amount: int, currency: Currency)
    requires event !in db.processed && id in db.bookings && db.bookings[id].status == BookingStates.PaymentPending
    requires amount == db.bookings[id].amount && currency == db.bookings[id].currency
    ensures var db' := HandlePayment(db, event, CapturedEvent, payment, id, amount, currency).0;
            id in db'.bookings && db'.bookings[id].status == BookingStates.Confirmed &&
            db'.bookings[id].payment == Some(payment)
  {
    var paid := BookingSafety.Paid(db, event, payment, id);
    var booked := Move(paid, id, BookingStates.Booked);
    BookingSafety.SingleMove(booked, id, BookingStates.Confirmed);
    assert [BookingStates.Booked, BookingStates.Confirmed][1..] == [BookingStates.Confirmed];
  }
}
