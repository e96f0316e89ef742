/** What every payment step keeps: refund conservation, at-most-one settlement event, and
    connected audit chains. The proofs follow one payment's books through the ledger. */
module PaymentSafety {
  import opened Tables
  import opened Contracts
  import opened PaymentLedger

  // ---- one payment's books ----

  /** Everything the refunds, outbox and audit tables say about one payment. */
  datatype Books = Books(
    processed: int,
    pending: int,
    pendingRows: nat,
    refundRows: nat,
    refundedOut: int,
    captures: nat,
    failures: nat,
    chain: seq<AuditRow>)

  const NO_BOOKS: Books := Books(0, 0, 0, 0, 0, 0, 0, [])

  /** A payment's refunds still waiting for the provider. */
  function PendingRows(refunds: seq<Refund>, payment: Id): nat {
    if |refunds| == 0 then 0
    else
      var last := refunds[|refunds| - 1];
      PendingRows(refunds[..|refunds| - 1], payment)
      + (if last.payment == payment && last.status == RefundOpen then 1 else 0)
  }

  function RefundRows(refunds: seq<Refund>, payment: Id): nat {
    if |refunds| == 0 then 0
    else RefundRows(refunds[..|refunds| - 1], payment) + (if refunds[|refunds| - 1].payment == payment then 1 else 0)
  }

  /** The refunded money a payment has announced. */
  function RefundedOut(outbox: seq<LedgerEvent>, payment: Id): int {
    if |outbox| == 0 then 0
    else
      var last := outbox[|outbox| - 1];
      RefundedOut(outbox[..|outbox| - 1], payment)
      + (if last.payment == payment && last.kind == RefundedEvent then last.amount else 0)
  }

  function Announcements(outbox: seq<LedgerEvent>, payment: Id, kind: PaymentEventType): nat {
    if |outbox| == 0 then 0
    else
      var last := outbox[|outbox| - 1];
      Announcements(outbox[..|outbox| - 1], payment, kind)
      + (if last.payment == payment && last.kind == kind then 1 else 0)
  }

  function BooksOf(l: Ledger, id: Id): Books {
    Books(
      Total(l.refunds, id, RefundProcessed),
      Total(l.refunds, id, RefundOpen),
      PendingRows(l.refunds, id),
      RefundRows(l.refunds, id),
      RefundedOut(l.outbox, id),
      Announcements(l.outbox, id, CapturedEvent),
      Announcements(l.outbox, id, FailedEvent),
      RowsOf(l.audit, id))
  }

  // ---- the invariant ----

  ghost predicate IsAuditPath(chain: seq<AuditRow>) {
    && |chain| > 0
    && chain[0] == AuditRow(None, Created)
    && forall i :: 1 <= i < |chain| ==> Continues(chain, i)
  }

  /** Audit row `i` leaves the status that the row before it reached. */
  ghost predicate Continues(chain: seq<AuditRow>, i: nat)
    requires 1 <= i < |chain|
  {
    chain[i].from == Some(chain[i - 1].to)
  }

  predicate WasCaptured(status: PaymentStatus) {
    status in {Captured, RefundPending, Refunded, PartiallyRefunded}
  }

  ghost predicate ChainMatches(status: PaymentStatus, b: Books) {
    IsAuditPath(b.chain) && b.chain[|b.chain| - 1].to == status
  }

  /** Conservation of refunded money, for a payment of `amount` in `status`. */
  predicate Conserves(amount: int, status: PaymentStatus, b: Books) {
    && 0 <= b.processed && 0 <= b.pending
    && b.processed + b.pending <= amount
    && b.pendingRows == (if status == RefundPending then 1 else 0)
    && (b.pending > 0 <==> b.pendingRows > 0)
    && (status == Refunded <==> b.processed == amount)
    && (status == PartiallyRefunded ==> 0 < b.processed)
    && (!WasCaptured(status) ==> b.refundRows == 0)
    && (b.refundRows == 0 ==> b.processed == 0 && b.pending == 0)
    && b.refundedOut == b.processed
  }

  /** One settlement event once settled, of the right kind. */
  predicate SettlesOnce(status: PaymentStatus, b: Books) {
    && b.captures == (if WasCaptured(status) then 1 else 0)
    && b.failures == (if status == Failed then 1 else 0)
  }

  ghost predicate Sound(p: Payment, b: Books) {
    && p.status != Created && (p.orderId.None? ==> p.status == Failed)
    && Conserves(p.amount, p.status, b) && SettlesOnce(p.status, b) && ChainMatches(p.status, b)
  }

  ghost predicate RefundsOk(l: Ledger) {
    forall r :: 0 <= r < |l.refunds| ==>
      && l.refunds[r].payment < |l.payments|
      && (l.refunds[r].status == RefundFailed <==> l.refunds[r].providerRefundId.None?)
  }

  /** An event repeats its payment's booking and currency, and a settlement event its amount. */
  predicate EventOk(payments: seq<Payment>, e: LedgerEvent) {
    && e.payment < |payments|
    && e.booking == payments[e.payment].booking
    && e.currency == INR
    && (e.kind != RefundedEvent ==> e.amount == payments[e.payment].amount)
  }

  ghost predicate EventsOk(l: Ledger) {
    forall e :: e in l.outbox ==> EventOk(l.payments, e)
  }

  ghost predicate Inv(l: Ledger) {
    && Constraints(l)
    && RefundsOk(l)
    && EventsOk(l)
    && (forall id: Id :: id < |l.payments| ==> Sound(l.payments[id], BooksOf(l, id)))
    && (forall id: Id :: id >= |l.payments| ==> BooksOf(l, id) == NO_BOOKS)
  }

  lemma EmptyOk()
    ensures Inv(EMPTY_LEDGER)
  {
  }

  // ---- what each part of a step does to the books ----

  lemma MoveBooks(l: Ledger, id: Id, target: PaymentStatus, q: Id)
    requires id < |l.payments|
    ensures BooksOf(Move(l, id, target), q) ==
            if q == id then
              BooksOf(l, q).(chain := BooksOf(l, q).chain + [AuditRow(Some(l.payments[id].status), target)])
            else BooksOf(l, q)
  {
    RowsOfAppend(l.audit, q, (id, AuditRow(Some(l.payments[id].status), target)));
    assert RowsOf(l.audit, q) + [] == RowsOf(l.audit, q);
  }

  lemma EventBooks(l: Ledger, e: LedgerEvent, q: Id)
    ensures var b, b' := BooksOf(l, q), BooksOf(l.(outbox := l.outbox + [e]), q);
            b' == if e.payment != q then b
                  else match e.kind
                       case CapturedEvent => b.(captures := b.captures + 1)
                       case FailedEvent => b.(failures := b.failures + 1)
                       case RefundedEvent => b.(refundedOut := b.refundedOut + e.amount)
                       case UnknownEvent => b
  {
    assert (l.outbox + [e])[..|l.outbox|] == l.outbox;
  }

  lemma NewRefundBooks(l: Ledger, refund: Refund, q: Id)
    requires refund.status == RefundOpen
    ensures var b, b' := BooksOf(l, q), BooksOf(l.(refunds := l.refunds + [refund]), q);
            b' == if refund.payment != q then b
                  else b.(pending := b.pending + refund.amount, pendingRows := b.pendingRows + 1,
                          refundRows := b.refundRows + 1)
  {
    assert (l.refunds + [refund])[..|l.refunds|] == l.refunds;
  }

  lemma {:induction false} TotalUpdate(refunds: seq<Refund>, r: nat, row: Refund, q: Id, status: RefundStatus)
    requires r < |refunds| && row.payment == refunds[r].payment && row.amount == refunds[r].amount
    ensures Total(refunds[r := row], q, status) == Total(refunds, q, status)
              + (if row.payment == q then (if row.status == status then row.amount else 0)
                                          - (if refunds[r].status == status then row.amount else 0) else 0)
  {
    var n := |refunds| - 1;
    var init := refunds[..n];
    if r == n {
      assert refunds[r := row][..n] == init;
    } else {
      assert refunds[r := row][..n] == init[r := row];
      TotalUpdate(init, r, row, q, status);
    }
  }

  lemma {:induction false} RowsUpdate(refunds: seq<Refund>, r: nat, row: Refund, q: Id)
    requires r < |refunds| && row.payment == refunds[r].payment
    ensures RefundRows(refunds[r := row], q) == RefundRows(refunds, q)
    ensures PendingRows(refunds[r := row], q) == PendingRows(refunds, q)
              + (if row.payment == q then (if row.status == RefundOpen then 1 else 0)
                                          - (if refunds[r].status == RefundOpen then 1 else 0) else 0)
  {
    var n := |refunds| - 1;
    var init := refunds[..n];
    if r == n {
      assert refunds[r := row][..n] == init;
    } else {
      assert refunds[r := row][..n] == init[r := row];
      RowsUpdate(init, r, row, q);
    }
  }

  /** An open refund that reaches its end leaves the pending books, and joins the processed ones if it succeeded. */
  lemma ClosedRefundBooks(l: Ledger, r: Id, row: Refund, q: Id)
    requires r < |l.refunds| && l.refunds[r].status == RefundOpen && row.status != RefundOpen
    requires row.payment == l.refunds[r].payment && row.amount == l.refunds[r].amount
    ensures BooksOf(l, row.payment).pendingRows > 0
    ensures var b, b' := BooksOf(l, q), BooksOf(SetRefund(l, r, row), q);
            b' == if row.payment != q then b
                  else b.(pending := b.pending - row.amount,
                          pendingRows := b.pendingRows - 1,
                          processed := b.processed + (if row.status == RefundProcessed then row.amount else 0))
  {
    TotalUpdate(l.refunds, r, row, q, RefundProcessed);
    TotalUpdate(l.refunds, r, row, q, RefundOpen);
    RowsUpdate(l.refunds, r, row, q);
    RowsUpdate(l.refunds, r, row, row.payment);
  }

  /** Naming an open refund changes no books. */
  lemma NamedRefundBooks(l: Ledger, r: Id, row: Refund, q: Id)
    requires r < |l.refunds| && row.status == l.refunds[r].status
    requires row.payment == l.refunds[r].payment && row.amount == l.refunds[r].amount
    ensures BooksOf(SetRefund(l, r, row), q) == BooksOf(l, q)
  {
    TotalUpdate(l.refunds, r, row, q, RefundProcessed);
    TotalUpdate(l.refunds, r, row, q, RefundOpen);
    RowsUpdate(l.refunds, r, row, q);
  }

  lemma ChainGrows(status: PaymentStatus, b: Books, target: PaymentStatus)
    requires ChainMatches(status, b)
    ensures ChainMatches(target, b.(chain := b.chain + [AuditRow(Some(status), target)]))
  {
    var chain := b.chain + [AuditRow(Some(status), target)];
    forall i | 1 <= i < |chain| ensures Continues(chain, i) {
      if i < |b.chain| {
        assert Continues(b.chain, i);
      }
    }
  }

  // ---- putting a step together ----

  /** A step that touches one payment keeps the invariant if that payment's books stay sound. */
  lemma Assemble(l: Ledger, l': Ledger, id: Id)
    requires Inv(l) && Constraints(l') && RefundsOk(l') && EventsOk(l')
    requires id < |l'.payments| && |l.payments| <= |l'.payments| <= |l.payments| + 1
    requires |l'.payments| > |l.payments| ==> id == |l.payments|
    requires forall q: Id :: q < |l.payments| && q != id ==> l'.payments[q] == l.payments[q]
    requires forall q: Id :: q != id ==> BooksOf(l', q) == BooksOf(l, q)
    requires Sound(l'.payments[id], BooksOf(l', id))
    ensures Inv(l')
  {
    forall q: Id | q < |l'.payments| ensures Sound(l'.payments[q], BooksOf(l', q)) {
      if q != id {
        assert BooksOf(l', q) == BooksOf(l, q);
      }
    }
    forall q: Id | q >= |l'.payments| ensures BooksOf(l', q) == NO_BOOKS {
      assert BooksOf(l', q) == BooksOf(l, q);
    }
  }

  /** Events stay right when payments keep their booking and amount. */
  lemma EventsKept(l: Ledger, l': Ledger)
    requires EventsOk(l)
    requires |l.payments| <= |l'.payments|
    requires forall q: Id :: q < |l.payments| ==>
               l'.payments[q].booking == l.payments[q].booking && l'.payments[q].amount == l.payments[q].amount
    requires forall e :: e in l'.outbox ==> e in l.outbox || EventOk(l'.payments, e)
    ensures EventsOk(l')
  {
    forall e | e in l'.outbox ensures EventOk(l'.payments, e) {
      if e in l.outbox {
        assert EventOk(l.payments, e);
      }
    }
  }

  // ---- orders ----

  lemma NewPaymentBooks(l: Ledger, booking: Id, candidate: Id, key: Id, q: Id)
    requires Inv(l)
    ensures BooksOf(NewPayment(l, booking, candidate, key), q) ==
            if q == |l.payments| then NO_BOOKS.(chain := [AuditRow(None, Created)]) else BooksOf(l, q)
  {
    RowsOfAppend(l.audit, q, (|l.payments|, AuditRow(None, Created)));
    assert RowsOf(l.audit, q) + [] == RowsOf(l.audit, q);
    assert BooksOf(l, |l.payments|) == NO_BOOKS;
  }

  lemma OrderedKeeps(l: Ledger, created: Ledger, booking: Id, candidate: Id, key: Id, orderId: string, l': Ledger)
    requires Inv(l) && created == NewPayment(l, booking, candidate, key)
    requires l' == Move(created.(payments := created.payments[|l.payments| :=
                                 created.payments[|l.payments|].(orderId := Some(orderId))]),
                        |l.payments|, Pending)
    requires Constraints(l')
    ensures Inv(l')
  {
    var id := |l.payments|;
    var ordered := created.(payments := created.payments[id := created.payments[id].(orderId := Some(orderId))]);
    forall q: Id
      ensures BooksOf(l', q) ==
              if q == id then NO_BOOKS.(chain := [AuditRow(None, Created), AuditRow(Some(Created), Pending)])
                                else BooksOf(l, q)
    {
      NewPaymentBooks(l, booking, candidate, key, q);
      assert BooksOf(ordered, q) == BooksOf(created, q);
      MoveBooks(ordered, id, Pending, q);
    }
    EventsKept(l, l');
    Assemble(l, l', id);
  }

  lemma RejectedKeeps(l: Ledger, created: Ledger, booking: Id, candidate: Id, key: Id, l': Ledger)
    requires Inv(l) && created == NewPayment(l, booking, candidate, key)
    requires l' == Emit(Move(created, |l.payments|, Failed), |l.payments|, FailedEvent)
    requires Constraints(l')
    ensures Inv(l')
  {
    var id := |l.payments|;
    var moved := Move(created, id, Failed);
    var e := l'.outbox[|l.outbox|];
    assert l'.outbox == l.outbox + [e];
    forall q: Id
      ensures BooksOf(l', q) ==
              if q == id then
                NO_BOOKS.(chain := [AuditRow(None, Created), AuditRow(Some(Created), Failed)], failures := 1)
              else BooksOf(l, q)
    {
      NewPaymentBooks(l, booking, candidate, key, q);
      MoveBooks(created, id, Failed, q);
      EventBooks(moved, e, q);
      assert l' == moved.(outbox := moved.outbox + [e]);
    }
    EventsKept(l, l');
    Assemble(l, l', id);
  }

  lemma CreateOrderKeeps(l: Ledger, booking: Id, candidate: Id, key: Id, payable: bool, reply: OrderReply)
    requires Inv(l)
    ensures Inv(CreateOrder(l, booking, candidate, key, payable, reply).0)
  {
    var l' := CreateOrder(l, booking, candidate, key, payable, reply).0;
    if l' != l {
      var created := NewPayment(l, booking, candidate, key);
      if reply.OrderAccepted? && reply.amount == PRICE && reply.currency == INR {
        OrderedKeeps(l, created, booking, candidate, key, reply.orderId, l');
      } else {
        RejectedKeeps(l, created, booking, candidate, key, l');
      }
    }
  }

  // ---- settlement ----

  /** Storing the provider's reference changes no books. */
  lemma ReferenceBooks(l: Ledger, id: Id, reference: Reference, q: Id)
    requires id < |l.payments|
    ensures BooksOf(SetReference(l, id, reference), q) == BooksOf(l, q)
  {
  }

  /** The settlement event of a target, if it has one. */
  function Settled(moved: Ledger, id: Id, target: PaymentStatus): Ledger
    requires id < |moved.payments|
  {
    match target
    case Captured => Emit(moved, id, CapturedEvent)
    case Failed => Emit(moved, id, FailedEvent)
    case _ => moved
  }

  /** One payment's books after it left PENDING or AUTHORIZED. */
  function SettledBooks(b: Books, status: PaymentStatus, target: PaymentStatus): Books {
    b.(chain := b.chain + [AuditRow(Some(status), target)],
       captures := b.captures + (if target == Captured then 1 else 0),
       failures := b.failures + (if target == Failed then 1 else 0))
  }

  lemma EmitBooks(l: Ledger, id: Id, kind: PaymentEventType, q: Id)
    requires id < |l.payments| && kind in {CapturedEvent, FailedEvent}
    ensures var b := BooksOf(l, q);
            BooksOf(Emit(l, id, kind), q) ==
            if q != id then b
            else b.(captures := b.captures + (if kind == CapturedEvent then 1 else 0),
                    failures := b.failures + (if kind == FailedEvent then 1 else 0))
  {
    var e := LedgerEvent(kind, id, l.payments[id].booking, l.payments[id].amount, l.payments[id].currency, None);
    assert Emit(l, id, kind) == l.(outbox := l.outbox + [e]);
    EventBooks(l, e, q);
  }

  /** What the settlement event adds to the books. */
  lemma SettledEvents(moved: Ledger, id: Id, target: PaymentStatus, q: Id)
    requires id < |moved.payments| && target in {Authorized, Captured, Failed}
    ensures var b := BooksOf(moved, q);
            BooksOf(Settled(moved, id, target), q) ==
            if q != id then b
            else b.(captures := b.captures + (if target == Captured then 1 else 0),
                    failures := b.failures + (if target == Failed then 1 else 0))
  {
    match target {
      case Captured => EmitBooks(moved, id, CapturedEvent, q);
      case Failed => EmitBooks(moved, id, FailedEvent, q);
      case Authorized =>
    }
  }

  lemma SettlingBooks(l: Ledger, id: Id, reference: Reference, target: PaymentStatus, q: Id)
    requires id < |l.payments| && target in {Authorized, Captured, Failed}
    ensures BooksOf(Settled(Move(SetReference(l, id, reference), id, target), id, target), q) ==
            if q != id then BooksOf(l, q) else SettledBooks(BooksOf(l, q), l.payments[id].status, target)
  {
    var referenced := SetReference(l, id, reference);
    ReferenceBooks(l, id, reference, q);
    MoveBooks(referenced, id, target, q);
    SettledEvents(Move(referenced, id, target), id, target, q);
  }

  lemma SettlingIsSound(p: Payment, b: Books, reference: Reference, target: PaymentStatus)
    requires Sound(p, b) && p.status in {Pending, Authorized} && target in {Authorized, Captured, Failed}
    requires p.amount > 0
    ensures Sound(p.(providerPaymentId := Some(reference), status := target), SettledBooks(b, p.status, target))
  {
    ChainGrows(p.status, b, target);
  }

  lemma SettlingKeepsEvents(l: Ledger, id: Id, reference: Reference, target: PaymentStatus)
    requires Constraints(l) && EventsOk(l) && id < |l.payments|
    ensures EventsOk(Settled(Move(SetReference(l, id, reference), id, target), id, target))
  {
    EventsKept(l, Settled(Move(SetReference(l, id, reference), id, target), id, target));
  }

  /** Leaving PENDING or AUTHORIZED, with the settlement event if there is one. */
  lemma SettlementKeeps(l: Ledger, id: Id, reference: Reference, target: PaymentStatus, l': Ledger)
    requires Inv(l) && id < |l.payments| && l.payments[id].status in {Pending, Authorized}
    requires target in {Authorized, Captured, Failed}
    requires l' == Settled(Move(SetReference(l, id, reference), id, target), id, target)
    requires Constraints(l')
    ensures Inv(l')
  {
    forall q: Id
      ensures BooksOf(l', q) ==
              if q != id then BooksOf(l, q) else SettledBooks(BooksOf(l, q), l.payments[id].status, target)
    {
      SettlingBooks(l, id, reference, target, q);
    }
    SettlingIsSound(l.payments[id], BooksOf(l, id), reference, target);
    SettlingKeepsEvents(l, id, reference, target);
    Assemble(l, l', id);
  }

  lemma ReferenceKeeps(l: Ledger, id: Id, reference: Reference)
    requires Inv(l) && id < |l.payments| && Constraints(SetReference(l, id, reference))
    ensures Inv(SetReference(l, id, reference))
  {
    var l' := SetReference(l, id, reference);
    forall q: Id ensures BooksOf(l', q) == BooksOf(l, q) {
      ReferenceBooks(l, id, reference, q);
    }
    EventsKept(l, l');
    Assemble(l, l', id);
  }

  lemma DevelopmentKeeps(l: Ledger, id: Id, candidate: Id, payable: bool)
    requires Inv(l)
    ensures Inv(CompleteDevelopment(l, id, candidate, payable).0)
  {
    var l' := CompleteDevelopment(l, id, candidate, payable).0;
    if l' != l {
      SettlementKeeps(l, id, DevelopmentReference(id), Captured, l');
    }
  }

  lemma PaymentHookKeeps(l: Ledger, kind: HookType, entity: PaymentEntity)
    requires Inv(l) && Constraints(ApplyPaymentHook(l, kind, entity).0)
    ensures Inv(ApplyPaymentHook(l, kind, entity).0)
  {
    var l' := ApplyPaymentHook(l, kind, entity).0;
    if l' != l {
      var id := First(l.payments, HasOrder(entity.orderId)).value;
      var target := HookTarget(kind);
      if l.payments[id].status != target && HookAllowed(l.payments[id].status, target) {
        SettlementKeeps(l, id, Named(entity.paymentId), target, l');
      } else {
        ReferenceKeeps(l, id, Named(entity.paymentId));
      }
    }
  }

  // ---- refunds ----

  /** The books once a refund has been requested. */
  function Asked(b: Books, status: PaymentStatus, amount: int): Books {
    b.(pending := b.pending + amount,
       pendingRows := b.pendingRows + 1,
       refundRows := b.refundRows + 1,
       chain := b.chain + [AuditRow(Some(status), RefundPending)])
  }

  lemma AskedBooks(l: Ledger, id: Id, amount: int, q: Id)
    requires id < |l.payments|
    ensures BooksOf(OpenRefund(l, id, amount), q) ==
            if q == id then Asked(BooksOf(l, id), l.payments[id].status, amount) else BooksOf(l, q)
  {
    var refund := Refund(id, amount, RefundOpen, None);
    var added := l.(refunds := l.refunds + [refund]);
    NewRefundBooks(l, refund, q);
    MoveBooks(added, id, RefundPending, q);
  }

  /** A processed refund: money moves from pending to processed, and is announced. */
  function Returned(b: Books, amount: int, target: PaymentStatus): Books
    requires b.pendingRows > 0
  {
    b.(pending := b.pending - amount,
       pendingRows := b.pendingRows - 1,
       processed := b.processed + amount,
       refundedOut := b.refundedOut + amount,
       chain := b.chain + [AuditRow(Some(RefundPending), target)])
  }

  lemma ReturnedBooks(l: Ledger, r: Id, row: Refund, target: PaymentStatus, q: Id)
    requires r < |l.refunds| && l.refunds[r].status == RefundOpen && row.status == RefundProcessed
    requires row.payment == l.refunds[r].payment && row.amount == l.refunds[r].amount
    requires row.payment < |l.payments| && l.payments[row.payment].status == RefundPending
    ensures BooksOf(l, row.payment).pendingRows > 0
    ensures BooksOf(EmitRefund(Move(SetRefund(l, r, row), row.payment, target), row.payment, r), q) ==
            if q == row.payment then Returned(BooksOf(l, q), row.amount, target) else BooksOf(l, q)
  {
    var done := SetRefund(l, r, row);
    var moved := Move(done, row.payment, target);
    var announced := EmitRefund(moved, row.payment, r);
    ClosedRefundBooks(l, r, row, q);
    MoveBooks(done, row.payment, target, q);
    var e := LedgerEvent(RefundedEvent, row.payment, moved.payments[row.payment].booking, row.amount,
                         moved.payments[row.payment].currency, Some(r));
    assert announced == moved.(outbox := moved.outbox + [e]);
    EventBooks(moved, e, q);
  }

  /** Asking for no more than what is left keeps the books balanced. */
  lemma AskedIsSound(p: Payment, b: Books, amount: int)
    requires p.amount == PRICE && Sound(p, b) && p.status in {Captured, PartiallyRefunded}
    requires 0 < amount <= p.amount - b.processed
    ensures Sound(p.(status := RefundPending), Asked(b, p.status, amount))
  {
    ChainGrows(p.status, b, RefundPending);
  }

  lemma ReturnedIsSound(p: Payment, b: Books, amount: int)
    requires p.amount == PRICE && Sound(p, b) && p.status == RefundPending && amount == b.pending
    ensures var target := AfterRefund(p.amount, b.processed + amount);
            Sound(p.(status := target), Returned(b, amount, target))
  {
    ChainGrows(p.status, b, AfterRefund(p.amount, b.processed + amount));
  }

  lemma ReturnKeeps(l: Ledger, r: Id, row: Refund, target: PaymentStatus, l': Ledger)
    requires Inv(l) && r < |l.refunds| && l.refunds[r].status == RefundOpen && row.status == RefundProcessed
    requires row.payment == l.refunds[r].payment && row.amount == l.refunds[r].amount && row.providerRefundId.Some?
    requires row.payment < |l.payments| && l.payments[row.payment].status == RefundPending
    requires row.amount == BooksOf(l, row.payment).pending
    requires target == AfterRefund(l.payments[row.payment].amount, BooksOf(l, row.payment).processed + row.amount)
    requires l' == EmitRefund(Move(SetRefund(l, r, row), row.payment, target), row.payment, r)
    requires Constraints(l')
    ensures Inv(l')
  {
    var id := row.payment;
    forall q: Id ensures BooksOf(l, id).pendingRows > 0
      && BooksOf(l', q) == if q == id then Returned(BooksOf(l, q), row.amount, target) else BooksOf(l, q)
    {
      ReturnedBooks(l, r, row, target, q);
    }
    ReturnedIsSound(l.payments[id], BooksOf(l, id), row.amount);
    EventsKept(l, l');
    Assemble(l, l', id);
  }

  /** The last refund row of a payment that waits for exactly one refund. */
  lemma {:induction false} PendingIsThatRow(refunds: seq<Refund>, r: Id, id: Id)
    requires r < |refunds| && refunds[r].payment == id && refunds[r].status == RefundOpen
    requires PendingRows(refunds, id) <= 1
    requires forall k :: 0 <= k < |refunds| ==> refunds[k].amount > 0
    ensures Total(refunds, id, RefundOpen) == refunds[r].amount
  {
    var n := |refunds| - 1;
    var init := refunds[..n];
    if r == n {
      NonePending(init, id);
    } else {
      PendingIsThatRow(init, r, id);
      SomePending(init, r, id);
    }
  }

  lemma {:induction false} NonePending(refunds: seq<Refund>, id: Id)
    requires PendingRows(refunds, id) == 0
    ensures Total(refunds, id, RefundOpen) == 0
  {
    if |refunds| == 0 {
    } else {
      NonePending(refunds[..|refunds| - 1], id);
    }
  }

  lemma {:induction false} SomePending(refunds: seq<Refund>, r: Id, id: Id)
    requires r < |refunds| && refunds[r].payment == id && refunds[r].status == RefundOpen
    ensures PendingRows(refunds, id) > 0
  {
    if r < |refunds| - 1 {
      SomePending(refunds[..|refunds| - 1], r, id);
    }
  }

  lemma RefundHookKeeps(l: Ledger, refundId: string)
    requires Inv(l) && Constraints(ApplyRefundHook(l, refundId).0)
    ensures Inv(ApplyRefundHook(l, refundId).0)
  {
    var l' := ApplyRefundHook(l, refundId).0;
    if l' != l {
      var r := First(l.refunds, HasRefundId(refundId)).value;
      var id := l.refunds[r].payment;
      assert Sound(l.payments[id], BooksOf(l, id));
      SomePending(l.refunds, r, id);
      PendingIsThatRow(l.refunds, r, id);
      var row := l.refunds[r].(status := RefundProcessed);
      TotalUpdate(l.refunds, r, row, id, RefundProcessed);
      ReturnKeeps(l, r, row, AfterRefund(l.payments[id].amount, BooksOf(l, id).processed + row.amount), l');
    }
  }

  /** A requested refund, whatever the provider answers. */
  lemma SettleRefundKeeps(l: Ledger, id: Id, amount: int, reply: RefundReply)
    requires Inv(l) && id < |l.payments| && l.payments[id].status in {Captured, PartiallyRefunded}
    requires 0 < amount <= l.payments[id].amount - Total(l.refunds, id, RefundProcessed)
    ensures Inv(SettleRefund(l, OpenRefund(l, id, amount), id, Total(l.refunds, id, RefundProcessed), reply).0)
  {
    var already := Total(l.refunds, id, RefundProcessed);
    var asked := OpenRefund(l, id, amount);
    var l' := SettleRefund(l, asked, id, already, reply).0;
    var r := |l.refunds|;
    var b := BooksOf(l, id);
    assert Sound(l.payments[id], b);
    AskedIsSound(l.payments[id], b, amount);
    forall q: Id ensures BooksOf(asked, q) ==
      if q == id then Asked(b, l.payments[id].status, amount) else BooksOf(l, q) {
      AskedBooks(l, id, amount, q);
    }
    if l' != l {
      match reply {
        case RefundRejected => RejectKeeps(l, asked, id, amount, l');
        case RefundAccepted(refundId, processed) =>
          if processed {
            AcceptKeeps(l, asked, id, amount, refundId, l');
          } else {
            NamedKeeps(l, asked, id, amount, refundId, l');
          }
      }
    }
  }

  ghost predicate JustAsked(l: Ledger, asked: Ledger, id: Id, amount: int) {
    && Inv(l) && id < |l.payments| && l.payments[id].status in {Captured, PartiallyRefunded}
    && 0 < amount <= l.payments[id].amount - BooksOf(l, id).processed
    && asked == OpenRefund(l, id, amount)
    && Sound(asked.payments[id], BooksOf(asked, id))
    && (forall q: Id :: BooksOf(asked, q) ==
          if q == id then Asked(BooksOf(l, id), l.payments[id].status, amount) else BooksOf(l, q))
  }

  lemma NamedKeeps(l: Ledger, asked: Ledger, id: Id, amount: int, refundId: string, l': Ledger)
    requires JustAsked(l, asked, id, amount) && Constraints(l')
    requires l' == SetRefund(asked, |l.refunds|, asked.refunds[|l.refunds|].(providerRefundId := Some(refundId)))
    ensures Inv(l')
  {
    forall q: Id ensures BooksOf(l', q) == BooksOf(asked, q) {
      NamedRefundBooks(asked, |l.refunds|, l'.refunds[|l.refunds|], q);
    }
    EventsKept(l, l');
    Assemble(l, l', id);
  }

  /** The books after a refund that was asked for has failed. */
  function Refused(b: Books, amount: int): Books {
    b.(pending := b.pending - amount, pendingRows := if b.pendingRows > 0 then b.pendingRows - 1 else 0,
       chain := b.chain + [AuditRow(Some(RefundPending), Captured)])
  }

  lemma RefusedBooks(l: Ledger, r: Id, q: Id)
    requires r < |l.refunds| && l.refunds[r].status == RefundOpen && l.refunds[r].payment < |l.payments|
    requires l.payments[l.refunds[r].payment].status == RefundPending
    ensures var id := l.refunds[r].payment;
            BooksOf(Move(SetRefund(l, r, l.refunds[r].(status := RefundFailed)), id, Captured), q) ==
            if q != id then BooksOf(l, q) else Refused(BooksOf(l, q), l.refunds[r].amount)
  {
    var row := l.refunds[r].(status := RefundFailed);
    ClosedRefundBooks(l, r, row, q);
    MoveBooks(SetRefund(l, r, row), row.payment, Captured, q);
  }

  lemma RefusedIsSound(p: Payment, b: Books, amount: int)
    requires Sound(p, b) && p.status in {Captured, PartiallyRefunded} && 0 < amount <= p.amount - b.processed
    ensures Sound(p.(status := Captured), Refused(Asked(b, p.status, amount), amount))
  {
    ChainGrows(p.status, b, RefundPending);
    ChainGrows(RefundPending, Asked(b, p.status, amount), Captured);
  }

  /** A rejected refund gives the payment back to CAPTURED, even after earlier partial refunds. */
  lemma RejectKeeps(l: Ledger, asked: Ledger, id: Id, amount: int, l': Ledger)
    requires JustAsked(l, asked, id, amount) && Constraints(l')
    requires l' == Move(SetRefund(asked, |l.refunds|,
                                  asked.refunds[|l.refunds|].(status := RefundFailed)), id, Captured)
    ensures Inv(l')
  {
    forall q: Id
      ensures BooksOf(l', q) ==
              if q != id then BooksOf(l, q) else Refused(Asked(BooksOf(l, q), l.payments[id].status, amount), amount)
    {
      RefusedBooks(asked, |l.refunds|, q);
    }
    RefusedIsSound(l.payments[id], BooksOf(l, id), amount);
    EventsKept(l, l');
    Assemble(l, l', id);
  }

  lemma AcceptKeepsEvents(l: Ledger, asked: Ledger, id: Id, amount: int, l': Ledger, e: LedgerEvent)
    requires JustAsked(l, asked, id, amount) && l'.outbox == l.outbox + [e] && |l'.payments| == |l.payments|
    requires e.payment == id && e.kind == RefundedEvent && e.currency == INR && e.booking == l.payments[id].booking
    requires forall q: Id :: q < |l.payments| ==>
               l'.payments[q].booking == l.payments[q].booking && l'.payments[q].amount == l.payments[q].amount
    ensures EventsOk(l')
  {
    EventsKept(l, l');
  }

  lemma AcceptKeeps(l: Ledger, asked: Ledger, id: Id, amount: int, refundId: string, l': Ledger)
    requires JustAsked(l, asked, id, amount) && Constraints(l')
    requires l' == (var row := asked.refunds[|l.refunds|].(providerRefundId := Some(refundId),
                                                           status := RefundProcessed);
                    var target := AfterRefund(asked.payments[id].amount, BooksOf(l, id).processed + amount);
                    EmitRefund(Move(SetRefund(asked, |l.refunds|, row), id, target), id, |l.refunds|))
    ensures Inv(l')
  {
    var r := |l.refunds|;
    var row := asked.refunds[r].(providerRefundId := Some(refundId), status := RefundProcessed);
    var target := AfterRefund(asked.payments[id].amount, BooksOf(l, id).processed + amount);
    forall q: Id ensures BooksOf(asked, id).pendingRows > 0
      && BooksOf(l', q) == if q == id then Returned(BooksOf(asked, q), amount, target) else BooksOf(l, q)
    {
      ReturnedBooks(asked, r, row, target, q);
    }
    ReturnedIsSound(asked.payments[id], BooksOf(asked, id), amount);
    AcceptKeepsEvents(l, asked, id, amount, l', l'.outbox[|l.outbox|]);
    Assemble(l, l', id);
  }

  lemma RequestRefundKeeps(l: Ledger, id: Id, amount: Option<int>, reply: RefundReply)
    requires Inv(l)
    ensures Inv(RequestRefund(l, id, amount, reply).0)
  {
    if RequestRefund(l, id, amount, reply).0 != l {
      var wanted := RefundAmount(amount, l.payments[id]);
      var asked := OpenRefund(l, id, wanted);
      assert asked.refunds[|l.refunds|].amount == wanted;
      SettleRefundKeeps(l, id, wanted, reply);
    }
  }

  // ---- webhooks and runs ----

  lemma SetHookKeeps(l: Ledger, event: string, status: WebhookStatus)
    ensures Constraints(SetHook(l, event, status)) <==> Constraints(l)
    ensures Inv(l) ==> Inv(SetHook(l, event, status))
  {
    if Inv(l) {
      forall q: Id ensures BooksOf(SetHook(l, event, status), q) == BooksOf(l, q) {
      }
    }
  }

  lemma ApplyHookKeeps(l: Ledger, kind: HookType, payload: Payload)
    requires Inv(l) && Constraints(ApplyHook(l, kind, payload).0)
    ensures Inv(ApplyHook(l, kind, payload).0)
  {
    if kind == RefundProcessedHook {
      if payload.refundId.Some? {
        RefundHookKeeps(l, payload.refundId.value);
      }
    } else if payload.payment.Some? {
      PaymentHookKeeps(l, kind, payload.payment.value);
    }
  }

  lemma ProcessWebhookKeeps(l: Ledger, event: string, kind: HookType, payload: Payload)
    requires Inv(l)
    ensures Inv(ProcessWebhook(l, event, kind, payload).0)
  {
    if ProcessWebhook(l, event, kind, payload).0 != l {
      if kind == UnsupportedHook {
        SetHookKeeps(l, event, Ignored);
      } else {
        var (applied, result) := ApplyHook(l, kind, payload);
        SetHookKeeps(applied, event, HookFailed);
        SetHookKeeps(applied, event, Processed);
        ApplyHookKeeps(l, kind, payload);
      }
    }
  }

  lemma StepKeeps(l: Ledger, op: PaymentOp)
    requires Inv(l)
    ensures Inv(Step(l, op))
  {
    match op {
      case OrderOp(booking, candidate, key, payable, reply) =>
        CreateOrderKeeps(l, booking, candidate, key, payable, reply);
      case DevelopmentOp(id, candidate, payable) => DevelopmentKeeps(l, id, candidate, payable);
      case HookOp(event, kind, payload) => ProcessWebhookKeeps(l, event, kind, payload);
      case RefundOp(id, amount, reply) => RequestRefundKeeps(l, id, amount, reply);
    }
  }

  lemma {:induction false} ReplayKeeps(ops: seq<PaymentOp>)
    ensures Inv(Replay(ops))
  {
    if |ops| == 0 {
      EmptyOk();
    } else {
      ReplayKeeps(ops[..|ops| - 1]);
      StepKeeps(Replay(ops[..|ops| - 1]), ops[|ops| - 1]);
    }
  }

  /** Some run of steps leads to this ledger. */
  ghost predicate Reachable(l: Ledger) {
    exists ops :: Replay(ops) == l
  }

  lemma ReachableStep(l: Ledger, op: PaymentOp)
    requires Reachable(l)
    ensures Reachable(Step(l, op))
  {
    var ops :| Replay(ops) == l;
    assert (ops + [op])[..|ops|] == ops;
    assert Replay(ops + [op]) == Step(l, op);
  }

  lemma EmptyIsReachable()
    ensures Reachable(EMPTY_LEDGER)
  {
    assert Replay([]) == EMPTY_LEDGER;
  }

  // ---- what holds after every run ----

  /** Refunded money is conserved: processed and pending refunds never exceed the payment, one refund
      is pending exactly while the payment waits for it, the two refunded statuses mean what they say,
      and the outbox announces exactly the processed money. */
  lemma {:induction false} RefundsConserved(ops: seq<PaymentOp>, id: Id)
    requires id < |Replay(ops).payments|
    ensures var l := Replay(ops);
            var p, processed, pending := l.payments[id], Total(l.refunds, id, RefundProcessed),
                Total(l.refunds, id, RefundOpen);
            && 0 <= processed && 0 <= pending && processed + pending <= p.amount
            && PendingRows(l.refunds, id) == (if p.status == RefundPending then 1 else 0)
            && (p.status == Refunded <==> processed == p.amount)
            && (p.status == PartiallyRefunded ==> 0 < processed < p.amount)
            && RefundedOut(l.outbox, id) == processed
  {
    ReplayKeeps(ops);
    assert Sound(Replay(ops).payments[id], BooksOf(Replay(ops), id));
  }

  /** Each payment announces at most one settlement, a capture or a failure, and exactly one once it
      has left PENDING and AUTHORIZED. */
  lemma {:induction false} OneSettlementEvent(ops: seq<PaymentOp>, id: Id)
    requires id < |Replay(ops).payments|
    ensures var l := Replay(ops);
            var captures, failures := Announcements(l.outbox, id, CapturedEvent),
                Announcements(l.outbox, id, FailedEvent);
            && captures + failures == (if l.payments[id].status in {Pending, Authorized} then 0 else 1)
            && (captures == 1 <==> WasCaptured(l.payments[id].status))
  {
    ReplayKeeps(ops);
    assert Sound(Replay(ops).payments[id], BooksOf(Replay(ops), id));
  }

  /** The audit table holds one connected chain per payment, from creation to its status. */
  lemma {:induction false} AuditIsConnected(ops: seq<PaymentOp>, id: Id)
    requires id < |Replay(ops).payments|
    ensures IsAuditPath(RowsOf(Replay(ops).audit, id))
    ensures RowsOf(Replay(ops).audit, id)[|RowsOf(Replay(ops).audit, id)| - 1].to == Replay(ops).payments[id].status
  {
    ReplayKeeps(ops);
    ChainOf(Replay(ops), id);
  }

  lemma ChainOf(l: Ledger, id: Id)
    requires Inv(l) && id < |l.payments|
    ensures IsAuditPath(RowsOf(l.audit, id))
    ensures RowsOf(l.audit, id)[|RowsOf(l.audit, id)| - 1].to == l.payments[id].status
  {
    assert Sound(l.payments[id], BooksOf(l, id));
  }

  /** At most one payment exists for a booking. */
  lemma {:induction false} OnePaymentPerBooking(ops: seq<PaymentOp>, a: Id, b: Id)
    requires a < |Replay(ops).payments| && b < |Replay(ops).payments| && a != b
    ensures Replay(ops).payments[a].booking != Replay(ops).payments[b].booking
  {
    ReplayKeeps(ops);
    BookingIsUnique(Replay(ops), a, b);
  }

  lemma BookingIsUnique(l: Ledger, a: Id, b: Id)
    requires Constraints(l) && a < |l.payments| && b < |l.payments| && a != b
    ensures l.payments[a].booking != l.payments[b].booking
  {
    var low, high := if a < b then a else b, if a < b then b else a;
    assert PaymentsDistinct(l.payments[low], l.payments[high]);
  }

  /** Once a webhook has been processed or ignored it stays so through any further steps. */
  lemma FinishedStays(l: Ledger, op: PaymentOp, event: string)
    requires Finished(l, event)
    ensures Finished(Step(l, op), event) && Step(l, op).webhooks[event] == l.webhooks[event]
  {
  }

  function StepAll(l: Ledger, ops: seq<PaymentOp>): Ledger {
    if |ops| == 0 then l else Step(StepAll(l, ops[..|ops| - 1]), ops[|ops| - 1])
  }

  lemma {:induction false} FinishedForever(l: Ledger, ops: seq<PaymentOp>, event: string)
    requires Finished(l, event)
    ensures Finished(StepAll(l, ops), event)
  {
    if |ops| == 0 {
    } else {
      FinishedForever(l, ops[..|ops| - 1], event);
      FinishedStays(StepAll(l, ops[..|ops| - 1]), ops[|ops| - 1], event);
    }
  }

  /** Redelivering a processed or ignored webhook, at any later point of any run, changes nothing,
      whatever type or payload the redelivery carries. */
  lemma {:induction false} RedeliveryChangesNothing(l: Ledger, ops: seq<PaymentOp>, event: string,
      kind: HookType, payload: Payload)
    requires Finished(l, event)
    ensures Step(StepAll(l, ops), HookOp(event, kind, payload)) == StepAll(l, ops)
  {
    FinishedForever(l, ops, event);
  }

  // ---- refused payment webhooks ----

  /** A payment webhook that is refused because its transition is not allowed. */
  predicate RefusedMove(l: Ledger, kind: HookType, entity: PaymentEntity) {
    var found := First(l.payments, HasOrder(entity.orderId));
    && kind in {AuthorizedHook, CapturedHook, FailedHook} && found.Some?
    && var p := l.payments[found.value];
       && entity.amount == p.amount && entity.currency == p.currency
       && p.status != HookTarget(kind) && !HookAllowed(p.status, HookTarget(kind))
  }

  /** The guard of a refused webhook that still stores its payment reference: its move is refused, and no
      payment carries the reference yet. */
  predicate Overwrites(l: Ledger, event: string, kind: HookType, payload: Payload) {
    && !Finished(l, event) && payload.payment.Some? && RefusedMove(l, kind, payload.payment.value)
    && forall q :: 0 <= q < |l.payments| ==>
         l.payments[q].providerPaymentId != Some(Named(payload.payment.value.paymentId))
  }

  lemma RefusedPaymentHook(l: Ledger, kind: HookType, entity: PaymentEntity)
    requires kind in {AuthorizedHook, CapturedHook, FailedHook}
    ensures var (applied, result) := ApplyPaymentHook(l, kind, entity);
            && (RefusedMove(l, kind, entity) ==>
                  var id := First(l.payments, HasOrder(entity.orderId)).value;
                  result.Err? && applied == SetReference(l, id, Named(entity.paymentId)))
            && (!RefusedMove(l, kind, entity) && result.Err? ==> applied == l)
  {
  }

  lemma RefusedRefundHook(l: Ledger, refundId: string)
    ensures ApplyRefundHook(l, refundId).1.Err? ==> ApplyRefundHook(l, refundId).0 == l
  {
  }

  lemma ReferenceCommits(l: Ledger, id: Id, reference: Reference)
    requires Constraints(l) && id < |l.payments|
    ensures Constraints(SetReference(l, id, reference)) <==>
            forall q :: 0 <= q < |l.payments| && q != id ==> l.payments[q].providerPaymentId != Some(reference)
  {
    var l' := SetReference(l, id, reference);
    if Constraints(l') {
      forall q | 0 <= q < |l.payments| && q != id ensures l.payments[q].providerPaymentId != Some(reference) {
        var low, high := if q < id then q else id, if q < id then id else q;
        assert PaymentsDistinct(l'.payments[low], l'.payments[high]);
      }
    }
    if forall q :: 0 <= q < |l.payments| && q != id ==> l.payments[q].providerPaymentId != Some(reference) {
      forall i, j | 0 <= i < j < |l'.payments| ensures PaymentsDistinct(l'.payments[i], l'.payments[j]) {
        assert PaymentsDistinct(l.payments[i], l.payments[j]);
      }
    }
  }

  /** A refused webhook leaves nothing but its own row, or in addition the reference of the payment whose
      move it asked for. */
  lemma RefusedApply(l: Ledger, kind: HookType, payload: Payload)
    requires kind != UnsupportedHook && ApplyHook(l, kind, payload).1.Err?
    ensures if kind != RefundProcessedHook && payload.payment.Some? && RefusedMove(l, kind, payload.payment.value)
            then var entity := payload.payment.value;
                 ApplyHook(l, kind, payload).0
                 == SetReference(l, First(l.payments, HasOrder(entity.orderId)).value, Named(entity.paymentId))
            else ApplyHook(l, kind, payload).0 == l
  {
    if kind == RefundProcessedHook {
      if payload.refundId.Some? {
        RefusedRefundHook(l, payload.refundId.value);
      }
    } else if payload.payment.Some? {
      RefusedPaymentHook(l, kind, payload.payment.value);
    }
  }

  /** A refused webhook changes the payments exactly under the guard, and then only the reference of the
      named payment; it never announces, refunds or audits anything. */
  lemma RefusedHookOverwrites(l: Ledger, event: string, kind: HookType, payload: Payload)
    requires Inv(l) && ProcessWebhook(l, event, kind, payload).1.Err?
    ensures var l' := ProcessWebhook(l, event, kind, payload).0;
            && (l'.payments != l.payments <==> Overwrites(l, event, kind, payload))
            && (Overwrites(l, event, kind, payload) ==>
                  var entity := payload.payment.value;
                  l'.payments
                  == SetReference(l, First(l.payments, HasOrder(entity.orderId)).value,
                                  Named(entity.paymentId)).payments)
            && l'.refunds == l.refunds && l'.audit == l.audit && l'.outbox == l.outbox
  {
    SetHookKeeps(l, event, Ignored);
    if kind != UnsupportedHook && !Finished(l, event) {
      SetHookKeeps(ApplyHook(l, kind, payload).0, event, HookFailed);
      if ApplyHook(l, kind, payload).1.Err? {
        RefusedApply(l, kind, payload);
        RefusedCommit(l, event, kind, payload);
      } else {
        AppliedIsNoOverwrite(l, event, kind, payload);
      }
    }
  }

  /** A hook that is applied asks for no refused move. */
  lemma AppliedIsNoOverwrite(l: Ledger, event: string, kind: HookType, payload: Payload)
    requires kind != UnsupportedHook && ApplyHook(l, kind, payload).1.Ok?
    ensures !Overwrites(l, event, kind, payload)
  {
    if kind in {AuthorizedHook, CapturedHook, FailedHook} && payload.payment.Some? {
      RefusedPaymentHook(l, kind, payload.payment.value);
    }
  }

  /** Whether the stored reference survives the commit. */
  lemma RefusedCommit(l: Ledger, event: string, kind: HookType, payload: Payload)
    requires Constraints(l) && !Finished(l, event)
    requires kind != UnsupportedHook && ApplyHook(l, kind, payload).1.Err?
    ensures Overwrites(l, event, kind, payload) <==>
            Constraints(ApplyHook(l, kind, payload).0) && ApplyHook(l, kind, payload).0.payments != l.payments
  {
    RefusedApply(l, kind, payload);
    if kind != RefundProcessedHook && payload.payment.Some? && RefusedMove(l, kind, payload.payment.value) {
      var entity := payload.payment.value;
      ReferenceCommits(l, First(l.payments, HasOrder(entity.orderId)).value, Named(entity.paymentId));
    }
  }

  /** One payment of the given status and reference, and nothing else. */
  predicate OnlyPaymentIs(l: Ledger, status: PaymentStatus, reference: Option<Reference>) {
    l.payments == [Payment(0, 0, PRICE, INR, Some("order"), reference, status, 0)] && l.refunds == []
  }

  lemma FirstOrder()
    ensures var l := CreateOrder(EMPTY_LEDGER, 0, 0, 0, true, OrderAccepted("order", PRICE, INR)).0;
            OnlyPaymentIs(l, Pending, None) && l.webhooks == map[]
  {
  }

  function Entity(paymentId: string): Payload {
    Payload(Some(PaymentEntity(Some("order"), paymentId, PRICE, INR)), None)
  }

  lemma FirstCapture(l: Ledger)
    requires OnlyPaymentIs(l, Pending, None) && "first" !in l.webhooks
    ensures var l' := ProcessWebhook(l, "first", CapturedHook, Entity("payment")).0;
            OnlyPaymentIs(l', Captured, Some(Named("payment"))) && l'.webhooks == l.webhooks["first" := Processed]
  {
    assert First(l.payments, HasOrder(Some("order"))) == Some(0);
  }

  lemma LateFailureOverwrites(l: Ledger)
    requires OnlyPaymentIs(l, Captured, Some(Named("payment"))) && "late" !in l.webhooks
    ensures Overwrites(l, "late", FailedHook, Entity("other"))
  {
    assert First(l.payments, HasOrder(Some("order"))) == Some(0);
    assert "other" != "payment";
  }

  /** It does happen: a failure webhook that arrives after the capture under another payment id. */
  lemma RefusedHookHappens()
    ensures exists l :: Reachable(l) && Overwrites(l, "late", FailedHook, Entity("other"))
  {
    var order := OrderOp(0, 0, 0, true, OrderAccepted("order", PRICE, INR));
    var hook := HookOp("first", CapturedHook, Entity("payment"));
    EmptyIsReachable();
    ReachableStep(EMPTY_LEDGER, order);
    ReachableStep(Step(EMPTY_LEDGER, order), hook);
    FirstOrder();
    FirstCapture(Step(EMPTY_LEDGER, order));
    LateFailureOverwrites(Step(Step(EMPTY_LEDGER, order), hook));
  }

  // ---- rejected refunds ----

  /** A refund that the provider rejects returns its payment to CAPTURED whatever was refunded before, and
      what was refunded before stays refunded. */
  lemma RejectedRefundReturns(l: Ledger, id: Id, amount: Option<int>)
    requires Inv(l) && RequestRefund(l, id, amount, RefundRejected).1 == Err(ProviderError)
    ensures var l' := RequestRefund(l, id, amount, RefundRejected).0;
            && id < |l'.payments| && l'.payments[id].status == Captured
            && Total(l'.refunds, id, RefundProcessed) == Total(l.refunds, id, RefundProcessed)
            && l'.outbox == l.outbox
  {
    var wanted := RefundAmount(amount, l.payments[id]);
    var asked := OpenRefund(l, id, wanted);
    var row := asked.refunds[|l.refunds|].(status := RefundFailed);
    assert asked.refunds[..|l.refunds|] == l.refunds;
    TotalUpdate(asked.refunds, |l.refunds|, row, id, RefundProcessed);
  }
}
