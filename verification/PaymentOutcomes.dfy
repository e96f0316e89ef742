/** When each payment operation succeeds and what it then leaves behind, stated on the tables themselves,
    and where a capture comes from. */
module PaymentOutcomes {
  import opened Tables
  import opened Contracts
  import opened PaymentLedger
  import opened PaymentSafety

  // ---- payment webhooks ----

  /** The status that a webhook about a payment's order leaves; None refuses it. */
  function AfterHook(kind: HookType, status: PaymentStatus): Option<PaymentStatus> {
    if kind == AuthorizedHook && status in {Pending, Authorized} then Some(Authorized)
    else if kind == CapturedHook && status in {Pending, Authorized, Captured} then Some(Captured)
    else if kind == FailedHook && status in {Pending, Authorized, Failed} then Some(Failed)
    else None
  }

  /** A capture or failure that changes the status is announced once, with the payment's own amount. */
  function EventsAfter(id: Id, p: Payment, after: PaymentStatus): seq<LedgerEvent> {
    if after == p.status then []
    else if after == Captured then [LedgerEvent(CapturedEvent, id, p.booking, p.amount, p.currency, None)]
    else if after == Failed then [LedgerEvent(FailedEvent, id, p.booking, p.amount, p.currency, None)]
    else []
  }

  predicate About(l: Ledger, id: Id, entity: PaymentEntity) {
    && id < |l.payments| && entity.orderId.Some? && l.payments[id].orderId == entity.orderId
    && entity.amount == l.payments[id].amount && entity.currency == l.payments[id].currency
  }

  ghost predicate UnusedReference(l: Ledger, id: Id, reference: Reference) {
    forall q :: 0 <= q < |l.payments| && q != id ==> l.payments[q].providerPaymentId != Some(reference)
  }

  /** What the webhook leaves of payment `id`: its new reference and `status`, with audit row and event if
      that is another status. */
  ghost predicate HookLeaves(l: Ledger, l': Ledger, id: Id, reference: Reference, status: PaymentStatus) {
    && id < |l.payments|
    && var p := l.payments[id];
       && l'.payments == l.payments[id := p.(providerPaymentId := Some(reference), status := status)]
       && l'.refunds == l.refunds
       && l'.audit == l.audit + (if status == p.status then [] else [(id, AuditRow(Some(p.status), status))])
       && l'.outbox == l.outbox + EventsAfter(id, p, status)
  }

  lemma OrderIsFound(l: Ledger, id: Id, orderId: Option<string>)
    requires Constraints(l) && id < |l.payments| && orderId.Some? && l.payments[id].orderId == orderId
    ensures First(l.payments, HasOrder(orderId)) == Some(id)
  {
    var found := First(l.payments, HasOrder(orderId));
    var q := found.value;
    assert q < id ==> PaymentsDistinct(l.payments[q], l.payments[id]);
    assert id < q ==> PaymentsDistinct(l.payments[id], l.payments[q]);
  }

  lemma HookApplies(l: Ledger, kind: HookType, entity: PaymentEntity, id: Id)
    requires Constraints(l) && About(l, id, entity) && kind in {AuthorizedHook, CapturedHook, FailedHook}
    ensures var (applied, result) := ApplyPaymentHook(l, kind, entity);
            var after := AfterHook(kind, l.payments[id].status);
            && applied.webhooks == l.webhooks
            && (result == if after.Some? then Ok(()) else Err(InvalidPaymentTransition))
            && HookLeaves(l, applied, id, Named(entity.paymentId),
                          if after.Some? then after.value else l.payments[id].status)
  {
    OrderIsFound(l, id, entity.orderId);
  }

  lemma LeavesCommits(l: Ledger, l': Ledger, id: Id, reference: Reference, status: PaymentStatus)
    requires Constraints(l) && HookLeaves(l, l', id, reference, status)
    ensures Constraints(l') <==> UnusedReference(l, id, reference)
  {
    var referenced := SetReference(l, id, reference);
    ReferenceCommits(l, id, reference);
    if Constraints(referenced) {
      forall i, j | 0 <= i < j < |l'.payments| ensures PaymentsDistinct(l'.payments[i], l'.payments[j]) {
        assert PaymentsDistinct(referenced.payments[i], referenced.payments[j]);
      }
    }
    if Constraints(l') {
      forall i, j | 0 <= i < j < |l.payments| ensures PaymentsDistinct(referenced.payments[i], referenced.payments[j]) {
        assert PaymentsDistinct(l'.payments[i], l'.payments[j]);
      }
    }
  }

  /** A webhook about a payment's order, amount and currency: an authorisation moves PENDING to AUTHORIZED and
      announces nothing, a capture moves PENDING or AUTHORIZED to CAPTURED and a failure to FAILED, each
      with one event; repeated ones change only the reference, and any other is refused. */
  lemma HookOutcome(l: Ledger, event: string, kind: HookType, payload: Payload, id: Id)
    requires Constraints(l) && !Finished(l, event) && kind in {AuthorizedHook, CapturedHook, FailedHook}
    requires payload.payment.Some? && About(l, id, payload.payment.value)
    ensures var (l', r) := ProcessWebhook(l, event, kind, payload);
            var reference, after := Named(payload.payment.value.paymentId), AfterHook(kind, l.payments[id].status);
            if !UnusedReference(l, id, reference) then l' == l && r == Err(IntegrityFailure)
            else if after.Some? then
              && r == Ok((false, false)) && l'.webhooks == l.webhooks[event := Processed]
              && HookLeaves(l, l', id, reference, after.value)
            else
              && r == Err(InvalidPaymentTransition) && l'.webhooks == l.webhooks[event := HookFailed]
              && HookLeaves(l, l', id, reference, l.payments[id].status)
  {
    var entity := payload.payment.value;
    var after := AfterHook(kind, l.payments[id].status);
    var status := if after.Some? then after.value else l.payments[id].status;
    HookApplies(l, kind, entity, id);
    var applied := ApplyHook(l, kind, payload).0;
    LeavesCommits(l, SetHook(applied, event, Processed), id, Named(entity.paymentId), status);
    LeavesCommits(l, SetHook(applied, event, HookFailed), id, Named(entity.paymentId), status);
  }

  /** A webhook that is finished, of no use, or about no payment leaves the money alone. */
  lemma HookIsGuarded(l: Ledger, event: string, kind: HookType, payload: Payload)
    requires Constraints(l) && kind != RefundProcessedHook
    ensures var (l', r) := ProcessWebhook(l, event, kind, payload);
            if event in l.webhooks && l.webhooks[event] in {Processed, Ignored} then
              l' == l && r == Ok((true, l.webhooks[event] == Ignored))
            else if kind == UnsupportedHook then
              l' == l.(webhooks := l.webhooks[event := Ignored]) && r == Ok((false, true))
            else if payload.payment.None? then
              l' == l.(webhooks := l.webhooks[event := HookFailed]) && r == Err(InvalidWebhookPayload)
            else if forall q :: 0 <= q < |l.payments| ==> l.payments[q].orderId != payload.payment.value.orderId then
              l' == l.(webhooks := l.webhooks[event := HookFailed]) && r == Err(PaymentNotFound)
            else true
  {
    SetHookKeeps(l, event, Ignored);
    SetHookKeeps(l, event, HookFailed);
  }

  /** A webhook about a payment's order with another amount or currency is stored as failed. */
  lemma MismatchIsRefused(l: Ledger, event: string, kind: HookType, payload: Payload, id: Id)
    requires Constraints(l) && !Finished(l, event) && kind in {AuthorizedHook, CapturedHook, FailedHook}
    requires payload.payment.Some? && payload.payment.value.orderId.Some?
    requires id < |l.payments| && l.payments[id].orderId == payload.payment.value.orderId
    requires payload.payment.value.amount != l.payments[id].amount
             || payload.payment.value.currency != l.payments[id].currency
    ensures ProcessWebhook(l, event, kind, payload)
         == (l.(webhooks := l.webhooks[event := HookFailed]), Err(WebhookMismatch))
  {
    OrderIsFound(l, id, payload.payment.value.orderId);
    SetHookKeeps(l, event, HookFailed);
  }

  /** A refund webhook without a refund entity, or about a refund nobody asked for, is stored as failed. */
  lemma RefundHookIsGuarded(l: Ledger, event: string, payload: Payload)
    requires Constraints(l) && !Finished(l, event)
    requires payload.refundId.Some? ==>
               forall r :: 0 <= r < |l.refunds| ==> l.refunds[r].providerRefundId != payload.refundId
    ensures ProcessWebhook(l, event, RefundProcessedHook, payload)
         == (l.(webhooks := l.webhooks[event := HookFailed]),
             Err(if payload.refundId.None? then InvalidWebhookPayload else RefundNotFound))
  {
    SetHookKeeps(l, event, HookFailed);
  }

  // ---- orders ----

  ghost predicate KeyIsNew(l: Ledger, candidate: Id, key: Id) {
    forall i :: 0 <= i < |l.payments| ==> !(l.payments[i].candidate == candidate && l.payments[i].idempotencyKey == key)
  }

  ghost predicate NothingOpen(l: Ledger, booking: Id, candidate: Id) {
    forall i :: 0 <= i < |l.payments| && l.payments[i].booking == booking && l.payments[i].candidate == candidate ==>
      l.payments[i].status !in {Pending, Authorized, Captured}
  }

  ghost predicate BookingIsNew(l: Ledger, booking: Id) {
    forall i :: 0 <= i < |l.payments| ==> l.payments[i].booking != booking
  }

  ghost predicate OrderIsNew(l: Ledger, orderId: string) {
    forall i :: 0 <= i < |l.payments| ==> l.payments[i].orderId != Some(orderId)
  }

  /** A used key returns its payment, for the same booking only, and a booking that has an open or captured
      payment returns that one; neither changes anything. */
  lemma OrderIsRepeated(l: Ledger, booking: Id, candidate: Id, key: Id, payable: bool, reply: OrderReply, i: Id)
    requires Constraints(l) && i < |l.payments| && l.payments[i].candidate == candidate
    ensures l.payments[i].idempotencyKey == key ==>
              CreateOrder(l, booking, candidate, key, payable, reply)
              == (l, if l.payments[i].booking == booking then Ok(i) else Err(IdempotencyConflict))
    ensures KeyIsNew(l, candidate, key) && l.payments[i].booking == booking
            && l.payments[i].status in {Pending, Authorized, Captured} ==>
              CreateOrder(l, booking, candidate, key, payable, reply) == (l, Ok(i))
  {
    var keyed, open := First(l.payments, HasKey(candidate, key)), First(l.payments, IsOpenFor(booking, candidate));
    if keyed.Some? && l.payments[i].idempotencyKey == key {
      OnlyOneOf(l, i, keyed.value);
    }
    if open.Some? && l.payments[i].booking == booking {
      OnlyOneOf(l, i, open.value);
    }
  }

  /** Payments that agree in booking, or in candidate and key, are one. */
  lemma OnlyOneOf(l: Ledger, i: Id, j: Id)
    requires Constraints(l) && i < |l.payments| && j < |l.payments|
    requires l.payments[i].booking == l.payments[j].booking
             || (l.payments[i].candidate == l.payments[j].candidate
                 && l.payments[i].idempotencyKey == l.payments[j].idempotencyKey)
    ensures i == j
  {
    assert i < j ==> PaymentsDistinct(l.payments[i], l.payments[j]);
    assert j < i ==> PaymentsDistinct(l.payments[j], l.payments[i]);
  }

  /** A first order for a payable booking leaves a PENDING payment of the session price with the provider's
      order id; if the provider refuses, or answers with another amount, a FAILED one that is announced. A
      booking that had a payment before, an order id seen before and an unpayable booking leave nothing. */
  lemma OrderOutcome(l: Ledger, booking: Id, candidate: Id, key: Id, payable: bool, reply: OrderReply)
    requires Constraints(l) && KeyIsNew(l, candidate, key) && NothingOpen(l, booking, candidate)
    ensures var (l', r) := CreateOrder(l, booking, candidate, key, payable, reply);
            if !payable then l' == l && r == Err(NotPayable)
            else if !BookingIsNew(l, booking) then l' == l && r == Err(IntegrityFailure)
            else OrderLeaves(l, l', booking, candidate, key, reply, r)
  {
    var created := NewPayment(l, booking, candidate, key);
    AddsPayment(l, created, created.payments[|l.payments|]);
    if payable && BookingIsNew(l, booking) {
      ReplyPlaces(l, booking, candidate, key, reply);
    }
  }

  ghost predicate OrderLeaves(l: Ledger, l': Ledger, booking: Id, candidate: Id, key: Id, reply: OrderReply,
      r: Result<Id, Error>) {
    if reply.OrderAccepted? && reply.amount == 20000 && reply.currency == INR then
      if !OrderIsNew(l, reply.orderId) then l' == l && r == Err(IntegrityFailure)
      else
        && r == Ok(|l.payments|) && l'.outbox == l.outbox && l'.refunds == l.refunds && l'.webhooks == l.webhooks
        && l'.payments ==
           l.payments + [Payment(booking, candidate, 20000, INR, Some(reply.orderId), None, Pending, key)]
    else
      && r == Err(ProviderError) && l'.refunds == l.refunds && l'.webhooks == l.webhooks
      && l'.payments == l.payments + [Payment(booking, candidate, 20000, INR, None, None, Failed, key)]
      && l'.outbox == l.outbox + [LedgerEvent(FailedEvent, |l.payments|, booking, 20000, INR, None)]
  }

  lemma ReplyPlaces(l: Ledger, booking: Id, candidate: Id, key: Id, reply: OrderReply)
    requires Constraints(l) && KeyIsNew(l, candidate, key) && BookingIsNew(l, booking)
    ensures var (l', r) := PlaceOrder(l, NewPayment(l, booking, candidate, key), reply);
            OrderLeaves(l, l', booking, candidate, key, reply, r)
  {
    var created, id := NewPayment(l, booking, candidate, key), |l.payments|;
    if reply.OrderAccepted? && reply.amount == PRICE && reply.currency == INR {
      var p := created.payments[id].(orderId := Some(reply.orderId));
      var ordered := created.(payments := created.payments[id := p]);
      AddsPayment(l, Move(ordered, id, Pending), Move(ordered, id, Pending).payments[id]);
    } else {
      var failed := Emit(Move(created, id, Failed), id, FailedEvent);
      AddsPayment(l, failed, failed.payments[id]);
    }
  }

  /** A new payment commits iff its booking and its order id are new. */
  lemma AddsPayment(l: Ledger, l': Ledger, p: Payment)
    requires Constraints(l) && l'.payments == l.payments + [p] && l'.refunds == l.refunds
    requires p.amount == PRICE && p.currency == INR && KeyIsNew(l, p.candidate, p.idempotencyKey)
    requires p.providerPaymentId.None?
    ensures Constraints(l') <==> BookingIsNew(l, p.booking) && (p.orderId.Some? ==> OrderIsNew(l, p.orderId.value))
  {
    var n := |l.payments|;
    if Constraints(l') {
      forall i | 0 <= i < n
        ensures l.payments[i].booking != p.booking && (p.orderId.Some? ==> l.payments[i].orderId != p.orderId)
      {
        assert PaymentsDistinct(l'.payments[i], l'.payments[n]);
      }
    } else if BookingIsNew(l, p.booking) && (p.orderId.Some? ==> OrderIsNew(l, p.orderId.value)) {
      forall i, j | 0 <= i < j < |l'.payments| ensures PaymentsDistinct(l'.payments[i], l'.payments[j]) {
        if j < n {
          assert PaymentsDistinct(l.payments[i], l.payments[j]);
        }
      }
    }
  }

  /** A development payment completes for its own candidate, once, while it is PENDING and the booking is
      still payable. */
  lemma DevelopmentOutcome(l: Ledger, id: Id, candidate: Id, payable: bool)
    requires Inv(l)
    ensures var (l', r) := CompleteDevelopment(l, id, candidate, payable);
            if id >= |l.payments| || l.payments[id].candidate != candidate then l' == l && r == Err(PaymentNotFound)
            else if l.payments[id].status == Captured then l' == l && r == Ok(())
            else if l.payments[id].status != Pending then l' == l && r == Err(InvalidPaymentTransition)
            else if !payable then l' == l && r == Err(NotPayable)
            else if !UnusedReference(l, id, DevelopmentReference(id)) then l' == l && r == Err(IntegrityFailure)
            else r == Ok(()) && HookLeaves(l, l', id, DevelopmentReference(id), Captured) && l'.webhooks == l.webhooks
  {
    if id < |l.payments| && l.payments[id].status == Pending {
      var done := Emit(Move(SetReference(l, id, DevelopmentReference(id)), id, Captured), id, CapturedEvent);
      LeavesCommits(l, done, id, DevelopmentReference(id), Captured);
    }
  }

  // ---- refunds ----

  /** A refund may be asked of a captured payment with a provider reference, for a positive amount that was
      not refunded before; asking for nothing in particular, or for zero, asks for the whole price. */
  ghost predicate MayRefund(l: Ledger, id: Id, amount: int) {
    && id < |l.payments| && l.payments[id].status in {Captured, PartiallyRefunded}
    && l.payments[id].providerPaymentId.Some? && l.payments[id].providerPaymentId.value != Named("")
    && 0 < amount && Total(l.refunds, id, RefundProcessed) + amount <= l.payments[id].amount
  }

  ghost predicate RefundIdIsNew(l: Ledger, refundId: string) {
    forall r :: 0 <= r < |l.refunds| ==> l.refunds[r].providerRefundId != Some(refundId)
  }

  function StatusAfter(l: Ledger, id: Id, amount: int, reply: RefundReply): PaymentStatus
    requires id < |l.payments|
  {
    if reply.RefundRejected? then Captured
    else if !reply.processed then RefundPending
    else if Total(l.refunds, id, RefundProcessed) + amount == l.payments[id].amount then Refunded
    else PartiallyRefunded
  }

  function RefundRow(id: Id, amount: int, reply: RefundReply): Refund {
    if reply.RefundRejected? then Refund(id, amount, RefundFailed, None)
    else if reply.processed then Refund(id, amount, RefundProcessed, Some(reply.refundId))
    else Refund(id, amount, RefundOpen, Some(reply.refundId))
  }

  lemma AddsRefund(l: Ledger, l': Ledger, row: Refund)
    requires Constraints(l) && |l'.payments| == |l.payments| && l'.refunds == l.refunds + [row]
    requires forall i :: 0 <= i < |l.payments| ==>
               l'.payments[i] == l.payments[i].(status := l'.payments[i].status)
    ensures Constraints(l') <==>
            row.amount > 0 && (row.providerRefundId.Some? ==> RefundIdIsNew(l, row.providerRefundId.value))
  {
    var n := |l.refunds|;
    if row.amount > 0 && (row.providerRefundId.Some? ==> RefundIdIsNew(l, row.providerRefundId.value)) {
      forall i, j | 0 <= i < j < |l'.payments| ensures PaymentsDistinct(l'.payments[i], l'.payments[j]) {
        assert PaymentsDistinct(l.payments[i], l.payments[j]);
      }
    }
    if Constraints(l') {
      assert l'.refunds[n] == row;
      forall r | 0 <= r < n && row.providerRefundId.Some?
        ensures l.refunds[r].providerRefundId != row.providerRefundId
      {
        assert l'.refunds[r] == l.refunds[r];
      }
    }
  }

  /** What a refund leaves: its row, the payment's status with its audit rows, and the announcement of the
      refunded amount once it is processed. */
  ghost predicate RefundLeaves(l: Ledger, l': Ledger, id: Id, amount: int, reply: RefundReply) {
    && id < |l.payments|
    && var p, status := l.payments[id], StatusAfter(l, id, amount, reply);
       && l'.payments == l.payments[id := p.(status := status)]
       && l'.refunds == l.refunds + [RefundRow(id, amount, reply)]
       && l'.audit == l.audit + [(id, AuditRow(Some(p.status), RefundPending))]
                      + (if status == RefundPending then [] else [(id, AuditRow(Some(RefundPending), status))])
       && l'.outbox == l.outbox
                       + (if status in {Refunded, PartiallyRefunded}
                          then [LedgerEvent(RefundedEvent, id, p.booking, amount, p.currency, Some(|l.refunds|))]
                          else [])
       && l'.webhooks == l.webhooks
  }

  /** The amount a request asks for. */
  function Asked(amount: Option<int>, price: int): int {
    if amount == None || amount == Some(0) then price else amount.value
  }

  /** What is refused before the database is asked; an amount that is not positive fails its constraint. */
  function WhyNotRefund(l: Ledger, id: Id, amount: int): Error
    requires id < |l.payments|
  {
    if && l.payments[id].status in {Captured, PartiallyRefunded}
       && l.payments[id].providerPaymentId.Some? && l.payments[id].providerPaymentId.value != Named("")
       && Total(l.refunds, id, RefundProcessed) + amount <= l.payments[id].amount
    then IntegrityFailure else InvalidRefund
  }

  lemma RefundOfNothing(l: Ledger, id: Id, amount: Option<int>, reply: RefundReply)
    requires id >= |l.payments|
    ensures RequestRefund(l, id, amount, reply) == (l, Err(PaymentNotFound))
  {
  }

  /** A refund that may be asked ends as the provider answers, and one that may not be asked, or whose
      provider id is in use, leaves nothing. */
  lemma RefundOutcome(l: Ledger, id: Id, amount: Option<int>, reply: RefundReply)
    requires Inv(l) && id < |l.payments|
    ensures var (l', r) := RequestRefund(l, id, amount, reply);
            var wanted := Asked(amount, l.payments[id].amount);
            if !MayRefund(l, id, wanted) then l' == l && r == Err(WhyNotRefund(l, id, wanted))
            else if reply.RefundAccepted? && !RefundIdIsNew(l, reply.refundId) then
              l' == l && r == Err(IntegrityFailure)
            else
              && RefundLeaves(l, l', id, wanted, reply)
              && r == if reply.RefundRejected? then Err(ProviderError) else Ok(|l.refunds|)
  {
    var wanted := Asked(amount, l.payments[id].amount);
    assert Sound(l.payments[id], BooksOf(l, id));
    AddsRefund(l, OpenRefund(l, id, wanted), Refund(id, wanted, RefundOpen, None));
    if MayRefund(l, id, wanted) {
      ReplySettles(l, id, wanted, reply);
    }
  }

  lemma ReplySettles(l: Ledger, id: Id, amount: int, reply: RefundReply)
    requires Inv(l) && MayRefund(l, id, amount)
    ensures var asked := OpenRefund(l, id, amount);
            var (l', r) := SettleRefund(l, asked, id, Total(l.refunds, id, RefundProcessed), reply);
            if reply.RefundAccepted? && !RefundIdIsNew(l, reply.refundId) then l' == l && r == Err(IntegrityFailure)
            else
              && RefundLeaves(l, l', id, amount, reply)
              && r == if reply.RefundRejected? then Err(ProviderError) else Ok(|l.refunds|)
  {
    var asked, n, row := OpenRefund(l, id, amount), |l.refunds|, RefundRow(id, amount, reply);
    var status := StatusAfter(l, id, amount, reply);
    var closed := SetRefund(asked, n, row);
    assert closed.refunds == l.refunds + [row];
    AddsRefund(l, closed, row);
    if status != RefundPending {
      AddsRefund(l, Move(closed, id, status), row);
      AddsRefund(l, EmitRefund(Move(closed, id, status), id, n), row);
    }
  }

  /** What the report of a processed refund leaves: a refund processed before changes nothing; any other is
      processed, its payment refunded, in full iff nothing is left, and its own amount announced. */
  ghost predicate ReportLeaves(l: Ledger, l': Ledger, r: Id) {
    && r < |l.refunds| && l.refunds[r].payment < |l.payments|
    && var refund, id := l.refunds[r], l.refunds[r].payment;
       if refund.status == RefundProcessed then l' == l.(webhooks := l'.webhooks)
       else
         && l'.refunds == l.refunds[r := refund.(status := RefundProcessed)]
         && l'.payments == l.payments[id := l.payments[id].(
              status := if Total(l.refunds, id, RefundProcessed) + refund.amount == l.payments[id].amount
                        then Refunded else PartiallyRefunded)]
         && l'.outbox == l.outbox + [LedgerEvent(RefundedEvent, id, l.payments[id].booking, refund.amount,
                                                 l.payments[id].currency, Some(r))]
  }

  /** A webhook that reports a refund of this service as processed counts once. */
  lemma RefundHookOutcome(l: Ledger, event: string, payload: Payload, r: Id)
    requires Inv(l) && !Finished(l, event) && payload.refundId.Some?
    requires r < |l.refunds| && l.refunds[r].providerRefundId == payload.refundId
    ensures var (l', result) := ProcessWebhook(l, event, RefundProcessedHook, payload);
            && result == Ok((false, false)) && l'.webhooks == l.webhooks[event := Processed]
            && ReportLeaves(l, l', r)
  {
    ReportApplies(l, payload.refundId.value, r);
    SetHookKeeps(ApplyRefundHook(l, payload.refundId.value).0, event, Processed);
    RefundHookKeeps(l, payload.refundId.value);
  }

  lemma ReportApplies(l: Ledger, refundId: string, r: Id)
    requires Constraints(l) && RefundsOk(l) && r < |l.refunds| && l.refunds[r].providerRefundId == Some(refundId)
    ensures var (l', result) := ApplyRefundHook(l, refundId);
            result == Ok(()) && l'.webhooks == l.webhooks && ReportLeaves(l, l', r)
  {
    RefundIsFound(l, r, refundId);
    var done := l.refunds[r].(status := RefundProcessed);
    TotalUpdate(l.refunds, r, done, done.payment, RefundProcessed);
  }

  lemma RefundIsFound(l: Ledger, r: Id, refundId: string)
    requires Constraints(l) && r < |l.refunds| && l.refunds[r].providerRefundId == Some(refundId)
    ensures First(l.refunds, HasRefundId(refundId)) == Some(r)
  {
    var q := First(l.refunds, HasRefundId(refundId)).value;
    assert l.refunds[q].providerRefundId == l.refunds[r].providerRefundId;
  }

  // ---- where a capture comes from ----

  /** The step reports the capture of payment `id`: a capture webhook for its order, amount and currency, or
      its own candidate's development completion while the booking is payable. */
  predicate Captures(op: PaymentOp, id: Id, p: Payment) {
    match op
    case HookOp(_, kind, payload) =>
      && kind == CapturedHook && payload.payment.Some?
      && payload.payment.value.orderId.Some? && payload.payment.value.orderId == p.orderId
      && payload.payment.value.amount == p.amount && payload.payment.value.currency == p.currency
    case DevelopmentOp(completed, completedBy, payable) => completed == id && completedBy == p.candidate && payable
    case _ => false
  }

  /** What identifies a payment never changes. */
  predicate SamePayment(p: Payment, p': Payment) {
    && p'.booking == p.booking && p'.candidate == p.candidate && p'.orderId == p.orderId
    && p'.amount == p.amount && p'.currency == p.currency
  }

  /** Every payment that `l` has is still the same in `l'`. */
  ghost predicate AllStay(l: Ledger, l': Ledger) {
    && |l.payments| <= |l'.payments|
    && forall q :: 0 <= q < |l.payments| ==> SamePayment(l.payments[q], l'.payments[q])
  }

  lemma PaymentsStay(l: Ledger, op: PaymentOp)
    ensures AllStay(l, Step(l, op))
  {
    match op {
      case OrderOp(booking, candidate, key, payable, reply) => OrderStays(l, booking, candidate, key, payable, reply);
      case DevelopmentOp(id, candidate, payable) => DevelopmentStays(l, id, candidate, payable);
      case HookOp(event, kind, payload) => WebhookStays(l, event, kind, payload);
      case RefundOp(id, amount, reply) => RefundStays(l, id, amount, reply);
    }
  }

  lemma OrderStays(l: Ledger, booking: Id, candidate: Id, key: Id, payable: bool, reply: OrderReply)
    ensures AllStay(l, CreateOrder(l, booking, candidate, key, payable, reply).0)
  {
  }

  lemma DevelopmentStays(l: Ledger, id: Id, candidate: Id, payable: bool)
    ensures AllStay(l, CompleteDevelopment(l, id, candidate, payable).0)
  {
  }

  lemma WebhookStays(l: Ledger, event: string, kind: HookType, payload: Payload)
    ensures AllStay(l, ProcessWebhook(l, event, kind, payload).0)
  {
    HookStays(l, kind, payload);
  }

  lemma HookStays(l: Ledger, kind: HookType, payload: Payload)
    ensures AllStay(l, ApplyHook(l, kind, payload).0)
  {
  }

  lemma RefundStays(l: Ledger, id: Id, amount: Option<int>, reply: RefundReply)
    ensures AllStay(l, RequestRefund(l, id, amount, reply).0)
  {
  }

  /** Whether the step announces a capture of payment `q`. */
  predicate Announces(l: Ledger, l': Ledger, q: Id) {
    Announcements(l'.outbox, q, CapturedEvent) > Announcements(l.outbox, q, CapturedEvent)
  }

  lemma OneMoreEvent(l: Ledger, l': Ledger, e: LedgerEvent, q: Id)
    requires l'.outbox == l.outbox + [e]
    ensures Announces(l, l', q) <==> e.payment == q && e.kind == CapturedEvent
  {
    assert (l.outbox + [e])[..|l.outbox|] == l.outbox;
  }

  lemma HookAnnounces(l: Ledger, kind: HookType, entity: PaymentEntity, q: Id)
    requires Inv(l) && kind in {AuthorizedHook, CapturedHook, FailedHook}
    requires Announces(l, ApplyPaymentHook(l, kind, entity).0, q)
    ensures kind == CapturedHook && About(l, q, entity)
  {
    var id := First(l.payments, HasOrder(entity.orderId)).value;
    assert Sound(l.payments[id], BooksOf(l, id));
    if entity.orderId.Some? && entity.amount == l.payments[id].amount && entity.currency == l.payments[id].currency {
      HookApplies(l, kind, entity, id);
      var after := AfterHook(kind, l.payments[id].status);
      var events := EventsAfter(id, l.payments[id], if after.Some? then after.value else l.payments[id].status);
      assert l.outbox + [] == l.outbox;
      if events != [] {
        OneMoreEvent(l, ApplyPaymentHook(l, kind, entity).0, events[0], q);
      }
    }
  }

  /** A step that announces a capture reports it. */
  lemma StepCaptures(l: Ledger, op: PaymentOp, q: Id)
    requires Inv(l) && Announces(l, Step(l, op), q)
    ensures q < |l.payments| && Captures(op, q, l.payments[q])
  {
    var l' := Step(l, op);
    match op {
      case OrderOp(booking, candidate, key, payable, reply) => OrderAnnouncesNone(l, op, q);
      case DevelopmentOp(id, candidate, payable) =>
        OneMoreEvent(l, l', l'.outbox[|l.outbox|], q);
      case HookOp(event, kind, payload) =>
        if kind == RefundProcessedHook {
          RefundAnnouncesNone(l, op, q);
        } else {
          HookAnnounces(l, kind, payload.payment.value, q);
        }
      case RefundOp(id, amount, reply) => RefundAnnouncesNone(l, op, q);
    }
  }

  lemma OrderAnnouncesNone(l: Ledger, op: PaymentOp, q: Id)
    requires op.OrderOp?
    ensures !Announces(l, Step(l, op), q)
  {
    var l' := Step(l, op);
    if |l'.outbox| > |l.outbox| {
      OneMoreEvent(l, l', l'.outbox[|l.outbox|], q);
    }
  }

  lemma RefundAnnouncesNone(l: Ledger, op: PaymentOp, q: Id)
    requires op.RefundOp? || (op.HookOp? && op.kind == RefundProcessedHook)
    ensures !Announces(l, Step(l, op), q)
  {
    var l' := Step(l, op);
    if |l'.outbox| > |l.outbox| {
      OneMoreEvent(l, l', l'.outbox[|l.outbox|], q);
    }
  }

  /** A capture announced after a step was reported by it, or announced before for the same payment. */
  lemma CaptureOrigin(l: Ledger, l': Ledger, op: PaymentOp, q: Id)
    requires Inv(l) && l' == Step(l, op) && Announcements(l'.outbox, q, CapturedEvent) > 0
    ensures q < |l.payments| <= |l'.payments| && SamePayment(l.payments[q], l'.payments[q])
    ensures Captures(op, q, l'.payments[q]) || Announcements(l.outbox, q, CapturedEvent) > 0
  {
    PaymentsStay(l, op);
    if Announces(l, l', q) {
      StepCaptures(l, op, q);
    } else {
      AnnouncedExists(l, q);
    }
  }

  lemma AnnouncedExists(l: Ledger, q: Id)
    requires Inv(l) && Announcements(l.outbox, q, CapturedEvent) > 0
    ensures q < |l.payments|
  {
    assert q >= |l.payments| ==> BooksOf(l, q) == NO_BOOKS;
  }

  /** Some step of the run reported the capture of this payment. */
  ghost predicate WasReported(ops: seq<PaymentOp>, q: Id, p: Payment) {
    exists k :: 0 <= k < |ops| && Captures(ops[k], q, p)
  }

  /** After any run a capture was announced only for a payment that some step of the run reported captured:
      the provider for its order, amount and currency, or its own candidate in development. */
  lemma {:induction false} CaptureWasReported(ops: seq<PaymentOp>, q: Id)
    requires Announcements(Replay(ops).outbox, q, CapturedEvent) > 0
    ensures q < |Replay(ops).payments| && WasReported(ops, q, Replay(ops).payments[q])
  {
    if |ops| == 0 {
    } else {
      var init, last := ops[..|ops| - 1], ops[|ops| - 1];
      var l, l' := Replay(init), Replay(ops);
      ReplayKeeps(init);
      CaptureOrigin(l, l', last, q);
      if !Captures(last, q, l'.payments[q]) {
        CaptureWasReported(init, q);
        var k :| 0 <= k < |init| && Captures(init[k], q, l.payments[q]);
        assert Captures(ops[k], q, l'.payments[q]);
      }
    }
  }
}
