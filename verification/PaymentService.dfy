/** The payment service on its mutable tables. Every method takes the step of PaymentLedger;
    the replies of the provider and of the booking service are its parameters. */
module PaymentService {
  import opened Tables
  import opened Contracts
  import opened PaymentLedger
  import opened PaymentSafety

  class PaymentService {
    var payments: seq<Payment>
    var refunds: seq<Refund>
    var webhooks: map<string, WebhookStatus>
    var audit: Table<Id, AuditRow>
    var outbox: seq<LedgerEvent>

    function Model(): Ledger
      reads this
    {
      Ledger(payments, refunds, webhooks, audit, outbox)
    }

    ghost predicate Valid()
      reads this
    {
      Reachable(Model())
    }

    constructor ()
      ensures Valid() && Model() == EMPTY_LEDGER
    {
      payments, refunds, webhooks, audit, outbox := [], [], map[], [], [];
      new;
      EmptyIsReachable();
    }

    // ---- transactions ----

    method Restore(saved: Ledger)
      modifies this
      ensures Model() == saved
    {
      payments, refunds, webhooks, audit, outbox :=
        saved.payments, saved.refunds, saved.webhooks, saved.audit, saved.outbox;
    }

    /** Flush or commit: a violated constraint rolls the transaction back to its start. */
    method Check(saved: Ledger) returns (accepted: bool)
      modifies this
      ensures accepted == Constraints(old(Model()))
      ensures Model() == if accepted then old(Model()) else saved
    {
      accepted := Constraints(Model());
      if !accepted {
        Restore(saved);
      }
    }

    method SetStatus(id: Id, target: PaymentStatus)
      requires id < |payments|
      modifies this`payments, this`audit
      ensures Model() == Move(old(Model()), id, target)
    {
      var previous := payments[id].status;
      payments := payments[id := payments[id].(status := target)];
      audit := audit + [(id, AuditRow(Some(previous), target))];
    }

    method Publish(id: Id, kind: PaymentEventType)
      requires id < |payments|
      modifies this`outbox
      ensures Model() == Emit(old(Model()), id, kind)
    {
      var p := payments[id];
      outbox := outbox + [LedgerEvent(kind, id, p.booking, p.amount, p.currency, None)];
    }

    method PublishRefund(id: Id, refund: Id)
      requires id < |payments| && refund < |refunds|
      modifies this`outbox
      ensures Model() == EmitRefund(old(Model()), id, refund)
    {
      var p := payments[id];
      outbox := outbox + [LedgerEvent(RefundedEvent, id, p.booking, refunds[refund].amount, p.currency, Some(refund))];
    }

    /** SELECT sum(amount) of the processed refunds of a payment. */
    method ProcessedTotal(id: Id) returns (total: int)
      ensures total == Total(refunds, id, RefundProcessed)
    {
      total := 0;
      for i := 0 to |refunds|
        invariant total == Total(refunds[..i], id, RefundProcessed)
      {
        assert refunds[..i + 1][..i] == refunds[..i];
        if refunds[i].payment == id && refunds[i].status == RefundProcessed {
          total := total + refunds[i].amount;
        }
      }
      assert refunds[..|refunds|] == refunds;
    }

    // ---- orders ----

    method Order(booking: Id, candidate: Id, key: Id, payable: bool,
        reply: OrderReply) returns (result: Result<Id, Error>)
      requires Valid()
      modifies this
      ensures Valid()
      ensures (Model(), result) == CreateOrder(old(Model()), booking, candidate, key, payable, reply)
    {
      ReachableStep(Model(), OrderOp(booking, candidate, key, payable, reply));
      var existing := FindFirst(payments, HasKey(candidate, key));
      if existing.Some? {
        if payments[existing.value].booking != booking {
          return Err(IdempotencyConflict);
        }
        return Ok(existing.value);
      }
      var current := FindFirst(payments, IsOpenFor(booking, candidate));
      if current.Some? {
        return Ok(current.value);
      }
      if !payable {
        return Err(NotPayable);
      }
      var saved := Model();
      var id := |payments|;
      payments := payments + [Payment(booking, candidate, PRICE, INR, None, None, Created, key)];
      audit := audit + [(id, AuditRow(None, Created))];
      var flushed := Check(saved);
      if !flushed {
        return Err(IntegrityFailure);
      }
      result := Answer(saved, id, reply);
    }

    /** Store the provider's order, or record the failure and commit it before reporting it. */
    method Answer(saved: Ledger, id: Id, reply: OrderReply) returns (result: Result<Id, Error>)
      requires |payments| == |saved.payments| + 1 && id == |saved.payments|
      modifies this
      ensures (Model(), result) == PlaceOrder(saved, old(Model()), reply)
    {
      if reply.OrderRejected? || reply.amount != PRICE || reply.currency != INR {
        SetStatus(id, Failed);
        Publish(id, FailedEvent);
        var committed := Check(saved);
        return Err(if committed then ProviderError else IntegrityFailure);
      }
      payments := payments[id := payments[id].(orderId := Some(reply.orderId))];
      SetStatus(id, Pending);
      var committed := Check(saved);
      return if committed then Ok(id) else Err(IntegrityFailure);
    }

    method CompleteDevelopmentPayment(id: Id, candidate: Id, payable: bool) returns (result: Result<(), Error>)
      requires Valid()
      modifies this
      ensures Valid()
      ensures (Model(), result) == CompleteDevelopment(old(Model()), id, candidate, payable)
    {
      ReachableStep(Model(), DevelopmentOp(id, candidate, payable));
      if id >= |payments| || payments[id].candidate != candidate {
        return Err(PaymentNotFound);
      }
      if payments[id].amount != PRICE || payments[id].currency != INR {
        return Err(AmountMismatch);
      }
      if payments[id].status == Captured {
        return Ok(());
      }
      if payments[id].status != Pending {
        return Err(InvalidPaymentTransition);
      }
      if !payable {
        return Err(NotPayable);
      }
      var saved := Model();
      payments := payments[id := payments[id].(providerPaymentId := Some(DevelopmentReference(id)))];
      SetStatus(id, Captured);
      Publish(id, CapturedEvent);
      var committed := Check(saved);
      return if committed then Ok(()) else Err(IntegrityFailure);
    }

    // ---- refunds ----

    method AskRefund(id: Id, wanted: int)
      requires id < |payments|
      modifies this`refunds, this`payments, this`audit
      ensures Model() == OpenRefund(old(Model()), id, wanted)
    {
      refunds := refunds + [Refund(id, wanted, RefundOpen, None)];
      SetStatus(id, RefundPending);
    }

    method RefundPayment(id: Id, amount: Option<int>, reply: RefundReply) returns (result: Result<Id, Error>)
      requires Valid()
      modifies this
      ensures Valid()
      ensures (Model(), result) == RequestRefund(old(Model()), id, amount, reply)
    {
      ReachableStep(Model(), RefundOp(id, amount, reply));
      if id >= |payments| {
        return Err(PaymentNotFound);
      }
      var wanted := if amount.Some? && amount.value != 0 then amount.value else payments[id].amount;
      var already := ProcessedTotal(id);
      if payments[id].status !in {Captured, PartiallyRefunded} || wanted > payments[id].amount - already {
        return Err(InvalidRefund);
      }
      if payments[id].providerPaymentId.None? || payments[id].providerPaymentId.value == Named("") {
        return Err(InvalidRefund);
      }
      var saved := Model();
      AskRefund(id, wanted);
      var flushed := Check(saved);
      if !flushed {
        return Err(IntegrityFailure);
      }
      result := Settle(saved, id, already, reply);
    }

    /** Record the provider's answer; a rejection is committed before it is reported. */
    method Settle(saved: Ledger, id: Id, already: int, reply: RefundReply) returns (result: Result<Id, Error>)
      requires id < |payments| && |refunds| == |saved.refunds| + 1
      modifies this
      ensures (Model(), result) == SettleRefund(saved, old(Model()), id, already, reply)
    {
      var refund := |saved.refunds|;
      if reply.RefundRejected? {
        refunds := refunds[refund := refunds[refund].(status := RefundFailed)];
        SetStatus(id, Captured);
        var committed := Check(saved);
        return Err(if committed then ProviderError else IntegrityFailure);
      }
      refunds := refunds[refund := refunds[refund].(providerRefundId := Some(reply.refundId))];
      if reply.processed {
        refunds := refunds[refund := refunds[refund].(status := RefundProcessed)];
        assert refunds == old(refunds)[refund := refunds[refund]];
        var total := already + refunds[refund].amount;
        SetStatus(id, if total == payments[id].amount then Refunded else PartiallyRefunded);
        PublishRefund(id, refund);
      }
      var committed := Check(saved);
      return if committed then Ok(refund) else Err(IntegrityFailure);
    }

    // ---- webhooks ----

    method PaymentHook(kind: HookType, entity: PaymentEntity) returns (result: Result<(), Error>)
      modifies this
      ensures (Model(), result) == ApplyPaymentHook(old(Model()), kind, entity)
    {
      var found := FindFirst(payments, HasOrder(entity.orderId));
      if found.None? {
        return Err(PaymentNotFound);
      }
      var id := found.value;
      if entity.amount != payments[id].amount || entity.currency != payments[id].currency {
        return Err(WebhookMismatch);
      }
      payments := payments[id := payments[id].(providerPaymentId := Some(Named(entity.paymentId)))];
      var target := HookTarget(kind);
      if payments[id].status == target {
        return Ok(());
      }
      if !HookAllowed(payments[id].status, target) {
        return Err(InvalidPaymentTransition);
      }
      SetStatus(id, target);
      if target == Captured {
        Publish(id, CapturedEvent);
      } else if target == Failed {
        Publish(id, FailedEvent);
      }
      return Ok(());
    }

    method RefundHook(refundId: string) returns (result: Result<(), Error>)
      modifies this
      ensures (Model(), result) == ApplyRefundHook(old(Model()), refundId)
    {
      var found := FindFirst(refunds, HasRefundId(refundId));
      if found.None? {
        return Err(RefundNotFound);
      }
      var refund := found.value;
      if refunds[refund].status == RefundProcessed {
        return Ok(());
      }
      var id := refunds[refund].payment;
      if id >= |payments| {
        return Err(InvalidWebhookPayload);
      }
      refunds := refunds[refund := refunds[refund].(status := RefundProcessed)];
      var total := ProcessedTotal(id);
      SetStatus(id, if total == payments[id].amount then Refunded else PartiallyRefunded);
      PublishRefund(id, refund);
      return Ok(());
    }

    method Webhook(event: string, kind: HookType, payload: Payload) returns (result: Result<(bool, bool), Error>)
      requires Valid()
      modifies this
      ensures Valid()
      ensures (Model(), result) == ProcessWebhook(old(Model()), event, kind, payload)
    {
      ReachableStep(Model(), HookOp(event, kind, payload));
      if event in webhooks && webhooks[event] in {Processed, Ignored} {
        return Ok((true, webhooks[event] == Ignored));
      }
      var saved := Model();
      if kind == UnsupportedHook {
        webhooks := webhooks[event := Ignored];
        var committed := Check(saved);
        return if committed then Ok((false, true)) else Err(IntegrityFailure);
      }
      var applied := Apply(kind, payload);
      webhooks := webhooks[event := if applied.Ok? then Processed else HookFailed];
      var committed := Check(saved);
      if !committed {
        return Err(IntegrityFailure);
      }
      return if applied.Ok? then Ok((false, false)) else Err(applied.error);
    }

    method Apply(kind: HookType, payload: Payload) returns (result: Result<(), Error>)
      modifies this
      ensures (Model(), result) == ApplyHook(old(Model()), kind, payload)
    {
      if kind == RefundProcessedHook {
        if payload.refundId.None? {
          return Err(InvalidWebhookPayload);
        }
        result := RefundHook(payload.refundId.value);
      } else {
        if payload.payment.None? {
          return Err(InvalidWebhookPayload);
        }
        result := PaymentHook(kind, payload.payment.value);
      }
    }
  }
}
