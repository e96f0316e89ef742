/** The payment database and every committed step on it, as values. Ids are row numbers:
    rows are only ever appended, so a row number is a fresh id. */
module PaymentLedger {
  import opened Tables
  import opened Contracts

  datatype PaymentStatus =
    | Created
    | Pending
    | Authorized
    | Captured
    | Failed
    | RefundPending
    | Refunded
    | PartiallyRefunded

  datatype RefundStatus = RefundOpen | RefundProcessed | RefundFailed

  datatype WebhookStatus = Received | Processed | Ignored | HookFailed

  /** The development provider derives its reference from the payment; others send a string. */
  datatype Reference = DevelopmentReference(payment: Id) | Named(name: string)

  datatype Payment = Payment(
    booking: Id,
    candidate: Id,
    amount: int,
    currency: Currency,
    orderId: Option<string>,
    providerPaymentId: Option<Reference>,
    status: PaymentStatus,
    idempotencyKey: Id)

  datatype Refund = Refund(payment: Id, amount: int, status: RefundStatus, providerRefundId: Option<string>)

  datatype AuditRow = AuditRow(from: Option<PaymentStatus>, to: PaymentStatus)

  datatype LedgerEvent = LedgerEvent(
    kind: PaymentEventType, payment: Id, booking: Id, amount: int, currency: Currency, refund: Option<Id>)

  datatype Ledger = Ledger(
    payments: seq<Payment>,
    refunds: seq<Refund>,
    webhooks: map<string, WebhookStatus>,
    audit: Table<Id, AuditRow>,
    outbox: seq<LedgerEvent>)

  datatype Error =
    | IdempotencyConflict
    | NotPayable
    | ProviderError
    | PaymentNotFound
    | AmountMismatch
    | InvalidPaymentTransition
    | InvalidRefund
    | RefundNotFound
    | WebhookMismatch
    | InvalidWebhookPayload
    | IntegrityFailure

  // ---- what the provider says ----

  datatype OrderReply = OrderRejected | OrderAccepted(orderId: string, amount: int, currency: Currency)

  datatype RefundReply = RefundRejected | RefundAccepted(refundId: string, processed: bool)

  datatype HookType = AuthorizedHook | CapturedHook | FailedHook | RefundProcessedHook | UnsupportedHook

  datatype PaymentEntity = PaymentEntity(orderId: Option<string>, paymentId: string, amount: int, currency: Currency)

  /** A webhook body; an entity that is absent or malformed is None. */
  datatype Payload = Payload(payment: Option<PaymentEntity>, refundId: Option<string>)

  const EMPTY_LEDGER: Ledger := Ledger([], [], map[], [], [])

  // ---- constraints ----

  predicate PaymentsDistinct(a: Payment, b: Payment) {
    && a.booking != b.booking
    && !(a.candidate == b.candidate && a.idempotencyKey == b.idempotencyKey)
    && (a.orderId.Some? ==> a.orderId != b.orderId)
    && (a.providerPaymentId.Some? ==> a.providerPaymentId != b.providerPaymentId)
  }

  /** The check and unique constraints of the payments and refunds tables. */
  predicate Constraints(l: Ledger) {
    && (forall i :: 0 <= i < |l.payments| ==> l.payments[i].amount == PRICE && l.payments[i].currency == INR)
    && (forall i, j :: 0 <= i < j < |l.payments| ==> PaymentsDistinct(l.payments[i], l.payments[j]))
    && (forall i :: 0 <= i < |l.refunds| ==> l.refunds[i].amount > 0)
    && (forall i, j :: 0 <= i < j < |l.refunds| && l.refunds[i].providerRefundId.Some? ==>
          l.refunds[i].providerRefundId != l.refunds[j].providerRefundId)
  }

  /** A transaction commits if the constraints hold, and otherwise leaves no trace. */
  function Commit<R>(before: Ledger, after: Ledger, result: Result<R, Error>): (Ledger, Result<R, Error>) {
    if Constraints(after) then (after, result) else (before, Err(IntegrityFailure))
  }

  // ---- queries ----

  function HasKey(candidate: Id, key: Id): Payment -> bool {
    (p: Payment) => p.candidate == candidate && p.idempotencyKey == key
  }

  function IsOpenFor(booking: Id, candidate: Id): Payment -> bool {
    (p: Payment) => p.booking == booking && p.candidate == candidate && p.status in {Pending, Authorized, Captured}
  }

  function HasOrder(orderId: Option<string>): Payment -> bool {
    (p: Payment) => p.orderId == orderId
  }

  function HasRefundId(refundId: string): Refund -> bool {
    (r: Refund) => r.providerRefundId == Some(refundId)
  }

  /** The sum of one payment's refunds in one status. */
  function Total(refunds: seq<Refund>, payment: Id, status: RefundStatus): int {
    if |refunds| == 0 then 0
    else
      var last := refunds[|refunds| - 1];
      Total(refunds[..|refunds| - 1], payment, status)
      + (if last.payment == payment && last.status == status then last.amount else 0)
  }

  // ---- the parts of a step ----

  /** A status change and its audit row. */
  function Move(l: Ledger, id: Id, target: PaymentStatus): Ledger
    requires id < |l.payments|
  {
    l.(payments := l.payments[id := l.payments[id].(status := target)],
       audit := l.audit + [(id, AuditRow(Some(l.payments[id].status), target))])
  }

  function Emit(l: Ledger, id: Id, kind: PaymentEventType): Ledger
    requires id < |l.payments|
  {
    var p := l.payments[id];
    l.(outbox := l.outbox + [LedgerEvent(kind, id, p.booking, p.amount, p.currency, None)])
  }

  /** A refund event carries the refunded amount instead of the payment's. */
  function EmitRefund(l: Ledger, id: Id, refund: Id): Ledger
    requires id < |l.payments| && refund < |l.refunds|
  {
    var p := l.payments[id];
    l.(outbox := l.outbox + [LedgerEvent(RefundedEvent, id, p.booking,
                                         l.refunds[refund].amount, p.currency, Some(refund))])
  }

  function SetRefund(l: Ledger, refund: Id, row: Refund): Ledger
    requires refund < |l.refunds|
  {
    l.(refunds := l.refunds[refund := row])
  }

  // ---- steps ----

  function NewPayment(l: Ledger, booking: Id, candidate: Id, key: Id): Ledger {
    l.(payments := l.payments + [Payment(booking, candidate, PRICE, INR, None, None, Created, key)],
       audit := l.audit + [(|l.payments|, AuditRow(None, Created))])
  }

  function CreateOrder(l: Ledger, booking: Id, candidate: Id, key: Id, payable: bool, reply: OrderReply)
    : (Ledger, Result<Id, Error>)
  {
    match First(l.payments, HasKey(candidate, key))
    case Some(i) => if l.payments[i].booking != booking then (l, Err(IdempotencyConflict)) else (l, Ok(i))
    case None =>
      match First(l.payments, IsOpenFor(booking, candidate))
      case Some(i) => (l, Ok(i))
      case None =>
        if !payable then (l, Err(NotPayable))
        else
          var created := NewPayment(l, booking, candidate, key);
          if !Constraints(created) then (l, Err(IntegrityFailure))
          else PlaceOrder(l, created, reply)
  }

  /** The provider's answer to the order of the payment just created. */
  function PlaceOrder(l: Ledger, created: Ledger, reply: OrderReply): (Ledger, Result<Id, Error>)
    requires |created.payments| == |l.payments| + 1
  {
    var id := |l.payments|;
    match reply
    case OrderAccepted(orderId, amount, currency) =>
      if amount == PRICE && currency == INR then
        var ordered := created.(payments := created.payments[id := created.payments[id].(orderId := Some(orderId))]);
        Commit(l, Move(ordered, id, Pending), Ok(id))
      else Commit(l, Emit(Move(created, id, Failed), id, FailedEvent), Err(ProviderError))
    case OrderRejected => Commit(l, Emit(Move(created, id, Failed), id, FailedEvent), Err(ProviderError))
  }

  function CompleteDevelopment(l: Ledger, id: Id, candidate: Id, payable: bool): (Ledger, Result<(), Error>) {
    if id >= |l.payments| || l.payments[id].candidate != candidate then (l, Err(PaymentNotFound))
    else if l.payments[id].amount != PRICE || l.payments[id].currency != INR then (l, Err(AmountMismatch))
    else if l.payments[id].status == Captured then (l, Ok(()))
    else if l.payments[id].status != Pending then (l, Err(InvalidPaymentTransition))
    else if !payable then (l, Err(NotPayable))
    else
      Commit(l, Emit(Move(SetReference(l, id, DevelopmentReference(id)), id, Captured), id, CapturedEvent), Ok(()))
  }

  function SetReference(l: Ledger, id: Id, reference: Reference): Ledger
    requires id < |l.payments|
  {
    l.(payments := l.payments[id := l.payments[id].(providerPaymentId := Some(reference))])
  }

  function RefundAmount(amount: Option<int>, payment: Payment): int {
    if amount.Some? && amount.value != 0 then amount.value else payment.amount
  }

  predicate MissingReference(payment: Payment) {
    payment.providerPaymentId.None? || payment.providerPaymentId.value == Named("")
  }

  function OpenRefund(l: Ledger, id: Id, amount: int): Ledger
    requires id < |l.payments|
  {
    Move(l.(refunds := l.refunds + [Refund(id, amount, RefundOpen, None)]), id, RefundPending)
  }

  function RequestRefund(l: Ledger, id: Id, amount: Option<int>, reply: RefundReply): (Ledger, Result<Id, Error>) {
    if id >= |l.payments| then (l, Err(PaymentNotFound))
    else
      var wanted := RefundAmount(amount, l.payments[id]);
      var already := Total(l.refunds, id, RefundProcessed);
      if l.payments[id].status !in {Captured, PartiallyRefunded} || wanted > l.payments[id].amount - already then
        (l, Err(InvalidRefund))
      else if MissingReference(l.payments[id]) then (l, Err(InvalidRefund))
      else
        var asked := OpenRefund(l, id, wanted);
        if !Constraints(asked) then (l, Err(IntegrityFailure))
        else SettleRefund(l, asked, id, already, reply)
  }

  function AfterRefund(amount: int, total: int): PaymentStatus {
    if total == amount then Refunded else PartiallyRefunded
  }

  /** The provider's answer to the refund just asked. */
  function SettleRefund(l: Ledger, asked: Ledger, id: Id, already: int, reply: RefundReply): (Ledger, Result<Id, Error>)
    requires id < |asked.payments| && |asked.refunds| == |l.refunds| + 1
  {
    var refund := |l.refunds|;
    match reply
    case RefundRejected =>
      var failed := SetRefund(asked, refund, asked.refunds[refund].(status := RefundFailed));
      Commit(l, Move(failed, id, Captured), Err(ProviderError))
    case RefundAccepted(refundId, processed) =>
      var named := asked.refunds[refund].(providerRefundId := Some(refundId));
      if !processed then Commit(l, SetRefund(asked, refund, named), Ok(refund))
      else
        var done := SetRefund(asked, refund, named.(status := RefundProcessed));
        var target := AfterRefund(asked.payments[id].amount, already + named.amount);
        Commit(l, EmitRefund(Move(done, id, target), id, refund), Ok(refund))
  }

  function HookTarget(kind: HookType): PaymentStatus {
    match kind
    case AuthorizedHook => Authorized
    case CapturedHook => Captured
    case _ => Failed
  }

  predicate HookAllowed(current: PaymentStatus, target: PaymentStatus) {
    match current
    case Pending => target in {Authorized, Captured, Failed}
    case Authorized => target in {Captured, Failed}
    case _ => false
  }

  /** Applying a payment webhook. The provider's reference is stored before the transition is
      checked, and stays stored when the transition is refused. */
  function ApplyPaymentHook(l: Ledger, kind: HookType, entity: PaymentEntity): (Ledger, Result<(), Error>) {
    match First(l.payments, HasOrder(entity.orderId))
    case None => (l, Err(PaymentNotFound))
    case Some(id) =>
      var p := l.payments[id];
      if entity.amount != p.amount || entity.currency != p.currency then (l, Err(WebhookMismatch))
      else
        var referenced := SetReference(l, id, Named(entity.paymentId));
        var target := HookTarget(kind);
        if p.status == target then (referenced, Ok(()))
        else if !HookAllowed(p.status, target) then (referenced, Err(InvalidPaymentTransition))
        else
          var moved := Move(referenced, id, target);
          match target
          case Captured => (Emit(moved, id, CapturedEvent), Ok(()))
          case Failed => (Emit(moved, id, FailedEvent), Ok(()))
          case _ => (moved, Ok(()))
  }

  function ApplyRefundHook(l: Ledger, refundId: string): (Ledger, Result<(), Error>) {
    match First(l.refunds, HasRefundId(refundId))
    case None => (l, Err(RefundNotFound))
    case Some(refund) =>
      if l.refunds[refund].status == RefundProcessed then (l, Ok(()))
      else if l.refunds[refund].payment >= |l.payments| then (l, Err(InvalidWebhookPayload))
      else
        var id := l.refunds[refund].payment;
        var done := SetRefund(l, refund, l.refunds[refund].(status := RefundProcessed));
        var target := AfterRefund(l.payments[id].amount, Total(done.refunds, id, RefundProcessed));
        (EmitRefund(Move(done, id, target), id, refund), Ok(()))
  }

  function ApplyHook(l: Ledger, kind: HookType, payload: Payload): (Ledger, Result<(), Error>) {
    if kind == RefundProcessedHook then
      if payload.refundId.None? then (l, Err(InvalidWebhookPayload)) else ApplyRefundHook(l, payload.refundId.value)
    else
      if payload.payment.None? then (l, Err(InvalidWebhookPayload))
      else ApplyPaymentHook(l, kind, payload.payment.value)
  }

  function SetHook(l: Ledger, event: string, status: WebhookStatus): Ledger {
    l.(webhooks := l.webhooks[event := status])
  }

  predicate Finished(l: Ledger, event: string) {
    event in l.webhooks && l.webhooks[event] in {Processed, Ignored}
  }

  /** One delivery of a webhook: (duplicate, ignored). A refused application is committed too. */
  function ProcessWebhook(l: Ledger, event: string, kind: HookType, payload: Payload)
    : (Ledger, Result<(bool, bool), Error>)
  {
    if Finished(l, event) then (l, Ok((true, l.webhooks[event] == Ignored)))
    else if kind == UnsupportedHook then Commit(l, SetHook(l, event, Ignored), Ok((false, true)))
    else
      var (applied, result) := ApplyHook(l, kind, payload);
      match result
      case Err(error) => Commit(l, SetHook(applied, event, HookFailed), Err(error))
      case Ok(_) => Commit(l, SetHook(applied, event, Processed), Ok((false, false)))
  }

  // ---- runs ----

  datatype PaymentOp =
    | OrderOp(booking: Id, candidate: Id, key: Id, payable: bool, order: OrderReply)
    | DevelopmentOp(completed: Id, completedBy: Id, stillPayable: bool)
    | HookOp(event: string, kind: HookType, payload: Payload)
    | RefundOp(refunded: Id, refundAmount: Option<int>, refund: RefundReply)

  function Step(l: Ledger, op: PaymentOp): Ledger {
    match op
    case OrderOp(booking, candidate, key, payable, reply) => CreateOrder(l, booking, candidate, key, payable, reply).0
    case DevelopmentOp(id, candidate, payable) => CompleteDevelopment(l, id, candidate, payable).0
    case HookOp(event, kind, payload) => ProcessWebhook(l, event, kind, payload).0
    case RefundOp(id, amount, reply) => RequestRefund(l, id, amount, reply).0
  }

  /** The ledger after a sequence of steps, whatever the provider answers and however often or in
      whatever order it delivers its webhooks. */
  function Replay(ops: seq<PaymentOp>): Ledger {
    if |ops| == 0 then EMPTY_LEDGER else Step(Replay(ops[..|ops| - 1]), ops[|ops| - 1])
  }
}
