/** The event contracts the services exchange through the outbox and the broker. */
module Contracts {

  /** Every id that the models treat as a UUID. */
  type Id = nat

  /** Instants are microseconds since the epoch, the resolution of the stored timestamps. */
  type Instant = int

  const SECOND: int := 1_000_000

  /** Event ids are UUIDs, so ids made by different producers never coincide. */
  datatype EventId =
    | PaymentOutbox(row: nat)
    | InterviewerOutbox(row: nat)
    | Local(n: nat)

  datatype Currency = INR | OtherCurrency(code: string)

  datatype PaymentEventType = CapturedEvent | FailedEvent | RefundedEvent | UnknownEvent

  /** The interviewer events the booking and auth services listen to, and the
      synthetic event of an availability snapshot. */
  datatype InterviewerEvent = Approved | Rejected | Suspended | Deleted | SnapshotTaken

  /** The configured session price, which check constraints pin in both databases. */
  const PRICE: int := 20000
}
