# RoundReady verification

Dafny models of the services behind RoundReady, a marketplace for mock interviews, and proofs of what
they keep. Candidates hold and book interview slots, pay for them and attend a session; interviewers
are verified, publish weekly availability and can be suspended or deleted. Each service owns its
database and tells the others what happened through an outbox and a broker that delivers at least once.

Most services appear three times. A `...Model` file (`PaymentLedger`, `Notifications`) gives its tables as
one value and each committed step as a function on it. A `...Safety` file proves what the steps keep and what
holds in every run. A `...Service` file has the class whose methods change the tables field by field, as the
service does; each method is proved to take exactly the step of the model and to stay among the reachable
states. An `...Outcomes` file says, in terms of the tables alone, when each step succeeds and what it leaves.
`RateLimiter`, `Outbox`, `Scoring`, `WeeklyRules` and `RuleEditor` hold specification, proofs and
methods in one file.
`Saga` joins the payment and booking services, and `Lifecycle` the interviewer, booking and auth
services, over a broker that may reorder and repeat.

Main results, hardest first:

- **Lifecycle** (`Lifecycle.dfy`): the booking and auth projections of an interviewer converge under any
  order and any duplicates of the events, with availability snapshots interleaved and applied late.
- **Booking** (`BookingModel`, `BookingSafety`, `HoldExclusivity`, `BookingOutcomes`, `BookingService`): a slot
  is booked iff exactly one live booking holds it; a hold is exclusive until it expires, and its holder can book.
- **Saga** (`Saga.dfy`): a booking is confirmed at most once, and only on a payment captured for its amount
  after the capture was reported.
- **Availability** (`WeeklyRules`, `Availability`, `AvailabilitySync`): the window expansion is sound and
  complete, validated rules give disjoint windows, and a synchronisation run is exact and idempotent.
- **Payments** (`PaymentLedger`, `PaymentSafety`, `PaymentOutcomes`, `PaymentService`): refunds are conserved,
  one settlement event per payment, webhooks count once.
- **Refresh tokens** (`AuthModel`, `AuthSafety`, `AuthService`): rotation with reuse detection as in
  section 5.2.2.3 of RFC 6819 and section 4.14.2 of RFC 9700.
- **Interviewer verification**, **notifications**, **rate limiter**, **attendance and scoring**, **outbox publisher**
  and the **availability editor** of the front end, which agrees with the server's validator.

Where the code gives less than one might expect, the model follows the code:

- Connected time can exceed the span between first join and last leave: `InterviewSafety.NextMarkFits` says
  which event breaks the bound, `BoundHoldsIffNoEarlyLeave` which runs do, and `EarlyLeaveBreaksTheBound` is one.
- A refused payment webhook can still commit an overwritten provider payment id:
  `PaymentSafety.RefusedHookOverwrites` says exactly when, and `RefusedHookHappens` is an instance.
- A rejected refund returns its payment to CAPTURED even when earlier refunds were processed
  (`PaymentSafety.RejectedRefundReturns`).
- Two concurrent logouts with one access token, both authenticated before either commits, can leave the later
  one's refresh family alive: `AuthSafety.ConcurrentLogoutLeavesFamily` says exactly when, and
  `ConcurrentLogoutHappens` is an instance. Logging out again later cannot, because authentication refuses it
  (`AuthenticatedLogout`).
- A capture that reaches a booking no longer waiting for payment, because the candidate cancelled, changes
  nothing there, so the money stays captured (`Saga.CaptureConfirms`).
- The rate limiter lets up to 2 * limit - 1 requests through in one window length, and that is reached.
- The editor does not count rules, so a form of more than fifty passes it and is refused by the server.

Conventions. Instants and spans are whole microseconds. Ids are numbers; hashes, signatures and keyed
fingerprints are injective; an event id names its producer, so ids of different producers differ. One
committed service call is one atomic step, and a call that raises without a commit changes nothing. A
database constraint guards the commit. Replies of providers and of other services are parameters.

`dafny verify dfyconfig.toml` checks the whole project.

## Model

| member | source | states |
|---|---|---|
| `BookingSafety.BookedIffOneBooking` | services/booking-service/app/domain/models.py:113-118 | in every reachable state a slot is BOOKED iff exactly one booking on it occupies its time, and otherwise none does; every booking carries the flag that its status prescribes |
| `BookingSafety.NobodyIsDoubleBooked` | services/booking-service/app/domain/models.py:97-112 | in every reachable state two occupying bookings have different slots, and bookings of the same candidate or of the same interviewer do not overlap in time |
| `BookingSafety.ActiveIndexNeverTrips` | services/booking-service/app/application/booking_service.py:178-246 | a slot that can be claimed carries no occupying booking, so the unique index on active slots is never what refuses a commit |
| `BookingSafety.RefusalIsNeverTheSlotIndex` | services/booking-service/app/application/booking_service.py:178-267 | when a claimable hold is refused with an overlap, another occupying booking of the same candidate or interviewer at that time, or a reused row id, is the reason |
| `BookingSafety.NextKeeps` | services/booking-service/app/application/booking_service.py:45-446 | each of the ten kinds of committed step keeps the invariant that links slots, bookings, history, outbox, eligibility and holds |
| `BookingSafety.RunKeeps` | services/booking-service/app/application/booking_service.py:45-446 | the invariant holds in every state of every run from an empty database |
| `BookingSafety.ReleaseAgrees` | services/booking-service/app/application/booking_service.py:318-321 | the unguarded slot release after a move to a terminal status frees no other booking's slot |
| `BookingSafety.PaymentIsTransitions` | services/booking-service/app/application/booking_service.py:364-396 | an accepted payment event equals one ordinary transition, or for a capture the two through BOOKED to CONFIRMED with one announcement |
| `BookingSafety.AuditChain` | services/booking-service/app/application/booking_service.py:292-310 | every booking's history is a connected path of allowed moves from creation to its current status, at most nine rows long |
| `BookingSafety.EventsAtMostOnce` | services/booking-service/app/application/booking_service.py:448-470 | a booking announces an event exactly once if its history reached the matching status and otherwise never |
| `BookingStates.TransitionsClimb` | services/booking-service/app/domain/state_machine.py:15-53 | a status frees its time iff nothing can follow it, and every allowed move climbs a rank |
| `BookingStates.PathIsShortAndSimple` | services/booking-service/app/domain/state_machine.py:15-53 | a connected chain of allowed moves has at most nine rows and repeats no status |
| `BookingStates.NineRowsAreReached` | services/booking-service/app/domain/state_machine.py:15-45 | the bound of nine rows is reached |
| `HoldExclusivity.HoldSucceeds` | services/booking-service/app/application/booking_service.py:135-176 | a successful hold leaves the slot held for the candidate under the token until now plus the time to live |
| `HoldExclusivity.StepKeepsHeldSlot` | services/booking-service/app/application/booking_service.py:135-446 | no step other than the holder's own booking changes a live-held slot: not another hold, the expiry job, an availability run, or the release of an old booking |
| `HoldExclusivity.HoldIsExclusive` | services/booking-service/app/application/booking_service.py:135-267 | over any run, up to the expiry and until a booking of the slot is made, the held slot row keeps every field, also after refused attempts of the holder |
| `HoldExclusivity.UnbookedStepKeepsHeldSlot` | services/booking-service/app/application/booking_service.py:135-446 | a step that makes no booking of a live-held slot leaves it as it is, whoever takes the step |
| `HoldExclusivity.FirstBookingIsTheHolders` | services/booking-service/app/application/booking_service.py:178-267 | over any run, the first booking of the held slot made before the expiry is made with the hold's token and belongs to its holder |
| `HoldExclusivity.OnlyTheHolderBooks` | services/booking-service/app/application/booking_service.py:178-267 | whatever step changes a live-held slot is the holder's booking with the hold's token, and it yields a booking of that slot for the holder |
| `BookingOutcomes.HoldOutcome` | services/booking-service/app/application/booking_service.py:135-176 | a hold succeeds iff there is no Redis entry and the slot is in the future, its interviewer verified, and the slot on public offer; a refusal changes nothing |
| `BookingOutcomes.HolderCanBook` | services/booking-service/app/application/booking_service.py:135-267 | over any run, as long as a hold has neither run out nor been used, its holder can book iff the slot has not begun, its interviewer is still verified and everybody is free at that time |
| `BookingOutcomes.EntryStays` | services/booking-service/app/infrastructure/holds.py:16-46 | over any run Redis keeps the hold's entry until it expires or the slot is booked |
| `BookingOutcomes.CreateOutcome` | services/booking-service/app/application/booking_service.py:178-267 | with a new key a booking is made iff the candidate has the claim, in Redis and on the row, and no occupying booking of the candidate or the interviewer meets the time; the errors say which |
| `BookingOutcomes.CreateLeaves` | services/booking-service/app/application/booking_service.py:203-267 | a new booking copies its slot's interviewer and times and waits for the session price; the slot is booked, the hold gone, one history row and one event written, nothing else changed |
| `BookingOutcomes.RepeatedKeyReturns` | services/booking-service/app/application/booking_service.py:186-192 | a used idempotency key returns the candidate's one booking with it and changes nothing |
| `BookingOutcomes.TransitionOutcome` | services/booking-service/app/application/booking_service.py:282-323 | a transition succeeds iff the booking is in a status the target may come from; it writes the status, one history row and the target's event, frees the slot iff the status ends the booking, and touches nothing else |
| `BookingOutcomes.CancelOutcome` | services/booking-service/app/application/booking_service.py:325-335 | a booking is cancelled iff its own candidate asks and it waits for payment, is booked or confirmed; to anybody else it does not exist |
| `BookingOutcomes.PaymentIsGuarded` | services/booking-service/app/application/booking_service.py:337-363 | a processed event is skipped, and an unknown booking, another amount and another currency are refused |
| `BookingOutcomes.PaymentOutcome` | services/booking-service/app/application/booking_service.py:364-396 | a new event for the right amount succeeds iff it is a capture or failure of a booking that waits for payment, or a refund of a booked or confirmed one; only an unlisted kind is unsupported, and a refusal changes nothing |
| `BookingOutcomes.PaymentLeaves` | services/booking-service/app/application/booking_service.py:364-396 | an accepted capture confirms the booking, keeps its slot and is announced once; a failure or a refund ends it and frees the slot; each stores the payment and the event id |
| `BookingOutcomes.ExpireOutcome` | services/booking-service/app/application/booking_service.py:428-446 | a slot changes iff it is held and its expiry has come, it then is free of all hold columns, and no run-out hold is left |
| `BookingOutcomes.GenerateOutcome` | services/booking-service/app/application/booking_service.py:45-82 | slots are generated iff the interviewer is verified and every window has the session's length; then every window has a slot, new ones are free, and old ones unchanged |
| `BookingOutcomes.SourcesMatch` | services/booking-service/app/domain/state_machine.py:15-45 | the transition table read backwards: each target with the statuses it may come from |
| `BookingModel.ExistingBooking` | services/booking-service/app/application/booking_service.py:186-192 | finds the candidate's booking with the idempotency key iff there is one |
| `BookingService.BookingService.Generate` | services/booking-service/app/application/booking_service.py:45-82 | takes the slot generation step: all windows or none, and existing windows are skipped |
| `BookingService.BookingService.Hold` | services/booking-service/app/application/booking_service.py:135-176 | takes the hold step, and gives the Redis entry back when the slot cannot be held |
| `BookingService.BookingService.Create` | services/booking-service/app/application/booking_service.py:178-267 | takes the booking step, returns the earlier booking for a repeated idempotency key, and changes nothing on any refusal |
| `BookingService.BookingService.TransitionTo` | services/booking-service/app/application/booking_service.py:282-323 | takes the transition step with its history row, event and slot release |
| `BookingService.BookingService.SetSlotAvailable` | services/booking-service/app/application/booking_service.py:318-321 | makes the slot available whatever its status was |
| `BookingService.BookingService.Cancel` | services/booking-service/app/application/booking_service.py:325-335 | only the booking's own candidate can cancel it |
| `BookingService.BookingService.Walk` | services/booking-service/app/application/booking_service.py:364-388 | moves through all the targets, or reports that one of them is not allowed |
| `BookingService.BookingService.ApplyPayment` | services/booking-service/app/application/booking_service.py:337-396 | takes the payment event step: once per event id, only for the exact amount and currency, all moves or none |
| `BookingService.BookingService.SetInterviewerEligibility` | services/booking-service/app/application/booking_service.py:398-426 | takes the projection step: once per event id, the newest event wins and deletion is final |
| `BookingService.BookingService.ExpireOldHolds` | services/booking-service/app/application/booking_service.py:428-446 | exactly the held slots whose expiry has come become available |
| `BookingService.BookingService.Reconcile` | services/booking-service/app/application/availability.py:102-174 | rewrites the slots so that the reconciliation relation holds; the table grows by exactly the count it returns |
| `BookingService.BookingService.Synchronize` | services/booking-service/app/application/availability.py:93-174 | applies the snapshot to the eligibility row and then reconciles the slots; the table grows by exactly the count it returns |
| `BookingService.RunIsReconciled` | services/booking-service/app/application/availability.py:111-173 | reviewing the existing slots and then adding the missing windows establishes the reconciliation relation |
| `HoldStore.RedisHoldStore.Acquire` | services/booking-service/app/infrastructure/holds.py:16-24 | set-if-absent: succeeds iff no entry exists, and then stores the token with its time to live |
| `HoldStore.RedisHoldStore.Matches` | services/booking-service/app/infrastructure/holds.py:26-32 | true iff the entry exists and carries the token |
| `HoldStore.RedisHoldStore.Release` | services/booking-service/app/infrastructure/holds.py:34-46 | deletes the entry iff it still carries the caller's token |
| `AvailabilitySync.SyncIsExact` | services/booking-service/app/application/availability.py:110-174 | after a run the future windows on offer are exactly the wanted ones, and booked, live-held, past and foreign slots are as before |
| `AvailabilitySync.SyncOnCalendar` | services/booking-service/app/application/availability.py:110-174 | after a run a future window is listed iff the interviewer is verified with skills, the window is on the calendar of the rules, and no booked or live-held slot is in the way |
| `AvailabilitySync.SyncWithNewSnapshot` | services/booking-service/app/application/availability.py:93-174 | with a snapshot at least as new as the eligibility row the whole run offers exactly the wanted windows, none for an unverified interviewer or one without skills |
| `AvailabilitySync.StaleSnapshotIsIgnored` | services/booking-service/app/application/availability.py:101-109 | with a snapshot older than the eligibility row no slot changes |
| `AvailabilitySync.SyncIsIdempotent` | services/booking-service/app/application/availability.py:93-174 | a second run with the same snapshot at the same time changes no slot and no eligibility row |
| `Availability.Windows` | services/booking-service/app/application/availability.py:43-73 | the nested loops return exactly the windows the rules mean: sound and complete against an unbounded calendar of weeks, weekdays and steps |
| `Availability.ExpandRule` | services/booking-service/app/application/availability.py:49-72 | the loop over 31 local days finds every step of the rule that starts inside the horizon |
| `Availability.ExpandDay` | services/booking-service/app/application/availability.py:56-72 | the while loop adds exactly the steps of one matching day that fit before the rule ends and are bookable |
| `Availability.IsBlocked` | services/booking-service/app/application/availability.py:67-69 | true iff some blockout overlaps the window |
| `Availability.HorizonCovered` | services/booking-service/app/application/availability.py:50-52 | a window starting inside the horizon falls on one of the local days the loop visits |
| `Availability.WeekdaysTurn` | services/booking-service/app/application/availability.py:53 | weekdays follow each other round the week, and 1 January 1970 was a Thursday |
| `Availability.WindowsMean` | services/booking-service/app/application/availability.py:43-73 | a window is wanted iff it is a whole step of some rule on the rule's weekday of some calendar week, counted from Monday 5 January 1970 in the rule's local time, starts after now and within thirty days, and misses every blockout |
| `Availability.WindowsDisjoint` | services/booking-service/app/application/availability.py:48-72 | windows of validated rules in one timezone are equal or disjoint, across rules, weekdays and weeks |
| `WeeklyRules.NonOverlapping` | services/interviewer-service/app/api/schemas.py:165-178 | group, sort and compare neighbours accepts exactly the lists in which no two rules overlap |
| `WeeklyRules.OverlapIsSharedMoment` | services/interviewer-service/app/api/schemas.py:165-178 | two rules overlap iff they share a moment of one weekday in one zone; rules that only touch do not |
| `WeeklyRules.GroupRules` | services/interviewer-service/app/api/schemas.py:168-170 | the dictionary maps each weekday and timezone to its rules in request order |
| `WeeklyRules.AdjacentCheck` | services/interviewer-service/app/api/schemas.py:172-177 | true iff each rule of the ordered group ends before the next starts |
| `WeeklyRules.AdjacentDecides` | services/interviewer-service/app/api/schemas.py:171-177 | on a sorted group of valid rules the adjacent check decides the pairwise one |
| `WeeklyRules.GroupsDecide` | services/interviewer-service/app/api/schemas.py:168-170 | a list is free of overlaps iff each of its groups is |
| `WeeklyRules.SortSorts` | services/interviewer-service/app/api/schemas.py:172 | sorting by start time orders the rules and keeps them as a multiset |
| `RuleEditor.AvailabilityErrors` | frontend/components/interviewer/interviewer-workspace.tsx:87-127 | the record holds an entry exactly for the rules with a complaint, and each entry says exactly what is wrong |
| `RuleEditor.OverlapAgrees` | frontend/components/interviewer/interviewer-workspace.tsx:106-125 | for rows with readable times the form complains of an overlap iff two of the rules it would send overlap; the server's verdict on valid rules is the same by `WeeklyRules.NonOverlapping` |
| `RuleEditor.SilentIffAccepted` | services/interviewer-service/app/api/schemas.py:143-178 | the editor stays silent exactly on the forms the server accepts, except that it does not count the rules |
| `RuleEditor.SaveRules` | frontend/components/interviewer/interviewer-workspace.tsx:363-376 | nothing is sent while there are complaints, and what is sent the overlap validator accepts |
| `RuleEditor.CanonicalShape` | frontend/components/interviewer/interviewer-workspace.tsx:69-85 | every accepted value reads as a 24-hour time with valid hour and minute |
| `RuleEditor.ClockReads` | frontend/components/interviewer/interviewer-workspace.tsx:70-76 | a canonical time, with or without seconds and blanks, reads as itself |
| `RuleEditor.TwelveHourReads` | frontend/components/interviewer/interviewer-workspace.tsx:77-84 | every twelve-hour time reads as the moment it means, noon and midnight included |
| `RuleEditor.EveryMinuteReads` | frontend/components/interviewer/interviewer-workspace.tsx:69-85 | every minute of the day, written on a twelve-hour clock with its AM or PM in any case, with or without a leading zero and blanks, is read back as itself |
| `RuleEditor.TwelveHourRefuses` | frontend/components/interviewer/interviewer-workspace.tsx:77-81 | hour 0, hours above 12 and minutes above 59 are not read, whatever follows |
| `RuleEditor.OrderIsTime` | frontend/components/interviewer/interviewer-workspace.tsx:93-94 | on canonical times string order is time order |
| `PaymentSafety.RefundsConserved` | services/payment-service/app/application/payment_service.py:262-369 | after any run processed plus pending refunds never exceed the payment, one refund is pending iff the payment is REFUND_PENDING, the refunded statuses mean what they say, and the outbox announces exactly the processed money |
| `PaymentSafety.OneSettlementEvent` | services/payment-service/app/application/payment_service.py:119-260 | after any run a payment has announced at most one of captured and failed, and exactly one once it is settled |
| `PaymentSafety.RedeliveryChangesNothing` | services/payment-service/app/application/payment_service.py:156-203 | redelivering a processed or ignored webhook at any later point changes nothing |
| `PaymentSafety.RefusedHookOverwrites` | services/payment-service/app/application/payment_service.py:190-258 | a refused webhook changes the payments iff it is unfinished, matches an order, amount and currency, asks for a move the status forbids, and names a provider payment id that no payment carries; then it stores that id on the order's payment and touches no refund, audit row or event |
| `PaymentSafety.RefusedHookHappens` | services/payment-service/app/application/payment_service.py:190-258 | a reachable ledger and a late failure event for a captured payment that do so |
| `PaymentSafety.RejectedRefundReturns` | services/payment-service/app/application/payment_service.py:308-320 | a refund the provider rejects leaves its payment CAPTURED and the processed total unchanged, however much was refunded before |
| `PaymentOutcomes.HookOutcome` | services/payment-service/app/application/payment_service.py:205-260 | a webhook about a payment's order, amount and currency: an authorisation moves PENDING to AUTHORIZED and announces nothing, a capture moves PENDING or AUTHORIZED to CAPTURED and a failure to FAILED with exactly one event each, repeated ones change only the reference, any other is refused |
| `PaymentOutcomes.HookIsGuarded` | services/payment-service/app/application/payment_service.py:156-221 | a finished webhook is a duplicate, an unsupported one is ignored, and one about no payment is stored as failed; none of them touches the money |
| `PaymentOutcomes.MismatchIsRefused` | services/payment-service/app/application/payment_service.py:219-230 | a webhook about a payment's order with another amount or currency is stored as failed and touches no money |
| `PaymentOutcomes.RefundHookIsGuarded` | services/payment-service/app/application/payment_service.py:338-350 | a refund webhook without a refund entity, or about a refund nobody asked for, is stored as failed and touches no money |
| `PaymentOutcomes.CaptureWasReported` | services/payment-service/app/application/payment_service.py:119-260 | after any run a capture was announced only for a payment that some step reported captured: the provider, for its order, amount and currency, or its own candidate in development |
| `PaymentOutcomes.OrderOutcome` | services/payment-service/app/application/payment_service.py:33-94 | a first order for a payable booking leaves a PENDING payment of the session price with the provider's order id, or an announced FAILED one if the provider refuses or answers another amount; everything else leaves nothing |
| `PaymentOutcomes.OrderIsRepeated` | services/payment-service/app/application/payment_service.py:33-60 | a used key returns its payment for the same booking only, and a booking with an open or captured payment returns that one |
| `PaymentOutcomes.DevelopmentOutcome` | services/payment-service/app/application/payment_service.py:119-154 | a development payment is captured and announced iff its own candidate completes it while it is PENDING and the booking payable |
| `PaymentOutcomes.RefundOutcome` | services/payment-service/app/application/payment_service.py:262-336 | a refund is asked iff the payment is captured and has a provider reference and a positive amount is left for it; the row, the status, the audit rows and the event then follow the provider's answer |
| `PaymentOutcomes.RefundHookOutcome` | services/payment-service/app/application/payment_service.py:338-369 | the report of a processed refund counts once: full or partial by what is left, with the refund's own amount announced |
| `PaymentSafety.FinishedForever` | services/payment-service/app/application/payment_service.py:168-203 | a processed or ignored webhook stays so through any further steps |
| `PaymentSafety.AuditIsConnected` | services/payment-service/app/application/payment_service.py:371-395 | after any run the audit rows of a payment form a connected path to its status |
| `PaymentSafety.OnePaymentPerBooking` | services/payment-service/app/domain/models.py:64 | after any run two payments never belong to one booking |
| `PaymentSafety.StepKeeps` | services/payment-service/app/application/payment_service.py:33-369 | order, webhook, development completion and refund steps keep the books of every payment sound |
| `PaymentService.PaymentService.Order` | services/payment-service/app/application/payment_service.py:33-94 | takes the order step, with the earlier payment returned for a repeated key and the failure paths committed as the service commits them |
| `PaymentService.PaymentService.CompleteDevelopmentPayment` | services/payment-service/app/application/payment_service.py:119-154 | takes the development completion step |
| `PaymentService.PaymentService.RefundPayment` | services/payment-service/app/application/payment_service.py:262-336 | takes the refund step: the request and the provider's reply commit together, a rejection included |
| `PaymentService.PaymentService.ProcessedTotal` | services/payment-service/app/application/payment_service.py:271-276 | adds up the payment's processed refunds |
| `PaymentService.PaymentService.Webhook` | services/payment-service/app/application/payment_service.py:156-203 | takes the webhook step: the event row is committed, and a refused event is marked failed and committed too |
| `PaymentService.PaymentService.PaymentHook` | services/payment-service/app/application/payment_service.py:205-260 | applies a payment event to the payment with the matching provider order |
| `PaymentService.PaymentService.RefundHook` | services/payment-service/app/application/payment_service.py:338-369 | applies a processed-refund event to the pending refund |
| `PaymentService.PaymentService.SetStatus` | services/payment-service/app/application/payment_service.py:371-395 | a status change appends its audit row |
| `Saga.ConfirmedOnlyIfCaptured` | services/booking-service/app/application/booking_service.py:337-396 | in every run a booking visits CONFIRMED at most once and only if its one payment was captured for exactly its amount and announced once, after the provider had reported the capture by webhook or, in development, the payment's own candidate had completed it |
| `Saga.EachEventCountsOnce` | services/booking-service/app/application/booking_service.py:347-349 | of all deliveries of one payment event at most one changes the booking database |
| `Saga.CaptureConfirms` | services/booking-service/app/application/booking_service.py:337-396 | a capture event not processed before confirms its booking and stores the payment if the booking waits for payment, and otherwise leaves the booking database as it was |
| `Saga.DeliveryAdvances` | services/booking-service/app/application/booking_service.py:337-396 | a delivery that changes anything is new, matches the booking's amount, and advances only that booking |
| `InterviewerSafety.CachesAlwaysAgree` | services/interviewer-service/app/application/interviewer_service.py:119-366 | in every run the profile status equals the verification row's, and the evidence, screening, mobile and company checks say what their sources say |
| `InterviewerSafety.VerifiedNeedsAllChecks` | services/interviewer-service/app/application/interviewer_service.py:580-761 | every move to VERIFIED ends a suspension or leaves UNDER_REVIEW with all six checks passed and their sources in order |
| `InterviewerSafety.VerifyingStep` | services/interviewer-service/app/application/interviewer_service.py:1106-1227 | through either review path only a reactivation or an approval with all required checks verifies a profile |
| `InterviewerSafety.DeletedIsSilent` | services/interviewer-service/app/application/interviewer_service.py:1229-1254 | a deleted profile never changes status and emits nothing more |
| `InterviewerSafety.NothingAfterDeletion` | services/interviewer-service/app/application/interviewer_service.py:1051-1104 | the lifecycle log of any run is strictly increasing in time and nothing follows a deletion |
| `InterviewerSafety.StepKeeps` | services/interviewer-service/app/application/interviewer_service.py:83-1227 | every step keeps the caches, the open challenges and the log in agreement |
| `InterviewerSafety.ConfirmKeeps` | services/interviewer-service/app/application/interviewer_service.py:119-179 | a matched challenge verifies a contact value that is stored |
| `InterviewerSafety.OwnershipNeedsTheSecret` | services/interviewer-service/app/application/interviewer_service.py:119-179 | a contact becomes verified exactly by answering an open, unexpired challenge for its stored value with the right secret and an attempt to spare |
| `InterviewerSafety.ChangedContactIsUnverified` | services/interviewer-service/app/application/interviewer_service.py:83-117 | storing another contact value takes its verification and its check away |
| `InterviewerSafety.OneOpenChallenge` | services/interviewer-service/app/application/interviewer_service.py:119-242 | in every run at most one challenge of each kind is open and none takes more attempts than allowed |
| `InterviewerOutcomes.ReviewActionOutcome` | services/interviewer-service/app/application/interviewer_service.py:580-761 | a review action succeeds iff somebody else takes it, without payload, on a profile that is not deleted and stands where the action starts, with all six checks for an approval and a reason for a setback; both status columns and the event follow |
| `InterviewerOutcomes.ReviewOutcome` | services/interviewer-service/app/application/interviewer_service.py:1106-1195 | the plain endpoints approve a fully checked profile under review, reject one under review and suspend a verified one, and nothing else |
| `InterviewerOutcomes.ReactivateOutcome` | services/interviewer-service/app/application/interviewer_service.py:1197-1227 | only somebody else reactivates a suspended profile, and that is announced as an approval |
| `InterviewerOutcomes.SubmitOutcome` | services/interviewer-service/app/application/interviewer_service.py:312-366 | a profile is submitted iff it is complete, its e-mail, phone and company addresses are proved, and it is pending or rejected |
| `InterviewerOutcomes.DeleteOutcome` | services/interviewer-service/app/application/interviewer_service.py:1051-1104 | a profile is deleted, once, iff somebody else asks and the booking service answers that nothing is booked |
| `InterviewerOutcomes.SupplyOutcome` | services/interviewer-service/app/application/interviewer_service.py:529-578 | evidence can be supplied until the profile is verified or suspended, waits for review, and the evidence check stays true to the evidence |
| `InterviewerOutcomes.EvidenceOutcome` | services/interviewer-service/app/application/interviewer_service.py:440-485 | a review of existing evidence by somebody else stores its status, and the evidence check stays true to the evidence |
| `InterviewerOutcomes.ScreeningOutcome` | services/interviewer-service/app/application/interviewer_service.py:487-527 | a screening is scheduled first and gets one result |
| `InterviewerOutcomes.LinkedinOutcome` | services/interviewer-service/app/application/interviewer_service.py:421-438 | the LinkedIn check passes iff somebody else reviews a profile that is not deleted and has a link |
| `InterviewerOutcomes.UpdateOutcome` | services/interviewer-service/app/application/interviewer_service.py:293-310 | a profile is updated iff it is not deleted, and the LinkedIn review of a new one needs a link first |
| `InterviewerOutcomes.RequestOutcome` | services/interviewer-service/app/application/interviewer_service.py:83-117 | a challenge is issued iff no open one of its kind is cooling down; it is then the only open one, and the contact has the value, verified only if it was before |
| `InterviewerOutcomes.VerifyOutcome` | services/interviewer-service/app/application/interviewer_service.py:119-179 | a wrong secret costs an attempt, the right one consumes the challenge and verifies a contact that still has the challenged value, and a challenge that cannot be tried changes nothing |
| `InterviewerService.InterviewerService.AccountEmail` | services/interviewer-service/app/application/interviewer_service.py:55-66 | stores whether the account e-mail is verified |
| `InterviewerService.InterviewerService.RequestContactVerification` | services/interviewer-service/app/application/interviewer_service.py:83-117 | takes the contact request step: a changed value is unverified and the newest open challenge consumed, or nothing is stored |
| `InterviewerService.InterviewerService.FindLatestOpen` | services/interviewer-service/app/application/interviewer_service.py:199-208 | finds the newest open challenge of the kind |
| `InterviewerService.InterviewerService.VerifyContactChallenge` | services/interviewer-service/app/application/interviewer_service.py:119-179 | takes the verification step: a wrong secret costs a committed attempt, a right one consumes the challenge |
| `InterviewerService.InterviewerService.UpsertProfile` | services/interviewer-service/app/application/interviewer_service.py:293-310 | stores the profile unless it is deleted |
| `InterviewerService.InterviewerService.ReviewLinkedinProfile` | services/interviewer-service/app/application/interviewer_service.py:421-438 | passes the LinkedIn check of a profile that has a link |
| `InterviewerService.InterviewerService.ReviewEvidenceRow` | services/interviewer-service/app/application/interviewer_service.py:440-485 | stores the review and recomputes the evidence check from all evidence |
| `InterviewerService.InterviewerService.SupplyEvidence` | services/interviewer-service/app/application/interviewer_service.py:529-578 | new or replaced evidence waits for review and the evidence check is recomputed |
| `InterviewerService.InterviewerService.RecordScreeningCall` | services/interviewer-service/app/application/interviewer_service.py:487-527 | stores the screening result and its check, only after it was scheduled |
| `InterviewerService.InterviewerService.SubmitVerification` | services/interviewer-service/app/application/interviewer_service.py:312-366 | takes the submission step with its guards in order |
| `InterviewerService.InterviewerService.ReviewAction` | services/interviewer-service/app/application/interviewer_service.py:580-761 | takes the layered review step with its guards in order |
| `InterviewerService.InterviewerService.ReviewStatus` | services/interviewer-service/app/application/interviewer_service.py:1106-1195 | takes the plain review step with its guards in order |
| `InterviewerService.InterviewerService.ReactivateInterviewer` | services/interviewer-service/app/application/interviewer_service.py:1197-1227 | takes the reactivation step |
| `InterviewerService.InterviewerService.DeleteInterviewer` | services/interviewer-service/app/application/interviewer_service.py:1051-1104 | takes the deletion step: refused while bookings are active or unknown, and harmless when repeated |
| `Lifecycle.Converges` | services/booking-service/app/application/booking_service.py:398-426 | for every run of the three services, with deliveries in any order and any duplicates, snapshots applied in between and each event delivered at least once, booking lists the interviewer iff verified and not deleted, and the account is disabled, blocked or active as the profile calls for |
| `Lifecycle.BookingConverges` | services/booking-service/app/workers/events.py:38-62 | once every event has been processed the eligibility row says what the profile says |
| `Lifecycle.AuthConverges` | services/auth-service/app/application/auth_service.py:308-345 | once every subscribed event has been heard the account's access is what the profile calls for |
| `Lifecycle.ApplyKeeps` | services/booking-service/app/application/booking_service.py:408-426 | applying an event or a snapshot leaves a row that repeats some prefix of the log, with every other event newer than the row |
| `Lifecycle.ObserveKeeps` | services/interviewer-service/app/api/routes.py:404-430 | a snapshot stamped before its rows are read still reflects a prefix of the log |
| `Lifecycle.ToAuthKeeps` | services/auth-service/app/application/auth_service.py:321-345 | an applied access event leaves the account obeying the newest event heard |
| `Lifecycle.RejectedIsFirst` | services/interviewer-service/app/application/interviewer_service.py:690-761 | a log that ends in a rejection holds nothing but rejections, so the events the auth service does not subscribe to cannot hide a suspension |
| `Lifecycle.OrderMattersAfterDeletion` | services/booking-service/app/application/booking_service.py:410-424 | two events commute on an eligibility row except when the older one is a deletion the row would still take, which is why the producer falls silent after a deletion |
| `Lifecycle.DeliveredIsHeard` | services/auth-service/app/workers/events.py:14-60 | an event delivered once has been taken into account in every later state |
| `AuthSafety.FamiliesAreChains` | services/auth-service/app/application/auth_service.py:202-236 | in every run a refresh family is one replaced-by chain of a single credential whose newest token is the only one never used |
| `AuthSafety.InactiveHasNoToken` | services/auth-service/app/application/auth_service.py:287-345 | in every run an account that is not active has no unrevoked refresh token |
| `AuthSafety.ReuseEndsFamily` | services/auth-service/app/application/auth_service.py:212-219 | once a used or revoked token has been presented no rotation in its family ever succeeds again |
| `AuthSafety.ReuseKills` | services/auth-service/app/application/auth_service.py:376-381 | presenting a used or revoked token is refused as reuse and revokes the whole family |
| `AuthSafety.RotatedTokenIsSpent` | services/auth-service/app/application/auth_service.py:231-236 | a token rotates at most once |
| `AuthSafety.RotationExtends` | services/auth-service/app/application/auth_service.py:231-236 | a rotation appends exactly the new token to its own family's chain; the members and tokens of every other family stay as they are |
| `AuthSafety.StepKeeps` | services/auth-service/app/application/auth_service.py:50-345 | every step keeps the chains, the revocations and the status flags in agreement |
| `AuthOutcomes.LoginOutcome` | services/auth-service/app/application/auth_service.py:85-96 | a session opens iff the account exists, the password matches and the account is active and verified: one unused token of a fresh family; a refusal changes nothing and its error says why |
| `AuthOutcomes.RotateOutcome` | services/auth-service/app/application/auth_service.py:202-236 | a session continues iff its token is known, unused, unrevoked and unexpired and its account active and verified; the token is spent and its successor joins the family |
| `AuthOutcomes.RotateRefused` | services/auth-service/app/application/auth_service.py:208-224 | a refused rotation revokes the family on reuse, the token on expiry, and nothing otherwise |
| `AuthOutcomes.AuthenticateOutcome` | services/auth-service/app/application/auth_service.py:238-261 | an access token opens something iff its account is active and verified and it was not revoked |
| `AuthOutcomes.DisableOutcome` | services/auth-service/app/application/auth_service.py:287-306 | disabling an active account revokes exactly its unrevoked tokens, and an inactive one is left as it is |
| `AuthOutcomes.AccessOutcome` | services/auth-service/app/application/auth_service.py:308-345 | an access event counts iff it is not the last one again, the account is not disabled and it is newer; it then sets the access and signs the account out unless it becomes active |
| `AuthOutcomes.RegisterOutcome` | services/auth-service/app/application/auth_service.py:50-83 | a new account can open a session once its address is verified and not before |
| `AuthSafety.LogoutEndsFamily` | services/auth-service/app/application/auth_service.py:263-285 | logging out with one's own token revokes its whole family iff the access token was not recorded as revoked before or the family had ended already |
| `AuthSafety.AuthenticatedLogout` | services/auth-service/app/application/auth_service.py:238-285 | a caller who authenticates with the access token ends the family, and the access token opens nothing afterwards |
| `AuthSafety.ConcurrentLogoutLeavesFamily` | services/auth-service/app/application/auth_service.py:263-285 | of two logouts with one access token that both authenticated first, the later ends its family iff it is the first one's or had ended already |
| `AuthSafety.ConcurrentLogoutHappens` | services/auth-service/app/application/auth_service.py:263-285 | a reachable state with two sessions in which the later logout leaves its family alive |
| `AuthService.AuthService.RegisterUser` | services/auth-service/app/application/auth_service.py:50-83 | adds a credential that is active and unverified |
| `AuthService.AuthService.StartSession` | services/auth-service/app/application/auth_service.py:85-96 | takes the login step: a barred account gets its error, another a token of a new family |
| `AuthService.AuthService.RotateRefreshToken` | services/auth-service/app/application/auth_service.py:202-236 | takes the rotation step; reuse and expiry are committed before they are refused |
| `AuthService.AuthService.EndSession` | services/auth-service/app/application/auth_service.py:263-285 | takes the logout step; a repeated access-token id rolls the revocation back |
| `AuthService.AuthService.AuthenticateAccess` | services/auth-service/app/application/auth_service.py:238-261 | an access token opens something iff its account is active and verified and the token was not revoked, with the errors in the order of the guards |
| `AuthService.AuthService.RevokeWhereFamily` | services/auth-service/app/application/auth_service.py:376-381 | stamps exactly the unrevoked tokens of the family |
| `AuthService.AuthService.RevokeWhereCredential` | services/auth-service/app/application/auth_service.py:296-303 | stamps exactly the unrevoked tokens of the credential |
| `AuthService.AuthService.Disable` | services/auth-service/app/application/auth_service.py:287-306 | takes the administrator's disable step |
| `AuthService.AuthService.ApplyInterviewerAccess` | services/auth-service/app/application/auth_service.py:308-345 | takes the access event step: repeated, stale and post-deletion events change nothing |
| `Notifications.DeliveryIsBounded` | services/notification-service/app/application/notification_service.py:119-182 | in every run attempts are numbered from one and bounded, only the last can succeed, and a notification is dead-lettered iff all allowed attempts failed, with exactly one exhaustion record |
| `Notifications.BackoffIsBounded` | services/notification-service/app/application/notification_service.py:164-170 | the delays scheduled for a notification add up to at most base times 2^(max-1)-1 and at most max-1 times the cap |
| `Notifications.UncappedDelayIsExact` | services/notification-service/app/application/notification_service.py:165-168 | while no delay reaches the cap the sum is exactly the geometric series |
| `Notifications.DelaysAreWaitedOut` | services/notification-service/app/application/notification_service.py:128-129 | each attempt starts at least all scheduled delays after the first |
| `Notifications.TerminalAbsorbs` | services/notification-service/app/application/notification_service.py:126-127 | a sent or dead-lettered notification and its attempts never change again |
| `Notifications.EveryEventIsAccounted` | services/notification-service/app/application/notification_service.py:35-117 | a processed event left notifications or one of the refusal records, never both and never neither |
| `Notifications.RedeliveryChangesNothing` | services/notification-service/app/application/notification_service.py:36-37 | an event that was taken changes nothing when its id arrives again at any later point of a run, whatever its content then |
| `Notifications.RetryClears` | services/notification-service/app/application/notification_service.py:184-208 | a retry run whose batch covers everything due leaves nothing due at that moment |
| `NotificationOutcomes.AcceptOutcome` | services/notification-service/app/application/notification_service.py:35-117 | a new event leaves one waiting notification per address, its own addresses before resolved ones and e-mail first, or one refusal with the first reason that applies |
| `NotificationOutcomes.DeliverOutcome` | services/notification-service/app/application/notification_service.py:119-182 | an attempt is made iff the notification is waiting and its time has come; accepted means sent, the last refusal gives up with a record, any other waits the doubled and capped delay |
| `NotificationService.NotificationService.TakeEvent` | services/notification-service/app/application/notification_service.py:35-114 | commits one notification per recipient, or the refusal with its reason |
| `NotificationService.NotificationService.Consume` | services/notification-service/app/application/notification_service.py:35-117 | takes the event and then delivers each new notification once |
| `NotificationService.NotificationService.DeliverOne` | services/notification-service/app/application/notification_service.py:119-182 | takes one delivery step |
| `NotificationService.NotificationService.SelectDue` | services/notification-service/app/application/notification_service.py:186-202 | selects exactly the due notifications, oldest first |
| `NotificationService.NotificationService.RetryDue` | services/notification-service/app/application/notification_service.py:184-208 | delivers the oldest due notifications up to the batch size and counts those accepted |
| `RateLimiter.LifeIsBounded` | services/api-gateway/app/rate_limit.py:14-18 | a lifetime of the key allows its first limit requests and no others |
| `RateLimiter.AtMostTwice` | services/api-gateway/app/rate_limit.py:14-41 | in any half-open interval of one window at most 2 * limit - 1 requests are allowed |
| `RateLimiter.AtMostTwiceIsTight` | services/api-gateway/app/rate_limit.py:14-41 | that bound is reached for every limit and window |
| `RateLimiter.CounterCounts` | services/api-gateway/app/rate_limit.py:15-16 | the counter counts the requests of its lifetime, which ends one window after the first of them |
| `RateLimiter.UniformKey` | services/api-gateway/app/rate_limit.py:14-41 | a key whose calls all carry one limit and window follows the single-policy counter, so that the bounds apply to it |
| `RateLimiter.RedisRateLimiter.IncrementAndExpire` | services/api-gateway/app/rate_limit.py:15-17 | increments the key and sets its expiry when it is new |
| `RateLimiter.RedisRateLimiter.Allow` | services/api-gateway/app/rate_limit.py:23-41 | allows the request iff the key's counter stays within the limit of this call; a new key expires one window of this call later |
| `InterviewSafety.AttendanceIsAccounted` | services/interview-service/app/application/interview_service.py:218-278 | in every run connected seconds are the whole seconds of the joined-to-left spans, reconnects the joins after the first, and the other columns what the accepted events say |
| `InterviewSafety.NextMarkFits` | services/interview-service/app/application/interview_service.py:248-267 | if the columns agree with events in time order, then after the next accepted event the connected time fits between first join and last leave iff that event is not a first join later than a leave already recorded |
| `InterviewSafety.BoundHoldsIffNoEarlyLeave` | services/interview-service/app/application/interview_service.py:218-278 | over any run with a participant's events in time order the bound holds in every state iff no leave is accepted strictly before the first join |
| `InterviewSafety.EarlyLeaveBreaksTheBound` | services/interview-service/app/application/interview_service.py:261-267 | a reachable state with events in time order, a leave before the first join, in which that bound fails |
| `InterviewSafety.StagesAnnouncedOnce` | services/interview-service/app/application/interview_service.py:257-324 | in every run a session announces its start, and every other stage, at most once and in order, whichever way it started |
| `InterviewSafety.FeedbackFitsRubric` | services/interview-service/app/application/interview_service.py:326-376 | in every run a session has a feedback report iff feedback was submitted, and its total never exceeds the maximum of its rubric |
| `InterviewSafety.RedeliveryChangesNothing` | services/interview-service/app/application/interview_service.py:221-227 | a provider event sent again, for whichever session, changes nothing |
| `InterviewSafety.MarkKeeps` | services/interview-service/app/application/interview_service.py:248-267 | accepting an event keeps every attendance column in step with the events |
| `InterviewOutcomes.TransitionOutcome` | services/interview-service/app/application/interview_service.py:280-324 | a transition succeeds iff the session is in a status the target may come from, and leaves the stamps and the one event of its target |
| `InterviewOutcomes.ActorOutcome` | services/interview-service/app/application/interview_service.py:155-169 | an interviewer starts a ready session and completes a running one, only their own |
| `InterviewOutcomes.CreateOutcome` | services/interview-service/app/application/interview_service.py:54-112 | the first confirmation of a booking opens a ready session with its two participants iff the rubric exists, the event is new and there is a video room |
| `InterviewOutcomes.CreateIsRepeated` | services/interview-service/app/application/interview_service.py:54-72 | a repeated confirmation returns the booking's one session and remembers the event |
| `InterviewOutcomes.AttendOutcome` | services/interview-service/app/application/interview_service.py:218-278 | a new event of a participant is recorded for them alone, unless it is a join while they are connected, and the first join of a ready session starts it |
| `InterviewOutcomes.RubricOutcome` | services/interview-service/app/api/schemas.py:9-30 | a rubric is stored iff it has one to thirty criteria with different keys, weights and maxima from 1 to 100, and weights that add up to 100 |
| `InterviewOutcomes.FeedbackOutcome` | services/interview-service/app/application/interview_service.py:326-376 | feedback is taken iff the session's interviewer gives it after completion with scores that name exactly the rubric's criteria within their maxima; the total is what the criteria received |
| `InterviewService.InterviewService.CreateSession` | services/interview-service/app/application/interview_service.py:54-112 | takes the creation step: one session with two participants per booking |
| `InterviewService.InterviewService.Attendance` | services/interview-service/app/application/interview_service.py:218-278 | takes the attendance step; a join while connected is dropped and not recorded |
| `InterviewService.InterviewService.MoveTo` | services/interview-service/app/application/interview_service.py:280-324 | takes the transition step; a completed session is stored as waiting for feedback |
| `InterviewService.InterviewService.MoveByInterviewer` | services/interview-service/app/application/interview_service.py:155-169 | lets the assigned interviewer start and complete the session only |
| `InterviewService.InterviewService.Feedback` | services/interview-service/app/application/interview_service.py:326-376 | takes the feedback step with its guards in order: only scores that match the rubric are stored, with their total |
| `InterviewService.InterviewService.AddRubric` | services/interview-service/app/application/interview_service.py:41-52 | stores the rubric with the sum of its criteria's maxima, and nothing for criteria that the request schema refuses |
| `Scoring.TotalFitsRubric` | services/interview-service/app/application/interview_service.py:353-376 | scores that match a rubric's criteria add up to at most its maximum |
| `Scoring.AddUp` | services/interview-service/app/application/interview_service.py:363-369 | adds up the dictionary's values, each key once |
| `Outbox.HealthyRunDrains` | services/booking-service/app/application/outbox.py:10-45 | a run against a healthy broker publishes everything it selected, in order, and leaves nothing pending unless the batch was full |
| `Outbox.AtLeastOnce` | services/booking-service/app/application/outbox.py:10-45 | in every run, crashes included and whatever the clocks say, everything marked published has reached the broker |
| `Outbox.PublishedIsDone` | services/booking-service/app/application/outbox.py:10-45 | a published record stays published and is never sent again |
| `Outbox.PublishSends` | services/booking-service/app/application/outbox.py:23-45 | a run sends exactly the prefix it published and the message it crashed on |
| `Outbox.PublishStops` | services/booking-service/app/application/outbox.py:23-45 | a run publishes until the first failure and not beyond it |
| `Outbox.PublishTries` | services/booking-service/app/application/outbox.py:23-45 | a run counts one try for each record it published and for the one refused, and none for a crash |
| `Outbox.FirstCopiesInOrder` | services/booking-service/app/application/outbox.py:10-45 | if the records occurred in the order of their commits, first copies reach the broker in that order and only the newest is repeated |
| `Outbox.OutboxPublisher.PublishPending` | services/booking-service/app/application/outbox.py:10-45 | takes the publishing run over what the query returned, one commit per message, and counts what it published |

## Left out

- Time zones with daylight saving: zones have a fixed offset, because across a change neither disjoint windows nor the day loop's coverage holds.
- Interleavings inside one transaction: a service call that commits is one step, so row locks, skipped locked rows and two publishers on one outbox are not modelled.
- HTTP routes, identity headers, the gateway's proxying, metrics, logging, health checks and the React components around the two editor helpers.
- Payment, video, e-mail, phone and message providers beyond what they reply, and the HTTP clients between services.
- Passwords, access tokens, signatures and hash functions beyond injectivity; password rehashing; the expiry of access tokens.
- E-mail verification links of the auth service: confirming an address is one step without its challenge rows.
- Listing and lookup operations that change nothing, skill lists, blockout editing and the public interviewer pages.
- Reasons, review notes, correlation ids, payload details and other columns that no later step reads.
- The branches of the layered review that a payload would reach: an earlier check refuses every payload.
- Concurrent webhook deliveries that race on the unique event row, and the provider's order of replies within one call.
- Migrations, configuration checks other than the numeric ranges used, seed data, bootstrap and end-to-end scripts.
- Redis failures: an unreachable store refuses the call and leaves the key as it was or incremented; only calls that reach it are modelled.
- InterviewerService.InterviewerService.UpsertProfile: keeps only whether a LinkedIn link is present, because no other profile field guards a step.
- InterviewerService.InterviewerService.SubmitVerification: whether the profile is complete is a parameter, because it depends on skills and text fields that are not part of this model.
- Availability.Windows: the session length is any positive span; one snapshot is expanded at a time.
- Outbox.FirstCopiesInOrder: records occur at strictly increasing times, because the query orders by that time alone and leaves ties open; at-least-once delivery needs no such assumption. The booking publisher stands for its near-identical copies.
- Lifecycle.Converges: the account is registered before the first event and no administrator disables it, because a disabled account ignores later events by design.
- Saga.ConfirmedOnlyIfCaptured: administrator transitions are excluded, because they may confirm a booking without a payment.
- RuleEditor.SilentIffAccepted: both sides know the same timezone names and the form offers only the seven weekdays, because the two catalogues are data of their platforms.
- InterviewSafety.BoundHoldsIffNoEarlyLeave: the events are in time order, because the service accepts any time a provider reports.
- Notifications.DeliveryIsBounded: the retry configuration does not change during a run.
