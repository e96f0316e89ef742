/** One interviewer's verification: profile and verification rows, cached checks with their sources,
    contact challenges, and the lifecycle events the other services listen to. All queries of the
    service are keyed by one interviewer, so interviewers do not interact. */
module InterviewerModel {
  import opened Tables
  import Contracts

  type Id = Contracts.Id
  type Instant = Contracts.Instant

  datatype VerificationStatus = Pending | UnderReview | Verified | Rejected | Suspended

  datatype CheckType =
    | EmailVerified
    | MobileVerified
    | LinkedinReviewed
    | CompanyEmailVerified
    | EvidenceReviewed
    | ScreeningPassed

  datatype EvidenceType = LinkedinEvidence | CompanyEmailEvidence | PortfolioEvidence | DocumentEvidence

  datatype EvidenceStatus = EvidencePending | EvidenceVerified | EvidenceRejected

  datatype ScreeningStatus = NotScheduled | ScreeningPending | Passed | NotPassed

  datatype ContactKind = Mobile | CompanyEmail

  /** A contact value and whether its verified_at column is set. */
  datatype Contact = Contact(value: Option<string>, verified: bool)

  /** Fingerprints and secret hashes are keyed hashes, taken to be injective. */
  datatype Challenge = Challenge(
    kind: ContactKind,
    target: string,
    secret: string,
    attempts: nat,
    expiresAt: Instant,
    resendAt: Instant,
    consumed: bool)

  datatype LifecycleRow = LifecycleRow(kind: Contracts.InterviewerEvent, at: Instant)

  datatype Settings = Settings(challengeTtl: int, cooldown: int, maxAttempts: nat, development: bool)

  datatype Interviewer = Interviewer(
    user: Id,
    status: VerificationStatus,
    deleted: bool,
    linkedin: bool,
    verification: Option<VerificationStatus>,
    checks: map<CheckType, bool>,
    evidence: map<EvidenceType, EvidenceStatus>,
    screening: Option<ScreeningStatus>,
    mobile: Contact,
    company: Contact,
    challenges: seq<Challenge>,
    lifecycle: seq<LifecycleRow>)

  datatype Error =
    | InterviewerDeleted
    | ProviderUnavailable
    | ResendCooldown
    | InvalidChallenge
    | ChallengeExpired
    | AttemptsExhausted
    | TargetChanged
    | ProfileIncomplete
    | ContactIncomplete
    | InvalidTransition
    | SelfReview
    | LinkedinMissing
    | EvidenceNotFound
    | ScreeningNotScheduled
    | VerificationLocked
    | PayloadNotAllowed
    | PrerequisitesIncomplete
    | ReasonRequired
    | BookingCheckUnavailable
    | HasActiveBookings

  type Outcome = (Interviewer, Result<(), Error>)

  /** A profile as it is first stored. */
  function NewInterviewer(user: Id): Interviewer {
    Interviewer(user, Pending, false, false, None, map[], map[], None, Contact(None, false),
                Contact(None, false), [], [])
  }

  const REQUIRED: set<CheckType> :=
    {EmailVerified, MobileVerified, LinkedinReviewed, CompanyEmailVerified, EvidenceReviewed, ScreeningPassed}

  const REQUIRED_CONTACT: set<CheckType> := {EmailVerified, MobileVerified, CompanyEmailVerified}

  predicate Passes(checks: map<CheckType, bool>, check: CheckType) {
    check in checks && checks[check]
  }

  predicate PassesAll(checks: map<CheckType, bool>, required: set<CheckType>) {
    forall c :: c in required ==> Passes(checks, c)
  }

  predicate SomeEvidenceVerified(evidence: map<EvidenceType, EvidenceStatus>) {
    exists t :: t in evidence && evidence[t] == EvidenceVerified
  }

  function ContactOf(i: Interviewer, kind: ContactKind): Contact {
    if kind == Mobile then i.mobile else i.company
  }

  function CheckOf(kind: ContactKind): CheckType {
    if kind == Mobile then MobileVerified else CompanyEmailVerified
  }

  /** A contact column group and the check that mirrors it, written together. */
  function SetContact(i: Interviewer, kind: ContactKind, contact: Contact): Interviewer {
    var checked := i.(checks := i.checks[CheckOf(kind) := contact.verified]);
    if kind == Mobile then checked.(mobile := contact) else checked.(company := contact)
  }

  // ---- contact ownership ----

  function SetAccountEmail(i: Interviewer, verified: bool): Interviewer {
    i.(checks := i.checks[EmailVerified := verified])
  }

  /** The newest open challenge of a kind. */
  function LatestOpen(challenges: seq<Challenge>, kind: ContactKind): (found: Option<nat>)
    ensures found.Some? ==> found.value < |challenges|
  {
    if |challenges| == 0 then None
    else
      var last := challenges[|challenges| - 1];
      if last.kind == kind && !last.consumed then Some(|challenges| - 1)
      else LatestOpen(challenges[..|challenges| - 1], kind)
  }

  function ConsumeLatest(challenges: seq<Challenge>, kind: ContactKind): seq<Challenge> {
    match LatestOpen(challenges, kind)
    case None => challenges
    case Some(c) => challenges[c := challenges[c].(consumed := true)]
  }

  /** The issued challenge replaces the open one; a new value starts unverified. */
  function Issued(i: Interviewer, settings: Settings, kind: ContactKind, target: string, secret: string,
      now: Instant): Interviewer {
    var changed :=
      if ContactOf(i, kind).value != Some(target) then SetContact(i, kind, Contact(Some(target), false)) else i;
    var challenge := Challenge(kind, target, secret, 0, now + settings.challengeTtl, now + settings.cooldown, false);
    changed.(challenges := ConsumeLatest(i.challenges, kind) + [challenge])
  }

  /** Nothing is stored if the challenge cannot be issued. */
  function RequestContact(i: Interviewer, settings: Settings, kind: ContactKind, target: string,
      secret: string, now: Instant): Outcome {
    var latest := LatestOpen(i.challenges, kind);
    if !settings.development then (i, Err(ProviderUnavailable))
    else if latest.Some? && i.challenges[latest.value].resendAt > now then (i, Err(ResendCooldown))
    else (Issued(i, settings, kind, target, secret, now), Ok(()))
  }

  function ValueOrEmpty(contact: Contact): string {
    if contact.value.Some? then contact.value.value else ""
  }

  /** The contact behind challenge `c` is verified, and `row` replaces the challenge. */
  function Confirmed(i: Interviewer, c: Id, row: Challenge): Interviewer
    requires c < |i.challenges|
  {
    SetContact(i, row.kind, ContactOf(i, row.kind).(verified := true)).(challenges := i.challenges[c := row])
  }

  /** A wrong secret costs an attempt, and that is committed. */
  function VerifyContact(i: Interviewer, settings: Settings, c: Id, secret: string, now: Instant): Outcome {
    if c >= |i.challenges| || i.challenges[c].consumed then (i, Err(InvalidChallenge))
    else
      var challenge := i.challenges[c];
      if challenge.expiresAt <= now then (i, Err(ChallengeExpired))
      else if challenge.attempts >= settings.maxAttempts then (i, Err(AttemptsExhausted))
      else
        var tried := challenge.(attempts := challenge.attempts + 1);
        if secret != challenge.secret then (i.(challenges := i.challenges[c := tried]), Err(InvalidChallenge))
        else if ValueOrEmpty(ContactOf(i, challenge.kind)) != challenge.target then (i, Err(TargetChanged))
        else (Confirmed(i, c, tried.(consumed := true)), Ok(()))
  }

  // ---- profile, evidence and screening ----

  function UpdateProfile(i: Interviewer, linkedin: bool): Outcome {
    if i.deleted then (i, Err(InterviewerDeleted)) else (i.(linkedin := linkedin), Ok(()))
  }

  function ReviewLinkedin(i: Interviewer, admin: Id): Outcome {
    if admin == i.user then (i, Err(SelfReview))
    else if i.deleted then (i, Err(InterviewerDeleted))
    else if !i.linkedin then (i, Err(LinkedinMissing))
    else (i.(checks := i.checks[LinkedinReviewed := true]), Ok(()))
  }

  function ReviewEvidence(i: Interviewer, admin: Id, kind: EvidenceType, status: EvidenceStatus): Outcome {
    if admin == i.user then (i, Err(SelfReview))
    else if i.deleted then (i, Err(InterviewerDeleted))
    else if kind !in i.evidence then (i, Err(EvidenceNotFound))
    else
      var evidence := i.evidence[kind := status];
      (i.(evidence := evidence,
          checks := i.checks[EvidenceReviewed := status == EvidenceVerified || SomeEvidenceVerified(evidence)]),
       Ok(()))
  }

  function VerificationOr(i: Interviewer): VerificationStatus {
    if i.verification.Some? then i.verification.value else Pending
  }

  /** New or replaced evidence always waits for a review. */
  function UpsertEvidence(i: Interviewer, kind: EvidenceType): Outcome {
    if i.deleted then (i, Err(InterviewerDeleted))
    else if VerificationOr(i) in {Verified, Suspended} then (i, Err(VerificationLocked))
    else
      var evidence := i.evidence[kind := EvidencePending];
      (i.(verification := Some(VerificationOr(i)),
          evidence := evidence,
          checks := i.checks[EvidenceReviewed := SomeEvidenceVerified(evidence)]),
       Ok(()))
  }

  function RecordScreening(i: Interviewer, admin: Id, status: ScreeningStatus): Outcome {
    if admin == i.user then (i, Err(SelfReview))
    else if i.deleted then (i, Err(InterviewerDeleted))
    else if i.screening.None? && status != ScreeningPending then (i, Err(ScreeningNotScheduled))
    else if i.screening.Some? && status in {Passed, NotPassed} && i.screening.value != ScreeningPending then
      (i, Err(ScreeningNotScheduled))
    else (i.(screening := Some(status), checks := i.checks[ScreeningPassed := status == Passed]), Ok(()))
  }

  // ---- the status machine ----

  /** Both status columns and the lifecycle event of a decision, if it has one. */
  function Decide(i: Interviewer, target: VerificationStatus, now: Instant): Interviewer {
    var moved := i.(status := target, verification := Some(target));
    match target
    case Verified => moved.(lifecycle := i.lifecycle + [LifecycleRow(Contracts.Approved, now)])
    case Rejected => moved.(lifecycle := i.lifecycle + [LifecycleRow(Contracts.Rejected, now)])
    case Suspended => moved.(lifecycle := i.lifecycle + [LifecycleRow(Contracts.Suspended, now)])
    case _ => moved
  }

  function Submit(i: Interviewer, complete: bool): Outcome {
    if i.deleted then (i, Err(InterviewerDeleted))
    else if !complete then (i, Err(ProfileIncomplete))
    else if !PassesAll(i.checks, REQUIRED_CONTACT) then (i, Err(ContactIncomplete))
    else if i.status !in {Pending, Rejected} then (i, Err(InvalidTransition))
    else (i.(status := UnderReview, verification := Some(UnderReview)), Ok(()))
  }

  datatype Action = TakeUnderReview | Verify | Reject | RequestMoreEvidence | Suspend | Reactivate

  function TargetOf(action: Action): VerificationStatus {
    match action
    case TakeUnderReview => UnderReview
    case Verify => Verified
    case Reject => Rejected
    case RequestMoreEvidence => Pending
    case Suspend => Suspended
    case Reactivate => Verified
  }

  predicate ActionAllowed(status: VerificationStatus, action: Action) {
    match status
    case Pending => action == TakeUnderReview
    case UnderReview => action in {Verify, Reject, RequestMoreEvidence}
    case Rejected => action == TakeUnderReview
    case Verified => action == Suspend
    case Suspended => action == Reactivate
  }

  /** Review through the layered action endpoint. */
  function ReviewVerification(i: Interviewer, admin: Id, action: Action, reason: bool, payload: bool,
      now: Instant): Outcome {
    if admin == i.user then (i, Err(SelfReview))
    else if i.deleted then (i, Err(InterviewerDeleted))
    else if payload then (i, Err(PayloadNotAllowed))
    else if !ActionAllowed(VerificationOr(i), action) then (i, Err(InvalidTransition))
    else if action == Verify && !PassesAll(i.checks, REQUIRED) then (i, Err(PrerequisitesIncomplete))
    else if action in {Reject, RequestMoreEvidence, Suspend} && !reason then (i, Err(ReasonRequired))
    else (Decide(i, TargetOf(action), now), Ok(()))
  }

  predicate ReviewAllowed(status: VerificationStatus, target: VerificationStatus) {
    match target
    case Verified => status == UnderReview
    case Rejected => status == UnderReview
    case Suspended => status == Verified
    case _ => false
  }

  /** Review through the plain status endpoints. */
  function Review(i: Interviewer, admin: Id, target: VerificationStatus, now: Instant): Outcome {
    if admin == i.user then (i, Err(SelfReview))
    else if i.deleted then (i, Err(InterviewerDeleted))
    else if !ReviewAllowed(i.status, target) then (i, Err(InvalidTransition))
    else if target == Verified && !PassesAll(i.checks, REQUIRED) then (i, Err(PrerequisitesIncomplete))
    else (Decide(i, target, now), Ok(()))
  }

  function ReactivateProfile(i: Interviewer, admin: Id, now: Instant): Outcome {
    if admin == i.user then (i, Err(SelfReview))
    else if i.deleted then (i, Err(InterviewerDeleted))
    else if i.status != Suspended then (i, Err(InvalidTransition))
    else (Decide(i, Verified, now), Ok(()))
  }

  /** What the booking service answers to the safety check. */
  datatype BookingCheck = Unavailable | ActiveBookings(count: nat)

  /** Deleting twice is harmless and says nothing twice. */
  function Delete(i: Interviewer, admin: Id, check: BookingCheck, now: Instant): Outcome {
    if admin == i.user then (i, Err(SelfReview))
    else if i.deleted then (i, Ok(()))
    else if check.Unavailable? then (i, Err(BookingCheckUnavailable))
    else if check.count > 0 then (i, Err(HasActiveBookings))
    else (i.(deleted := true, lifecycle := i.lifecycle + [LifecycleRow(Contracts.Deleted, now)]), Ok(()))
  }

  // ---- runs ----

  datatype Op =
    | AccountEmailOp(accountVerified: bool)
    | RequestContactOp(contact: ContactKind, contactTarget: string, newSecret: string)
    | VerifyContactOp(challenge: Id, secret: string)
    | UpdateProfileOp(hasLinkedin: bool)
    | LinkedinOp(linkedinAdmin: Id)
    | EvidenceOp(evidenceAdmin: Id, reviewed: EvidenceType, evidenceStatus: EvidenceStatus)
    | UpsertEvidenceOp(supplied: EvidenceType)
    | ScreeningOp(screeningAdmin: Id, screeningStatus: ScreeningStatus)
    | SubmitOp(complete: bool)
    | ReviewVerificationOp(actionAdmin: Id, action: Action, reason: bool, payload: bool)
    | ReviewOp(reviewAdmin: Id, target: VerificationStatus)
    | ReactivateOp(reactivateAdmin: Id)
    | DeleteOp(deleteAdmin: Id, check: BookingCheck)

  function Step(settings: Settings, i: Interviewer, op: Op, now: Instant): Interviewer {
    match op
    case AccountEmailOp(verified) => SetAccountEmail(i, verified)
    case RequestContactOp(kind, target, secret) => RequestContact(i, settings, kind, target, secret, now).0
    case VerifyContactOp(c, secret) => VerifyContact(i, settings, c, secret, now).0
    case UpdateProfileOp(linkedin) => UpdateProfile(i, linkedin).0
    case LinkedinOp(admin) => ReviewLinkedin(i, admin).0
    case EvidenceOp(admin, kind, status) => ReviewEvidence(i, admin, kind, status).0
    case UpsertEvidenceOp(kind) => UpsertEvidence(i, kind).0
    case ScreeningOp(admin, status) => RecordScreening(i, admin, status).0
    case SubmitOp(complete) => Submit(i, complete).0
    case ReviewVerificationOp(admin, action, reason, payload) =>
      ReviewVerification(i, admin, action, reason, payload, now).0
    case ReviewOp(admin, target) => Review(i, admin, target, now).0
    case ReactivateOp(admin) => ReactivateProfile(i, admin, now).0
    case DeleteOp(admin, check) => Delete(i, admin, check, now).0
  }

  /** A step together with the moment it commits. */
  datatype Timed = Timed(op: Op, at: Instant)

  predicate Increasing(steps: seq<Timed>) {
    forall j, k :: 0 <= j < k < |steps| ==> steps[j].at < steps[k].at
  }

  function Replay(settings: Settings, user: Id, steps: seq<Timed>): Interviewer {
    if |steps| == 0 then NewInterviewer(user)
    else
      var last := steps[|steps| - 1];
      Step(settings, Replay(settings, user, steps[..|steps| - 1]), last.op, last.at)
  }
}
