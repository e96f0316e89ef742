/** The interviewer service on one interviewer's mutable rows. Every method takes the step of
    InterviewerModel at the moment it commits. */
module InterviewerService {
  import opened Tables
  import opened InterviewerModel
  import opened InterviewerSafety
  import Contracts

  class InterviewerService {
    const user: Id
    const settings: Settings
    var clock: Instant
    var status: VerificationStatus
    var deleted: bool
    var linkedin: bool
    var verification: Option<VerificationStatus>
    var checks: map<CheckType, bool>
    var evidence: map<EvidenceType, EvidenceStatus>
    var screening: Option<ScreeningStatus>
    var mobile: Contact
    var company: Contact
    var challenges: seq<Challenge>
    var lifecycle: seq<LifecycleRow>

    ghost function Model(): Interviewer
      reads this
    {
      Interviewer(user, status, deleted, linkedin, verification, checks, evidence, screening,
                  mobile, company, challenges, lifecycle)
    }

    ghost predicate Valid()
      reads this
    {
      Reachable(settings, Model(), clock)
    }

    constructor (user: Id, settings: Settings, clock: Instant)
      ensures Valid() && Model() == NewInterviewer(user) && this.clock == clock && this.settings == settings
    {
      this.user, this.settings, this.clock := user, settings, clock;
      status, deleted, linkedin, verification, checks := Pending, false, false, None, map[];
      evidence, screening, mobile, company := map[], None, Contact(None, false), Contact(None, false);
      challenges, lifecycle := [], [];
      new;
      NewIsReachable(settings, user, clock);
    }

    // ---- contact ownership ----

    method AccountEmail(at: Instant, verified: bool)
      requires Valid() && clock < at
      modifies this
      ensures Valid() && clock == at && Model() == SetAccountEmail(old(Model()), verified)
    {
      ReachableStep(settings, Model(), clock, AccountEmailOp(verified), at);
      checks := checks[EmailVerified := verified];
      clock := at;
    }

    method FindLatestOpen(kind: ContactKind) returns (found: Option<nat>)
      ensures found == LatestOpen(challenges, kind)
    {
      var n := |challenges|;
      assert challenges[..n] == challenges;
      while n > 0
        invariant 0 <= n <= |challenges|
        invariant LatestOpen(challenges, kind) == LatestOpen(challenges[..n], kind)
      {
        assert challenges[..n][..n - 1] == challenges[..n - 1];
        if challenges[n - 1].kind == kind && !challenges[n - 1].consumed {
          return Some(n - 1);
        }
        n := n - 1;
      }
      return None;
    }

    method StoreContact(kind: ContactKind, contact: Contact)
      modifies this`mobile, this`company, this`checks
      ensures Model() == SetContact(old(Model()), kind, contact)
    {
      if kind == Mobile {
        mobile := contact;
        checks := checks[MobileVerified := contact.verified];
      } else {
        company := contact;
        checks := checks[CompanyEmailVerified := contact.verified];
      }
    }

    method ConsumeOpen(kind: ContactKind, latest: Option<nat>)
      requires latest == LatestOpen(challenges, kind)
      modifies this`challenges
      ensures challenges == ConsumeLatest(old(challenges), kind)
    {
      if latest.Some? {
        challenges := challenges[latest.value := challenges[latest.value].(consumed := true)];
      }
    }

    method Issue(at: Instant, kind: ContactKind, target: string, secret: string, latest: Option<nat>)
      requires latest == LatestOpen(challenges, kind)
      modifies this`mobile, this`company, this`checks, this`challenges
      ensures Model() == Issued(old(Model()), settings, kind, target, secret, at)
    {
      var current := if kind == Mobile then mobile else company;
      if current.value != Some(target) {
        StoreContact(kind, Contact(Some(target), false));
      }
      ConsumeOpen(kind, latest);
      challenges := challenges +
        [Challenge(kind, target, secret, 0, at + settings.challengeTtl, at + settings.cooldown, false)];
    }

    /** Nothing is written unless the challenge can be issued, because a refusal rolls back. */
    method RequestContactVerification(at: Instant, kind: ContactKind, target: string, secret: string)
      returns (result: Result<(), Error>)
      requires Valid() && clock < at
      modifies this
      ensures Valid() && clock == at
      ensures (Model(), result) == RequestContact(old(Model()), settings, kind, target, secret, at)
    {
      ReachableStep(settings, Model(), clock, RequestContactOp(kind, target, secret), at);
      clock := at;
      if !settings.development {
        return Err(ProviderUnavailable);
      }
      var latest := FindLatestOpen(kind);
      if latest.Some? && challenges[latest.value].resendAt > at {
        return Err(ResendCooldown);
      }
      Issue(at, kind, target, secret, latest);
      return Ok(());
    }

    method Confirm(c: Id, row: Challenge)
      requires c < |challenges|
      modifies this`mobile, this`company, this`checks, this`challenges
      ensures Model() == Confirmed(old(Model()), c, row)
    {
      var contact := if row.kind == Mobile then mobile else company;
      challenges := challenges[c := row];
      StoreContact(row.kind, contact.(verified := true));
    }

    method VerifyContactChallenge(at: Instant, c: Id, secret: string) returns (result: Result<(), Error>)
      requires Valid() && clock < at
      modifies this
      ensures Valid() && clock == at
      ensures (Model(), result) == VerifyContact(old(Model()), settings, c, secret, at)
    {
      ReachableStep(settings, Model(), clock, VerifyContactOp(c, secret), at);
      clock := at;
      if c >= |challenges| || challenges[c].consumed {
        return Err(InvalidChallenge);
      }
      if challenges[c].expiresAt <= at {
        return Err(ChallengeExpired);
      }
      if challenges[c].attempts >= settings.maxAttempts {
        return Err(AttemptsExhausted);
      }
      var tried := challenges[c].(attempts := challenges[c].attempts + 1);
      if secret != tried.secret {
        challenges := challenges[c := tried];
        return Err(InvalidChallenge);
      }
      var contact := if tried.kind == Mobile then mobile else company;
      if (if contact.value.Some? then contact.value.value else "") != tried.target {
        return Err(TargetChanged);
      }
      Confirm(c, tried.(consumed := true));
      return Ok(());
    }

    // ---- profile, evidence and screening ----

    /** The checks every admin step starts with. */
    method Guard(admin: Id) returns (refusal: Option<Error>)
      ensures refusal == if admin == user then Some(SelfReview) else if deleted then Some(InterviewerDeleted) else None
    {
      return if admin == user then Some(SelfReview) else if deleted then Some(InterviewerDeleted) else None;
    }

    method UpsertProfile(at: Instant, hasLinkedin: bool) returns (result: Result<(), Error>)
      requires Valid() && clock < at
      modifies this
      ensures Valid() && clock == at
      ensures (Model(), result) == UpdateProfile(old(Model()), hasLinkedin)
    {
      ReachableStep(settings, Model(), clock, UpdateProfileOp(hasLinkedin), at);
      clock := at;
      if deleted {
        return Err(InterviewerDeleted);
      }
      linkedin := hasLinkedin;
      return Ok(());
    }

    method ReviewLinkedinProfile(at: Instant, admin: Id) returns (result: Result<(), Error>)
      requires Valid() && clock < at
      modifies this
      ensures Valid() && clock == at
      ensures (Model(), result) == ReviewLinkedin(old(Model()), admin)
    {
      ReachableStep(settings, Model(), clock, LinkedinOp(admin), at);
      clock := at;
      var refusal := Guard(admin);
      if refusal.Some? {
        return Err(refusal.value);
      }
      if !linkedin {
        return Err(LinkedinMissing);
      }
      checks := checks[LinkedinReviewed := true];
      return Ok(());
    }

    method ReviewEvidenceRow(at: Instant, admin: Id, kind: EvidenceType, decision: EvidenceStatus)
      returns (result: Result<(), Error>)
      requires Valid() && clock < at
      modifies this
      ensures Valid() && clock == at
      ensures (Model(), result) == ReviewEvidence(old(Model()), admin, kind, decision)
    {
      ReachableStep(settings, Model(), clock, EvidenceOp(admin, kind, decision), at);
      clock := at;
      var refusal := Guard(admin);
      if refusal.Some? {
        return Err(refusal.value);
      }
      if kind !in evidence {
        return Err(EvidenceNotFound);
      }
      evidence := evidence[kind := decision];
      var someVerified := exists t :: t in evidence && evidence[t] == EvidenceVerified;
      checks := checks[EvidenceReviewed := decision == EvidenceVerified || someVerified];
      return Ok(());
    }

    method SupplyEvidence(at: Instant, kind: EvidenceType) returns (result: Result<(), Error>)
      requires Valid() && clock < at
      modifies this
      ensures Valid() && clock == at
      ensures (Model(), result) == UpsertEvidence(old(Model()), kind)
    {
      ReachableStep(settings, Model(), clock, UpsertEvidenceOp(kind), at);
      clock := at;
      if deleted {
        return Err(InterviewerDeleted);
      }
      if verification == Some(Verified) || verification == Some(Suspended) {
        return Err(VerificationLocked);
      }
      if verification.None? {
        verification := Some(Pending);
      }
      evidence := evidence[kind := EvidencePending];
      checks := checks[EvidenceReviewed := SomeEvidenceVerified(evidence)];
      return Ok(());
    }

    method RecordScreeningCall(at: Instant, admin: Id, outcome: ScreeningStatus) returns (result: Result<(), Error>)
      requires Valid() && clock < at
      modifies this
      ensures Valid() && clock == at
      ensures (Model(), result) == RecordScreening(old(Model()), admin, outcome)
    {
      ReachableStep(settings, Model(), clock, ScreeningOp(admin, outcome), at);
      clock := at;
      var refusal := Guard(admin);
      if refusal.Some? {
        return Err(refusal.value);
      }
      if screening.None? {
        if outcome != ScreeningPending {
          return Err(ScreeningNotScheduled);
        }
      } else if outcome in {Passed, NotPassed} && screening.value != ScreeningPending {
        return Err(ScreeningNotScheduled);
      }
      screening := Some(outcome);
      checks := checks[ScreeningPassed := outcome == Passed];
      return Ok(());
    }

    // ---- the status machine ----

    method SubmitVerification(at: Instant, complete: bool) returns (result: Result<(), Error>)
      requires Valid() && clock < at
      modifies this
      ensures Valid() && clock == at
      ensures (Model(), result) == Submit(old(Model()), complete)
    {
      ReachableStep(settings, Model(), clock, SubmitOp(complete), at);
      clock := at;
      if deleted {
        return Err(InterviewerDeleted);
      }
      if !complete {
        return Err(ProfileIncomplete);
      }
      if !PassesAll(checks, REQUIRED_CONTACT) {
        return Err(ContactIncomplete);
      }
      if status !in {Pending, Rejected} {
        return Err(InvalidTransition);
      }
      status := UnderReview;
      verification := Some(UnderReview);
      return Ok(());
    }

    /** Write both status columns and append the decision's event. */
    method StoreDecision(target: VerificationStatus, at: Instant)
      modifies this`status, this`verification, this`lifecycle
      ensures Model() == Decide(old(Model()), target, at)
    {
      status := target;
      verification := Some(target);
      if target == Verified {
        lifecycle := lifecycle + [LifecycleRow(Contracts.Approved, at)];
      } else if target == Rejected {
        lifecycle := lifecycle + [LifecycleRow(Contracts.Rejected, at)];
      } else if target == Suspended {
        lifecycle := lifecycle + [LifecycleRow(Contracts.Suspended, at)];
      }
    }

    method ReviewAction(at: Instant, admin: Id, action: Action, reason: bool,
        payload: bool) returns (result: Result<(), Error>)
      requires Valid() && clock < at
      modifies this
      ensures Valid() && clock == at
      ensures (Model(), result) == ReviewVerification(old(Model()), admin, action, reason, payload, at)
    {
      ReachableStep(settings, Model(), clock, ReviewVerificationOp(admin, action, reason, payload), at);
      clock := at;
      var refusal := Guard(admin);
      if refusal.Some? {
        return Err(refusal.value);
      }
      if payload {
        return Err(PayloadNotAllowed);
      }
      if !ActionAllowed(if verification.Some? then verification.value else Pending, action) {
        return Err(InvalidTransition);
      }
      if action == Verify && !PassesAll(checks, REQUIRED) {
        return Err(PrerequisitesIncomplete);
      }
      if action in {Reject, RequestMoreEvidence, Suspend} && !reason {
        return Err(ReasonRequired);
      }
      StoreDecision(TargetOf(action), at);
      return Ok(());
    }

    method ReviewStatus(at: Instant, admin: Id, target: VerificationStatus) returns (result: Result<(), Error>)
      requires Valid() && clock < at
      modifies this
      ensures Valid() && clock == at
      ensures (Model(), result) == Review(old(Model()), admin, target, at)
    {
      ReachableStep(settings, Model(), clock, ReviewOp(admin, target), at);
      clock := at;
      var refusal := Guard(admin);
      if refusal.Some? {
        return Err(refusal.value);
      }
      if !ReviewAllowed(status, target) {
        return Err(InvalidTransition);
      }
      if target == Verified && !PassesAll(checks, REQUIRED) {
        return Err(PrerequisitesIncomplete);
      }
      StoreDecision(target, at);
      return Ok(());
    }

    method ReactivateInterviewer(at: Instant, admin: Id) returns (result: Result<(), Error>)
      requires Valid() && clock < at
      modifies this
      ensures Valid() && clock == at
      ensures (Model(), result) == ReactivateProfile(old(Model()), admin, at)
    {
      ReachableStep(settings, Model(), clock, ReactivateOp(admin), at);
      clock := at;
      var refusal := Guard(admin);
      if refusal.Some? {
        return Err(refusal.value);
      }
      if status != Suspended {
        return Err(InvalidTransition);
      }
      StoreDecision(Verified, at);
      return Ok(());
    }

    method DeleteInterviewer(at: Instant, admin: Id, check: BookingCheck) returns (result: Result<(), Error>)
      requires Valid() && clock < at
      modifies this
      ensures Valid() && clock == at
      ensures (Model(), result) == Delete(old(Model()), admin, check, at)
    {
      ReachableStep(settings, Model(), clock, DeleteOp(admin, check), at);
      clock := at;
      if admin == user {
        return Err(SelfReview);
      }
      if deleted {
        return Ok(());
      }
      if check.Unavailable? {
        return Err(BookingCheckUnavailable);
      }
      if check.count > 0 {
        return Err(HasActiveBookings);
      }
      deleted := true;
      lifecycle := lifecycle + [LifecycleRow(Contracts.Deleted, at)];
      return Ok(());
    }
  }
}
