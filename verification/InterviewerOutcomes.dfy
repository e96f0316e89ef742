/** When each operation on an interviewer succeeds and what it then leaves behind, stated on the rows
    themselves. */
module InterviewerOutcomes {
  import opened Tables
  import opened InterviewerModel
  import opened InterviewerSafety
  import Contracts

  // ---- decisions ----

  /** All that a verified profile needs, read off the sources of the cached checks. */
  ghost predicate FullyChecked(i: Interviewer) {
    && Passes(i.checks, EmailVerified) && Passes(i.checks, LinkedinReviewed)
    && i.mobile.verified && i.company.verified && i.screening == Some(Passed)
    && exists kind :: kind in i.evidence && i.evidence[kind] == EvidenceVerified
  }

  /** Both status columns say `target`, the event is logged, and nothing else changes. */
  ghost predicate Decided(i: Interviewer, i': Interviewer, target: VerificationStatus,
      events: seq<Contracts.InterviewerEvent>, now: Instant) {
    && i' == i.(status := target, verification := Some(target), lifecycle := i'.lifecycle)
    && i'.lifecycle == i.lifecycle + (if |events| > 0 then [LifecycleRow(events[0], now)] else [])
  }

  lemma ChecksAre(i: Interviewer)
    requires CachesAgree(i)
    ensures PassesAll(i.checks, REQUIRED) <==> FullyChecked(i)
  {
    assert EmailVerified in REQUIRED && MobileVerified in REQUIRED && LinkedinReviewed in REQUIRED
           && CompanyEmailVerified in REQUIRED && EvidenceReviewed in REQUIRED && ScreeningPassed in REQUIRED;
  }

  /** From which statuses a layered review action starts. */
  function StartsFrom(action: Action): set<VerificationStatus> {
    match action
    case TakeUnderReview => {Pending, Rejected}
    case Verify => {UnderReview}
    case Reject => {UnderReview}
    case RequestMoreEvidence => {UnderReview}
    case Suspend => {Verified}
    case Reactivate => {Suspended}
  }

  /** Where an action leads, and what it tells the other services. */
  ghost predicate LeadsTo(i: Interviewer, i': Interviewer, action: Action, now: Instant) {
    match action
    case TakeUnderReview => Decided(i, i', UnderReview, [], now)
    case Verify => Decided(i, i', Verified, [Contracts.Approved], now)
    case Reject => Decided(i, i', Rejected, [Contracts.Rejected], now)
    case RequestMoreEvidence => Decided(i, i', Pending, [], now)
    case Suspend => Decided(i, i', Suspended, [Contracts.Suspended], now)
    case Reactivate => Decided(i, i', Verified, [Contracts.Approved], now)
  }

  /** A review action succeeds iff somebody else takes it on a profile that is not deleted and stands where
      the action starts, with all checks for an approval and a reason for a setback. */
  lemma ReviewActionOutcome(i: Interviewer, admin: Id, action: Action, reason: bool, payload: bool, now: Instant)
    requires Inv(i)
    ensures var (i', r) := ReviewVerification(i, admin, action, reason, payload, now);
            && (r.Ok? <==>
                  && admin != i.user && !i.deleted && !payload && i.status in StartsFrom(action)
                  && (action == Verify ==> FullyChecked(i))
                  && (action in {Reject, RequestMoreEvidence, Suspend} ==> reason))
            && (r.Ok? ==> LeadsTo(i, i', action, now))
            && (r.Err? ==>
                  i' == i && r.error ==
                  if admin == i.user then SelfReview
                  else if i.deleted then InterviewerDeleted
                  else if payload then PayloadNotAllowed
                  else if i.status !in StartsFrom(action) then InvalidTransition
                  else if action == Verify then PrerequisitesIncomplete
                  else ReasonRequired)
  {
    ChecksAre(i);
    assert i.lifecycle + [] == i.lifecycle;
  }

  /** The plain endpoints approve and reject what is under review, and suspend what is verified. */
  lemma ReviewOutcome(i: Interviewer, admin: Id, target: VerificationStatus, now: Instant)
    requires Inv(i)
    ensures var (i', r) := Review(i, admin, target, now);
            && (r.Ok? <==>
                  && admin != i.user && !i.deleted
                  && ((target == Verified && i.status == UnderReview && FullyChecked(i))
                      || (target == Rejected && i.status == UnderReview)
                      || (target == Suspended && i.status == Verified)))
            && (r.Ok? ==> Decided(i, i', target, [if target == Verified then Contracts.Approved
                                                  else if target == Rejected then Contracts.Rejected
                                                  else Contracts.Suspended], now))
            && (r.Err? ==>
                  i' == i && r.error ==
                  if admin == i.user then SelfReview
                  else if i.deleted then InterviewerDeleted
                  else if target == Verified && i.status == UnderReview then PrerequisitesIncomplete
                  else InvalidTransition)
  {
    ChecksAre(i);
  }

  lemma ReactivateOutcome(i: Interviewer, admin: Id, now: Instant)
    ensures var (i', r) := ReactivateProfile(i, admin, now);
            && (r.Ok? <==> admin != i.user && !i.deleted && i.status == Suspended)
            && (r.Ok? ==> Decided(i, i', Verified, [Contracts.Approved], now))
            && (r.Err? ==>
                  i' == i && r.error ==
                  if admin == i.user then SelfReview
                  else if i.deleted then InterviewerDeleted
                  else InvalidTransition)
  {
  }

  /** A profile is submitted by completing it and proving its e-mail, phone and company addresses, before a
      first review or after a rejection. */
  lemma SubmitOutcome(i: Interviewer, complete: bool, now: Instant)
    requires Inv(i)
    ensures var (i', r) := Submit(i, complete);
            && (r.Ok? <==>
                  && !i.deleted && complete && Passes(i.checks, EmailVerified)
                  && i.mobile.verified && i.company.verified && i.status in {Pending, Rejected})
            && (r.Ok? ==> Decided(i, i', UnderReview, [], now))
            && (r.Err? ==>
                  i' == i && r.error ==
                  if i.deleted then InterviewerDeleted
                  else if !complete then ProfileIncomplete
                  else if i.status in {Pending, Rejected} then ContactIncomplete
                  else if Passes(i.checks, EmailVerified) && i.mobile.verified && i.company.verified
                  then InvalidTransition
                  else ContactIncomplete)
  {
    assert EmailVerified in REQUIRED_CONTACT && MobileVerified in REQUIRED_CONTACT
           && CompanyEmailVerified in REQUIRED_CONTACT;
    assert i.lifecycle + [] == i.lifecycle;
  }

  /** A profile is deleted by somebody else, once, and only when the booking service says that nothing is
      booked; deleting it again is harmless. */
  lemma DeleteOutcome(i: Interviewer, admin: Id, check: BookingCheck, now: Instant)
    ensures var (i', r) := Delete(i, admin, check, now);
            && (r.Ok? <==> admin != i.user && (i.deleted || check == ActiveBookings(0)))
            && (r.Err? ==> r.error == if admin == i.user then SelfReview
                                      else if check == Unavailable then BookingCheckUnavailable
                                      else HasActiveBookings)
            && i' == (if r.Ok? && !i.deleted
                      then i.(deleted := true, lifecycle := i.lifecycle + [LifecycleRow(Contracts.Deleted, now)])
                      else i)
  {
  }

  // ---- evidence and screening ----

  /** The evidence check says whether some evidence is verified. */
  ghost predicate EvidenceAgrees(i: Interviewer) {
    Passes(i.checks, EvidenceReviewed) <==> exists kind :: kind in i.evidence && i.evidence[kind] == EvidenceVerified
  }

  /** Nothing but evidence, its check and the verification row changes. */
  predicate OnlyEvidence(i: Interviewer, i': Interviewer) {
    && i' == i.(evidence := i'.evidence, checks := i'.checks, verification := i'.verification)
    && i'.checks.Keys == i.checks.Keys + {EvidenceReviewed}
    && forall c :: c in i.checks && c != EvidenceReviewed ==> i'.checks[c] == i.checks[c]
  }

  /** Evidence can be supplied until the profile is verified or suspended, and then waits for review. */
  lemma SupplyOutcome(i: Interviewer, kind: EvidenceType)
    requires Inv(i)
    ensures var (i', r) := UpsertEvidence(i, kind);
            && (r.Ok? <==> !i.deleted && i.status !in {Verified, Suspended})
            && (r.Ok? ==> && OnlyEvidence(i, i') && EvidenceAgrees(i') && i'.verification == Some(i.status)
                          && i'.evidence == i.evidence[kind := EvidencePending])
            && (r.Err? ==> i' == i && r.error == if i.deleted then InterviewerDeleted else VerificationLocked)
  {
  }

  lemma EvidenceOutcome(i: Interviewer, admin: Id, kind: EvidenceType, status: EvidenceStatus)
    ensures var (i', r) := ReviewEvidence(i, admin, kind, status);
            && (r.Ok? <==> admin != i.user && !i.deleted && kind in i.evidence)
            && (r.Ok? ==> && OnlyEvidence(i, i') && EvidenceAgrees(i') && i'.verification == i.verification
                          && i'.evidence == i.evidence[kind := status])
            && (r.Err? ==> i' == i && r.error == if admin == i.user then SelfReview
                                                 else if i.deleted then InterviewerDeleted
                                                 else EvidenceNotFound)
  {
    if kind in i.evidence {
      assert status == EvidenceVerified ==> i.evidence[kind := status][kind] == EvidenceVerified;
    }
  }

  /** A screening is scheduled first, and gets one result. */
  lemma ScreeningOutcome(i: Interviewer, admin: Id, status: ScreeningStatus)
    ensures var (i', r) := RecordScreening(i, admin, status);
            && (r.Ok? <==>
                  && admin != i.user && !i.deleted
                  && (status == ScreeningPending || i.screening == Some(ScreeningPending)
                      || (status == NotScheduled && i.screening.Some?)))
            && (r.Ok? ==> i' == i.(screening := Some(status),
                                   checks := i.checks[ScreeningPassed := status == Passed]))
            && (r.Err? ==> i' == i && r.error == if admin == i.user then SelfReview
                                                 else if i.deleted then InterviewerDeleted
                                                 else ScreeningNotScheduled)
  {
  }

  lemma LinkedinOutcome(i: Interviewer, admin: Id)
    ensures var (i', r) := ReviewLinkedin(i, admin);
            && (r.Ok? <==> admin != i.user && !i.deleted && i.linkedin)
            && i' == (if r.Ok? then i.(checks := i.checks[LinkedinReviewed := true]) else i)
            && (r.Err? ==> r.error == if admin == i.user then SelfReview
                                      else if i.deleted then InterviewerDeleted
                                      else LinkedinMissing)
  {
  }

  /** A profile keeps its link current until it is deleted; a new one has none to review. */
  lemma UpdateOutcome(i: Interviewer, admin: Id, linkedin: bool)
    ensures UpdateProfile(i, linkedin).1 == if i.deleted then Err(InterviewerDeleted) else Ok(())
    ensures UpdateProfile(i, linkedin).0 == if i.deleted then i else i.(linkedin := linkedin)
    ensures ReviewLinkedin(NewInterviewer(i.user), admin).1.Err?
    ensures admin != i.user ==>
              (ReviewLinkedin(UpdateProfile(NewInterviewer(i.user), linkedin).0, admin).1.Ok? <==> linkedin)
  {
  }

  // ---- contacts ----

  /** No open challenge of the kind is still cooling down. */
  ghost predicate MayRequest(i: Interviewer, settings: Settings, kind: ContactKind, now: Instant) {
    && settings.development
    && forall c :: 0 <= c < |i.challenges| && i.challenges[c].kind == kind && !i.challenges[c].consumed ==>
         i.challenges[c].resendAt <= now
  }

  lemma OpenIsLatest(settings: Settings, challenges: seq<Challenge>, kind: ContactKind, c: Id)
    requires OneOpen(settings, challenges)
    requires c < |challenges| && challenges[c].kind == kind && !challenges[c].consumed
    ensures LatestOpen(challenges, kind) == Some(c)
  {
    LatestOpenFinds(challenges, kind);
  }

  /** A challenge is issued iff none is cooling down: it is the only open one of its kind, for the given
      value, and the value is verified only if it was before. */
  lemma RequestOutcome(i: Interviewer, settings: Settings, kind: ContactKind, target: string, secret: string,
      now: Instant)
    requires Inv(i) && OneOpen(settings, i.challenges)
    ensures var (i', r) := RequestContact(i, settings, kind, target, secret, now);
            && (r.Ok? <==> MayRequest(i, settings, kind, now))
            && (r.Err? ==> i' == i && r.error == if settings.development then ResendCooldown else ProviderUnavailable)
            && (r.Ok? ==>
                  && |i'.challenges| == |i.challenges| + 1
                  && i'.challenges[|i.challenges|] ==
                     Challenge(kind, target, secret, 0, now + settings.challengeTtl, now + settings.cooldown, false)
                  && (forall c :: 0 <= c < |i.challenges| ==>
                        i'.challenges[c] == i.challenges[c].(consumed := i.challenges[c].consumed
                                                                         || i.challenges[c].kind == kind))
                  && ContactOf(i', kind) == Contact(Some(target), ContactOf(i, kind) == Contact(Some(target), true)))
  {
    LatestOpenFinds(i.challenges, kind);
    forall c | 0 <= c < |i.challenges| && i.challenges[c].kind == kind && !i.challenges[c].consumed
      ensures LatestOpen(i.challenges, kind) == Some(c)
    {
      OpenIsLatest(settings, i.challenges, kind, c);
    }
  }

  /** A challenge that is open, unexpired and not used up can be tried. */
  predicate MayTry(i: Interviewer, settings: Settings, c: Id, now: Instant) {
    && c < |i.challenges| && !i.challenges[c].consumed && now < i.challenges[c].expiresAt
    && i.challenges[c].attempts < settings.maxAttempts
  }

  /** A try with the wrong secret costs an attempt; the right one consumes the challenge and verifies the
      contact, if it still has the challenged value; anything else changes nothing. */
  lemma VerifyOutcome(i: Interviewer, settings: Settings, c: Id, secret: string, now: Instant)
    requires Inv(i)
    ensures var (i', r) := VerifyContact(i, settings, c, secret, now);
            if !MayTry(i, settings, c, now) then
              i' == i && r == Err(if c >= |i.challenges| || i.challenges[c].consumed then InvalidChallenge
                                  else if i.challenges[c].expiresAt <= now then ChallengeExpired
                                  else AttemptsExhausted)
            else
              var was := i.challenges[c];
              if secret != was.secret then
                i' == i.(challenges := i.challenges[c := was.(attempts := was.attempts + 1)])
                && r == Err(InvalidChallenge)
              else if ContactOf(i, was.kind).value != Some(was.target) then i' == i && r == Err(TargetChanged)
              else
                && r.Ok?
                && i'.challenges == i.challenges[c := was.(attempts := was.attempts + 1, consumed := true)]
                && ContactOf(i', was.kind) == Contact(Some(was.target), true)
                && Passes(i'.checks, if was.kind == Mobile then MobileVerified else CompanyEmailVerified)
  {
    if c < |i.challenges| {
      assert ContactOf(i, i.challenges[c].kind).value.Some?;
    }
  }
}
