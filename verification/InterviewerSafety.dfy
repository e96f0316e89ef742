/** The verification caches always agree with their sources, and the lifecycle events tell
    the status: what every interviewer-service step keeps. */
module InterviewerSafety {
  import opened Tables
  import opened InterviewerModel
  import Contracts

  /** Profile status mirrors the verification row, and each cached check its source. */
  ghost predicate CachesAgree(i: Interviewer) {
    && i.status == VerificationOr(i)
    && (Passes(i.checks, EvidenceReviewed) <==> SomeEvidenceVerified(i.evidence))
    && (Passes(i.checks, ScreeningPassed) <==> i.screening == Some(Passed))
    && (Passes(i.checks, MobileVerified) <==> i.mobile.verified)
    && (Passes(i.checks, CompanyEmailVerified) <==> i.company.verified)
    && (i.mobile.verified ==> i.mobile.value.Some?)
    && (i.company.verified ==> i.company.value.Some?)
  }

  /** An open challenge was issued for a stored value, so a match verifies a value that exists. */
  ghost predicate ChallengesOk(i: Interviewer) {
    forall c :: 0 <= c < |i.challenges| ==> ContactOf(i, i.challenges[c].kind).value.Some?
  }

  /** The last review decision in the log, leaving the deletion aside. */
  function LastDecision(log: seq<LifecycleRow>): Option<Contracts.InterviewerEvent> {
    if |log| == 0 then None
    else if log[|log| - 1].kind == Contracts.Deleted then LastDecision(log[..|log| - 1])
    else Some(log[|log| - 1].kind)
  }

  /** The log tells the status: it ends in an approval iff the profile is verified, in a suspension
      iff it is suspended, and holds one deletion, at its very end, iff the profile is deleted. */
  ghost predicate LogTells(i: Interviewer) {
    && (i.status == Verified <==> LastDecision(i.lifecycle) == Some(Contracts.Approved))
    && (i.status == Suspended <==> LastDecision(i.lifecycle) == Some(Contracts.Suspended))
    && (forall k :: 0 <= k < |i.lifecycle| ==>
          && (i.lifecycle[k].kind == Contracts.Deleted <==> i.deleted && k == |i.lifecycle| - 1)
          && i.lifecycle[k].kind != Contracts.SnapshotTaken)
    && (i.deleted ==> |i.lifecycle| > 0)
  }

  ghost predicate InOrder(log: seq<LifecycleRow>, now: Instant) {
    && (forall j, k :: 0 <= j < k < |log| ==> log[j].at < log[k].at)
    && (forall k :: 0 <= k < |log| ==> log[k].at <= now)
  }

  ghost predicate Inv(i: Interviewer) {
    CachesAgree(i) && ChallengesOk(i) && LogTells(i)
  }

  lemma NewOk(user: Id)
    ensures Inv(NewInterviewer(user))
  {
  }

  /** A decision that is logged as what it decides keeps the log telling the status. */
  lemma LoggedTells(i: Interviewer, target: VerificationStatus, kind: Contracts.InterviewerEvent, now: Instant)
    requires LogTells(i) && !i.deleted && kind !in {Contracts.Deleted, Contracts.SnapshotTaken}
    requires target == Verified <==> kind == Contracts.Approved
    requires target == Suspended <==> kind == Contracts.Suspended
    ensures LogTells(i.(status := target, verification := Some(target),
                        lifecycle := i.lifecycle + [LifecycleRow(kind, now)]))
  {
    var log := i.lifecycle + [LifecycleRow(kind, now)];
    assert log[|log| - 1].kind == kind;
  }

  /** The event of a decision, if it has one, says the status it leads to. */
  lemma DecideTells(i: Interviewer, target: VerificationStatus, now: Instant)
    requires LogTells(i) && !i.deleted
    requires target in {Pending, UnderReview} ==> i.status in {Pending, UnderReview, Rejected}
    ensures LogTells(Decide(i, target, now))
  {
    match target {
      case Verified => LoggedTells(i, target, Contracts.Approved, now);
      case Rejected => LoggedTells(i, target, Contracts.Rejected, now);
      case Suspended => LoggedTells(i, target, Contracts.Suspended, now);
      case _ =>
    }
  }

  lemma DecideKeeps(i: Interviewer, target: VerificationStatus, now: Instant)
    requires Inv(i) && !i.deleted
    requires target in {Pending, UnderReview} ==> i.status in {Pending, UnderReview, Rejected}
    ensures Inv(Decide(i, target, now))
  {
    DecideTells(i, target, now);
    DecideFrame(i, target, now);
  }

  lemma DecideFrame(i: Interviewer, target: VerificationStatus, now: Instant)
    requires CachesAgree(i) && ChallengesOk(i)
    ensures CachesAgree(Decide(i, target, now)) && ChallengesOk(Decide(i, target, now))
  {
  }

  lemma DeleteKeeps(i: Interviewer, admin: Id, check: BookingCheck, now: Instant)
    requires Inv(i)
    ensures Inv(Delete(i, admin, check, now).0)
  {
    var after := Delete(i, admin, check, now).0;
    if after != i {
      assert after.lifecycle[..|after.lifecycle| - 1] == i.lifecycle;
    }
  }

  lemma SetContactKeeps(i: Interviewer, kind: ContactKind, contact: Contact)
    requires CachesAgree(i) && (contact.verified ==> contact.value.Some?)
    ensures CachesAgree(SetContact(i, kind, contact))
  {
  }

  /** New challenges keep their kinds, and their contact values stay set. */
  lemma ChallengesKept(i: Interviewer, after: Interviewer)
    requires ChallengesOk(i)
    requires forall kind :: ContactOf(i, kind).value.Some? ==> ContactOf(after, kind).value.Some?
    requires |i.challenges| <= |after.challenges|
    requires forall c :: 0 <= c < |i.challenges| ==> after.challenges[c].kind == i.challenges[c].kind
    requires forall c :: |i.challenges| <= c < |after.challenges| ==>
               ContactOf(after, after.challenges[c].kind).value.Some?
    ensures ChallengesOk(after)
  {
    forall c | 0 <= c < |after.challenges| ensures ContactOf(after, after.challenges[c].kind).value.Some? {
      if c < |i.challenges| {
        assert ContactOf(i, i.challenges[c].kind).value.Some?;
      }
    }
  }

  lemma RequestContactKeeps(i: Interviewer, settings: Settings, kind: ContactKind, target: string,
      secret: string, now: Instant)
    requires Inv(i)
    ensures Inv(RequestContact(i, settings, kind, target, secret, now).0)
  {
    if RequestContact(i, settings, kind, target, secret, now).1.Ok? {
      IssuedAgrees(i, settings, kind, target, secret, now);
      IssuedHasValue(i, settings, kind, target, secret, now);
      assert LogTells(Issued(i, settings, kind, target, secret, now));
    }
  }

  lemma IssuedAgrees(i: Interviewer, settings: Settings, kind: ContactKind, target: string, secret: string,
      now: Instant)
    requires CachesAgree(i)
    ensures CachesAgree(Issued(i, settings, kind, target, secret, now))
  {
    SetContactKeeps(i, kind, Contact(Some(target), false));
  }

  lemma IssuedHasValue(i: Interviewer, settings: Settings, kind: ContactKind, target: string, secret: string,
      now: Instant)
    requires ChallengesOk(i)
    ensures ChallengesOk(Issued(i, settings, kind, target, secret, now))
  {
    ChallengesKept(i, Issued(i, settings, kind, target, secret, now));
  }

  lemma VerifyContactKeeps(i: Interviewer, settings: Settings, c: Id, secret: string, now: Instant)
    requires Inv(i)
    ensures Inv(VerifyContact(i, settings, c, secret, now).0)
  {
    var after := VerifyContact(i, settings, c, secret, now).0;
    if after != i {
      if secret == i.challenges[c].secret {
        ConfirmKeeps(i, c, after.challenges[c]);
      } else {
        ChallengesKept(i, after);
      }
    }
  }

  /** A matched challenge verifies a value that is stored. */
  lemma ConfirmKeeps(i: Interviewer, c: Id, row: Challenge)
    requires Inv(i) && c < |i.challenges| && row.kind == i.challenges[c].kind
    ensures Inv(Confirmed(i, c, row))
  {
    var confirmed := SetContact(i, row.kind, ContactOf(i, row.kind).(verified := true));
    assert ContactOf(i, i.challenges[c].kind).value.Some?;
    SetContactKeeps(i, row.kind, ContactOf(i, row.kind).(verified := true));
    ChallengesKept(i, confirmed.(challenges := i.challenges[c := row]));
  }

  lemma ReviewEvidenceKeeps(i: Interviewer, admin: Id, kind: EvidenceType, status: EvidenceStatus)
    requires Inv(i)
    ensures Inv(ReviewEvidence(i, admin, kind, status).0)
  {
    var after := ReviewEvidence(i, admin, kind, status).0;
    if after != i {
      assert after.evidence[kind] == status;
      QuietKeeps(i, after);
    }
  }

  /** A step that logs nothing and leaves contacts and challenges alone only has to keep the caches. */
  lemma QuietKeeps(i: Interviewer, after: Interviewer)
    requires Inv(i) && CachesAgree(after)
    requires after.lifecycle == i.lifecycle && after.deleted == i.deleted
    requires after.mobile == i.mobile && after.company == i.company && after.challenges == i.challenges
    requires after.status == i.status || (i.status !in {Verified, Suspended} && after.status !in {Verified, Suspended})
    ensures Inv(after)
  {
  }

  lemma ScreeningKeeps(i: Interviewer, admin: Id, status: ScreeningStatus)
    requires Inv(i)
    ensures Inv(RecordScreening(i, admin, status).0)
  {
    QuietKeeps(i, RecordScreening(i, admin, status).0);
  }

  lemma UpsertKeeps(i: Interviewer, kind: EvidenceType)
    requires Inv(i)
    ensures Inv(UpsertEvidence(i, kind).0)
  {
    QuietKeeps(i, UpsertEvidence(i, kind).0);
  }

  lemma AccountEmailKeeps(i: Interviewer, verified: bool)
    requires Inv(i)
    ensures Inv(SetAccountEmail(i, verified))
  {
    QuietKeeps(i, SetAccountEmail(i, verified));
  }

  lemma LinkedinKeeps(i: Interviewer, admin: Id)
    requires Inv(i)
    ensures Inv(ReviewLinkedin(i, admin).0)
  {
    QuietKeeps(i, ReviewLinkedin(i, admin).0);
  }

  lemma SubmitKeeps(i: Interviewer, complete: bool)
    requires Inv(i)
    ensures Inv(Submit(i, complete).0)
  {
    QuietKeeps(i, Submit(i, complete).0);
  }

  lemma ReviewVerificationKeeps(i: Interviewer, admin: Id, action: Action, reason: bool, payload: bool, now: Instant)
    requires Inv(i)
    ensures Inv(ReviewVerification(i, admin, action, reason, payload, now).0)
  {
    if ReviewVerification(i, admin, action, reason, payload, now).1.Ok? {
      DecideKeeps(i, TargetOf(action), now);
    }
  }

  lemma ReviewKeeps(i: Interviewer, admin: Id, target: VerificationStatus, now: Instant)
    requires Inv(i)
    ensures Inv(Review(i, admin, target, now).0)
    ensures Inv(ReactivateProfile(i, admin, now).0)
  {
    if Review(i, admin, target, now).1.Ok? {
      DecideKeeps(i, target, now);
    }
    if ReactivateProfile(i, admin, now).1.Ok? {
      DecideKeeps(i, Verified, now);
    }
  }

  lemma StepKeeps(settings: Settings, i: Interviewer, op: Op, now: Instant)
    requires Inv(i)
    ensures Inv(Step(settings, i, op, now))
  {
    if OnContact(op) {
      ContactStepKeeps(settings, i, op, now);
    } else {
      ProfileStepKeeps(settings, i, op, now);
    }
  }

  lemma ContactStepKeeps(settings: Settings, i: Interviewer, op: Op, now: Instant)
    requires Inv(i) && OnContact(op)
    ensures Inv(Step(settings, i, op, now))
  {
    match op {
      case AccountEmailOp(verified) => AccountEmailKeeps(i, verified);
      case RequestContactOp(kind, target, secret) => RequestContactKeeps(i, settings, kind, target, secret, now);
      case VerifyContactOp(c, secret) => VerifyContactKeeps(i, settings, c, secret, now);
    }
  }

  lemma ProfileStepKeeps(settings: Settings, i: Interviewer, op: Op, now: Instant)
    requires Inv(i) && !OnContact(op)
    ensures Inv(Step(settings, i, op, now))
  {
    match op {
      case UpdateProfileOp(linkedin) => QuietKeeps(i, UpdateProfile(i, linkedin).0);
      case LinkedinOp(admin) => LinkedinKeeps(i, admin);
      case EvidenceOp(admin, kind, status) => ReviewEvidenceKeeps(i, admin, kind, status);
      case UpsertEvidenceOp(kind) => UpsertKeeps(i, kind);
      case ScreeningOp(admin, status) => ScreeningKeeps(i, admin, status);
      case SubmitOp(complete) => SubmitKeeps(i, complete);
      case ReviewVerificationOp(admin, action, reason, payload) =>
        ReviewVerificationKeeps(i, admin, action, reason, payload, now);
      case ReviewOp(admin, target) => ReviewKeeps(i, admin, target, now);
      case ReactivateOp(admin) => ReviewKeeps(i, admin, Verified, now);
      case DeleteOp(admin, check) => DeleteKeeps(i, admin, check, now);
    }
  }

  lemma {:induction false} ReplayKeeps(settings: Settings, user: Id, steps: seq<Timed>)
    ensures Inv(Replay(settings, user, steps))
  {
    if |steps| == 0 {
      NewOk(user);
    } else {
      var init := steps[..|steps| - 1];
      ReplayKeeps(settings, user, init);
      StepKeeps(settings, Replay(settings, user, init), steps[|steps| - 1].op, steps[|steps| - 1].at);
    }
  }

  /** In every run each cached check says what its source says, and the two status columns agree. */
  lemma {:induction false} CachesAlwaysAgree(settings: Settings, user: Id, steps: seq<Timed>)
    ensures CachesAgree(Replay(settings, user, steps))
  {
    ReplayKeeps(settings, user, steps);
  }

  /** Every move to VERIFIED, through whichever endpoint, either ends a suspension or leaves
      UNDER_REVIEW with all six checks passed. */
  lemma VerifiedNeedsAllChecks(settings: Settings, i: Interviewer, op: Op, now: Instant)
    requires Inv(i) && i.status != Verified && Step(settings, i, op, now).status == Verified
    ensures i.status == Suspended || (i.status == UnderReview && PassesAll(i.checks, REQUIRED))
    ensures i.status == UnderReview ==>
              && SomeEvidenceVerified(i.evidence) && i.screening == Some(Passed)
              && i.mobile.verified && i.company.verified
              && Passes(i.checks, EmailVerified) && Passes(i.checks, LinkedinReviewed)
  {
    VerifyingStep(settings, i, op, now);
  }

  /** Only a reactivation or an approval of a profile with all checks passed verifies it. */
  lemma VerifyingStep(settings: Settings, i: Interviewer, op: Op, now: Instant)
    requires i.status == VerificationOr(i) && i.status != Verified
    requires Step(settings, i, op, now).status == Verified
    ensures i.status == Suspended || (i.status == UnderReview && PassesAll(i.checks, REQUIRED))
  {
    if OnContact(op) {
      ContactIsSilent(settings, i, op, now);
    }
  }

  /** A deleted profile emits nothing more and never changes status. */
  lemma DeletedIsSilent(settings: Settings, i: Interviewer, op: Op, now: Instant)
    requires i.deleted
    ensures var after := Step(settings, i, op, now);
            after.deleted && after.lifecycle == i.lifecycle && after.status == i.status
  {
    if OnContact(op) {
      ContactIsSilent(settings, i, op, now);
    }
  }

  predicate OnContact(op: Op) {
    op.AccountEmailOp? || op.RequestContactOp? || op.VerifyContactOp?
  }

  lemma ContactIsSilent(settings: Settings, i: Interviewer, op: Op, now: Instant)
    requires OnContact(op)
    ensures var after := Step(settings, i, op, now);
            after.deleted == i.deleted && after.lifecycle == i.lifecycle && after.status == i.status
  {
    match op {
      case AccountEmailOp(_) =>
      case RequestContactOp(kind, target, secret) => RequestIsSilent(settings, i, kind, target, secret, now);
      case VerifyContactOp(c, secret) => VerifyIsSilent(settings, i, c, secret, now);
    }
  }

  lemma RequestIsSilent(settings: Settings, i: Interviewer, kind: ContactKind, target: string, secret: string,
      now: Instant)
    ensures var after := RequestContact(i, settings, kind, target, secret, now).0;
            after.deleted == i.deleted && after.lifecycle == i.lifecycle && after.status == i.status
  {
  }

  lemma VerifyIsSilent(settings: Settings, i: Interviewer, c: Id, secret: string, now: Instant)
    ensures var after := VerifyContact(i, settings, c, secret, now).0;
            after.deleted == i.deleted && after.lifecycle == i.lifecycle && after.status == i.status
  {
  }

  /** The log is unchanged or has one new row, stamped `at`. */
  ghost predicate Appended(log: seq<LifecycleRow>, log': seq<LifecycleRow>, at: Instant) {
    log' == log || (|log'| == |log| + 1 && log <= log' && log'[|log|].at == at)
  }

  lemma DecideAppends(i: Interviewer, target: VerificationStatus, now: Instant)
    ensures Appended(i.lifecycle, Decide(i, target, now).lifecycle, now)
  {
  }

  lemma StepAppends(settings: Settings, i: Interviewer, op: Op, now: Instant)
    ensures Appended(i.lifecycle, Step(settings, i, op, now).lifecycle, now)
  {
    match op {
      case ReviewVerificationOp(_, action, _, _) => DecideAppends(i, TargetOf(action), now);
      case ReviewOp(_, target) => DecideAppends(i, target, now);
      case ReactivateOp(_) => DecideAppends(i, Verified, now);
      case _ =>
    }
  }

  lemma {:induction false} ReplayInOrder(settings: Settings, user: Id, steps: seq<Timed>)
    requires Increasing(steps) && |steps| > 0
    ensures InOrder(Replay(settings, user, steps).lifecycle, steps[|steps| - 1].at)
  {
    var init, last := steps[..|steps| - 1], steps[|steps| - 1];
    if |init| > 0 {
      ReplayInOrder(settings, user, init);
    }
    var before := Replay(settings, user, init);
    StepAppends(settings, before, last.op, last.at);
    InOrderAppend(before.lifecycle, Step(settings, before, last.op, last.at).lifecycle,
                  if |init| > 0 then init[|init| - 1].at else last.at - 1, last.at);
  }

  lemma InOrderAppend(log: seq<LifecycleRow>, log': seq<LifecycleRow>, clock: Instant, at: Instant)
    requires InOrder(log, clock) && clock < at && Appended(log, log', at)
    ensures InOrder(log', at)
  {
    forall j, k | 0 <= j < k < |log'| ensures log'[j].at < log'[k].at {
      assert log'[j] == log[j];
    }
  }

  /** The lifecycle log of any run: strictly increasing in time, and nothing follows a deletion. */
  lemma {:induction false} NothingAfterDeletion(settings: Settings, user: Id, steps: seq<Timed>)
    requires Increasing(steps)
    ensures var log := Replay(settings, user, steps).lifecycle;
            && (forall j, k :: 0 <= j < k < |log| ==> log[j].at < log[k].at)
            && (forall j :: 0 <= j < |log| && log[j].kind == Contracts.Deleted ==> j == |log| - 1)
  {
    ReplayKeeps(settings, user, steps);
    if |steps| > 0 {
      ReplayInOrder(settings, user, steps);
    }
  }

  /** Some run with increasing commit times, none after `clock`, leads to this interviewer. */
  ghost predicate Reachable(settings: Settings, i: Interviewer, clock: Instant) {
    exists steps :: IsHistoryOf(settings, i, clock, steps)
  }

  ghost predicate IsHistoryOf(settings: Settings, i: Interviewer, clock: Instant, steps: seq<Timed>) {
    && Increasing(steps) && (forall k :: 0 <= k < |steps| ==> steps[k].at <= clock)
    && Replay(settings, i.user, steps) == i
  }

  lemma NewIsReachable(settings: Settings, user: Id, clock: Instant)
    ensures Reachable(settings, NewInterviewer(user), clock)
  {
    assert IsHistoryOf(settings, NewInterviewer(user), clock, []);
  }

  lemma StepKeepsUser(settings: Settings, i: Interviewer, op: Op, at: Instant)
    ensures Step(settings, i, op, at).user == i.user
  {
  }

  lemma ReachableStep(settings: Settings, i: Interviewer, clock: Instant, op: Op, at: Instant)
    requires Reachable(settings, i, clock) && clock < at
    ensures Reachable(settings, Step(settings, i, op, at), at)
  {
    var steps :| IsHistoryOf(settings, i, clock, steps);
    var longer := steps + [Timed(op, at)];
    assert longer[..|steps|] == steps;
    StepKeepsUser(settings, i, op, at);
    assert Replay(settings, i.user, longer) == Step(settings, i, op, at);
    assert IsHistoryOf(settings, Step(settings, i, op, at), at, longer);
  }

  // ---- contact ownership ----

  /** No challenge has used up more attempts than allowed, and of each kind at most one is open. */
  ghost predicate OneOpen(settings: Settings, challenges: seq<Challenge>) {
    && (forall c :: 0 <= c < |challenges| ==> challenges[c].attempts <= settings.maxAttempts)
    && (forall a, b :: 0 <= a < b < |challenges| && challenges[a].kind == challenges[b].kind ==>
          challenges[a].consumed || challenges[b].consumed)
  }

  lemma {:induction false} LatestOpenFinds(challenges: seq<Challenge>, kind: ContactKind)
    ensures var found := LatestOpen(challenges, kind);
            && (found.Some? ==> challenges[found.value].kind == kind && !challenges[found.value].consumed)
            && (found.None? ==>
                forall c :: 0 <= c < |challenges| && challenges[c].kind == kind ==> challenges[c].consumed)
  {
    if |challenges| == 0 {
    } else {
      LatestOpenFinds(challenges[..|challenges| - 1], kind);
    }
  }

  lemma ConsumedLatest(settings: Settings, challenges: seq<Challenge>, kind: ContactKind)
    requires OneOpen(settings, challenges)
    ensures OneOpen(settings, ConsumeLatest(challenges, kind))
    ensures forall c :: 0 <= c < |challenges| && challenges[c].kind == kind ==>
              ConsumeLatest(challenges, kind)[c].consumed
  {
    LatestOpenFinds(challenges, kind);
  }

  lemma RequestKeepsOpen(settings: Settings, i: Interviewer, kind: ContactKind, target: string, secret: string,
      now: Instant)
    requires OneOpen(settings, i.challenges)
    ensures OneOpen(settings, RequestContact(i, settings, kind, target, secret, now).0.challenges)
  {
    ConsumedLatest(settings, i.challenges, kind);
  }

  lemma VerifyKeepsOpen(settings: Settings, i: Interviewer, c: Id, secret: string, now: Instant)
    requires OneOpen(settings, i.challenges)
    ensures OneOpen(settings, VerifyContact(i, settings, c, secret, now).0.challenges)
  {
  }

  lemma StepKeepsOpen(settings: Settings, i: Interviewer, op: Op, now: Instant)
    requires OneOpen(settings, i.challenges)
    ensures OneOpen(settings, Step(settings, i, op, now).challenges)
  {
    match op {
      case RequestContactOp(kind, target, secret) => RequestKeepsOpen(settings, i, kind, target, secret, now);
      case VerifyContactOp(c, secret) => VerifyKeepsOpen(settings, i, c, secret, now);
      case _ =>
    }
  }

  /** In every run at most one challenge of each kind is open, and none takes more attempts than allowed. */
  lemma {:induction false} OneOpenChallenge(settings: Settings, user: Id, steps: seq<Timed>)
    ensures OneOpen(settings, Replay(settings, user, steps).challenges)
  {
    if |steps| == 0 {
    } else {
      var init := steps[..|steps| - 1];
      OneOpenChallenge(settings, user, init);
      StepKeepsOpen(settings, Replay(settings, user, init), steps[|steps| - 1].op, steps[|steps| - 1].at);
    }
  }

  /** The challenge that this step answers, with the right secret and for the stored value. */
  ghost predicate Answers(settings: Settings, i: Interviewer, op: Op, now: Instant, kind: ContactKind) {
    && op.VerifyContactOp? && op.challenge < |i.challenges|
    && var c := i.challenges[op.challenge];
       && c.kind == kind && !c.consumed && now < c.expiresAt && c.attempts < settings.maxAttempts
       && op.secret == c.secret && ContactOf(i, kind).value == Some(c.target)
  }

  /** A contact becomes verified exactly by answering an open challenge for its stored value. */
  lemma OwnershipNeedsTheSecret(settings: Settings, i: Interviewer, op: Op, now: Instant, kind: ContactKind)
    requires Inv(i) && !ContactOf(i, kind).verified
    ensures ContactOf(Step(settings, i, op, now), kind).verified <==> Answers(settings, i, op, now, kind)
  {
    if op.VerifyContactOp? {
      AnswerVerifies(settings, i, op.challenge, op.secret, now, kind);
    } else if !op.RequestContactOp? {
      ContactsStay(settings, i, op, now);
    }
  }

  lemma AnswerVerifies(settings: Settings, i: Interviewer, c: Id, secret: string, now: Instant, kind: ContactKind)
    requires Inv(i) && !ContactOf(i, kind).verified
    ensures ContactOf(VerifyContact(i, settings, c, secret, now).0, kind).verified
            <==> Answers(settings, i, VerifyContactOp(c, secret), now, kind)
  {
    if c < |i.challenges| {
      assert ContactOf(i, i.challenges[c].kind).value.Some?;
    }
  }

  /** Only requesting and answering a challenge touch the contacts. */
  lemma ContactsStay(settings: Settings, i: Interviewer, op: Op, now: Instant)
    requires !op.RequestContactOp? && !op.VerifyContactOp?
    ensures Step(settings, i, op, now).mobile == i.mobile && Step(settings, i, op, now).company == i.company
  {
  }

  /** Storing another value takes the verification away. */
  lemma ChangedContactIsUnverified(settings: Settings, i: Interviewer, op: Op, now: Instant, kind: ContactKind)
    requires ContactOf(Step(settings, i, op, now), kind).value != ContactOf(i, kind).value
    ensures !ContactOf(Step(settings, i, op, now), kind).verified
    ensures !Passes(Step(settings, i, op, now).checks, CheckOf(kind))
  {
    if !op.RequestContactOp? && !op.VerifyContactOp? {
      ContactsStay(settings, i, op, now);
    }
  }
}
