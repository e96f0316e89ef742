/** What every step of the interview service keeps: the attendance columns are exactly what the accepted
    events say, and a session announces each stage once. */
module InterviewSafety {
  import opened Tables
  import opened Contracts
  import opened InterviewModel
  import opened Scoring

  // ---- what a participant's accepted events say ----

  function Joins(rows: seq<Mark>): nat {
    if |rows| == 0 then 0 else Joins(rows[..|rows| - 1]) + (if rows[|rows| - 1].kind == Joined then 1 else 0)
  }

  function FirstJoin(rows: seq<Mark>): Option<Instant> {
    if |rows| == 0 then None
    else
      var earlier := FirstJoin(rows[..|rows| - 1]);
      if earlier.Some? then earlier
      else if rows[|rows| - 1].kind == Joined then Some(rows[|rows| - 1].at)
      else None
  }

  function LastOf(rows: seq<Mark>, kind: Kind): Option<Instant> {
    if |rows| == 0 then None
    else if rows[|rows| - 1].kind == kind then Some(rows[|rows| - 1].at)
    else LastOf(rows[..|rows| - 1], kind)
  }

  /** The last two events are a join and the matching leave. */
  predicate EndsSpan(rows: seq<Mark>) {
    |rows| > 1 && rows[|rows| - 2].kind == Joined && rows[|rows| - 1].kind == Left
  }

  /** The whole seconds of every joined-to-left span, added up. */
  function ConnectedSeconds(rows: seq<Mark>): (seconds: int)
    ensures seconds >= 0
  {
    if |rows| == 0 then 0
    else
      ConnectedSeconds(rows[..|rows| - 1])
      + (if EndsSpan(rows) then Seconds(rows[|rows| - 1].at - rows[|rows| - 2].at) else 0)
  }

  ghost predicate Alternates(rows: seq<Mark>) {
    forall k :: 0 <= k < |rows| - 1 ==> LeavesNext(rows, k)
  }

  /** A join is followed by a leave. */
  ghost predicate LeavesNext(rows: seq<Mark>, k: nat)
    requires k < |rows| - 1
  {
    rows[k].kind == Joined ==> rows[k + 1].kind == Left
  }

  ghost predicate Ordered(rows: seq<Mark>) {
    forall j, k :: 0 <= j < k < |rows| ==> rows[j].at <= rows[k].at
  }

  /** Every attendance column is a function of the accepted events. */
  ghost predicate Accounted(p: Participant, rows: seq<Mark>) {
    && Alternates(rows)
    && (p.connected <==> |rows| > 0 && rows[|rows| - 1].kind == Joined)
    && p.firstJoined == FirstJoin(rows)
    && p.lastJoined == LastOf(rows, Joined)
    && p.lastLeft == LastOf(rows, Left)
    && p.reconnects == (if Joins(rows) == 0 then 0 else Joins(rows) - 1)
    && p.total == ConnectedSeconds(rows)
  }

  lemma {:induction false} FirstJoinCounts(rows: seq<Mark>)
    ensures FirstJoin(rows).None? <==> Joins(rows) == 0
    ensures Joins(rows) == 0 ==>
              && ConnectedSeconds(rows) == 0 && LastOf(rows, Joined).None?
              && (|rows| > 0 ==> rows[|rows| - 1].kind == Left)
  {
    if |rows| == 0 {
    } else {
      FirstJoinCounts(rows[..|rows| - 1]);
    }
  }

  /** Accepting an event keeps the columns in step with the events. */
  lemma MarkKeeps(p: Participant, rows: seq<Mark>, mark: Mark)
    requires Accounted(p, rows) && !(mark.kind == Joined && p.connected)
    ensures Accounted(Marked(p, mark.kind, mark.at), rows + [mark])
  {
    var longer := rows + [mark];
    assert longer[..|rows|] == rows;
    FirstJoinCounts(rows);
    AlternatesNext(rows, mark);
    if p.connected {
      assert EndsSpan(longer);
    }
  }

  lemma AlternatesNext(rows: seq<Mark>, mark: Mark)
    requires Alternates(rows) && !(mark.kind == Joined && |rows| > 0 && rows[|rows| - 1].kind == Joined)
    ensures Alternates(rows + [mark])
  {
    forall k | 0 <= k < |rows + [mark]| - 1 ensures LeavesNext(rows + [mark], k) {
      if k < |rows| - 1 {
        assert LeavesNext(rows, k);
      }
    }
  }

  // ---- the sessions ----

  /** The events of a session by the status it has reached: each at most once, in order. */
  ghost predicate Told(item: Session, events: seq<SessionEvent>) {
    && (match item.status
        case Ready => events == []
        case Cancelled => events == []
        case InProgress => events == [StartedEvent]
        case FeedbackPending => events == [StartedEvent, CompletedEvent]
        case FeedbackSubmitted => events == [StartedEvent, CompletedEvent, FeedbackEvent]
        case CandidateNoShow => events == [CandidateNoShowEvent]
        case InterviewerNoShow => events == [InterviewerNoShowEvent]
        case TechnicalFailure => events == [TechnicalFailureEvent] || events == [StartedEvent, TechnicalFailureEvent]
        case _ => false)
    && (item.actualStart.Some? <==> StartedEvent in events)
    && (item.actualEnd.Some? <==> CompletedEvent in events || TechnicalFailureEvent in events)
    && item.duration == (if item.actualStart.Some? && item.actualEnd.Some?
                         then Seconds(item.actualEnd.value - item.actualStart.value) else 0)
  }

  ghost predicate SessionOk(db: Db, s: Id) {
    if s < |db.sessions| then Told(db.sessions[s], RowsOf(db.outbox, s)) else RowsOf(db.outbox, s) == []
  }

  ghost predicate ParticipantOk(db: Db, p: Id) {
    if p < |db.participants| then Accounted(db.participants[p], RowsOf(db.marks, p)) else RowsOf(db.marks, p) == []
  }

  /** Each session has its two participants, and each booking one session. */
  ghost predicate Paired(db: Db) {
    && |db.participants| == 2 * |db.sessions|
    && (forall p :: 0 <= p < |db.participants| ==> db.participants[p].session == p / 2)
    && (forall i, j :: 0 <= i < j < |db.sessions| ==> db.sessions[i].booking != db.sessions[j].booking)
  }

  ghost predicate MarksUnique(marks: Table<Id, Mark>) {
    forall i, j :: 0 <= i < j < |marks| ==> marks[i].1.providerId != marks[j].1.providerId
  }

  ghost predicate RubricOk(rubric: Rubric) {
    ValidCriteria(rubric.criteria) && rubric.maximum == Maximum(rubric.criteria)
  }

  /** A session has a report exactly once feedback is submitted, and its total is within the maximum of the
      session's rubric. */
  ghost predicate ReportOk(db: Db, s: Id) {
    && (s in db.reports <==> s < |db.sessions| && db.sessions[s].status == FeedbackSubmitted)
    && (s < |db.sessions| ==> db.sessions[s].rubric < |db.rubrics|)
    && (s in db.reports ==> db.reports[s] <= db.rubrics[db.sessions[s].rubric].maximum)
  }

  ghost predicate ReportsOk(db: Db) {
    && (forall r :: 0 <= r < |db.rubrics| ==> RubricOk(db.rubrics[r]))
    && (forall s :: ReportOk(db, s))
  }

  ghost predicate Inv(db: Db) {
    && Paired(db)
    && ReportsOk(db)
    && MarksUnique(db.marks)
    && (forall s :: SessionOk(db, s))
    && (forall p :: ParticipantOk(db, p))
  }

  lemma EmptyOk(now: Instant)
    ensures Inv(EmptyDb(now))
  {
  }

  lemma EventAppended(outbox: Table<Id, SessionEvent>, session: Id, event: SessionEvent, s: Id)
    ensures RowsOf(outbox + [(session, event)], s) == RowsOf(outbox, s) + (if s == session then [event] else [])
  {
    RowsOfAppend(outbox, s, (session, event));
  }

  lemma AttendKeepsSession(db: Db, session: Id, providerId: string, user: Id, kind: Kind, at: Instant, s: Id)
    requires SessionOk(db, s)
    ensures SessionOk(Attend(db, session, providerId, user, kind, at).0, s)
  {
    EventAppended(db.outbox, session, StartedEvent, s);
    assert RowsOf(db.outbox, s) + [] == RowsOf(db.outbox, s);
  }

  lemma AttendKeepsParticipant(db: Db, session: Id, providerId: string, user: Id, kind: Kind, at: Instant, p: Id)
    requires ParticipantOk(db, p)
    ensures ParticipantOk(Attend(db, session, providerId, user, kind, at).0, p)
  {
    var db' := Attend(db, session, providerId, user, kind, at).0;
    if db' != db {
      var q := Assigned(db, session, user).value;
      RowsOfAppend(db.marks, p, (q, Mark(providerId, kind, at)));
      assert RowsOf(db.marks, p) + [] == RowsOf(db.marks, p);
      if p == q {
        MarkKeeps(db.participants[p], RowsOf(db.marks, p), Mark(providerId, kind, at));
      }
    }
  }

  lemma AttendFrame(db: Db, session: Id, providerId: string, user: Id, kind: Kind, at: Instant)
    requires Paired(db) && MarksUnique(db.marks)
    ensures Paired(Attend(db, session, providerId, user, kind, at).0)
    ensures MarksUnique(Attend(db, session, providerId, user, kind, at).0.marks)
  {
  }

  lemma AttendReports(db: Db, session: Id, providerId: string, user: Id, kind: Kind, at: Instant)
    requires ReportsOk(db)
    ensures ReportsOk(Attend(db, session, providerId, user, kind, at).0)
  {
    forall s: Id ensures ReportOk(Attend(db, session, providerId, user, kind, at).0, s) {
      assert ReportOk(db, s);
    }
  }

  lemma AttendKeeps(db: Db, session: Id, providerId: string, user: Id, kind: Kind, at: Instant)
    requires Inv(db)
    ensures Inv(Attend(db, session, providerId, user, kind, at).0)
  {
    var db' := Attend(db, session, providerId, user, kind, at).0;
    AttendFrame(db, session, providerId, user, kind, at);
    AttendReports(db, session, providerId, user, kind, at);
    forall s ensures SessionOk(db', s) {
      assert SessionOk(db, s);
      AttendKeepsSession(db, session, providerId, user, kind, at, s);
    }
    forall p ensures ParticipantOk(db', p) {
      assert ParticipantOk(db, p);
      AttendKeepsParticipant(db, session, providerId, user, kind, at, p);
    }
  }

  lemma MoveTells(item: Session, events: seq<SessionEvent>, target: Status, now: Instant)
    requires Told(item, events) && target in AllowedFrom(item.status)
    ensures Told(Moved(item, target, now), events + (if EventOf(target).Some? then [EventOf(target).value] else []))
  {
  }

  lemma TransitionTells(db: Db, session: Id, target: Status, s: Id)
    requires SessionOk(db, s)
    ensures SessionOk(Transition(db, session, target).0, s)
  {
    if EventOf(target).Some? {
      EventAppended(db.outbox, session, EventOf(target).value, s);
    }
    assert RowsOf(db.outbox, s) + [] == RowsOf(db.outbox, s);
    if s == session && s < |db.sessions| && target in AllowedFrom(db.sessions[s].status) {
      MoveTells(db.sessions[s], RowsOf(db.outbox, s), target, db.now);
    }
  }

  lemma TransitionFrame(db: Db, session: Id, target: Status)
    requires Paired(db)
    ensures var db' := Transition(db, session, target).0;
            Paired(db') && db'.participants == db.participants && db'.marks == db.marks
  {
  }

  lemma TransitionReports(db: Db, session: Id, target: Status)
    requires ReportsOk(db)
    ensures ReportsOk(Transition(db, session, target).0)
  {
    forall s: Id ensures ReportOk(Transition(db, session, target).0, s) {
      assert ReportOk(db, s);
    }
  }

  lemma TransitionKeeps(db: Db, session: Id, target: Status)
    requires Inv(db)
    ensures Inv(Transition(db, session, target).0)
  {
    var db' := Transition(db, session, target).0;
    TransitionFrame(db, session, target);
    TransitionReports(db, session, target);
    forall s: Id ensures SessionOk(db', s) {
      assert SessionOk(db, s);
      TransitionTells(db, session, target, s);
    }
    forall p ensures ParticipantOk(db', p) {
      assert ParticipantOk(db, p);
    }
  }

  lemma FeedbackTells(db: Db, session: Id, interviewer: Id, scores: seq<Score>, s: Id)
    requires SessionOk(db, s)
    ensures SessionOk(SubmitFeedback(db, session, interviewer, scores).0, s)
  {
    EventAppended(db.outbox, session, FeedbackEvent, s);
    assert RowsOf(db.outbox, s) + [] == RowsOf(db.outbox, s);
  }

  lemma FeedbackReports(db: Db, session: Id, interviewer: Id, scores: seq<Score>)
    requires ReportsOk(db)
    ensures ReportsOk(SubmitFeedback(db, session, interviewer, scores).0)
  {
    var db' := SubmitFeedback(db, session, interviewer, scores).0;
    if db' != db {
      assert ReportOk(db, session);
      TotalFitsRubric(db.rubrics[db.sessions[session].rubric].criteria, Dictionary(scores));
    }
    forall s: Id ensures ReportOk(db', s) {
      assert ReportOk(db, s);
    }
  }

  lemma FeedbackKeeps(db: Db, session: Id, interviewer: Id, scores: seq<Score>)
    requires Inv(db)
    ensures Inv(SubmitFeedback(db, session, interviewer, scores).0)
  {
    var db' := SubmitFeedback(db, session, interviewer, scores).0;
    FeedbackReports(db, session, interviewer, scores);
    forall s: Id ensures SessionOk(db', s) {
      assert SessionOk(db, s);
      FeedbackTells(db, session, interviewer, scores, s);
    }
    forall p: Id ensures ParticipantOk(db', p) {
      assert ParticipantOk(db, p);
    }
  }

  /** The invariant does not depend on the clock, and a further valid rubric does no harm. */
  lemma RubricsMayGrow(db: Db, db': Db)
    requires Inv(db) && db.rubrics <= db'.rubrics
    requires forall r :: |db.rubrics| <= r < |db'.rubrics| ==> RubricOk(db'.rubrics[r])
    requires db' == db.(now := db'.now, rubrics := db'.rubrics)
    ensures Inv(db')
  {
    forall s: Id ensures SessionOk(db', s) && ReportOk(db', s) {
      assert SessionOk(db, s) && ReportOk(db, s);
    }
    forall p: Id ensures ParticipantOk(db', p) {
      assert ParticipantOk(db, p);
    }
  }

  lemma RubricKeeps(db: Db, criteria: seq<Criterion>)
    requires Inv(db)
    ensures Inv(CreateRubric(db, criteria).0)
  {
    RubricsMayGrow(db, CreateRubric(db, criteria).0);
  }

  lemma CreateKeeps(db: Db, event: EventId, booking: Id, candidate: Id, interviewer: Id, rubric: Id, room: bool)
    requires Inv(db)
    ensures Inv(Create(db, event, booking, candidate, interviewer, rubric, room).0)
  {
    var db' := Create(db, event, booking, candidate, interviewer, rubric, room).0;
    CreateFrame(db, event, booking, candidate, interviewer, rubric, room);
    forall s: Id ensures SessionOk(db', s) && ReportOk(db', s) {
      assert SessionOk(db, s) && ReportOk(db, s);
    }
    forall p: Id ensures ParticipantOk(db', p) {
      assert ParticipantOk(db, p);
    }
  }

  lemma CreateFrame(db: Db, event: EventId, booking: Id, candidate: Id, interviewer: Id, rubric: Id, room: bool)
    requires Paired(db)
    ensures var db' := Create(db, event, booking, candidate, interviewer, rubric, room).0;
            && Paired(db') && db'.marks == db.marks && db'.outbox == db.outbox
            && db'.rubrics == db.rubrics && db'.reports == db.reports
            && (db'.sessions != db.sessions ==> rubric < |db.rubrics|)
            && ((db'.sessions == db.sessions && db'.participants == db.participants)
                || (&& db'.sessions == db.sessions
                      + [Session(booking, candidate, interviewer, rubric, Ready, None, None, 0)]
                    && db'.participants == db.participants + [NewParticipant(|db.sessions|, candidate),
                                                              NewParticipant(|db.sessions|, interviewer)]))
  {
    var db' := Create(db, event, booking, candidate, interviewer, rubric, room).0;
    if SessionOf(db, booking).None? {
      forall i | 0 <= i < |db.sessions| ensures db.sessions[i].booking != booking {
      }
    }
  }

  lemma StepKeeps(db: Db, op: Op)
    requires Inv(db)
    ensures Inv(Step(db, op))
  {
    match op {
      case TickOp(to) => RubricsMayGrow(db, db.(now := to));
      case RubricOp(criteria) => RubricKeeps(db, criteria);
      case CreateOp(event, booking, candidate, interviewer, rubric, room) =>
        CreateKeeps(db, event, booking, candidate, interviewer, rubric, room);
      case AttendOp(session, providerId, user, kind, at) => AttendKeeps(db, session, providerId, user, kind, at);
      case TransitionOp(session, target) => TransitionKeeps(db, session, target);
      case InterviewerOp(session, interviewer, target) => TransitionKeeps(db, session, target);
      case FeedbackOp(session, interviewer, scores) => FeedbackKeeps(db, session, interviewer, scores);
    }
  }

  lemma {:induction false} RunKeeps(now: Instant, ops: seq<Op>)
    ensures Inv(StepAll(EmptyDb(now), ops))
  {
    if |ops| == 0 {
      EmptyOk(now);
    } else {
      RunKeeps(now, ops[..|ops| - 1]);
      StepKeeps(StepAll(EmptyDb(now), ops[..|ops| - 1]), ops[|ops| - 1]);
    }
  }

  ghost predicate Reachable(db: Db) {
    exists now, ops :: StepAll(EmptyDb(now), ops) == db
  }

  lemma EmptyIsReachable(now: Instant)
    ensures Reachable(EmptyDb(now))
  {
    assert StepAll(EmptyDb(now), []) == EmptyDb(now);
  }

  lemma ReachableStep(db: Db, op: Op)
    requires Reachable(db)
    ensures Reachable(Step(db, op))
  {
    var now, ops :| StepAll(EmptyDb(now), ops) == db;
    assert (ops + [op])[..|ops|] == ops;
    assert StepAll(EmptyDb(now), ops + [op]) == Step(db, op);
  }

  // ---- what holds in every run ----

  /** In every run each participant's columns are what the accepted events say: connected seconds are
      the whole seconds of the joined-to-left spans, and reconnects the joins after the first. */
  lemma {:induction false} AttendanceIsAccounted(now: Instant, ops: seq<Op>, p: Id)
    requires p < |StepAll(EmptyDb(now), ops).participants|
    ensures var db := StepAll(EmptyDb(now), ops);
            Accounted(db.participants[p], RowsOf(db.marks, p))
  {
    RunKeeps(now, ops);
    assert ParticipantOk(StepAll(EmptyDb(now), ops), p);
  }

  /** In every run a session announces its start, and every other stage, at most once, whether the
      start came from an attendance event or from a transition. */
  lemma {:induction false} StagesAnnouncedOnce(now: Instant, ops: seq<Op>, s: Id)
    ensures var rows := RowsOf(StepAll(EmptyDb(now), ops).outbox, s);
            && (forall i, j :: 0 <= i < j < |rows| ==> rows[i] != rows[j])
            && (s < |StepAll(EmptyDb(now), ops).sessions| ==> Told(StepAll(EmptyDb(now), ops).sessions[s], rows))
  {
    RunKeeps(now, ops);
    assert SessionOk(StepAll(EmptyDb(now), ops), s);
  }

  /** In every run feedback is submitted at most once per session, and its total never exceeds the maximum
      of the session's rubric. */
  lemma {:induction false} FeedbackFitsRubric(now: Instant, ops: seq<Op>, s: Id)
    ensures var db := StepAll(EmptyDb(now), ops);
            && (s in db.reports <==> s < |db.sessions| && db.sessions[s].status == FeedbackSubmitted)
            && (s in db.reports ==>
                  && db.sessions[s].rubric < |db.rubrics|
                  && db.reports[s] <= db.rubrics[db.sessions[s].rubric].maximum)
  {
    RunKeeps(now, ops);
    assert ReportOk(StepAll(EmptyDb(now), ops), s);
  }

  /** Until the last event the time spent connected fits between the first join and that event. */
  lemma {:induction false} ConnectedFitsSpan(rows: seq<Mark>)
    requires Ordered(rows) && FirstJoin(rows).Some?
    ensures ConnectedSeconds(rows) * SECOND <= rows[|rows| - 1].at - FirstJoin(rows).value
  {
    var init := rows[..|rows| - 1];
    if FirstJoin(init).Some? {
      ConnectedFitsSpan(init);
    } else {
      FirstJoinCounts(init);
    }
  }

  /** For events in time order the connected seconds fit between the first join and the last leave
      exactly when the first join is not after the last leave. */
  lemma ConnectedFits(p: Participant, rows: seq<Mark>)
    requires Accounted(p, rows) && Ordered(rows) && p.firstJoined.Some? && p.lastLeft.Some?
    ensures p.total * SECOND <= p.lastLeft.value - p.firstJoined.value <==> p.firstJoined.value <= p.lastLeft.value
  {
    if rows[|rows| - 1].kind == Left {
      ConnectedFitsSpan(rows);
    } else {
      OpenSpanCountsNothing(rows);
      var init := rows[..|rows| - 1];
      if FirstJoin(init).Some? {
        ConnectedFitsSpan(init);
      } else {
        FirstJoinCounts(init);
      }
    }
  }

  /** A join at the very end follows a leave and has added nothing yet. */
  lemma OpenSpanCountsNothing(rows: seq<Mark>)
    requires Alternates(rows) && LastOf(rows, Left).Some? && rows[|rows| - 1].kind == Joined
    ensures |rows| > 1 && LastOf(rows, Left) == Some(rows[|rows| - 2].at)
    ensures ConnectedSeconds(rows) == ConnectedSeconds(rows[..|rows| - 1])
  {
    var init := rows[..|rows| - 1];
    assert LastOf(rows, Left) == LastOf(init, Left);
    assert |rows| > 1 && LeavesNext(rows, |rows| - 2);
    assert init[|init| - 1] == rows[|rows| - 2];
  }

  /** The connected time fits between the first join and the last leave, once there are both. */
  predicate Fits(p: Participant) {
    p.firstJoined.Some? && p.lastLeft.Some? ==> p.total * SECOND <= p.lastLeft.value - p.firstJoined.value
  }

  /** The one kind of event that breaks the bound: a first join later than a leave already recorded. */
  predicate JoinsAfterLeave(p: Participant, kind: Kind, at: Instant) {
    kind == Joined && p.firstJoined.None? && p.lastLeft.Some? && p.lastLeft.value < at
  }

  lemma OrderedPrefix(rows: seq<Mark>, mark: Mark)
    requires Ordered(rows + [mark])
    ensures Ordered(rows) && (|rows| > 0 ==> rows[|rows| - 1].at <= mark.at)
  {
    var longer := rows + [mark];
    forall j, k | 0 <= j < k < |rows| ensures rows[j].at <= rows[k].at {
      assert longer[j].at <= longer[k].at;
    }
    assert |rows| > 0 ==> longer[|rows| - 1].at <= longer[|rows|].at;
  }

  /** For events in time order, the bound holds after accepting one exactly unless it is a first join
      that comes later than a leave already recorded. */
  lemma NextMarkFits(p: Participant, rows: seq<Mark>, mark: Mark)
    requires Accounted(p, rows) && Ordered(rows + [mark]) && !(mark.kind == Joined && p.connected)
    ensures Fits(Marked(p, mark.kind, mark.at)) <==> !JoinsAfterLeave(p, mark.kind, mark.at)
  {
    var after := Marked(p, mark.kind, mark.at);
    if after.firstJoined.Some? && after.lastLeft.Some? {
      MarkKeeps(p, rows, mark);
      ConnectedFits(after, rows + [mark]);
      OrderedPrefix(rows, mark);
      FirstJoinStaysBefore(p, rows, mark);
    }
  }

  /** The first join stays before the last leave, unless it is this event and a leave came before it. */
  lemma FirstJoinStaysBefore(p: Participant, rows: seq<Mark>, mark: Mark)
    requires Accounted(p, rows) && Ordered(rows) && !(mark.kind == Joined && p.connected)
    requires |rows| > 0 ==> rows[|rows| - 1].at <= mark.at
    ensures var after := Marked(p, mark.kind, mark.at);
            after.firstJoined.Some? && after.lastLeft.Some? ==>
              (after.firstJoined.value <= after.lastLeft.value <==> !JoinsAfterLeave(p, mark.kind, mark.at))
  {
    if p.firstJoined.Some? {
      ConnectedFitsSpan(rows);
    }
  }

  // ---- the bound over whole runs ----

  ghost predicate FitsIn(db: Db, p: Id) {
    p < |db.participants| ==> Fits(db.participants[p])
  }

  /** The bound holds in every state of the run. */
  ghost predicate FitsThroughout(now: Instant, ops: seq<Op>, p: Id) {
    forall n :: 0 <= n <= |ops| ==> FitsIn(StepAll(EmptyDb(now), ops[..n]), p)
  }

  /** Row `f` is the first join and comes strictly later than the leave recorded just before it. */
  predicate LateFirstJoin(rows: seq<Mark>, f: nat) {
    && 0 < f < |rows| && rows[f].kind == Joined && rows[f - 1].at < rows[f].at
    && forall j :: 0 <= j < f ==> rows[j].kind == Left
  }

  ghost predicate LeavesBeforeJoining(rows: seq<Mark>) {
    exists f: nat :: LateFirstJoin(rows, f)
  }

  lemma {:induction false} NeverJoined(rows: seq<Mark>)
    ensures FirstJoin(rows).None? <==> forall j :: 0 <= j < |rows| ==> rows[j].kind == Left
    ensures FirstJoin(rows).None? && |rows| > 0 ==> LastOf(rows, Left) == Some(rows[|rows| - 1].at)
  {
    if |rows| == 0 {
    } else {
      NeverJoined(rows[..|rows| - 1]);
    }
  }

  lemma LeavesBeforeJoiningAppend(p: Participant, rows: seq<Mark>, mark: Mark)
    requires Accounted(p, rows)
    ensures LeavesBeforeJoining(rows + [mark]) <==> LeavesBeforeJoining(rows) || JoinsAfterLeave(p, mark.kind, mark.at)
  {
    var longer, n := rows + [mark], |rows|;
    NeverJoined(rows);
    LateFirstJoinAtEnd(p, rows, mark);
    if f: nat :| LateFirstJoin(rows, f) {
      LateFirstJoinInPrefix(rows, mark, f);
    }
    if f: nat :| LateFirstJoin(longer, f) && f < n {
      LateFirstJoinInPrefix(rows, mark, f);
    }
  }

  lemma LateFirstJoinInPrefix(rows: seq<Mark>, mark: Mark, f: nat)
    requires f < |rows|
    ensures LateFirstJoin(rows + [mark], f) <==> LateFirstJoin(rows, f)
  {
    var longer := rows + [mark];
    assert forall j {:trigger rows[j]} {:trigger longer[j]} :: 0 <= j < |rows| ==> longer[j] == rows[j];
  }

  lemma LateFirstJoinAtEnd(p: Participant, rows: seq<Mark>, mark: Mark)
    requires Accounted(p, rows)
    ensures LateFirstJoin(rows + [mark], |rows|) <==> JoinsAfterLeave(p, mark.kind, mark.at)
  {
    var longer := rows + [mark];
    NeverJoined(rows);
    assert forall j {:trigger rows[j]} {:trigger longer[j]} :: 0 <= j < |rows| ==> longer[j] == rows[j];
  }

  /** What a step does to one participant: it accepts one of their events, or nothing happens to them. */
  ghost predicate Accepts(db: Db, db': Db, p: Id, mark: Mark) {
    && p < |db.participants| && |db'.participants| == |db.participants|
    && !(mark.kind == Joined && db.participants[p].connected)
    && db'.participants[p] == Marked(db.participants[p], mark.kind, mark.at)
    && RowsOf(db'.marks, p) == RowsOf(db.marks, p) + [mark]
  }

  ghost predicate Untouched(db: Db, db': Db, p: Id) {
    && RowsOf(db'.marks, p) == RowsOf(db.marks, p)
    && |db.participants| <= |db'.participants|
    && (p < |db.participants| ==> db'.participants[p] == db.participants[p])
    && (|db.participants| <= p < |db'.participants| ==>
          db'.participants[p] == NewParticipant(db'.participants[p].session, db'.participants[p].user))
  }

  lemma AttendAccepts(db: Db, session: Id, providerId: string, user: Id, kind: Kind, at: Instant, p: Id)
    ensures var db' := Attend(db, session, providerId, user, kind, at).0;
            Untouched(db, db', p) || Accepts(db, db', p, Mark(providerId, kind, at))
  {
    var db' := Attend(db, session, providerId, user, kind, at).0;
    if db' != db {
      var q := AttendMarks(db, session, providerId, user, kind, at);
      MarkAdded(db, db', q, Mark(providerId, kind, at), p);
    }
  }

  /** An attendance event that changes anything adds one mark for one participant. */
  lemma AttendMarks(db: Db, session: Id, providerId: string, user: Id, kind: Kind, at: Instant) returns (q: Id)
    requires Attend(db, session, providerId, user, kind, at).0 != db
    ensures q < |db.participants| && !(kind == Joined && db.participants[q].connected)
    ensures var db' := Attend(db, session, providerId, user, kind, at).0;
            && db'.marks == db.marks + [(q, Mark(providerId, kind, at))]
            && db'.participants == db.participants[q := Marked(db.participants[q], kind, at)]
  {
    q := Assigned(db, session, user).value;
  }

  lemma MarkAdded(db: Db, db': Db, q: Id, mark: Mark, p: Id)
    requires q < |db.participants| && !(mark.kind == Joined && db.participants[q].connected)
    requires db'.marks == db.marks + [(q, mark)]
    requires db'.participants == db.participants[q := Marked(db.participants[q], mark.kind, mark.at)]
    ensures if p == q then Accepts(db, db', p, mark) else Untouched(db, db', p)
  {
    RowsOfAppend(db.marks, p, (q, mark));
    assert RowsOf(db.marks, p) + [] == RowsOf(db.marks, p);
  }

  lemma OthersUntouched(db: Db, op: Op, p: Id)
    requires !op.AttendOp?
    ensures Untouched(db, Step(db, op), p)
  {
  }

  /** One step of a run either adds an event of the participant's, and then the bound holds after it
      exactly if the event does not break it, or leaves the participant alone. */
  lemma StepFits(db: Db, op: Op, p: Id)
    requires Inv(db) && Ordered(RowsOf(Step(db, op).marks, p))
    ensures var db' := Step(db, op);
            && Ordered(RowsOf(db.marks, p))
            && (FitsIn(db, p) && !LeavesBeforeJoining(RowsOf(db.marks, p)) ==>
                  (FitsIn(db', p) <==> !LeavesBeforeJoining(RowsOf(db'.marks, p))))
            && (LeavesBeforeJoining(RowsOf(db.marks, p)) ==> LeavesBeforeJoining(RowsOf(db'.marks, p)))
  {
    var db', rows := Step(db, op), RowsOf(db.marks, p);
    if op.AttendOp? {
      AttendAccepts(db, op.session, op.providerId, op.user, op.kind, op.at, p);
    } else {
      OthersUntouched(db, op, p);
    }
    if !Untouched(db, db', p) {
      var mark := Mark(op.providerId, op.kind, op.at);
      assert ParticipantOk(db, p);
      OrderedPrefix(rows, mark);
      NextMarkFits(db.participants[p], rows, mark);
      LeavesBeforeJoiningAppend(db.participants[p], rows, mark);
    }
  }

  /** Over any run in which the participant's accepted events come in time order, the bound holds in
      every state exactly if no leave is accepted strictly before their first join. */
  lemma {:induction false} BoundHoldsIffNoEarlyLeave(now: Instant, ops: seq<Op>, p: Id)
    requires Ordered(RowsOf(StepAll(EmptyDb(now), ops).marks, p))
    ensures FitsThroughout(now, ops, p) <==> !LeavesBeforeJoining(RowsOf(StepAll(EmptyDb(now), ops).marks, p))
  {
    if |ops| == 0 {
      assert ops[..0] == ops;
    } else {
      var init := ops[..|ops| - 1];
      RunKeeps(now, init);
      StepFits(StepAll(EmptyDb(now), init), ops[|ops| - 1], p);
      BoundHoldsIffNoEarlyLeave(now, init, p);
      ThroughoutExtends(now, ops, p);
      LastStateFits(now, init, p);
    }
  }

  lemma {:induction false} ThroughoutExtends(now: Instant, ops: seq<Op>, p: Id)
    requires |ops| > 0
    ensures FitsThroughout(now, ops, p) <==>
            FitsThroughout(now, ops[..|ops| - 1], p) && FitsIn(StepAll(EmptyDb(now), ops), p)
  {
    var init := ops[..|ops| - 1];
    assert ops[..|ops|] == ops;
    assert forall n :: 0 <= n <= |init| ==> init[..n] == ops[..n];
  }

  lemma {:induction false} LastStateFits(now: Instant, ops: seq<Op>, p: Id)
    ensures FitsThroughout(now, ops, p) ==> FitsIn(StepAll(EmptyDb(now), ops), p)
  {
    assert ops[..|ops|] == ops;
  }

  /** Events in time order, and yet more connected time than lies between first join and last leave. */
  ghost predicate BreaksBound(db: Db, p: Id) {
    p < |db.participants| && Ordered(RowsOf(db.marks, p)) && !Fits(db.participants[p])
  }

  /** A leave recorded before any join breaks the bound: nobody was connected for a second, yet the
      last leave lies before the first join. */
  lemma EarlyLeaveBreaksTheBound()
    ensures exists db :: Reachable(db) && BreaksBound(db, 0)
  {
    var leave := AttendOp(0, "left", 1, Left, 5);
    var join := AttendOp(0, "joined", 1, Joined, 10);
    var ready := ReadySession();
    ReachableStep(ready, leave);
    ReachableStep(Step(ready, leave), join);
    LeaveThenJoin(ready);
  }

  const ONE_CRITERION := [Criterion("technical", 100, 10)]

  lemma ReadySession() returns (ready: Db)
    ensures Reachable(ready) && ready.marks == []
    ensures |ready.sessions| == 1 && ready.participants == [NewParticipant(0, 1), NewParticipant(0, 2)]
  {
    var rubric := RubricOp(ONE_CRITERION);
    var create := CreateOp(Local(0), 0, 1, 2, 0, true);
    EmptyIsReachable(0);
    ReachableStep(EmptyDb(0), rubric);
    ReachableStep(Step(EmptyDb(0), rubric), create);
    FirstSession(0, 1, 2);
    ready := Step(Step(EmptyDb(0), rubric), create);
  }

  lemma LeaveThenJoin(db: Db)
    requires |db.sessions| == 1 && db.participants == [NewParticipant(0, 1), NewParticipant(0, 2)] && db.marks == []
    ensures BreaksBound(Attend(Attend(db, 0, "left", 1, Left, 5).0, 0, "joined", 1, Joined, 10).0, 0)
  {
    FirstMark(db, "left", Left, 5);
    SecondMark(Attend(db, 0, "left", 1, Left, 5).0, "joined", Joined, 10);
  }

  lemma FirstRubric(now: Instant)
    ensures CreateRubric(EmptyDb(now), ONE_CRITERION).0 == EmptyDb(now).(rubrics := [Rubric(ONE_CRITERION, 10)])
  {
    assert ONE_CRITERION[..0] == [];
    assert Weights(ONE_CRITERION) == 100 && Maximum(ONE_CRITERION) == 10;
  }

  lemma FirstSession(now: Instant, candidate: Id, interviewer: Id)
    ensures var ready := CreateRubric(EmptyDb(now), ONE_CRITERION).0;
            var db := Create(ready, Local(0), 0, candidate, interviewer, 0, true).0;
            && |db.sessions| == 1 && db.marks == []
            && db.participants == [NewParticipant(0, candidate), NewParticipant(0, interviewer)]
  {
    FirstRubric(now);
  }

  lemma FirstMark(db: Db, providerId: string, kind: Kind, at: Instant)
    requires |db.sessions| == 1 && db.participants == [NewParticipant(0, 1), NewParticipant(0, 2)] && db.marks == []
    ensures var db' := Attend(db, 0, providerId, 1, kind, at).0;
            && |db'.sessions| == 1 && db'.marks == [(0, Mark(providerId, kind, at))]
            && db'.participants == [Marked(NewParticipant(0, 1), kind, at), NewParticipant(0, 2)]
  {
    assert db.participants[0].user == 1 && db.participants[1].user == 2;
    assert Assigned(db, 0, 1) == Some(0);
  }

  lemma SecondMark(db: Db, providerId: string, kind: Kind, at: Instant)
    requires |db.sessions| == 1 && |db.participants| == 2 && |db.marks| == 1 && db.marks[0].0 == 0
    requires db.participants[0].session == 0 && db.participants[0].user == 1 && db.participants[1].user == 2
    requires db.marks[0].1.providerId != providerId && !db.participants[0].connected
    ensures var db' := Attend(db, 0, providerId, 1, kind, at).0;
            && RowsOf(db'.marks, 0) == [db.marks[0].1, Mark(providerId, kind, at)]
            && |db'.participants| == 2 && db'.participants[0] == Marked(db.participants[0], kind, at)
  {
    assert Assigned(db, 0, 1) == Some(0);
    assert Seen(db, providerId).None?;
    RowsOfAppend([], 0, db.marks[0]);
    assert [] + [db.marks[0]] == db.marks;
    RowsOfAppend(db.marks, 0, (0, Mark(providerId, kind, at)));
  }

  /** A provider event counts once: sending it again, for whichever session, changes nothing. */
  lemma RedeliveryChangesNothing(db: Db, i: nat, session: Id, user: Id, kind: Kind, at: Instant)
    requires Inv(db) && i < |db.marks|
    ensures Attend(db, session, db.marks[i].1.providerId, user, kind, at) == (db, Ok(db.marks[i].0))
  {
    var found := Seen(db, db.marks[i].1.providerId);
    assert found.Some?;
    assert found.value == i;
  }
}
