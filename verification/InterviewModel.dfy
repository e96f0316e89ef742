/** Interview sessions and the attendance of their two participants: every committed step of the
    interview service, as values. Sessions and participants are numbered by their rows. */
module InterviewModel {
  import opened Tables
  import opened Contracts
  import opened Scoring

  datatype Status =
    | Scheduled
    | Ready
    | InProgress
    | Completed
    | FeedbackPending
    | FeedbackSubmitted
    | CandidateNoShow
    | InterviewerNoShow
    | TechnicalFailure
    | Cancelled

  datatype SessionEvent =
    | StartedEvent
    | CompletedEvent
    | CandidateNoShowEvent
    | InterviewerNoShowEvent
    | TechnicalFailureEvent
    | FeedbackEvent

  datatype Session = Session(
    booking: Id,
    candidate: Id,
    interviewer: Id,
    rubric: Id,
    status: Status,
    actualStart: Option<Instant>,
    actualEnd: Option<Instant>,
    duration: int)

  datatype Participant = Participant(
    session: Id,
    user: Id,
    connected: bool,
    firstJoined: Option<Instant>,
    lastJoined: Option<Instant>,
    lastLeft: Option<Instant>,
    reconnects: nat,
    total: int)

  datatype Kind = Joined | Left

  datatype Mark = Mark(providerId: string, kind: Kind, at: Instant)

  datatype Rubric = Rubric(criteria: seq<Criterion>, maximum: nat)

  /** `reports` holds the total score of a session's feedback; `marks` is the table of accepted
      attendance events, tagged with the participant. */
  datatype Db = Db(
    now: Instant,
    rubrics: seq<Rubric>,
    sessions: seq<Session>,
    participants: seq<Participant>,
    marks: Table<Id, Mark>,
    reports: map<Id, nat>,
    outbox: Table<Id, SessionEvent>,
    processed: set<EventId>)

  datatype Error =
    | SessionNotFound
    | ParticipantNotAssigned
    | InvalidTransition
    | InvalidRubric
    | RubricNotFound
    | VideoUnavailable
    | DuplicateEvent
    | FeedbackDenied
    | SessionNotCompleted
    | InvalidScores

  function EmptyDb(now: Instant): Db {
    Db(now, [], [], [], [], map[], [], {})
  }

  /** Whole seconds, never negative. */
  function Seconds(span: int): (s: int)
    ensures s >= 0
    ensures s * SECOND <= (if span <= 0 then 0 else span) < (s + 1) * SECOND
  {
    if span <= 0 then 0 else span / SECOND
  }

  function NewParticipant(session: Id, user: Id): Participant {
    Participant(session, user, false, None, None, None, 0, 0)
  }

  function SessionOf(db: Db, booking: Id): (found: Option<nat>)
    ensures found.Some? ==> found.value < |db.sessions|
  {
    First(db.sessions, (s: Session) => s.booking == booking)
  }

  function CreateRubric(db: Db, criteria: seq<Criterion>): (Db, Result<Id, Error>) {
    if !ValidCriteria(criteria) then (db, Err(InvalidRubric))
    else (db.(rubrics := db.rubrics + [Rubric(criteria, Maximum(criteria))]), Ok(|db.rubrics|))
  }

  /** One session per confirmed booking, however often the confirmation arrives. */
  function Create(db: Db, event: EventId, booking: Id, candidate: Id, interviewer: Id, rubric: Id, room: bool)
    : (Db, Result<Id, Error>)
  {
    var existing := SessionOf(db, booking);
    if event in db.processed && existing.Some? then (db, Ok(existing.value))
    else if rubric >= |db.rubrics| then (db, Err(RubricNotFound))
    else if existing.Some? then (db.(processed := db.processed + {event}), Ok(existing.value))
    else if !room then (db, Err(VideoUnavailable))
    else if event in db.processed then (db, Err(DuplicateEvent))
    else
      var id := |db.sessions|;
      (db.(sessions := db.sessions + [Session(booking, candidate, interviewer, rubric, Ready, None, None, 0)],
           participants := db.participants + [NewParticipant(id, candidate), NewParticipant(id, interviewer)],
           processed := db.processed + {event}),
       Ok(id))
  }

  function Marked(p: Participant, kind: Kind, at: Instant): Participant {
    match kind
    case Joined =>
      p.(firstJoined := if p.firstJoined.None? then Some(at) else p.firstJoined,
         reconnects := if p.firstJoined.None? then p.reconnects else p.reconnects + 1,
         lastJoined := Some(at),
         connected := true)
    case Left =>
      p.(total := p.total + (if p.connected && p.lastJoined.Some? then Seconds(at - p.lastJoined.value) else 0),
         lastLeft := Some(at),
         connected := false)
  }

  function Assigned(db: Db, session: Id, user: Id): (found: Option<nat>)
    ensures found.Some? ==> found.value < |db.participants|
  {
    First(db.participants, (p: Participant) => p.session == session && p.user == user)
  }

  function Seen(db: Db, providerId: string): (found: Option<nat>)
    ensures found.Some? ==> found.value < |db.marks|
  {
    First(db.marks, (m: (Id, Mark)) => m.1.providerId == providerId)
  }

  /** A second join while connected is dropped without being recorded. */
  function Attend(db: Db, session: Id, providerId: string, user: Id, kind: Kind, at: Instant): (Db, Result<Id, Error>) {
    var duplicate := Seen(db, providerId);
    if duplicate.Some? then (db, Ok(db.marks[duplicate.value].0))
    else if session >= |db.sessions| then (db, Err(SessionNotFound))
    else if Assigned(db, session, user).None? then (db, Err(ParticipantNotAssigned))
    else
      var p := Assigned(db, session, user).value;
      if kind == Joined && db.participants[p].connected then (db, Ok(p))
      else
        var starts := kind == Joined && db.sessions[session].status == Ready;
        (db.(participants := db.participants[p := Marked(db.participants[p], kind, at)],
             sessions := if starts
                         then db.sessions[session := db.sessions[session].(status := InProgress,
                                                                           actualStart := Some(at))]
                         else db.sessions,
             outbox := if starts then db.outbox + [(session, StartedEvent)] else db.outbox,
             marks := db.marks + [(p, Mark(providerId, kind, at))]),
         Ok(p))
  }

  function AllowedFrom(status: Status): set<Status> {
    match status
    case Ready => {InProgress, CandidateNoShow, InterviewerNoShow, TechnicalFailure, Cancelled}
    case InProgress => {Completed, TechnicalFailure}
    case _ => {}
  }

  function EventOf(target: Status): Option<SessionEvent> {
    match target
    case InProgress => Some(StartedEvent)
    case Completed => Some(CompletedEvent)
    case CandidateNoShow => Some(CandidateNoShowEvent)
    case InterviewerNoShow => Some(InterviewerNoShowEvent)
    case TechnicalFailure => Some(TechnicalFailureEvent)
    case _ => None
  }

  function Announce(outbox: Table<Id, SessionEvent>, session: Id,
      event: Option<SessionEvent>): Table<Id, SessionEvent> {
    if event.Some? then outbox + [(session, event.value)] else outbox
  }

  function Moved(item: Session, target: Status, now: Instant): Session {
    var ended := target in {Completed, TechnicalFailure};
    item.(status := if target == Completed then FeedbackPending else target,
          actualStart := if target == InProgress then Some(now) else item.actualStart,
          actualEnd := if ended then Some(now) else item.actualEnd,
          duration := if ended && item.actualStart.Some? then Seconds(now - item.actualStart.value) else item.duration)
  }

  /** A completed session is stored as waiting for feedback. */
  function Transition(db: Db, session: Id, target: Status): (Db, Result<(), Error>) {
    if session >= |db.sessions| then (db, Err(SessionNotFound))
    else if target !in AllowedFrom(db.sessions[session].status) then (db, Err(InvalidTransition))
    else
      (db.(sessions := db.sessions[session := Moved(db.sessions[session], target, db.now)],
           outbox := Announce(db.outbox, session, EventOf(target))),
       Ok(()))
  }

  function TransitionByInterviewer(db: Db, session: Id, interviewer: Id, target: Status): (Db, Result<(), Error>) {
    if session >= |db.sessions| || db.sessions[session].interviewer != interviewer then (db, Err(SessionNotFound))
    else if target !in {InProgress, Completed} then (db, Err(InvalidTransition))
    else Transition(db, session, target)
  }

  /** A session has at most one report, and its total is the sum of the scores that count. */
  ghost function SubmitFeedback(db: Db, session: Id, interviewer: Id, scores: seq<Score>): (Db, Result<nat, Error>) {
    if session >= |db.sessions| then (db, Err(SessionNotFound))
    else if db.sessions[session].interviewer != interviewer then (db, Err(FeedbackDenied))
    else if db.sessions[session].status != FeedbackPending then (db, Err(SessionNotCompleted))
    else if session in db.reports then (db, Ok(db.reports[session]))
    else if db.sessions[session].rubric >= |db.rubrics| then (db, Err(RubricNotFound))
    else
      var given := Dictionary(scores);
      if !Matches(given, Definitions(db.rubrics[db.sessions[session].rubric].criteria)) then (db, Err(InvalidScores))
      else
        (db.(reports := db.reports[session := Sum(given)],
             sessions := db.sessions[session := db.sessions[session].(status := FeedbackSubmitted)],
             outbox := db.outbox + [(session, FeedbackEvent)]),
         Ok(Sum(given)))
  }

  // ---- runs ----

  datatype Op =
    | TickOp(to: Instant)
    | RubricOp(criteria: seq<Criterion>)
    | CreateOp(event: EventId, booking: Id, candidate: Id, interviewer: Id, rubric: Id, room: bool)
    | AttendOp(session: Id, providerId: string, user: Id, kind: Kind, at: Instant)
    | TransitionOp(moved: Id, target: Status)
    | InterviewerOp(own: Id, actor: Id, ownTarget: Status)
    | FeedbackOp(rated: Id, rater: Id, scores: seq<Score>)

  ghost function Step(db: Db, op: Op): Db {
    match op
    case TickOp(to) => if db.now <= to then db.(now := to) else db
    case RubricOp(criteria) => CreateRubric(db, criteria).0
    case CreateOp(event, booking, candidate, interviewer, rubric, room) =>
      Create(db, event, booking, candidate, interviewer, rubric, room).0
    case AttendOp(session, providerId, user, kind, at) => Attend(db, session, providerId, user, kind, at).0
    case TransitionOp(session, target) => Transition(db, session, target).0
    case InterviewerOp(session, interviewer, target) => TransitionByInterviewer(db, session, interviewer, target).0
    case FeedbackOp(session, interviewer, scores) => SubmitFeedback(db, session, interviewer, scores).0
  }

  ghost function StepAll(db: Db, ops: seq<Op>): Db {
    if |ops| == 0 then db else Step(StepAll(db, ops[..|ops| - 1]), ops[|ops| - 1])
  }
}
