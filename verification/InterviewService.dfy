/** The interview service on its mutable tables. Every method takes the step of InterviewModel; whether the
    video provider creates the room is a parameter. */
module InterviewService {
  import opened Tables
  import opened Contracts
  import opened InterviewModel
  import opened Scoring
  import opened InterviewSafety

  class InterviewService {
    var now: Instant
    var rubrics: seq<Rubric>
    var sessions: seq<Session>
    var participants: seq<Participant>
    var marks: Table<Id, Mark>
    var reports: map<Id, nat>
    var outbox: Table<Id, SessionEvent>
    var processed: set<EventId>

    function Model(): Db
      reads this
    {
      Db(now, rubrics, sessions, participants, marks, reports, outbox, processed)
    }

    ghost predicate Valid()
      reads this
    {
      Reachable(Model())
    }

    constructor (now: Instant)
      ensures Valid() && Model() == EmptyDb(now)
    {
      this.now := now;
      rubrics, sessions, participants, marks, reports, outbox, processed := [], [], [], [], map[], [], {};
      new;
      EmptyIsReachable(now);
    }

    method AdvanceClock(to: Instant)
      requires Valid() && now <= to
      modifies this`now
      ensures Valid() && Model() == old(Model()).(now := to)
    {
      ReachableStep(Model(), TickOp(to));
      now := to;
    }

    method AddRubric(criteria: seq<Criterion>) returns (result: Result<Id, Error>)
      requires Valid()
      modifies this`rubrics
      ensures Valid() && (Model(), result) == CreateRubric(old(Model()), criteria)
    {
      ReachableStep(Model(), RubricOp(criteria));
      if !ValidCriteria(criteria) {
        return Err(InvalidRubric);
      }
      var maximum := 0;
      for i := 0 to |criteria|
        invariant maximum == Maximum(criteria[..i])
      {
        assert criteria[..i + 1][..i] == criteria[..i];
        maximum := maximum + criteria[i].maximum;
      }
      assert criteria[..|criteria|] == criteria;
      result := Ok(|rubrics|);
      rubrics := rubrics + [Rubric(criteria, maximum)];
    }

    method CreateSession(event: EventId, booking: Id, candidate: Id, interviewer: Id, rubric: Id, room: bool)
      returns (result: Result<Id, Error>)
      requires Valid()
      modifies this`sessions, this`participants, this`processed
      ensures Valid() && (Model(), result) == Create(old(Model()), event, booking, candidate, interviewer, rubric, room)
    {
      ReachableStep(Model(), CreateOp(event, booking, candidate, interviewer, rubric, room));
      var existing := FindFirst(sessions, (s: Session) => s.booking == booking);
      if event in processed && existing.Some? {
        return Ok(existing.value);
      }
      if rubric >= |rubrics| {
        return Err(RubricNotFound);
      }
      if existing.Some? {
        processed := processed + {event};
        return Ok(existing.value);
      }
      if !room {
        return Err(VideoUnavailable);
      }
      if event in processed {
        return Err(DuplicateEvent);
      }
      var id := |sessions|;
      sessions := sessions + [Session(booking, candidate, interviewer, rubric, Ready, None, None, 0)];
      participants := participants + [NewParticipant(id, candidate), NewParticipant(id, interviewer)];
      processed := processed + {event};
      return Ok(id);
    }

    method Connect(p: Id, at: Instant)
      requires p < |participants|
      modifies this`participants
      ensures participants == old(participants)[p := Marked(old(participants)[p], Joined, at)]
    {
      if participants[p].firstJoined.None? {
        participants := participants[p := participants[p].(firstJoined := Some(at))];
      } else {
        participants := participants[p := participants[p].(reconnects := participants[p].reconnects + 1)];
      }
      participants := participants[p := participants[p].(lastJoined := Some(at))];
      participants := participants[p := participants[p].(connected := true)];
    }

    method Disconnect(p: Id, at: Instant)
      requires p < |participants|
      modifies this`participants
      ensures participants == old(participants)[p := Marked(old(participants)[p], Left, at)]
    {
      if participants[p].connected && participants[p].lastJoined.Some? {
        var spent := Seconds(at - participants[p].lastJoined.value);
        participants := participants[p := participants[p].(total := participants[p].total + spent)];
      }
      participants := participants[p := participants[p].(lastLeft := Some(at))];
      participants := participants[p := participants[p].(connected := false)];
    }

    method Attendance(session: Id, providerId: string, user: Id, kind: Kind, at: Instant)
      returns (result: Result<Id, Error>)
      requires Valid()
      modifies this`sessions, this`participants, this`marks, this`outbox
      ensures Valid() && (Model(), result) == Attend(old(Model()), session, providerId, user, kind, at)
    {
      ReachableStep(Model(), AttendOp(session, providerId, user, kind, at));
      var duplicate := FindFirst(marks, (m: (Id, Mark)) => m.1.providerId == providerId);
      if duplicate.Some? {
        return Ok(marks[duplicate.value].0);
      }
      if session >= |sessions| {
        return Err(SessionNotFound);
      }
      var found := FindFirst(participants, (p: Participant) => p.session == session && p.user == user);
      if found.None? {
        return Err(ParticipantNotAssigned);
      }
      var p := found.value;
      if kind == Joined {
        if participants[p].connected {
          return Ok(p);
        }
        Connect(p, at);
        if sessions[session].status == Ready {
          sessions := sessions[session := sessions[session].(status := InProgress, actualStart := Some(at))];
          outbox := outbox + [(session, StartedEvent)];
        }
      } else {
        Disconnect(p, at);
      }
      marks := marks + [(p, Mark(providerId, kind, at))];
      return Ok(p);
    }

    /** A completed session goes straight on to wait for feedback. */
    method Progress(session: Id, target: Status)
      requires session < |sessions|
      modifies this`sessions
      ensures sessions == old(sessions)[session := Moved(old(sessions)[session], target, now)]
    {
      var item := sessions[session].(status := target);
      if target == Completed || target == TechnicalFailure {
        item := item.(actualEnd := Some(now));
        if item.actualStart.Some? {
          item := item.(duration := Seconds(now - item.actualStart.value));
        }
      }
      if target == InProgress {
        item := item.(actualStart := Some(now));
      }
      if target == Completed {
        item := item.(status := FeedbackPending);
      }
      sessions := sessions[session := item];
    }

    method MoveTo(session: Id, target: Status) returns (result: Result<(), Error>)
      requires Valid()
      modifies this`sessions, this`outbox
      ensures Valid() && (Model(), result) == Transition(old(Model()), session, target)
    {
      ReachableStep(Model(), TransitionOp(session, target));
      if session >= |sessions| {
        return Err(SessionNotFound);
      }
      if target !in AllowedFrom(sessions[session].status) {
        return Err(InvalidTransition);
      }
      Progress(session, target);
      var event := EventOf(target);
      if event.Some? {
        outbox := outbox + [(session, event.value)];
      }
      return Ok(());
    }

    method MoveByInterviewer(session: Id, interviewer: Id, target: Status) returns (result: Result<(), Error>)
      requires Valid()
      modifies this`sessions, this`outbox
      ensures Valid() && (Model(), result) == TransitionByInterviewer(old(Model()), session, interviewer, target)
    {
      if session >= |sessions| || sessions[session].interviewer != interviewer {
        return Err(SessionNotFound);
      }
      if target != InProgress && target != Completed {
        return Err(InvalidTransition);
      }
      result := MoveTo(session, target);
    }

    method Feedback(session: Id, interviewer: Id, scores: seq<Score>) returns (result: Result<nat, Error>)
      requires Valid()
      modifies this`sessions, this`reports, this`outbox
      ensures Valid() && (Model(), result) == SubmitFeedback(old(Model()), session, interviewer, scores)
    {
      ReachableStep(Model(), FeedbackOp(session, interviewer, scores));
      if session >= |sessions| {
        return Err(SessionNotFound);
      }
      if sessions[session].interviewer != interviewer {
        return Err(FeedbackDenied);
      }
      if sessions[session].status != FeedbackPending {
        return Err(SessionNotCompleted);
      }
      if session in reports {
        return Ok(reports[session]);
      }
      if sessions[session].rubric >= |rubrics| {
        return Err(RubricNotFound);
      }
      var limits := ReadLimits(rubrics[sessions[session].rubric].criteria);
      var given := ReadScores(scores);
      if !Matches(given, limits) {
        return Err(InvalidScores);
      }
      var total := AddUp(given);
      reports := reports[session := total];
      sessions := sessions[session := sessions[session].(status := FeedbackSubmitted)];
      outbox := outbox + [(session, FeedbackEvent)];
      return Ok(total);
    }
  }
}
