/** When each session operation succeeds and what it then leaves behind, stated on the tables themselves. */
module InterviewOutcomes {
  import opened Tables
  import opened Contracts
  import opened InterviewModel
  import opened InterviewSafety
  import opened Scoring

  // ---- moving a session ----

  /** Where a session may come from, target by target. */
  function Sources(target: Status): set<Status> {
    match target
    case InProgress => {Ready}
    case Completed => {InProgress}
    case CandidateNoShow => {Ready}
    case InterviewerNoShow => {Ready}
    case TechnicalFailure => {Ready, InProgress}
    case Cancelled => {Ready}
    case _ => {}
  }

  function EventsOn(session: Id, target: Status): Table<Id, SessionEvent> {
    if target == InProgress then [(session, StartedEvent)]
    else if target == Completed then [(session, CompletedEvent)]
    else if target == CandidateNoShow then [(session, CandidateNoShowEvent)]
    else if target == InterviewerNoShow then [(session, InterviewerNoShowEvent)]
    else if target == TechnicalFailure then [(session, TechnicalFailureEvent)]
    else []
  }

  /** The session reached the target, with its stamps and its event; a completed one waits for feedback. */
  ghost predicate HasMoved(db: Db, db': Db, session: Id, target: Status) {
    && session < |db.sessions| == |db'.sessions|
    && var was := db.sessions[session];
       && db' == db.(sessions := db'.sessions, outbox := db.outbox + EventsOn(session, target))
       && db'.sessions == db.sessions[session := db'.sessions[session]]
       && var now := db'.sessions[session];
          && now == was.(status := now.status, actualStart := now.actualStart, actualEnd := now.actualEnd,
                         duration := now.duration)
          && now.status == (if target == Completed then FeedbackPending else target)
          && now.actualStart == (if target == InProgress then Some(db.now) else was.actualStart)
          && now.actualEnd == (if target == Completed || target == TechnicalFailure then Some(db.now)
                               else was.actualEnd)
  }

  lemma TransitionOutcome(db: Db, session: Id, target: Status)
    ensures var (db', r) := Transition(db, session, target);
            && (r.Ok? <==> session < |db.sessions| && db.sessions[session].status in Sources(target))
            && (r.Ok? ==> HasMoved(db, db', session, target))
            && (r.Err? ==> db' == db
                           && r.error == if session >= |db.sessions| then SessionNotFound else InvalidTransition)
  {
    assert db.outbox + [] == db.outbox;
  }

  /** An interviewer starts a ready session and completes a running one, only their own; to anybody else the
      session does not exist. */
  lemma ActorOutcome(db: Db, session: Id, interviewer: Id, target: Status)
    ensures var (db', r) := TransitionByInterviewer(db, session, interviewer, target);
            && (r.Ok? <==>
                  && session < |db.sessions| && db.sessions[session].interviewer == interviewer
                  && ((target == InProgress && db.sessions[session].status == Ready)
                      || (target == Completed && db.sessions[session].status == InProgress)))
            && (r.Ok? ==> HasMoved(db, db', session, target))
            && (r.Err? ==>
                  db' == db && r.error ==
                  if session >= |db.sessions| || db.sessions[session].interviewer != interviewer then SessionNotFound
                  else InvalidTransition)
  {
    TransitionOutcome(db, session, target);
  }

  // ---- creating a session ----

  ghost predicate NoSessionFor(db: Db, booking: Id) {
    forall s :: 0 <= s < |db.sessions| ==> db.sessions[s].booking != booking
  }

  /** The first confirmation of a booking opens a ready session for its two participants, if the rubric
      exists, the event is new and there is a video room; otherwise nothing changes. */
  lemma CreateOutcome(db: Db, event: EventId, booking: Id, candidate: Id, interviewer: Id, rubric: Id, room: bool)
    requires NoSessionFor(db, booking)
    ensures var (db', r) := Create(db, event, booking, candidate, interviewer, rubric, room);
            var id := |db.sessions|;
            && (r.Ok? <==> rubric < |db.rubrics| && room && event !in db.processed)
            && (r.Err? ==> db' == db && r.error == if rubric >= |db.rubrics| then RubricNotFound
                                                   else if !room then VideoUnavailable
                                                   else DuplicateEvent)
            && (r.Ok? ==>
                  && r.value == id
                  && db' == db.(sessions := db'.sessions, participants := db'.participants,
                                processed := db.processed + {event})
                  && db'.sessions ==
                     db.sessions + [Session(booking, candidate, interviewer, rubric, Ready, None, None, 0)]
                  && db'.participants == db.participants
                       + [Participant(id, candidate, false, None, None, None, 0, 0),
                          Participant(id, interviewer, false, None, None, None, 0, 0)])
  {
  }

  /** A repeated confirmation finds the session there is, and remembers a new event. */
  lemma CreateIsRepeated(db: Db, event: EventId, s: Id, candidate: Id, interviewer: Id, rubric: Id, room: bool)
    requires Inv(db) && s < |db.sessions| && rubric < |db.rubrics|
    ensures Create(db, event, db.sessions[s].booking, candidate, interviewer, rubric, room)
         == (db.(processed := db.processed + {event}), Ok(s))
  {
    var found := SessionOf(db, db.sessions[s].booking);
    assert found.value == s;
    assert event in db.processed ==> db.processed + {event} == db.processed;
  }

  // ---- attendance ----

  /** A new event of a participant is recorded for them, unless it is a join while they are connected; the
      first join of a ready session starts it. */
  lemma AttendOutcome(db: Db, session: Id, providerId: string, kind: Kind, at: Instant, p: Id)
    requires Inv(db) && p < |db.participants| && db.participants[p].session == session
    requires forall q :: 0 <= q < |db.participants| && q != p ==>
               !(db.participants[q].session == session && db.participants[q].user == db.participants[p].user)
    requires forall m :: 0 <= m < |db.marks| ==> db.marks[m].1.providerId != providerId
    ensures var (db', r) := Attend(db, session, providerId, db.participants[p].user, kind, at);
            && r == Ok(p)
            && if kind == Joined && db.participants[p].connected then db' == db
               else
                 && session < |db.sessions|
                 && db'.marks == db.marks + [(p, Mark(providerId, kind, at))]
                 && (if kind == Joined && db.sessions[session].status == Ready then
                       && db'.sessions == db.sessions[session :=
                            db.sessions[session].(status := InProgress, actualStart := Some(at))]
                       && db'.outbox == db.outbox + [(session, StartedEvent)]
                     else db'.sessions == db.sessions && db'.outbox == db.outbox)
                 && (forall q :: 0 <= q < |db.participants| && q != p ==> db'.participants[q] == db.participants[q])
                 && db'.rubrics == db.rubrics && db'.reports == db.reports && db'.processed == db.processed
  {
    assert Assigned(db, session, db.participants[p].user) == Some(p);
    assert Seen(db, providerId).None?;
  }

  /** Somebody who does not take part leaves nothing. */
  lemma StrangerLeavesNothing(db: Db, session: Id, providerId: string, user: Id, kind: Kind, at: Instant)
    requires forall q :: 0 <= q < |db.participants| ==>
               !(db.participants[q].session == session && db.participants[q].user == user)
    ensures Attend(db, session, providerId, user, kind, at).0 == db
    ensures (forall m :: 0 <= m < |db.marks| ==> db.marks[m].1.providerId != providerId) ==>
              Attend(db, session, providerId, user, kind, at).1
              == Err(if session < |db.sessions| then ParticipantNotAssigned else SessionNotFound)
  {
  }

  // ---- rubrics and feedback ----

  /** A rubric is stored iff it has one to thirty criteria with different keys, each of a weight and a maximum
      from 1 to 100, whose weights add up to 100. */
  lemma RubricOutcome(db: Db, criteria: seq<Criterion>)
    ensures var (db', r) := CreateRubric(db, criteria);
            && (r.Ok? <==>
                  && 1 <= |criteria| <= 30 && Weights(criteria) == 100
                  && (forall c :: c in criteria ==> 0 < c.weight <= 100 && 0 < c.maximum <= 100)
                  && (forall i, j :: 0 <= i < j < |criteria| ==> criteria[i].key != criteria[j].key))
            && (r.Ok? ==> r.value == |db.rubrics|
                          && db' == db.(rubrics := db.rubrics + [Rubric(criteria, Maximum(criteria))]))
            && (r.Err? ==> db' == db && r.error == InvalidRubric)
  {
  }

  /** `score` is what the list says last about the criterion. */
  predicate SaysLast(scores: seq<Score>, key: string, score: nat, i: nat) {
    && i < |scores| && scores[i].key == key && scores[i].score == score
    && forall j :: i < j < |scores| ==> scores[j].key != key
  }

  /** The dictionary holds exactly what the list says last about each criterion. */
  lemma {:induction false} DictionarySays(scores: seq<Score>, key: string)
    ensures key in Dictionary(scores) <==> exists i :: 0 <= i < |scores| && scores[i].key == key
    ensures key in Dictionary(scores) ==> exists i: nat :: SaysLast(scores, key, Dictionary(scores)[key], i)
  {
    if |scores| == 0 {
    } else {
      var n := |scores| - 1;
      DictionarySays(scores[..n], key);
      if scores[n].key == key {
        assert SaysLast(scores, key, scores[n].score, n);
      } else if key in Dictionary(scores) {
        var i: nat :| SaysLast(scores[..n], key, Dictionary(scores[..n])[key], i);
        assert SaysLast(scores, key, Dictionary(scores)[key], i);
      }
    }
  }

  ghost predicate IsCriterion(criteria: seq<Criterion>, key: string) {
    exists c :: 0 <= c < |criteria| && criteria[c].key == key
  }

  /** What the list says last about the criterion is within its maximum. */
  ghost predicate RatedWithin(scores: seq<Score>, criterion: Criterion) {
    exists i: nat, score: nat :: SaysLast(scores, criterion.key, score, i) && score <= criterion.maximum
  }

  /** The scores name exactly the rubric's criteria, none above its maximum. */
  ghost predicate FitsCriteria(scores: seq<Score>, criteria: seq<Criterion>) {
    && (forall i :: 0 <= i < |scores| ==> IsCriterion(criteria, scores[i].key))
    && (forall c :: 0 <= c < |criteria| ==> RatedWithin(scores, criteria[c]))
  }

  lemma RatedIsRead(scores: seq<Score>, criterion: Criterion)
    ensures RatedWithin(scores, criterion) <==>
            criterion.key in Dictionary(scores) && Dictionary(scores)[criterion.key] <= criterion.maximum
  {
    DictionarySays(scores, criterion.key);
    if i: nat, score: nat :| SaysLast(scores, criterion.key, score, i) && score <= criterion.maximum {
      var j: nat :| SaysLast(scores, criterion.key, Dictionary(scores)[criterion.key], j);
      assert i == j;
    }
  }

  lemma NamedAreKeys(scores: seq<Score>, criteria: seq<Criterion>)
    requires DistinctKeys(criteria)
    ensures (forall i :: 0 <= i < |scores| ==> IsCriterion(criteria, scores[i].key)) <==>
            Dictionary(scores).Keys <= Definitions(criteria).Keys
  {
    DefinitionsAre(criteria);
    forall k ensures k in Dictionary(scores) <==> exists i :: 0 <= i < |scores| && scores[i].key == k {
      DictionarySays(scores, k);
    }
    forall k ensures k in Definitions(criteria) <==> IsCriterion(criteria, k) {
    }
  }

  lemma FittingMatches(scores: seq<Score>, criteria: seq<Criterion>)
    requires DistinctKeys(criteria)
    ensures FitsCriteria(scores, criteria) <==> Matches(Dictionary(scores), Definitions(criteria))
  {
    NamedAreKeys(scores, criteria);
    forall c | 0 <= c < |criteria|
      ensures RatedWithin(scores, criteria[c]) <==>
              criteria[c].key in Dictionary(scores) && Dictionary(scores)[criteria[c].key] <= criteria[c].maximum
    {
      RatedIsRead(scores, criteria[c]);
    }
    KeysWithin(Dictionary(scores), criteria);
  }

  /** A dictionary whose keys are criteria matches the limits iff it has every criterion, within its maximum. */
  lemma KeysWithin(given: map<string, nat>, criteria: seq<Criterion>)
    requires DistinctKeys(criteria)
    ensures Matches(given, Definitions(criteria)) <==>
            && given.Keys <= Definitions(criteria).Keys
            && forall c :: 0 <= c < |criteria| ==>
                 criteria[c].key in given && given[criteria[c].key] <= criteria[c].maximum
  {
    DefinitionsAre(criteria);
  }

  lemma FeedbackOnNothing(db: Db, session: Id, interviewer: Id, scores: seq<Score>)
    requires session >= |db.sessions|
    ensures SubmitFeedback(db, session, interviewer, scores) == (db, Err(SessionNotFound))
  {
  }

  /** Feedback is taken once, from the session's interviewer, after completion, with scores that fit the
      session's rubric; its total is what the criteria received. */
  lemma FeedbackOutcome(db: Db, session: Id, interviewer: Id, scores: seq<Score>)
    requires Inv(db) && session < |db.sessions|
    ensures db.sessions[session].rubric < |db.rubrics|
    ensures var (db', r) := SubmitFeedback(db, session, interviewer, scores);
            var criteria := db.rubrics[db.sessions[session].rubric].criteria;
            && (r.Ok? <==>
                  && db.sessions[session].interviewer == interviewer && db.sessions[session].status == FeedbackPending
                  && FitsCriteria(scores, criteria))
            && (r.Err? ==>
                  db' == db && r.error ==
                  if db.sessions[session].interviewer != interviewer then FeedbackDenied
                  else if db.sessions[session].status != FeedbackPending then SessionNotCompleted
                  else InvalidScores)
            && (r.Ok? ==>
                  && (forall c :: 0 <= c < |criteria| ==> criteria[c].key in Dictionary(scores))
                  && r.value == Received(criteria, Dictionary(scores))
                  && db' == db.(reports := db.reports[session := r.value],
                                sessions := db.sessions[session := db.sessions[session].(status := FeedbackSubmitted)],
                                outbox := db.outbox + [(session, FeedbackEvent)]))
  {
    assert ReportOk(db, session);
    var criteria := db.rubrics[db.sessions[session].rubric].criteria;
    assert RubricOk(db.rubrics[db.sessions[session].rubric]);
    FittingMatches(scores, criteria);
    if Matches(Dictionary(scores), Definitions(criteria)) {
      TotalFitsRubric(criteria, Dictionary(scores));
    }
  }
}
