/** The interviewer lifecycle across three services: the interviewer service decides, the booking and
    auth services each keep a projection. Events are delivered at least once, in any order and with
    any duplicates; availability snapshots are observed and applied in between, possibly late. */
module Lifecycle {
  import opened Tables
  import opened Contracts
  import Producer = InterviewerModel
  import ProducerSafety = InterviewerSafety
  import Booking = BookingModel
  import Auth = AuthModel

  /** What an availability snapshot reports about the interviewer. */
  datatype Observation = Observation(verified: bool, deleted: bool, at: Instant)

  datatype System = System(
    profile: Producer.Interviewer,
    clock: Instant,
    snapshots: seq<Observation>,
    db: Booking.Db,
    auth: Auth.Auth)

  datatype World = World(user: Id, producer: Producer.Settings, booking: Booking.Settings)

  /** A snapshot is stamped before its rows are read, so `at` may lie before decisions that it shows. */
  datatype Action =
    | Decide(op: Producer.Op, decidedAt: Instant)
    | Observe(at: Instant, readAt: Instant)
    | Schedule(bookingStep: Booking.Op)
    | Access(authStep: Auth.Op)
    | ToBooking(row: nat)
    | ToAuth(row: nat)
    | SnapshotToBooking(snapshot: nat, n: nat)

  /** The events the auth service subscribes to. */
  predicate ForAuth(kind: InterviewerEvent) {
    kind in {Approved, Suspended, Deleted}
  }

  function AccessOf(kind: InterviewerEvent): Auth.AccessStatus {
    match kind
    case Suspended => Auth.Blocked
    case Deleted => Auth.Disabled
    case _ => Auth.Active
  }

  /** Steps of the booking service that are not about this interviewer's eligibility. */
  predicate OtherBookingStep(world: World, op: Booking.Op) {
    match op
    case EligibilityOp(event, interviewer, _, _, _) => interviewer != world.user && !event.InterviewerOutbox?
    case PaymentOp(event, _, _, _, _, _) => !event.InterviewerOutbox?
    case _ => true
  }

  /** Steps of the auth service that do not set this account's access: no administrator disables it. */
  predicate OtherAuthStep(world: World, op: Auth.Op) {
    match op
    case DisableOp(c) => c != world.user
    case AccessOp(_, c, _, _) => c != world.user
    case _ => true
  }

  function Observed(profile: Producer.Interviewer, at: Instant): Observation {
    Observation(!profile.deleted && profile.status == Producer.Verified, profile.deleted, at)
  }

  ghost predicate Next(world: World, s: System, action: Action, s': System) {
    match action
    case Decide(op, at) =>
      s.clock < at && s' == s.(profile := Producer.Step(world.producer, s.profile, op, at), clock := at)
    case Observe(at, readAt) =>
      at <= readAt && s.clock <= readAt
      && s' == s.(snapshots := s.snapshots + [Observed(s.profile, at)], clock := readAt)
    case Schedule(op) =>
      OtherBookingStep(world, op) && s' == s.(db := s'.db) && Booking.Next(world.booking, s.db, op, s'.db)
    case Access(op) =>
      OtherAuthStep(world, op) && s' == s.(auth := Auth.Step(s.auth, op))
    case ToBooking(row) =>
      row < |s.profile.lifecycle|
      && var e := s.profile.lifecycle[row];
         s' == s.(db := Booking.SetEligibility(s.db, InterviewerOutbox(row), world.user,
                                               e.kind == Approved, e.kind, Some(e.at)))
    case ToAuth(row) =>
      row < |s.profile.lifecycle| && ForAuth(s.profile.lifecycle[row].kind)
      && var e := s.profile.lifecycle[row];
         s' == s.(auth := Auth.Step(s.auth, Auth.AccessOp(InterviewerOutbox(row), world.user, AccessOf(e.kind), e.at)))
    case SnapshotToBooking(k, n) =>
      k < |s.snapshots|
      && var o := s.snapshots[k];
         s' == s.(db := Booking.SetEligibility(s.db, Local(n), world.user, o.verified,
                                               if o.deleted then Deleted else SnapshotTaken, Some(o.at)))
  }

  /** A new profile, a booking service that has not heard of it, and its newly registered account. */
  ghost predicate Start(world: World, s: System) {
    && s.profile == Producer.NewInterviewer(world.user)
    && s.snapshots == []
    && (exists now :: s.db == Booking.EmptyDb(now))
    && world.user < |s.auth.credentials|
    && s.auth.credentials[world.user] == Auth.NewCredential(Auth.Interviewer)
  }

  ghost predicate IsRun(world: World, states: seq<System>, actions: seq<Action>) {
    && |states| == |actions| + 1
    && Start(world, states[0])
    && forall i :: 0 <= i < |actions| ==> StepAt(world, states, actions, i)
  }

  /** Step number `i` of a run. */
  ghost predicate StepAt(world: World, states: seq<System>, actions: seq<Action>, i: nat)
    requires i < |actions| < |states|
  {
    Next(world, states[i], actions[i], states[i + 1])
  }

  // ---- what the producer guarantees ----

  /** A suspension is followed only by a reactivation or the deletion, an approval only by a
      suspension or the deletion. */
  ghost predicate Follows(log: seq<Producer.LifecycleRow>) {
    forall k :: 0 <= k < |log| - 1 ==>
      && (log[k].kind == Suspended ==> log[k + 1].kind in {Approved, Deleted})
      && (log[k].kind == Approved ==> log[k + 1].kind in {Suspended, Deleted})
  }

  lemma StepFollows(settings: Producer.Settings, i: Producer.Interviewer, op: Producer.Op, at: Instant)
    requires ProducerSafety.LogTells(i) && ProducerSafety.CachesAgree(i) && Follows(i.lifecycle)
    ensures Follows(Producer.Step(settings, i, op, at).lifecycle)
  {
    ProducerSafety.StepAppends(settings, i, op, at);
    if i.deleted {
      ProducerSafety.DeletedIsSilent(settings, i, op, at);
    } else if Producer.Step(settings, i, op, at).lifecycle != i.lifecycle {
      AppendedKind(settings, i, op, at);
      FollowsAppend(i, Producer.Step(settings, i, op, at).lifecycle, at);
    }
  }

  lemma FollowsAppend(i: Producer.Interviewer, log': seq<Producer.LifecycleRow>, at: Instant)
    requires ProducerSafety.LogTells(i) && Follows(i.lifecycle) && !i.deleted
    requires log' != i.lifecycle && ProducerSafety.Appended(i.lifecycle, log', at)
    requires i.status == Producer.Suspended ==> log'[|i.lifecycle|].kind in {Approved, Deleted}
    requires i.status == Producer.Verified ==> log'[|i.lifecycle|].kind in {Suspended, Deleted}
    ensures Follows(log')
  {
    if |i.lifecycle| > 0 {
      assert log'[|i.lifecycle| - 1] == i.lifecycle[|i.lifecycle| - 1];
    }
  }

  lemma AppendedKind(settings: Producer.Settings, i: Producer.Interviewer, op: Producer.Op, at: Instant)
    requires ProducerSafety.CachesAgree(i)
    requires |Producer.Step(settings, i, op, at).lifecycle| == |i.lifecycle| + 1
    ensures var kind := Producer.Step(settings, i, op, at).lifecycle[|i.lifecycle|].kind;
            && (i.status == Producer.Suspended ==> kind in {Approved, Deleted})
            && (i.status == Producer.Verified ==> kind in {Suspended, Deleted})
  {
  }

  /** A log that ends in a rejection holds nothing but rejections. */
  lemma {:induction false} RejectedIsFirst(log: seq<Producer.LifecycleRow>, k: nat)
    requires Follows(log) && k < |log| && log[|log| - 1].kind == Rejected
    requires forall j :: 0 <= j < |log| ==> log[j].kind in {Approved, Rejected, Suspended, Deleted}
    requires forall j :: 0 <= j < |log| - 1 ==> log[j].kind != Deleted
    ensures log[k].kind == Rejected
    decreases |log| - k
  {
    if k < |log| - 1 {
      RejectedIsFirst(log, k + 1);
    }
  }

  // ---- the booking projection ----

  /** What the log says about eligibility: it ends in an approval. */
  predicate Says(log: seq<Producer.LifecycleRow>) {
    |log| > 0 && log[|log| - 1].kind == Approved
  }

  /** The row repeats what the first `n` events say, and every other event is newer than the row. */
  ghost predicate Reflects(log: seq<Producer.LifecycleRow>, row: Booking.Eligibility, n: nat) {
    && n <= |log|
    && (row.verified <==> Says(log[..n]))
    && (row.deleted ==> 0 < n == |log| && log[n - 1].kind == Deleted)
    && (forall k :: n <= k < |log| ==> row.updatedAt < log[k].at)
  }

  ghost predicate Reflected(log: seq<Producer.LifecycleRow>, row: Booking.Eligibility) {
    exists n: nat :: Reflects(log, row, n)
  }

  function RowOf(o: Observation): Booking.Eligibility {
    Booking.Eligibility(o.verified, o.deleted, o.at)
  }

  function EventRow(e: Producer.LifecycleRow): Booking.Eligibility {
    Booking.Eligibility(e.kind == Approved, e.kind == Deleted, e.at)
  }

  /** The projection has taken event `k` into account. */
  ghost predicate HeardByBooking(world: World, s: System, k: nat) {
    && k < |s.profile.lifecycle| && world.user in s.db.eligibility
    && (s.db.eligibility[world.user].deleted || s.profile.lifecycle[k].at <= s.db.eligibility[world.user].updatedAt)
  }

  ghost predicate BookingOk(world: World, s: System) {
    && (world.user in s.db.eligibility ==>
          && Reflected(s.profile.lifecycle, s.db.eligibility[world.user])
          && s.db.eligibility[world.user].updatedAt <= s.clock)
    && (forall k :: 0 <= k < |s.snapshots| ==>
          Reflected(s.profile.lifecycle, RowOf(s.snapshots[k])) && s.snapshots[k].at <= s.clock)
    && (forall k: nat :: InterviewerOutbox(k) in s.db.processed ==> HeardByBooking(world, s, k))
  }

  // ---- the auth projection ----

  /** The account's access is the one event `k` asks for. */
  ghost predicate Obeys(log: seq<Producer.LifecycleRow>, credential: Auth.Credential, k: nat) {
    && k < |log| && ForAuth(log[k].kind)
    && credential.lifecycleEvent == Some(InterviewerOutbox(k))
    && credential.lifecycleAt == Some(log[k].at)
    && credential.status == AccessOf(log[k].kind)
  }

  ghost predicate AccessOk(log: seq<Producer.LifecycleRow>, credential: Auth.Credential) {
    && credential.role == Auth.Interviewer
    && (credential.active <==> credential.status == Auth.Active)
    && (credential.lifecycleEvent.None? ==> credential.lifecycleAt.None? && credential.status == Auth.Active)
    && (credential.lifecycleEvent.Some? ==> exists k: nat :: Obeys(log, credential, k))
  }

  ghost predicate HeardByAuth(world: World, s: System, k: nat) {
    && k < |s.profile.lifecycle| && world.user < |s.auth.credentials|
    && var credential := s.auth.credentials[world.user];
       credential.status == Auth.Disabled
       || (credential.lifecycleAt.Some? && s.profile.lifecycle[k].at <= credential.lifecycleAt.value)
  }

  ghost predicate Inv(world: World, s: System) {
    && s.profile.user == world.user
    && ProducerSafety.Inv(s.profile)
    && ProducerSafety.InOrder(s.profile.lifecycle, s.clock)
    && Follows(s.profile.lifecycle)
    && BookingOk(world, s)
    && world.user < |s.auth.credentials| && AccessOk(s.profile.lifecycle, s.auth.credentials[world.user])
  }

  lemma StartOk(world: World, s: System)
    requires Start(world, s)
    ensures Inv(world, s)
  {
    ProducerSafety.NewOk(world.user);
  }

  // ---- decisions ----

  lemma ReflectedGrows(log: seq<Producer.LifecycleRow>, event: Producer.LifecycleRow, row: Booking.Eligibility)
    requires Reflected(log, row) && row.updatedAt < event.at && (|log| > 0 ==> log[|log| - 1].kind != Deleted)
    ensures Reflected(log + [event], row)
  {
    var n: nat :| Reflects(log, row, n);
    assert (log + [event])[..n] == log[..n];
    assert Reflects(log + [event], row, n);
  }

  /** The log is as before, or has one new row, newer than everything before it. */
  ghost predicate Grown(s: System, s': System) {
    && s.clock < s'.clock
    && s' == s.(profile := s'.profile, clock := s'.clock)
    && var log, log' := s.profile.lifecycle, s'.profile.lifecycle;
       log' == log
       || (|log'| == |log| + 1 && log <= log' && log'[|log|].at == s'.clock &&
           (|log| > 0 ==> log[|log| - 1].kind != Deleted))
  }

  lemma DecideGrows(world: World, s: System, op: Producer.Op, at: Instant, s': System)
    requires Inv(world, s) && Next(world, s, Decide(op, at), s')
    ensures Grown(s, s') && s'.profile.user == s.profile.user
  {
    ProducerSafety.StepAppends(world.producer, s.profile, op, at);
    ProducerSafety.StepKeepsUser(world.producer, s.profile, op, at);
    if s.profile.deleted {
      ProducerSafety.DeletedIsSilent(world.producer, s.profile, op, at);
    }
  }

  lemma GrowthKeepsBooking(world: World, s: System, s': System)
    requires BookingOk(world, s) && Grown(s, s')
    ensures BookingOk(world, s')
  {
    var log, log' := s.profile.lifecycle, s'.profile.lifecycle;
    if log' != log {
      assert log' == log + [log'[|log|]];
      if world.user in s.db.eligibility {
        ReflectedGrows(log, log'[|log|], s.db.eligibility[world.user]);
      }
      forall k | 0 <= k < |s.snapshots| ensures Reflected(log', RowOf(s.snapshots[k])) {
        ReflectedGrows(log, log'[|log|], RowOf(s.snapshots[k]));
      }
    }
    forall k: nat | InterviewerOutbox(k) in s'.db.processed ensures HeardByBooking(world, s', k) {
      assert HeardByBooking(world, s, k);
    }
  }

  lemma DecideKeeps(world: World, s: System, op: Producer.Op, at: Instant, s': System)
    requires Inv(world, s) && Next(world, s, Decide(op, at), s')
    ensures Inv(world, s')
  {
    ProducerSafety.StepKeeps(world.producer, s.profile, op, at);
    StepFollows(world.producer, s.profile, op, at);
    DecideGrows(world, s, op, at, s');
    GrowthKeeps(world, s, s');
  }

  lemma GrowthKeeps(world: World, s: System, s': System)
    requires Inv(world, s) && Grown(s, s') && s'.profile.user == s.profile.user
    requires ProducerSafety.Inv(s'.profile) && Follows(s'.profile.lifecycle)
    ensures Inv(world, s')
  {
    GrowthKeepsBooking(world, s, s');
    var credential := s.auth.credentials[world.user];
    if credential.lifecycleEvent.Some? {
      var k: nat :| Obeys(s.profile.lifecycle, credential, k);
      assert Obeys(s'.profile.lifecycle, credential, k);
    }
  }

  // ---- snapshots ----

  /** What the log says and what the status says agree. */
  lemma LogSays(i: Producer.Interviewer)
    requires ProducerSafety.Inv(i)
    ensures Says(i.lifecycle) <==> !i.deleted && i.status == Producer.Verified
    ensures i.deleted <==> |i.lifecycle| > 0 && i.lifecycle[|i.lifecycle| - 1].kind == Deleted
  {
  }

  lemma ObserveKeeps(world: World, s: System, at: Instant, readAt: Instant, s': System)
    requires Inv(world, s) && Next(world, s, Observe(at, readAt), s')
    ensures Inv(world, s')
  {
    var log := s.profile.lifecycle;
    LogSays(s.profile);
    assert log[..|log|] == log;
    assert Reflects(log, RowOf(Observed(s.profile, at)), |log|);
    forall k: nat | InterviewerOutbox(k) in s'.db.processed ensures HeardByBooking(world, s', k) {
      assert HeardByBooking(world, s, k);
    }
  }

  // ---- applying events ----

  lemma EventReflects(i: Producer.Interviewer, clock: Instant, row: nat)
    requires ProducerSafety.Inv(i) && ProducerSafety.InOrder(i.lifecycle, clock) && row < |i.lifecycle|
    ensures Reflected(i.lifecycle, EventRow(i.lifecycle[row]))
  {
    assert i.lifecycle[..row + 1][row] == i.lifecycle[row];
    assert Reflects(i.lifecycle, EventRow(i.lifecycle[row]), row + 1);
  }

  /** Applying a row that reflects the log leaves a row that does, and takes the row's time into account. */
  lemma ApplyKeeps(world: World, s: System, event: EventId, kind: InterviewerEvent, incoming: Booking.Eligibility)
    requires Inv(world, s) && Reflected(s.profile.lifecycle, incoming) && incoming.updatedAt <= s.clock
    requires incoming.deleted <==> kind == Deleted
    requires event.InterviewerOutbox? ==>
               event.row < |s.profile.lifecycle| && incoming == EventRow(s.profile.lifecycle[event.row])
    ensures Inv(world, s.(db := Booking.SetEligibility(s.db, event, world.user,
                                                       incoming.verified, kind, Some(incoming.updatedAt))))
  {
    var s' := s.(db := Booking.SetEligibility(s.db, event, world.user,
                                              incoming.verified, kind, Some(incoming.updatedAt)));
    if event !in s.db.processed {
      var n: nat :| Reflects(s.profile.lifecycle, incoming, n);
      assert incoming.deleted ==> !incoming.verified;
      var row := s'.db.eligibility[world.user];
      assert row == incoming || (world.user in s.db.eligibility && row == s.db.eligibility[world.user]);
      forall k: nat | InterviewerOutbox(k) in s'.db.processed ensures HeardByBooking(world, s', k) {
        if InterviewerOutbox(k) in s.db.processed {
          assert HeardByBooking(world, s, k);
        }
      }
    }
  }

  lemma ObservationIsPlain(log: seq<Producer.LifecycleRow>, o: Observation)
    requires Reflected(log, RowOf(o))
    ensures o.deleted ==> !o.verified
  {
    var n: nat :| Reflects(log, RowOf(o), n);
  }

  // ---- other steps ----

  lemma ScheduleFrame(world: World, db: Booking.Db, op: Booking.Op, db': Booking.Db)
    requires OtherBookingStep(world, op) && Booking.Next(world.booking, db, op, db')
    ensures world.user in db'.eligibility <==> world.user in db.eligibility
    ensures world.user in db.eligibility ==> db'.eligibility[world.user] == db.eligibility[world.user]
    ensures forall k :: InterviewerOutbox(k) in db'.processed <==> InterviewerOutbox(k) in db.processed
  {
    match op {
      case PaymentOp(event, kind, payment, id, amount, currency) =>
        PaymentFrame(db, event, kind, payment, id, amount, currency);
      case TransitionOp(id, target) => TransitionFrame(db, id, target);
      case CancelOp(id, candidate) => TransitionFrame(db, id, Booking.BookingStates.Cancelled);
      case _ =>
    }
  }

  lemma TransitionFrame(db: Booking.Db, id: Id, target: Booking.BookingStates.BookingStatus)
    ensures var db' := Booking.Transition(db, id, target).0;
            db'.eligibility == db.eligibility && db'.processed == db.processed
  {
  }

  lemma {:induction false} MovesFrame(db: Booking.Db, id: Id, targets: seq<Booking.BookingStates.BookingStatus>)
    requires id in db.bookings
    ensures var moved := Booking.MoveAlong(db, id, targets);
            moved.Some? ==> moved.value.eligibility == db.eligibility && moved.value.processed == db.processed
    decreases |targets|
  {
    if |targets| == 0 {
    } else {
      MovesFrame(Booking.Move(db, id, targets[0]), id, targets[1..]);
    }
  }

  lemma PaymentFrame(
    db: Booking.Db, event: EventId, kind: PaymentEventType, payment: Id, id: Id, amount: int, currency: Currency)
    ensures var db' := Booking.HandlePayment(db, event, kind, payment, id, amount, currency).0;
            db'.eligibility == db.eligibility && db.processed <= db'.processed <= db.processed + {event}
  {
    if id in db.bookings && Booking.PaymentTargets(kind).Some? {
      var paid := db.(bookings := db.bookings[id := db.bookings[id].(payment := Some(payment))],
                      processed := db.processed + {event});
      MovesFrame(paid, id, Booking.PaymentTargets(kind).value);
    }
  }

  /** Everything about the account that access events decide. */
  predicate SameAccess(before: Auth.Credential, after: Auth.Credential) {
    after == before.(emailVerified := after.emailVerified)
  }

  lemma AccessFrame(world: World, a: Auth.Auth, op: Auth.Op)
    requires OtherAuthStep(world, op) && world.user < |a.credentials|
    ensures world.user < |Auth.Step(a, op).credentials|
    ensures SameAccess(a.credentials[world.user], Auth.Step(a, op).credentials[world.user])
  {
  }

  lemma ObeysFrame(log: seq<Producer.LifecycleRow>, before: Auth.Credential, after: Auth.Credential)
    requires AccessOk(log, before) && SameAccess(before, after)
    ensures AccessOk(log, after)
  {
    if before.lifecycleEvent.Some? {
      var k: nat :| Obeys(log, before, k);
      assert Obeys(log, after, k);
    }
  }

  lemma ToAuthKeeps(world: World, s: System, row: nat, s': System)
    requires Inv(world, s) && Next(world, s, ToAuth(row), s')
    ensures Inv(world, s') && HeardByAuth(world, s', row)
  {
    var log := s.profile.lifecycle;
    var credential := s.auth.credentials[world.user];
    var after := s'.auth.credentials[world.user];
    if credential.lifecycleEvent.Some? {
      var k: nat :| Obeys(log, credential, k);
      if after == credential {
        assert Obeys(log, after, k);
      } else {
        assert Obeys(log, after, row);
      }
    } else {
      assert Obeys(log, after, row);
    }
    HeardFrame(world, s, s');
  }

  lemma HeardFrame(world: World, s: System, s': System)
    requires BookingOk(world, s)
    requires s'.profile == s.profile && s'.snapshots == s.snapshots && s'.clock == s.clock
    requires world.user in s'.db.eligibility <==> world.user in s.db.eligibility
    requires world.user in s.db.eligibility ==> s'.db.eligibility[world.user] == s.db.eligibility[world.user]
    requires forall k :: InterviewerOutbox(k) in s'.db.processed <==> InterviewerOutbox(k) in s.db.processed
    ensures BookingOk(world, s')
  {
    forall k: nat | InterviewerOutbox(k) in s'.db.processed ensures HeardByBooking(world, s', k) {
      assert HeardByBooking(world, s, k);
    }
  }

  lemma NextKeeps(world: World, s: System, action: Action, s': System)
    requires Inv(world, s) && Next(world, s, action, s')
    ensures Inv(world, s')
  {
    match action {
      case Decide(op, at) => DecideKeeps(world, s, op, at, s');
      case Observe(at, readAt) => ObserveKeeps(world, s, at, readAt, s');
      case Schedule(op) =>
        ScheduleFrame(world, s.db, op, s'.db);
        HeardFrame(world, s, s');
      case Access(op) =>
        AccessFrame(world, s.auth, op);
        ObeysFrame(s.profile.lifecycle, s.auth.credentials[world.user], s'.auth.credentials[world.user]);
        HeardFrame(world, s, s');
      case ToBooking(row) =>
        EventReflects(s.profile, s.clock, row);
        ApplyKeeps(world, s, InterviewerOutbox(row), s.profile.lifecycle[row].kind, EventRow(s.profile.lifecycle[row]));
      case ToAuth(row) => ToAuthKeeps(world, s, row, s');
      case SnapshotToBooking(k, n) =>
        var o := s.snapshots[k];
        ObservationIsPlain(s.profile.lifecycle, o);
        ApplyKeeps(world, s, Local(n), if o.deleted then Deleted else SnapshotTaken, RowOf(o));
    }
  }

  lemma {:induction false} RunKeeps(world: World, states: seq<System>, actions: seq<Action>, i: nat)
    requires IsRun(world, states, actions) && i < |states|
    ensures Inv(world, states[i])
  {
    if i == 0 {
      StartOk(world, states[0]);
    } else {
      RunKeeps(world, states, actions, i - 1);
      assert StepAt(world, states, actions, i - 1);
      NextKeeps(world, states[i - 1], actions[i - 1], states[i]);
    }
  }

  // ---- delivery ----

  /** What has been heard stays heard. */
  lemma HeardStays(world: World, s: System, action: Action, s': System, k: nat)
    requires Inv(world, s) && Next(world, s, action, s')
    ensures HeardByAuth(world, s, k) ==> HeardByAuth(world, s', k)
    ensures InterviewerOutbox(k) in s.db.processed ==> InterviewerOutbox(k) in s'.db.processed
  {
    match action {
      case Decide(op, at) => ProducerSafety.StepAppends(world.producer, s.profile, op, at);
      case Schedule(op) => ScheduleFrame(world, s.db, op, s'.db);
      case Access(op) => AccessFrame(world, s.auth, op);
      case ToAuth(row) => HeardStaysByAuth(world, s, row, s', k);
      case _ =>
    }
  }

  lemma HeardStaysByAuth(world: World, s: System, row: Id, s': System, k: nat)
    requires Inv(world, s) && Next(world, s, ToAuth(row), s')
    ensures HeardByAuth(world, s, k) ==> HeardByAuth(world, s', k)
  {
    var credential := s.auth.credentials[world.user];
    if credential.lifecycleEvent.Some? {
      var j: nat :| Obeys(s.profile.lifecycle, credential, j);
    }
  }

  /** Event `row` has been heard by the service this delivery goes to. */
  ghost predicate Heard(world: World, delivery: Action, s: System) {
    match delivery
    case ToAuth(row) => HeardByAuth(world, s, row)
    case ToBooking(row) => InterviewerOutbox(row) in s.db.processed
    case _ => true
  }

  lemma DeliveryIsHeard(world: World, s: System, delivery: Action, s': System)
    requires Inv(world, s) && Next(world, s, delivery, s')
    ensures Heard(world, delivery, s')
  {
    if delivery.ToAuth? {
      ToAuthKeeps(world, s, delivery.row, s');
    }
  }

  ghost predicate HearingKept(world: World, delivery: Action, s: System, s': System) {
    Heard(world, delivery, s) ==> Heard(world, delivery, s')
  }

  ghost predicate KeptAt(world: World, delivery: Action, states: seq<System>, k: nat)
    requires k < |states| - 1
  {
    HearingKept(world, delivery, states[k], states[k + 1])
  }

  lemma HearingStays(world: World, delivery: Action, s: System, action: Action, s': System)
    requires Inv(world, s) && Next(world, s, action, s')
    ensures HearingKept(world, delivery, s, s')
  {
    match delivery {
      case ToAuth(row) => HeardStays(world, s, action, s', row);
      case ToBooking(row) => HeardStays(world, s, action, s', row);
      case _ =>
    }
  }

  lemma {:induction false} RunKeepsHearing(world: World, states: seq<System>, actions: seq<Action>,
      delivery: Action, k: nat)
    requires IsRun(world, states, actions) && k < |actions|
    ensures HearingKept(world, delivery, states[k], states[k + 1])
  {
    RunKeeps(world, states, actions, k);
    assert StepAt(world, states, actions, k);
    HearingStays(world, delivery, states[k], actions[k], states[k + 1]);
  }

  lemma {:induction false} HearingLasts(world: World, delivery: Action, states: seq<System>, i: nat, j: nat)
    requires i <= j < |states| && Heard(world, delivery, states[i])
    requires forall k: nat :: k < |states| - 1 ==> KeptAt(world, delivery, states, k)
    ensures Heard(world, delivery, states[j])
    decreases j
  {
    if i == j {
    } else {
      HearingLasts(world, delivery, states, i, j - 1);
      assert KeptAt(world, delivery, states, j - 1);
    }
  }

  lemma {:induction false} FirstHearing(world: World, states: seq<System>, actions: seq<Action>, i: nat)
    requires IsRun(world, states, actions) && i < |actions|
    ensures Heard(world, actions[i], states[i + 1])
  {
    RunKeeps(world, states, actions, i);
    assert StepAt(world, states, actions, i);
    DeliveryIsHeard(world, states[i], actions[i], states[i + 1]);
  }

  lemma {:induction false} AllKeepHearing(world: World, states: seq<System>, actions: seq<Action>, delivery: Action)
    requires IsRun(world, states, actions)
    ensures forall k: nat :: k < |states| - 1 ==> KeptAt(world, delivery, states, k)
  {
    forall k: nat | k < |states| - 1 ensures KeptAt(world, delivery, states, k) {
      RunKeepsHearing(world, states, actions, delivery, k);
    }
  }

  lemma {:induction false} DeliveredIsHeard(world: World, states: seq<System>, actions: seq<Action>, i: nat)
    requires IsRun(world, states, actions) && i < |actions|
    ensures Heard(world, actions[i], states[|states| - 1])
  {
    AllKeepHearing(world, states, actions, actions[i]);
    FirstHearing(world, states, actions, i);
    HearingLasts(world, actions[i], states, i + 1, |states| - 1);
  }

  /** Every event of the log has been delivered at least once to everyone who subscribes to it. */
  ghost predicate AllDelivered(states: seq<System>, actions: seq<Action>)
    requires |states| > 0
  {
    var log := states[|states| - 1].profile.lifecycle;
    && (forall row: nat :: row < |log| ==> ToBooking(row) in actions)
    && (forall row: nat :: row < |log| && ForAuth(log[row].kind) ==> ToAuth(row) in actions)
  }

  function ExpectedAccess(i: Producer.Interviewer): Auth.AccessStatus {
    if i.deleted then Auth.Disabled
    else if i.status == Producer.Suspended then Auth.Blocked
    else Auth.Active
  }

  lemma BookingConverges(world: World, s: System)
    requires Inv(world, s)
    requires forall row: nat :: row < |s.profile.lifecycle| ==> InterviewerOutbox(row) in s.db.processed
    ensures Booking.Verified(s.db.eligibility, world.user)
            <==> s.profile.status == Producer.Verified && !s.profile.deleted
  {
    var log := s.profile.lifecycle;
    LogSays(s.profile);
    if |log| > 0 {
      assert InterviewerOutbox(|log| - 1) in s.db.processed;
      assert HeardByBooking(world, s, |log| - 1);
    }
    if world.user in s.db.eligibility {
      var n: nat :| Reflects(log, s.db.eligibility[world.user], n);
      assert n == |log|;
      assert log[..n] == log;
    }
  }

  lemma AuthConverges(world: World, s: System)
    requires Inv(world, s)
    requires forall row: nat :: row < |s.profile.lifecycle| && ForAuth(s.profile.lifecycle[row].kind) ==>
               HeardByAuth(world, s, row)
    ensures s.auth.credentials[world.user].status == ExpectedAccess(s.profile)
  {
    var log := s.profile.lifecycle;
    var credential := s.auth.credentials[world.user];
    LogSays(s.profile);
    if |log| == 0 {
      return;
    }
    var last := |log| - 1;
    if log[last].kind == Rejected {
      if credential.lifecycleEvent.Some? {
        var k: nat :| Obeys(log, credential, k);
        RejectedIsFirst(log, k);
      }
    } else {
      assert HeardByAuth(world, s, last);
      assert credential.lifecycleEvent.Some?;
      var k: nat :| Obeys(log, credential, k);
      assert k == last;
    }
  }

  /** Convergence: whatever the order, the duplicates and the snapshots in between, once every event
      has been delivered the booking service lists the interviewer iff the profile is verified and
      not deleted, and the account's access is what the profile calls for. */
  lemma {:induction false} Converges(world: World, states: seq<System>, actions: seq<Action>)
    requires IsRun(world, states, actions) && AllDelivered(states, actions)
    ensures var s := states[|states| - 1];
            && (Booking.Verified(s.db.eligibility, world.user)
                <==> s.profile.status == Producer.Verified && !s.profile.deleted)
            && world.user < |s.auth.credentials|
            && s.auth.credentials[world.user].status == ExpectedAccess(s.profile)
            && (s.auth.credentials[world.user].active <==> ExpectedAccess(s.profile) == Auth.Active)
  {
    var last := |states| - 1;
    var s := states[last];
    RunKeeps(world, states, actions, last);
    forall row: nat | row < |s.profile.lifecycle| ensures InterviewerOutbox(row) in s.db.processed {
      var i :| 0 <= i < |actions| && actions[i] == ToBooking(row);
      DeliveredIsHeard(world, states, actions, i);
    }
    forall row: nat | row < |s.profile.lifecycle| && ForAuth(s.profile.lifecycle[row].kind)
      ensures HeardByAuth(world, s, row) {
      var i :| 0 <= i < |actions| && actions[i] == ToAuth(row);
      DeliveredIsHeard(world, states, actions, i);
    }
    BookingConverges(world, s);
    AuthConverges(world, s);
  }

  // ---- why the producer must fall silent ----

  function Applied(row: Option<Booking.Eligibility>, e: Producer.LifecycleRow): Option<Booking.Eligibility> {
    Some(Booking.Project(row, e.kind == Approved, e.kind, e.at))
  }

  /** The two orders of delivery disagree exactly when the older event is a deletion that the row would
      still take: the newer event then wins if it comes first, and the deletion if that comes first.
      This is why nothing may be emitted after a deletion. */
  lemma OrderMattersAfterDeletion(row: Option<Booking.Eligibility>, a: Producer.LifecycleRow, b: Producer.LifecycleRow)
    requires a.at < b.at
    ensures Applied(Applied(row, a), b) != Applied(Applied(row, b), a) <==>
            a.kind == Deleted && (row.None? || (row.value.updatedAt < a.at && !row.value.deleted))
  {
  }
}
