/** What one availability run achieves: the interviewer's offer becomes exactly the wanted
    windows, nobody's booked or held slot moves, and running again changes nothing. */
module AvailabilitySync {
  import opened Tables
  import opened Contracts
  import opened Availability
  import opened BookingModel
  import opened BookingSafety

  /** A slot the public listing shows: free, or held by a hold that has run out. */
  predicate OnOffer(slot: Slot, now: Instant) {
    || slot.status == SlotAvailable
    || (slot.status == SlotHeld && slot.holdExpiresAt.Some? && slot.holdExpiresAt.value <= now)
  }

  ghost predicate Offers(db: Db, snapshot: Snapshot, w: Window) {
    exists i :: i in db.slots && InScope(db.slots[i], snapshot, db.now)
             && WindowOf(db.slots[i]) == w && OnOffer(db.slots[i], db.now)
  }

  /** An occupied slot takes its own window. */
  lemma OccupiedIsTaken(db: Db, snapshot: Snapshot, i: Id)
    requires Inv(db) && i in db.slots && InScope(db.slots[i], snapshot, db.now) && Occupied(db.slots[i], db.now)
    ensures Taken(db, snapshot, WindowOf(db.slots[i]))
  {
    assert db.slots[i].startsAt < db.slots[i].endsAt;
  }

  /** Soundness: nothing is on offer after the run that was not wanted. */
  lemma OfferedIsDesired(db: Db, settings: Settings, snapshot: Snapshot, db': Db, w: Window)
    requires Inv(db) && ValidSettings(settings) && Current(db, snapshot) && Reconciled(db, settings, snapshot, db')
    requires Offers(db', snapshot, w)
    ensures Desired(db, settings, snapshot, w)
  {
    var i :| i in db'.slots && InScope(db'.slots[i], snapshot, db'.now)
             && WindowOf(db'.slots[i]) == w && OnOffer(db'.slots[i], db'.now);
    if i in db.slots {
      ReconciledShape(db, settings, snapshot, db.slots[i]);
    } else {
      assert IsAdded(db, db'.slots, i);
    }
  }

  /** Completeness: everything wanted is on offer after the run. */
  lemma DesiredIsOffered(db: Db, settings: Settings, snapshot: Snapshot, db': Db, w: Window)
    requires Inv(db) && ValidSettings(settings) && Current(db, snapshot) && Reconciled(db, settings, snapshot, db')
    requires Desired(db, settings, snapshot, w)
    ensures Offers(db', snapshot, w)
  {
    WindowShape(snapshot, db.now, settings.duration, w);
    if Known(db, snapshot, w) {
      var i :| i in db.slots && InScope(db.slots[i], snapshot, db.now) && WindowOf(db.slots[i]) == w;
      if Occupied(db.slots[i], db.now) {
        OccupiedIsTaken(db, snapshot, i);
        assert false;
      }
      ReconciledShape(db, settings, snapshot, db.slots[i]);
      assert OnOffer(db'.slots[i], db'.now);
    } else {
      var i :| IsAdded(db, db'.slots, i) && WindowOf(db'.slots[i]) == w;
      AddedShape(db, settings, snapshot, db', i);
      assert OnOffer(db'.slots[i], db'.now);
    }
  }

  /** After a run the offer is exactly the wanted windows, and every booked or live-held slot,
      every past slot and every slot of another interviewer is as it was. */
  lemma SyncIsExact(db: Db, settings: Settings, snapshot: Snapshot, db': Db)
    requires Inv(db) && ValidSettings(settings) && Current(db, snapshot) && Reconciled(db, settings, snapshot, db')
    ensures forall w :: Offers(db', snapshot, w) <==> Desired(db, settings, snapshot, w)
    ensures forall i :: i in db.slots && (Occupied(db.slots[i], db.now) || !InScope(db.slots[i], snapshot, db.now)) ==>
              i in db'.slots && db'.slots[i] == db.slots[i]
    ensures db'.bookings == db.bookings && db'.eligibility == db.eligibility
  {
    forall w ensures Offers(db', snapshot, w) <==> Desired(db, settings, snapshot, w) {
      if Offers(db', snapshot, w) {
        OfferedIsDesired(db, settings, snapshot, db', w);
      }
      if Desired(db, settings, snapshot, w) {
        DesiredIsOffered(db, settings, snapshot, db', w);
      }
    }
  }

  /** Some future slot of the interviewer that is booked, or held by a hold that still runs, is in the way. */
  ghost predicate InTheWay(db: Db, interviewer: Id, i: Id, w: Window) {
    && i in db.slots
    && var slot := db.slots[i];
       && slot.interviewer == interviewer && slot.startsAt > db.now
       && (slot.status == SlotBooked
           || (slot.status == SlotHeld && slot.holdExpiresAt.Some? && slot.holdExpiresAt.value > db.now))
       && slot.startsAt < w.last && w.first < slot.endsAt
  }

  /** The future windows listed after a run, stated on the calendar: those of a verified interviewer with
      skills that no booked or live-held slot is in the way of. */
  lemma SyncOnCalendar(db: Db, settings: Settings, snapshot: Snapshot, db': Db, w: Window)
    requires Inv(db) && ValidSettings(settings) && Current(db, snapshot) && Reconciled(db, settings, snapshot, db')
    ensures (exists i :: && i in db'.slots && db'.slots[i].interviewer == snapshot.interviewer
                         && db'.slots[i].startsAt == w.first && db'.slots[i].endsAt == w.last
                         && w.first > db'.now && OnOffer(db'.slots[i], db'.now)) <==>
            && snapshot.interviewer in db.eligibility && db.eligibility[snapshot.interviewer].verified
            && snapshot.skills > 0
            && OnCalendar(snapshot, db.now, settings.duration, w)
            && forall i :: !InTheWay(db, snapshot.interviewer, i, w)
  {
    SyncIsExact(db, settings, snapshot, db');
    WindowsMean(snapshot, db.now, settings.duration, w);
    ListedIsOffered(db', snapshot, w);
    TakenIsInTheWay(db, snapshot, w);
  }

  lemma ListedIsOffered(db: Db, snapshot: Snapshot, w: Window)
    ensures (exists i :: && i in db.slots && db.slots[i].interviewer == snapshot.interviewer
                         && db.slots[i].startsAt == w.first && db.slots[i].endsAt == w.last
                         && w.first > db.now && OnOffer(db.slots[i], db.now)) <==> Offers(db, snapshot, w)
  {
  }

  lemma TakenIsInTheWay(db: Db, snapshot: Snapshot, w: Window)
    ensures Taken(db, snapshot, w) <==> exists i :: InTheWay(db, snapshot.interviewer, i, w)
  {
    if i :| InTheWay(db, snapshot.interviewer, i, w) {
      assert InScope(db.slots[i], snapshot, db.now) && Occupied(db.slots[i], db.now);
    }
    if i :| i in db.slots && InScope(db.slots[i], snapshot, db.now) && Occupied(db.slots[i], db.now)
            && db.slots[i].startsAt < w.last && db.slots[i].endsAt > w.first {
      assert InTheWay(db, snapshot.interviewer, i, w);
    }
  }

  // ---- the whole run: eligibility first, slots second ----

  function SnapshotEvent(snapshot: Snapshot): InterviewerEvent {
    if snapshot.deleted then Deleted else SnapshotTaken
  }

  function AfterEligibility(db: Db, event: EventId, snapshot: Snapshot): Db {
    SetEligibility(db, event, snapshot.interviewer, snapshot.verified,
                   SnapshotEvent(snapshot), Some(snapshot.observedAt))
  }

  predicate AtLeastAsNew(db: Db, snapshot: Snapshot) {
    snapshot.interviewer in db.eligibility ==> db.eligibility[snapshot.interviewer].updatedAt <= snapshot.observedAt
  }

  /** Whether the interviewer counts as verified once the snapshot has been projected. */
  predicate CountsAsVerified(db: Db, snapshot: Snapshot) {
    match EligibilityOf(db, snapshot.interviewer)
    case None => snapshot.verified && !snapshot.deleted
    case Some(row) =>
      if row.deleted then false
      else if row.updatedAt < snapshot.observedAt then snapshot.verified && !snapshot.deleted
      else row.verified
  }

  /** A run with a snapshot at least as new as the eligibility row offers exactly the windows of
      the snapshot that miss every occupied slot, and nothing for an interviewer who is not verified
      or has no skills. */
  lemma SyncWithNewSnapshot(db: Db, settings: Settings, event: EventId, snapshot: Snapshot, db': Db)
    requires Inv(db) && ValidSettings(settings) && event !in db.processed && AtLeastAsNew(db, snapshot)
    requires Reconciled(AfterEligibility(db, event, snapshot), settings, snapshot, db')
    ensures forall w :: Offers(db', snapshot, w) <==>
              && CountsAsVerified(db, snapshot) && snapshot.skills > 0
              && IsWindow(snapshot, db.now, settings.duration, w)
              && !Taken(db, snapshot, w)
    ensures forall i :: i in db.slots && (Occupied(db.slots[i], db.now) || !InScope(db.slots[i], snapshot, db.now)) ==>
              i in db'.slots && db'.slots[i] == db.slots[i]
  {
    var projected := AfterEligibility(db, event, snapshot);
    EligibilityKeeps(db, event, snapshot.interviewer, snapshot.verified,
                     SnapshotEvent(snapshot), Some(snapshot.observedAt));
    assert Current(projected, snapshot);
    assert Verified(projected.eligibility, snapshot.interviewer) <==> CountsAsVerified(db, snapshot);
    SyncIsExact(projected, settings, snapshot, db');
    forall w ensures Taken(projected, snapshot, w) <==> Taken(db, snapshot, w) {
    }
  }

  /** A stale snapshot leaves every slot alone. */
  lemma StaleSnapshotIsIgnored(db: Db, settings: Settings, event: EventId, snapshot: Snapshot, db': Db)
    requires !AtLeastAsNew(db, snapshot)
    requires Reconciled(AfterEligibility(db, event, snapshot), settings, snapshot, db')
    ensures db'.slots == db.slots && db'.eligibility == db.eligibility
  {
    var projected := AfterEligibility(db, event, snapshot);
    assert projected.eligibility == db.eligibility;
  }

  // ---- running again ----

  lemma TakenIsStable(db: Db, settings: Settings, snapshot: Snapshot, db': Db, w: Window)
    requires Inv(db) && ValidSettings(settings) && Current(db, snapshot) && Reconciled(db, settings, snapshot, db')
    ensures Taken(db', snapshot, w) <==> Taken(db, snapshot, w)
  {
    if Taken(db', snapshot, w) {
      TakenWasTaken(db, settings, snapshot, db', w);
    }
    if i :| i in db.slots && InScope(db.slots[i], snapshot, db.now) && Occupied(db.slots[i], db.now)
            && db.slots[i].startsAt < w.last && db.slots[i].endsAt > w.first {
      assert db'.slots[i] == db.slots[i];
    }
  }

  /** The run itself occupies no slot. */
  lemma TakenWasTaken(db: Db, settings: Settings, snapshot: Snapshot, db': Db, w: Window)
    requires Inv(db) && ValidSettings(settings) && Current(db, snapshot) && Reconciled(db, settings, snapshot, db')
    requires Taken(db', snapshot, w)
    ensures Taken(db, snapshot, w)
  {
    var i :| i in db'.slots && InScope(db'.slots[i], snapshot, db'.now) && Occupied(db'.slots[i], db'.now)
             && db'.slots[i].startsAt < w.last && db'.slots[i].endsAt > w.first;
    if i in db.slots {
      ReconciledShape(db, settings, snapshot, db.slots[i]);
      assert Occupied(db.slots[i], db.now) && db'.slots[i] == db.slots[i];
    } else {
      AddedShape(db, settings, snapshot, db', i);
    }
  }

  lemma NothingLeftToAdd(db: Db, settings: Settings, snapshot: Snapshot, db': Db, w: Window)
    requires Inv(db) && ValidSettings(settings) && Current(db, snapshot) && Reconciled(db, settings, snapshot, db')
    requires Desired(db, settings, snapshot, w)
    ensures Known(db', snapshot, w)
  {
    DesiredIsOffered(db, settings, snapshot, db', w);
  }

  lemma SettledSlot(db: Db, settings: Settings, snapshot: Snapshot, db': Db, i: Id)
    requires Inv(db) && ValidSettings(settings) && Current(db, snapshot) && Reconciled(db, settings, snapshot, db')
    requires i in db'.slots
    ensures ReconciledSlot(db', settings, snapshot, db'.slots[i]) == db'.slots[i]
  {
    TakenIsStable(db, settings, snapshot, db', WindowOf(db'.slots[i]));
    assert Desired(db', settings, snapshot, WindowOf(db'.slots[i]))
           <==> Desired(db, settings, snapshot, WindowOf(db'.slots[i]));
    if i in db.slots {
      ReconciledShape(db, settings, snapshot, db.slots[i]);
    } else {
      assert IsAdded(db, db'.slots, i);
      AddedShape(db, settings, snapshot, db', i);
    }
  }

  lemma NothingIsAdded(db: Db, settings: Settings, snapshot: Snapshot, db': Db, db'': Db, i: Id)
    requires Inv(db) && ValidSettings(settings) && Current(db, snapshot)
    requires Reconciled(db, settings, snapshot, db') && Reconciled(db', settings, snapshot, db'')
    ensures !IsAdded(db', db''.slots, i)
  {
    if IsAdded(db', db''.slots, i) {
      var w := WindowOf(db''.slots[i]);
      TakenIsStable(db, settings, snapshot, db', w);
      NothingLeftToAdd(db, settings, snapshot, db', w);
      assert false;
    }
  }

  lemma SameSlots(a: map<Id, Slot>, b: map<Id, Slot>)
    requires forall i :: i in a ==> i in b && b[i] == a[i]
    requires forall i :: i in b ==> i in a
    ensures a == b
  {
  }

  /** Reconciling a second time is the identity. */
  lemma ReconcileTwice(db: Db, settings: Settings, snapshot: Snapshot, db': Db, db'': Db)
    requires Inv(db) && ValidSettings(settings)
    requires Reconciled(db, settings, snapshot, db') && Reconciled(db', settings, snapshot, db'')
    ensures db'' == db'
  {
    if Current(db, snapshot) {
      assert Current(db', snapshot);
      forall i | i in db''.slots ensures i in db'.slots {
        NothingIsAdded(db, settings, snapshot, db', db'', i);
      }
      forall i | i in db'.slots ensures i in db''.slots && db''.slots[i] == db'.slots[i] {
        SettledSlot(db, settings, snapshot, db', i);
      }
      SameSlots(db'.slots, db''.slots);
    }
  }

  lemma ProjectTwice(row: Option<Eligibility>, verified: bool, event: InterviewerEvent, when: Instant)
    ensures Project(Some(Project(row, verified, event, when)), verified, event, when) ==
            Project(row, verified, event, when)
  {
  }

  /** Projecting a snapshot a second time only remembers the second event id. */
  lemma EligibilityTwice(db: Db, settings: Settings, first: EventId, second: EventId, snapshot: Snapshot, db': Db)
    requires first !in db.processed && second !in db'.processed
    requires Reconciled(AfterEligibility(db, first, snapshot), settings, snapshot, db')
    ensures AfterEligibility(db', second, snapshot) == db'.(processed := db'.processed + {second})
  {
    ProjectTwice(EligibilityOf(db, snapshot.interviewer), snapshot.verified, SnapshotEvent(snapshot),
                 snapshot.observedAt);
    var projected := AfterEligibility(db, first, snapshot);
    assert db'.eligibility == projected.eligibility;
    var row := projected.eligibility[snapshot.interviewer];
    assert db'.eligibility[snapshot.interviewer := row] == db'.eligibility;
  }

  /** A second run with the same snapshot at the same moment changes no slot and no eligibility row;
      only its own event id is remembered. */
  lemma SyncIsIdempotent(db: Db, settings: Settings, first: EventId, second: EventId, snapshot: Snapshot,
      db': Db, db'': Db)
    requires Inv(db) && ValidSettings(settings) && first !in db.processed && second !in db'.processed
    requires Reconciled(AfterEligibility(db, first, snapshot), settings, snapshot, db')
    requires Reconciled(AfterEligibility(db', second, snapshot), settings, snapshot, db'')
    ensures db'' == db'.(processed := db'.processed + {second})
  {
    var again := AfterEligibility(db', second, snapshot);
    EligibilityTwice(db, settings, first, second, snapshot, db');
    EligibilityKeeps(db, first, snapshot.interviewer, snapshot.verified,
                     SnapshotEvent(snapshot), Some(snapshot.observedAt));
    var replayed := db''.(processed := db'.processed);
    ProcessedIsIrrelevant(db', again, settings, snapshot, replayed, db'');
    ReconcileTwice(AfterEligibility(db, first, snapshot), settings, snapshot, db', replayed);
    ProcessedIsKept(again, settings, snapshot, db'');
  }

  lemma ProcessedIsKept(db: Db, settings: Settings, snapshot: Snapshot, db': Db)
    requires Reconciled(db, settings, snapshot, db')
    ensures db'.processed == db.processed
  {
  }

  lemma ProcessedIsIrrelevant(a: Db, b: Db, settings: Settings, snapshot: Snapshot, a': Db, b': Db)
    requires b == a.(processed := b.processed) && Reconciled(b, settings, snapshot, b')
    requires a' == b'.(processed := a.processed)
    ensures Reconciled(a, settings, snapshot, a')
  {
    if Current(b, snapshot) {
      forall w
        ensures Desired(a, settings, snapshot, w) <==> Desired(b, settings, snapshot, w)
        ensures Known(a, snapshot, w) <==> Known(b, snapshot, w)
      {
        assert Taken(a, snapshot, w) <==> Taken(b, snapshot, w);
      }
      forall i ensures IsAdded(a, a'.slots, i) <==> IsAdded(b, b'.slots, i) {
      }
    }
  }
}
