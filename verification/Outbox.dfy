/** The transactional outbox: a publisher sends what is pending, oldest first, commits after every
    message and stops at the first failure. It can crash between the broker and the commit. */
module Outbox {
  import opened Contracts

  datatype Record = Record(occurredAt: Instant, published: bool, attempts: nat)

  /** `sent` is everything the broker has accepted, by record number. */
  datatype Outbox = Outbox(records: seq<Record>, sent: seq<Id>)

  const EMPTY_OUTBOX := Outbox([], [])

  const LIMIT: nat := 100

  datatype Outcome =
    | Accepted
    | Refused
    | CrashedBeforeSend
    | CrashedAfterSend

  function Append(o: Outbox, at: Instant): Outbox {
    o.(records := o.records + [Record(at, false, 0)])
  }

  /** What the query may return: pending records by the time they occurred, oldest first, up to the limit,
      with ties in any order; a pending record is left out only by a full batch that is no younger. */
  ghost predicate IsSelection(records: seq<Record>, ids: seq<Id>) {
    && |ids| <= LIMIT
    && (forall k :: 0 <= k < |ids| ==> ids[k] < |records| && !records[ids[k]].published)
    && (forall j, k :: 0 <= j < k < |ids| ==>
          ids[j] != ids[k] && records[ids[j]].occurredAt <= records[ids[k]].occurredAt)
    && (forall i: Id :: i < |records| && !records[i].published && i !in ids ==> IsLeftOut(records, ids, i))
  }

  ghost predicate IsLeftOut(records: seq<Record>, ids: seq<Id>, i: Id)
    requires i < |records| && forall k :: 0 <= k < |ids| ==> ids[k] < |records|
  {
    |ids| == LIMIT && forall k :: 0 <= k < |ids| ==> records[ids[k]].occurredAt <= records[i].occurredAt
  }

  /** One message: what a crash leaves uncommitted is as if it had not been written. */
  function SendOne(o: Outbox, id: Id, outcome: Outcome): Outbox {
    if id >= |o.records| then o
    else
      var tried := o.records[id].(attempts := o.records[id].attempts + 1);
      match outcome
      case Accepted => Outbox(o.records[id := tried.(published := true)], o.sent + [id])
      case Refused => o.(records := o.records[id := tried])
      case CrashedBeforeSend => o
      case CrashedAfterSend => o.(sent := o.sent + [id])
  }

  function OutcomeAt(outcomes: seq<Outcome>, k: nat): Outcome {
    if k < |outcomes| then outcomes[k] else CrashedBeforeSend
  }

  /** The run over the selected records from number `k` on, and how many it publishes. */
  function PublishFrom(o: Outbox, ids: seq<Id>, outcomes: seq<Outcome>, k: nat): (Outbox, nat)
    decreases |ids| - k
  {
    if k >= |ids| then (o, 0)
    else
      var next := SendOne(o, ids[k], OutcomeAt(outcomes, k));
      if OutcomeAt(outcomes, k) != Accepted then (next, 0)
      else (PublishFrom(next, ids, outcomes, k + 1).0, PublishFrom(next, ids, outcomes, k + 1).1 + 1)
  }

  /** A publishing run comes with the query's answer and with what happens to each message. */
  datatype Op =
    | AppendOp(at: Instant)
    | PublishOp(ids: seq<Id>, outcomes: seq<Outcome>)

  ghost function Step(o: Outbox, op: Op): Outbox {
    match op
    case AppendOp(at) => Append(o, at)
    case PublishOp(ids, outcomes) => if IsSelection(o.records, ids) then PublishFrom(o, ids, outcomes, 0).0 else o
  }

  ghost function StepAll(o: Outbox, ops: seq<Op>): Outbox {
    if |ops| == 0 then o else Step(StepAll(o, ops[..|ops| - 1]), ops[|ops| - 1])
  }

  // ---- what one run does ----

  /** What a run that began at number `k` and published `count` records adds to what was sent: those, and
      the next one if the crash came after it was sent. */
  function Sent(ids: seq<Id>, outcomes: seq<Outcome>, k: nat, count: nat): seq<Id>
    requires k + count <= |ids|
  {
    ids[k..k + count]
    + (if k + count < |ids| && OutcomeAt(outcomes, k + count) == CrashedAfterSend then [ids[k + count]] else [])
  }

  /** A run sends what it published and the message it crashed on. */
  lemma {:induction false} PublishSends(o: Outbox, ids: seq<Id>, outcomes: seq<Outcome>, k: nat)
    requires k <= |ids| && forall j :: k <= j < |ids| ==> ids[j] < |o.records|
    ensures var (after, count) := PublishFrom(o, ids, outcomes, k);
            k + count <= |ids| && after.sent == o.sent + Sent(ids, outcomes, k, count)
    decreases |ids| - k
  {
    if k == |ids| {
    } else if OutcomeAt(outcomes, k) == Accepted {
      var next := SendOne(o, ids[k], Accepted);
      PublishSends(next, ids, outcomes, k + 1);
      SentNext(o.sent, ids, outcomes, k, PublishFrom(next, ids, outcomes, k + 1).1);
    }
  }

  lemma SentNext(sent: seq<Id>, ids: seq<Id>, outcomes: seq<Outcome>, k: nat, count: nat)
    requires k + 1 + count <= |ids|
    ensures sent + [ids[k]] + Sent(ids, outcomes, k + 1, count) == sent + Sent(ids, outcomes, k, count + 1)
  {
    assert ids[k..k + 1 + count] == [ids[k]] + ids[k + 1..k + 1 + count];
  }

  /** A run publishes until the first failure. */
  lemma {:induction false} PublishStops(o: Outbox, ids: seq<Id>, outcomes: seq<Outcome>, k: nat)
    requires k <= |ids|
    ensures var count := PublishFrom(o, ids, outcomes, k).1;
            && k + count <= |ids|
            && (forall j: nat :: k <= j < k + count ==> OutcomeAt(outcomes, j) == Accepted)
            && (k + count < |ids| ==> OutcomeAt(outcomes, k + count) != Accepted)
    decreases |ids| - k
  {
    if k == |ids| {
    } else if OutcomeAt(outcomes, k) == Accepted {
      PublishStops(SendOne(o, ids[k], Accepted), ids, outcomes, k + 1);
    }
  }

  /** A run marks exactly what it published. */
  lemma {:induction false} PublishMarks(o: Outbox, ids: seq<Id>, outcomes: seq<Outcome>, k: nat)
    requires k <= |ids| && forall j :: k <= j < |ids| ==> ids[j] < |o.records|
    ensures var (after, count) := PublishFrom(o, ids, outcomes, k);
            && k + count <= |ids| && |after.records| == |o.records|
            && (forall i :: 0 <= i < |o.records| ==>
                  && after.records[i].occurredAt == o.records[i].occurredAt
                  && (after.records[i].published <==> o.records[i].published || i in ids[k..k + count]))
    decreases |ids| - k
  {
    if k == |ids| {
    } else if OutcomeAt(outcomes, k) == Accepted {
      var next := SendOne(o, ids[k], Accepted);
      PublishMarks(next, ids, outcomes, k + 1);
      var count := PublishFrom(next, ids, outcomes, k + 1).1;
      assert ids[k..k + 1 + count] == [ids[k]] + ids[k + 1..k + 1 + count];
    }
  }

  /** A run counts one try for every record it published and for the one it was refused; a crash counts
      none. */
  lemma {:induction false} PublishTries(o: Outbox, ids: seq<Id>, outcomes: seq<Outcome>, k: nat, i: Id)
    requires k <= |ids| && i < |o.records| && forall j :: k <= j < |ids| ==> ids[j] < |o.records|
    requires forall j, m :: k <= j < m < |ids| ==> ids[j] != ids[m]
    ensures var (after, count) := PublishFrom(o, ids, outcomes, k);
            && k + count <= |ids| && |after.records| == |o.records|
            && after.records[i].attempts - o.records[i].attempts ==
               (if i in ids[k..k + count] then 1 else 0)
               + (if k + count < |ids| && ids[k + count] == i && OutcomeAt(outcomes, k + count) == Refused
                  then 1 else 0)
    decreases |ids| - k
  {
    if k == |ids| {
    } else if OutcomeAt(outcomes, k) == Accepted {
      var next := SendOne(o, ids[k], Accepted);
      PublishTries(next, ids, outcomes, k + 1, i);
      var count := PublishFrom(next, ids, outcomes, k + 1).1;
      assert ids[k..k + 1 + count] == [ids[k]] + ids[k + 1..k + 1 + count];
    }
  }

  // ---- at least once, whatever the clocks say ----

  /** Everything published was sent, and only records are sent. */
  ghost predicate Delivered(o: Outbox) {
    && (forall i: Id :: i < |o.records| && o.records[i].published ==> i in o.sent)
    && (forall k :: 0 <= k < |o.sent| ==> o.sent[k] < |o.records|)
  }

  lemma StepDelivers(o: Outbox, op: Op)
    requires Delivered(o)
    ensures Delivered(Step(o, op))
  {
    if op.PublishOp? && IsSelection(o.records, op.ids) {
      PublishSends(o, op.ids, op.outcomes, 0);
      PublishMarks(o, op.ids, op.outcomes, 0);
    }
  }

  /** At least once: in every run, crashes included, every record marked published has reached the broker. */
  lemma {:induction false} AtLeastOnce(ops: seq<Op>)
    ensures Delivered(StepAll(EMPTY_OUTBOX, ops))
  {
    if |ops| == 0 {
    } else {
      AtLeastOnce(ops[..|ops| - 1]);
      StepDelivers(StepAll(EMPTY_OUTBOX, ops[..|ops| - 1]), ops[|ops| - 1]);
    }
  }

  /** A published record stays published and is never sent again. */
  lemma PublishedIsDone(o: Outbox, op: Op, i: Id)
    requires i < |o.records| && o.records[i].published
    ensures var o' := Step(o, op);
            && i < |o'.records| && o'.records[i].published
            && o.sent <= o'.sent && i !in o'.sent[|o.sent|..]
  {
    if op.PublishOp? && IsSelection(o.records, op.ids) {
      PublishSends(o, op.ids, op.outcomes, 0);
      PublishMarks(o, op.ids, op.outcomes, 0);
      var count := PublishFrom(o, op.ids, op.outcomes, 0).1;
      assert Step(o, op).sent[|o.sent|..] == Sent(op.ids, op.outcomes, 0, count);
    }
  }

  /** A run against a healthy broker publishes its whole selection, and leaves something pending only if
      the batch was full. */
  lemma HealthyRunDrains(o: Outbox, ids: seq<Id>, outcomes: seq<Outcome>)
    requires IsSelection(o.records, ids)
    requires |outcomes| >= LIMIT && forall k :: 0 <= k < |outcomes| ==> outcomes[k] == Accepted
    ensures var (after, count) := PublishFrom(o, ids, outcomes, 0);
            && count == |ids| && after.sent == o.sent + ids
            && (count < LIMIT ==> forall i :: 0 <= i < |after.records| ==> after.records[i].published)
  {
    HealthyRunCounts(o, ids, outcomes);
    if |ids| < LIMIT {
      ShortRunDrains(o, ids, outcomes);
    }
  }

  lemma HealthyRunCounts(o: Outbox, ids: seq<Id>, outcomes: seq<Outcome>)
    requires |ids| <= |outcomes| && forall k :: 0 <= k < |outcomes| ==> outcomes[k] == Accepted
    requires forall k :: 0 <= k < |ids| ==> ids[k] < |o.records|
    ensures var (after, count) := PublishFrom(o, ids, outcomes, 0);
            count == |ids| && after.sent == o.sent + ids
  {
    PublishStops(o, ids, outcomes, 0);
    PublishSends(o, ids, outcomes, 0);
    assert ids[0..|ids|] == ids;
  }

  /** A run that publishes all of a batch that was not full leaves nothing pending. */
  lemma ShortRunDrains(o: Outbox, ids: seq<Id>, outcomes: seq<Outcome>)
    requires IsSelection(o.records, ids) && |ids| < LIMIT && PublishFrom(o, ids, outcomes, 0).1 == |ids|
    ensures var records := PublishFrom(o, ids, outcomes, 0).0.records;
            forall i :: 0 <= i < |records| ==> records[i].published
  {
    PublishMarks(o, ids, outcomes, 0);
    assert ids[0..|ids|] == ids;
  }

  // ---- in order, when the clocks agree with the commits ----

  ghost predicate Increasing(records: seq<Record>) {
    forall j, k :: 0 <= j < k < |records| ==> records[j].occurredAt < records[k].occurredAt
  }

  /** The published records are the first `n`. */
  ghost predicate PublishedUpTo(records: seq<Record>, n: nat) {
    n <= |records| && forall i :: 0 <= i < |records| ==> (records[i].published <==> i < n)
  }

  /** The broker sees the records in order, with repetitions of the newest only. */
  ghost predicate Stutters(sent: seq<Id>) {
    && (|sent| > 0 ==> sent[0] == 0)
    && forall k :: 0 <= k < |sent| - 1 ==> StepsUp(sent, k)
  }

  ghost predicate StepsUp(sent: seq<Id>, k: nat)
    requires k < |sent| - 1
  {
    sent[k] <= sent[k + 1] <= sent[k] + 1
  }

  /** Everything published was sent, and at most the next record was sent without being published. */
  ghost predicate UpTo(o: Outbox, n: nat) {
    && PublishedUpTo(o.records, n)
    && Stutters(o.sent)
    && (|o.sent| == 0 ==> n == 0)
    && (|o.sent| > 0 ==> o.sent[|o.sent| - 1] < |o.records| && o.sent[|o.sent| - 1] <= n <= o.sent[|o.sent| - 1] + 1)
  }

  lemma {:induction false} SelectionClimbs(records: seq<Record>, n: nat, ids: seq<Id>, k: nat)
    requires PublishedUpTo(records, n) && Increasing(records) && IsSelection(records, ids) && k < |ids|
    ensures n + k <= ids[k]
  {
    if k == 0 {
    } else {
      SelectionClimbs(records, n, ids, k - 1);
      assert ids[k - 1] < ids[k];
    }
  }

  /** A pending record no younger than a selected one is selected too. */
  lemma OlderIsSelected(records: seq<Record>, ids: seq<Id>, i: Id, k: nat)
    requires Increasing(records) && IsSelection(records, ids) && k < |ids|
    requires i <= ids[k] && !records[i].published
    ensures i in ids
  {
    if i < ids[k] {
      assert records[i].occurredAt < records[ids[k]].occurredAt;
      assert !IsLeftOut(records, ids, i);
    }
  }

  /** With increasing times the query can only return the next records, in their order. */
  lemma {:induction false} SelectionIsNext(records: seq<Record>, n: nat, ids: seq<Id>, k: nat)
    requires PublishedUpTo(records, n) && Increasing(records) && IsSelection(records, ids) && k < |ids|
    ensures forall j :: 0 <= j <= k ==> ids[j] == n + j
  {
    if k > 0 {
      SelectionIsNext(records, n, ids, k - 1);
    }
    SelectionClimbs(records, n, ids, k);
    OlderIsSelected(records, ids, n + k, k);
    var j :| 0 <= j < |ids| && ids[j] == n + k;
    SelectionClimbs(records, n, ids, j);
  }

  lemma SendKeeps(o: Outbox, n: nat, outcome: Outcome)
    requires UpTo(o, n) && n < |o.records|
    ensures UpTo(SendOne(o, n, outcome), if outcome == Accepted then n + 1 else n)
  {
    StuttersNext(o.sent, n);
  }

  lemma StuttersNext(sent: seq<Id>, n: Id)
    requires Stutters(sent) && (if |sent| == 0 then n == 0 else sent[|sent| - 1] <= n <= sent[|sent| - 1] + 1)
    ensures Stutters(sent + [n])
  {
    forall k | 0 <= k < |sent + [n]| - 1 ensures StepsUp(sent + [n], k) {
      if k < |sent| - 1 {
        assert StepsUp(sent, k);
      }
    }
  }

  lemma {:induction false} PublishKeeps(o: Outbox, n: nat, ids: seq<Id>, outcomes: seq<Outcome>, k: nat)
    requires k <= |ids| && UpTo(o, n) && n + (|ids| - k) <= |o.records|
    requires forall j :: k <= j < |ids| ==> ids[j] == n + (j - k)
    ensures var (after, count) := PublishFrom(o, ids, outcomes, k); UpTo(after, n + count)
    decreases |ids| - k
  {
    if k == |ids| {
    } else {
      SendKeeps(o, n, OutcomeAt(outcomes, k));
      if OutcomeAt(outcomes, k) == Accepted {
        PublishKeeps(SendOne(o, n, Accepted), n + 1, ids, outcomes, k + 1);
      }
    }
  }

  lemma StepKeeps(o: Outbox, n: nat, op: Op) returns (n': nat)
    requires UpTo(o, n) && Increasing(o.records)
    ensures UpTo(Step(o, op), n')
  {
    n' := n;
    if op.PublishOp? && IsSelection(o.records, op.ids) {
      var ids := op.ids;
      if |ids| > 0 {
        SelectionIsNext(o.records, n, ids, |ids| - 1);
        assert ids[|ids| - 1] == n + |ids| - 1;
      }
      PublishKeeps(o, n, ids, op.outcomes, 0);
      n' := n + PublishFrom(o, ids, op.outcomes, 0).1;
    }
  }

  lemma StepKeepsTimes(o: Outbox, op: Op)
    requires Increasing(Step(o, op).records)
    ensures Increasing(o.records)
  {
    if op.PublishOp? && IsSelection(o.records, op.ids) {
      PublishMarks(o, op.ids, op.outcomes, 0);
    }
    var records := Step(o, op).records;
    forall j, k | 0 <= j < k < |o.records| ensures o.records[j].occurredAt < o.records[k].occurredAt {
      assert records[j].occurredAt < records[k].occurredAt;
    }
  }

  lemma {:induction false} RunKeeps(ops: seq<Op>) returns (n: nat)
    requires Increasing(StepAll(EMPTY_OUTBOX, ops).records)
    ensures UpTo(StepAll(EMPTY_OUTBOX, ops), n)
  {
    if |ops| == 0 {
      n := 0;
    } else {
      var before := StepAll(EMPTY_OUTBOX, ops[..|ops| - 1]);
      StepKeepsTimes(before, ops[|ops| - 1]);
      var m := RunKeeps(ops[..|ops| - 1]);
      n := StepKeeps(before, m, ops[|ops| - 1]);
    }
  }

  /** In order: if the records occurred in the order in which they were committed, first copies reach the
      broker in that order, only the newest record is repeated, and what is published is a prefix. */
  lemma {:induction false} FirstCopiesInOrder(ops: seq<Op>, i: Id)
    requires Increasing(StepAll(EMPTY_OUTBOX, ops).records)
    ensures var o := StepAll(EMPTY_OUTBOX, ops);
            && Stutters(o.sent)
            && (i < |o.records| && o.records[i].published ==> forall j :: 0 <= j < i ==> o.records[j].published)
  {
    var n := RunKeeps(ops);
  }

  // ---- the publisher on the table ----

  class OutboxPublisher {
    var records: seq<Record>
    ghost var sent: seq<Id>

    ghost function Model(): Outbox
      reads this
    {
      Outbox(records, sent)
    }

    constructor ()
      ensures Model() == EMPTY_OUTBOX
    {
      records, sent := [], [];
    }

    method Enqueue(at: Instant)
      modifies this
      ensures Model() == Step(old(Model()), AppendOp(at))
    {
      records := records + [Record(at, false, 0)];
    }

    /** Sends the selected records one by one; every message has its own commit. */
    method PublishPending(ids: seq<Id>, outcomes: seq<Outcome>) returns (count: nat)
      requires IsSelection(records, ids)
      modifies this
      ensures (Model(), count) == PublishFrom(old(Model()), ids, outcomes, 0)
      ensures Model() == Step(old(Model()), PublishOp(ids, outcomes))
    {
      var k := 0;
      count := 0;
      ghost var whole := PublishFrom(Model(), ids, outcomes, 0);
      while k < |ids|
        invariant k <= |ids| && |records| == |old(records)|
        invariant whole == (PublishFrom(Model(), ids, outcomes, k).0, count + PublishFrom(Model(), ids, outcomes, k).1)
      {
        var id := ids[k];
        var outcome := OutcomeAt(outcomes, k);
        var tried := records[id].(attempts := records[id].attempts + 1);
        match outcome {
          case Accepted =>
            records := records[id := tried.(published := true)];
            sent := sent + [id];
          case Refused =>
            records := records[id := tried];
            return;
          case CrashedBeforeSend => return;
          case CrashedAfterSend =>
            sent := sent + [id];
            return;
        }
        count := count + 1;
        k := k + 1;
      }
    }
  }
}
