/** The booking state machine and the audit chains it allows. */
module BookingStates {
  import opened Tables

  datatype BookingStatus =
    | PaymentPending
    | Booked
    | Confirmed
    | Ready
    | InProgress
    | Completed
    | FeedbackPending
    | FeedbackSubmitted
    | Settled
    | Cancelled
    | PaymentFailed
    | CandidateNoShow
    | InterviewerNoShow
    | TechnicalFailure
    | Refunded
    | Rescheduled

  const TERMINAL: set<BookingStatus> :=
    {Cancelled, PaymentFailed, Settled, CandidateNoShow, InterviewerNoShow, TechnicalFailure, Refunded, Rescheduled}

  function Allowed(status: BookingStatus): set<BookingStatus> {
    match status
    case PaymentPending => {Booked, PaymentFailed, Cancelled}
    case Booked => {Confirmed, Cancelled, Refunded}
    case Confirmed => {Ready, Cancelled, Rescheduled, Refunded}
    case Ready => {InProgress, CandidateNoShow, InterviewerNoShow, TechnicalFailure}
    case InProgress => {Completed, TechnicalFailure}
    case Completed => {FeedbackPending}
    case FeedbackPending => {FeedbackSubmitted}
    case FeedbackSubmitted => {Settled}
    case _ => {}
  }

  predicate CanTransition(current: BookingStatus, target: BookingStatus) {
    target in Allowed(current)
  }

  predicate OccupiesTime(status: BookingStatus) {
    status !in TERMINAL
  }

  /** A row of the status history; `from` is empty on the row written at creation. */
  datatype HistoryRow = HistoryRow(from: Option<BookingStatus>, to: BookingStatus)

  /** A connected chain of allowed moves that starts at creation. */
  ghost predicate IsPath(rows: seq<HistoryRow>) {
    && |rows| > 0
    && rows[0] == HistoryRow(None, PaymentPending)
    && forall i :: 1 <= i < |rows| ==> Joined(rows, i)
  }

  /** Row `i` leaves the status that the row before it reached. */
  ghost predicate Joined(rows: seq<HistoryRow>, i: nat)
    requires 1 <= i < |rows|
  {
    rows[i].from == Some(rows[i - 1].to) && CanTransition(rows[i - 1].to, rows[i].to)
  }

  /** How far a status is from creation; every terminal status is furthest. */
  function Rank(status: BookingStatus): nat {
    match status
    case PaymentPending => 0
    case Booked => 1
    case Confirmed => 2
    case Ready => 3
    case InProgress => 4
    case Completed => 5
    case FeedbackPending => 6
    case FeedbackSubmitted => 7
    case _ => 8
  }

  /** Terminal statuses are exactly those with no way out, and a move always climbs. */
  lemma TransitionsClimb(current: BookingStatus, target: BookingStatus)
    ensures !OccupiesTime(current) <==> Allowed(current) == {}
    ensures CanTransition(current, target) ==> Rank(current) < Rank(target)
  {
    assert OccupiesTime(current) ==> exists t :: t in Allowed(current) by {
      match current {
        case PaymentPending => assert Cancelled in Allowed(current);
        case Booked => assert Cancelled in Allowed(current);
        case Confirmed => assert Cancelled in Allowed(current);
        case Ready => assert InProgress in Allowed(current);
        case InProgress => assert Completed in Allowed(current);
        case Completed => assert FeedbackPending in Allowed(current);
        case FeedbackPending => assert FeedbackSubmitted in Allowed(current);
        case FeedbackSubmitted => assert Settled in Allowed(current);
        case _ =>
      }
    }
  }

  lemma {:induction false} PathClimbs(rows: seq<HistoryRow>, i: nat, j: nat)
    requires IsPath(rows) && i <= j < |rows|
    ensures Rank(rows[i].to) + (j - i) <= Rank(rows[j].to)
    decreases j
  {
    if i < j {
      PathClimbs(rows, i, j - 1);
      assert Joined(rows, j);
      TransitionsClimb(rows[j - 1].to, rows[j].to);
    }
  }

  /** A booking's history has at most nine rows and never visits a status twice. */
  lemma PathIsShortAndSimple(rows: seq<HistoryRow>)
    requires IsPath(rows)
    ensures |rows| <= 9
    ensures forall i, j :: 0 <= i < j < |rows| ==> rows[i].to != rows[j].to
  {
    PathClimbs(rows, 0, |rows| - 1);
    forall i, j | 0 <= i < j < |rows| ensures rows[i].to != rows[j].to {
      PathClimbs(rows, i, j);
    }
  }

  /** The bound is tight: the path to settlement has nine rows. */
  lemma NineRowsAreReached()
    ensures exists rows :: IsPath(rows) && |rows| == 9
  {
    var rows := [
      HistoryRow(None, PaymentPending),
      HistoryRow(Some(PaymentPending), Booked),
      HistoryRow(Some(Booked), Confirmed),
      HistoryRow(Some(Confirmed), Ready),
      HistoryRow(Some(Ready), InProgress),
      HistoryRow(Some(InProgress), Completed),
      HistoryRow(Some(Completed), FeedbackPending),
      HistoryRow(Some(FeedbackPending), FeedbackSubmitted),
      HistoryRow(Some(FeedbackSubmitted), Settled)
    ];
    assert IsPath(rows);
  }

  lemma PathExtends(rows: seq<HistoryRow>, target: BookingStatus)
    requires IsPath(rows) && CanTransition(rows[|rows| - 1].to, target)
    ensures IsPath(rows + [HistoryRow(Some(rows[|rows| - 1].to), target)])
  {
    var next := rows + [HistoryRow(Some(rows[|rows| - 1].to), target)];
    forall i | 1 <= i < |next| ensures Joined(next, i) {
      if i < |rows| {
        assert Joined(rows, i);
      }
    }
  }
}
