/** Expansion of weekly rules into the rolling thirty-day set of bookable windows,
    for timezones with a fixed offset from UTC. */
module Availability {
  import opened Contracts
  import opened WeeklyRules

  const HORIZON: int := 30 * DAY

  /** A bookable window in UTC; `last` is exclusive. */
  datatype Window = Window(first: Instant, last: Instant)

  datatype Blockout = Blockout(startsAt: Instant, endsAt: Instant)

  /** What the interviewer service reports about one interviewer. Of the published skills
      only their number matters here. */
  datatype Snapshot = Snapshot(
    interviewer: Id,
    verified: bool,
    deleted: bool,
    observedAt: Instant,
    rules: seq<WeeklyRule>,
    blockouts: seq<Blockout>,
    skills: nat)

  /** Local calendar day of a UTC instant; division rounds down, as dates do. */
  function LocalDay(at: Instant, zone: Zone): int {
    (at + zone.offset) / DAY
  }

  function ToUtc(local: int, zone: Zone): Instant {
    local - zone.offset
  }

  function ToLocal(at: Instant, zone: Zone): int {
    at + zone.offset
  }

  /** Day 0 of the epoch was a Thursday; Monday is 0. */
  function Weekday(day: int): int {
    (day + 3) % 7
  }

  // ---- the specification: a calendar without an end and steps without a counter ----

  /** `w` is step `k` of `rule` on calendar day `day`. */
  predicate IsStep(rule: WeeklyRule, day: int, k: nat, duration: int, w: Window) {
    && Weekday(day) == rule.weekday
    && rule.start + k * duration + duration <= rule.end
    && w == Window(ToUtc(day * DAY + rule.start + k * duration, rule.zone),
                   ToUtc(day * DAY + rule.start + k * duration, rule.zone) + duration)
  }

  predicate InHorizon(w: Window, now: Instant) {
    now < w.first < now + HORIZON
  }

  predicate Blocked(w: Window, blockouts: seq<Blockout>) {
    exists b :: b in blockouts && b.startsAt < w.last && b.endsAt > w.first
  }

  predicate Bookable(snapshot: Snapshot, now: Instant, w: Window) {
    InHorizon(w, now) && !Blocked(w, snapshot.blockouts)
  }

  /** The windows the rules mean: any rule, any day of the calendar, any whole step. */
  ghost predicate IsWindow(snapshot: Snapshot, now: Instant, duration: int, w: Window) {
    && Bookable(snapshot, now, w)
    && exists i, day, k: nat :: 0 <= i < |snapshot.rules| && IsStep(snapshot.rules[i], day, k, duration, w)
  }

  // ---- progress of the three nested loops ----

  ghost predicate FromSteps(rule: WeeklyRule, day: int, steps: nat, duration: int, w: Window) {
    exists k: nat :: k < steps && IsStep(rule, day, k, duration, w)
  }

  ghost predicate FromDays(rule: WeeklyRule, today: int, days: int, duration: int, w: Window) {
    exists day, k: nat :: today <= day < today + days && IsStep(rule, day, k, duration, w)
  }

  ghost predicate FromRules(rules: seq<WeeklyRule>, duration: int, w: Window) {
    exists i, day, k: nat :: 0 <= i < |rules| && IsStep(rules[i], day, k, duration, w)
  }

  lemma Multiples(k: nat, j: nat, duration: int)
    requires k <= j && duration > 0
    ensures k * duration <= j * duration
    ensures (k + 1) * duration == k * duration + duration
  {
  }

  /** Once a step no longer fits, no later one does. */
  lemma NoLaterStep(rule: WeeklyRule, day: int, steps: nat, duration: int, w: Window)
    requires duration > 0
    requires rule.start + steps * duration + duration > rule.end
    requires exists k: nat :: IsStep(rule, day, k, duration, w)
    ensures FromSteps(rule, day, steps, duration, w)
  {
    var k: nat :| IsStep(rule, day, k, duration, w);
    if k >= steps {
      Multiples(steps, k, duration);
    }
  }

  /** The 31 days from today contain every step that starts inside the horizon. */
  lemma HorizonCovered(rule: WeeklyRule, now: Instant, day: int, k: nat, duration: int, w: Window)
    requires duration > 0 && TimesOfDay([rule])
    requires IsStep(rule, day, k, duration, w) && InHorizon(w, now)
    ensures LocalDay(now, rule.zone) <= day < LocalDay(now, rule.zone) + 31
  {
    var local := ToLocal(w.first, rule.zone);
    assert rule in [rule];
    Multiples(0, k, duration);
    assert day * DAY <= local < day * DAY + DAY;
    var today := LocalDay(now, rule.zone);
    assert today * DAY <= now + rule.zone.offset < today * DAY + DAY;
  }

  method IsBlocked(w: Window, blockouts: seq<Blockout>) returns (blocked: bool)
    ensures blocked == Blocked(w, blockouts)
  {
    for i := 0 to |blockouts|
      invariant forall b :: b in blockouts[..i] ==> !(b.startsAt < w.last && b.endsAt > w.first)
    {
      if blockouts[i].startsAt < w.last && blockouts[i].endsAt > w.first {
        return true;
      }
    }
    assert blockouts[..|blockouts|] == blockouts;
    return false;
  }

  /** The inner loop: the duration-long steps of one rule on one matching day. */
  method ExpandDay(snapshot: Snapshot, now: Instant, duration: int, rule: WeeklyRule, day: int, result: set<Window>)
    returns (grown: set<Window>)
    requires duration > 0 && Weekday(day) == rule.weekday
    ensures forall w :: w in grown <==>
              w in result || (Bookable(snapshot, now, w) && exists k: nat :: IsStep(rule, day, k, duration, w))
  {
    grown := result;
    var start := day * DAY + rule.start;
    var end := day * DAY + rule.end;
    ghost var steps: nat := 0;
    while start + duration <= end
      invariant start == day * DAY + rule.start + steps * duration
      invariant forall w :: w in grown <==>
                  w in result || (Bookable(snapshot, now, w) && FromSteps(rule, day, steps, duration, w))
      decreases end - start
    {
      var finish := start + duration;
      var first, last := ToUtc(start, rule.zone), ToUtc(finish, rule.zone);
      var valid := ToLocal(first, rule.zone) == start;
      var blocked := IsBlocked(Window(first, last), snapshot.blockouts);
      assert IsStep(rule, day, steps, duration, Window(first, last));
      ghost var before := grown;
      if valid && last - first == duration && first > now && first < now + 30 * DAY && !blocked {
        grown := grown + {Window(first, last)};
      }
      forall w ensures FromSteps(rule, day, steps + 1, duration, w) <==>
                       FromSteps(rule, day, steps, duration, w) || w == Window(first, last)
      {
      }
      Multiples(steps, steps, duration);
      start := finish;
      steps := steps + 1;
    }
    forall w | exists k: nat :: IsStep(rule, day, k, duration, w)
      ensures FromSteps(rule, day, steps, duration, w)
    {
      NoLaterStep(rule, day, steps, duration, w);
    }
  }

  /** The middle loop: one rule over the 31 days from the local today. */
  method ExpandRule(snapshot: Snapshot, now: Instant, duration: int, rule: WeeklyRule, result: set<Window>)
    returns (grown: set<Window>)
    requires duration > 0 && TimesOfDay([rule])
    ensures forall w :: w in grown <==>
              w in result || (Bookable(snapshot, now, w) && exists day, k: nat :: IsStep(rule, day, k, duration, w))
  {
    grown := result;
    var today := LocalDay(now, rule.zone);
    for offset := 0 to 31
      invariant forall w :: w in grown <==>
                  w in result || (Bookable(snapshot, now, w) && FromDays(rule, today, offset, duration, w))
    {
      var day := today + offset;
      if Weekday(day) == rule.weekday {
        grown := ExpandDay(snapshot, now, duration, rule, day, grown);
      }
      forall w ensures FromDays(rule, today, offset + 1, duration, w) <==>
                       FromDays(rule, today, offset, duration, w) || exists k: nat :: IsStep(rule, day, k, duration, w)
      {
      }
    }
    forall w, day, k: nat | Bookable(snapshot, now, w) && IsStep(rule, day, k, duration, w)
      ensures FromDays(rule, today, 31, duration, w)
    {
      HorizonCovered(rule, now, day, k, duration, w);
    }
  }

  /** Sound and complete for the unbounded calendar: 31 days and a stepping loop lose nothing. */
  method Windows(snapshot: Snapshot, now: Instant, duration: int) returns (result: set<Window>)
    requires duration > 0 && TimesOfDay(snapshot.rules)
    ensures forall w :: w in result <==> IsWindow(snapshot, now, duration, w)
    ensures forall w :: w in result <==> OnCalendar(snapshot, now, duration, w)
  {
    result := {};
    var rules := snapshot.rules;
    for i := 0 to |rules|
      invariant forall w :: w in result <==> Bookable(snapshot, now, w) && FromRules(rules[..i], duration, w)
    {
      ghost var before := result;
      result := ExpandRule(snapshot, now, duration, rules[i], result);
      forall w ensures FromRules(rules[..i + 1], duration, w) <==>
                       FromRules(rules[..i], duration, w) || exists day, k: nat :: IsStep(rules[i], day, k, duration, w)
      {
        RuleAdded(rules, i, duration, w);
      }
    }
    assert rules[..|rules|] == rules;
    forall w ensures IsWindow(snapshot, now, duration, w) <==> OnCalendar(snapshot, now, duration, w) {
      WindowsMean(snapshot, now, duration, w);
    }
  }

  lemma RuleAdded(rules: seq<WeeklyRule>, i: nat, duration: int, w: Window)
    requires i < |rules|
    ensures FromRules(rules[..i + 1], duration, w) <==>
            FromRules(rules[..i], duration, w) || exists day, k: nat :: IsStep(rules[i], day, k, duration, w)
  {
    if FromRules(rules[..i], duration, w) {
      var r, day, k: nat :| 0 <= r < i && IsStep(rules[..i][r], day, k, duration, w);
      assert rules[..i + 1][r] == rules[..i][r];
    }
    if day, k: nat :| IsStep(rules[i], day, k, duration, w) {
      assert rules[..i + 1][i] == rules[i];
    }
    if FromRules(rules[..i + 1], duration, w) {
      var r, day, k: nat :| 0 <= r < i + 1 && IsStep(rules[..i + 1][r], day, k, duration, w);
      if r < i {
        assert rules[..i][r] == rules[..i + 1][r];
      }
    }
  }

  // ---- what the window set means on the calendar ----

  /** Weekdays follow each other round the week, and 1 January 1970 was a Thursday. */
  lemma WeekdaysTurn(day: int)
    ensures Weekday(0) == 3
    ensures 0 <= Weekday(day) < 7
    ensures Weekday(day + 1) == if Weekday(day) == 6 then 0 else Weekday(day) + 1
  {
  }

  /** `w` is step `k` of the rule in calendar week `week`, counted from Monday 5 January 1970, which is
      day 4 of the epoch; local time is UTC plus the zone's offset. */
  predicate CalendarStep(rule: WeeklyRule, week: int, k: nat, duration: int, w: Window) {
    && 0 <= rule.weekday < 7
    && w.first + rule.zone.offset == (4 + 7 * week + rule.weekday) * 86_400_000_000 + rule.start + k * duration
    && w.last == w.first + duration
    && rule.start + (k + 1) * duration <= rule.end
  }

  /** A step of some rule that starts after now and within thirty days, and that no blockout meets. */
  ghost predicate OnCalendar(snapshot: Snapshot, now: Instant, duration: int, w: Window) {
    && now < w.first < now + 30 * 24 * 60 * 60 * 1_000_000
    && (forall b :: b in snapshot.blockouts ==> b.endsAt <= w.first || w.last <= b.startsAt)
    && exists i, week, k: nat :: 0 <= i < |snapshot.rules| && CalendarStep(snapshot.rules[i], week, k, duration, w)
  }

  lemma DayOfWeek(day: int, weekday: int)
    ensures Weekday(day) == weekday <==> 0 <= weekday < 7 && exists week :: day == 4 + 7 * week + weekday
  {
    if Weekday(day) == weekday {
      assert day == 4 + 7 * ((day - 4 - weekday) / 7) + weekday;
    }
  }

  lemma StepOnCalendar(rule: WeeklyRule, k: nat, duration: int, w: Window)
    ensures (exists day :: IsStep(rule, day, k, duration, w)) <==>
            exists week :: CalendarStep(rule, week, k, duration, w)
  {
    assert (k + 1) * duration == k * duration + duration;
    if day :| IsStep(rule, day, k, duration, w) {
      DayOfWeek(day, rule.weekday);
      var week :| day == 4 + 7 * week + rule.weekday;
      assert CalendarStep(rule, week, k, duration, w);
    }
    if week :| CalendarStep(rule, week, k, duration, w) {
      var day := 4 + 7 * week + rule.weekday;
      DayOfWeek(day, rule.weekday);
      assert IsStep(rule, day, k, duration, w);
    }
  }

  /** The windows are exactly the calendar's: whole steps on the rule's weekday of every week, in the
      rule's local time. */
  lemma WindowsMean(snapshot: Snapshot, now: Instant, duration: int, w: Window)
    ensures IsWindow(snapshot, now, duration, w) <==> OnCalendar(snapshot, now, duration, w)
  {
    var rules := snapshot.rules;
    if i, day, k: nat :| 0 <= i < |rules| && IsStep(rules[i], day, k, duration, w) {
      StepOnCalendar(rules[i], k, duration, w);
    }
    if i, week, k: nat :| 0 <= i < |rules| && CalendarStep(rules[i], week, k, duration, w) {
      StepOnCalendar(rules[i], k, duration, w);
    }
  }

  // ---- what the window set is good for ----

  /** A window lies strictly after now and has exactly the session's length. */
  lemma WindowShape(snapshot: Snapshot, now: Instant, duration: int, w: Window)
    requires duration > 0 && IsWindow(snapshot, now, duration, w)
    ensures now < w.first < w.last == w.first + duration
  {
  }

  predicate Apart(a: Window, b: Window) {
    a.last <= b.first || b.last <= a.first
  }

  lemma StepsApart(rule: WeeklyRule, day: int, j: nat, k: nat, duration: int, a: Window, b: Window)
    requires duration > 0
    requires IsStep(rule, day, j, duration, a) && IsStep(rule, day, k, duration, b)
    ensures a == b || Apart(a, b)
  {
    if j < k {
      Multiples(j + 1, k, duration);
    } else if k < j {
      Multiples(k + 1, j, duration);
    }
  }

  /** A step stays inside its rule's hours on its day. */
  lemma StepInside(rule: WeeklyRule, day: int, k: nat, duration: int, w: Window)
    requires duration > 0 && IsStep(rule, day, k, duration, w)
    ensures day * DAY + rule.start <= ToLocal(w.first, rule.zone)
    ensures ToLocal(w.last, rule.zone) <= day * DAY + rule.end
  {
    Multiples(0, k, duration);
  }

  /** Rules that pass the validator in a single timezone never produce overlapping windows,
      whatever the rules, weekdays or weeks the two windows come from. */
  lemma WindowsDisjoint(snapshot: Snapshot, now: Instant, duration: int, zone: Zone, a: Window, b: Window)
    requires duration > 0 && ValidRules(snapshot.rules) && PairwiseFree(snapshot.rules)
    requires forall r :: r in snapshot.rules ==> r.zone == zone
    requires IsWindow(snapshot, now, duration, a) && IsWindow(snapshot, now, duration, b)
    ensures a == b || Apart(a, b)
  {
    var rules := snapshot.rules;
    var i, day, k: nat :| 0 <= i < |rules| && IsStep(rules[i], day, k, duration, a);
    var i', day', k': nat :| 0 <= i' < |rules| && IsStep(rules[i'], day', k', duration, b);
    assert rules[i] in rules && rules[i'] in rules;
    StepInside(rules[i], day, k, duration, a);
    StepInside(rules[i'], day', k', duration, b);
    if day != day' {
      DaysApart(day, day');
    } else if i == i' {
      StepsApart(rules[i], day, k, k', duration, a, b);
    } else if i < i' {
      assert !Overlap(rules[i], rules[i']);
    } else {
      assert !Overlap(rules[i'], rules[i]);
    }
  }

  lemma DaysApart(day: int, other: int)
    requires day != other
    ensures (day + 1) * DAY <= other * DAY || (other + 1) * DAY <= day * DAY
  {
  }
}
