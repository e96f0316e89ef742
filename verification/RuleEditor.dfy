/** The availability editor of the web front end: how it reads a time a person typed, what it
    complains about, and why the server never finds an overlap the editor has let through. */
module RuleEditor {
  import opened Tables
  import opened Contracts
  import opened WeeklyRules

  // ---- reading a time ----

  /** The white space and line terminators of ECMAScript. */
  predicate IsSpace(c: char) {
    var code := c as int;
    || 0x09 <= code <= 0x0D || code == 0x20 || code == 0xA0 || code == 0x1680
    || 0x2000 <= code <= 0x200A || code in {0x2028, 0x2029, 0x202F, 0x205F, 0x3000, 0xFEFF}
  }

  predicate Blank(s: string) {
    forall c :: c in s ==> IsSpace(c)
  }

  function TrimStart(s: string): (t: string)
    ensures |t| <= |s|
  {
    if |s| > 0 && IsSpace(s[0]) then TrimStart(s[1..]) else s
  }

  function TrimEnd(s: string): (t: string) {
    if |s| > 0 && IsSpace(s[|s| - 1]) then TrimEnd(s[..|s| - 1]) else s
  }

  function Trim(s: string): string {
    TrimEnd(TrimStart(s))
  }

  predicate IsDigit(c: char) {
    '0' <= c <= '9'
  }

  function Digit(c: char): (d: nat)
    requires IsDigit(c)
    ensures d < 10
  {
    c as int - '0' as int
  }

  function DigitChar(d: nat): (c: char)
    requires d < 10
    ensures IsDigit(c) && Digit(c) == d
  {
    (('0' as int) + d) as char
  }

  predicate TwoDigitsAt(s: string, i: nat) {
    i + 1 < |s| && IsDigit(s[i]) && IsDigit(s[i + 1])
  }

  function NumberAt(s: string, i: nat): (n: nat)
    requires TwoDigitsAt(s, i)
    ensures n < 100
  {
    10 * Digit(s[i]) + Digit(s[i + 1])
  }

  function Padded(n: nat): (s: string)
    requires n < 100
    ensures TwoDigitsAt(s, 0) && |s| == 2 && NumberAt(s, 0) == n
  {
    [DigitChar(n / 10), DigitChar(n % 10)]
  }

  /** dd:dd, optionally followed by :dd. */
  predicate ClockShape(t: string) {
    && |t| in {5, 8}
    && TwoDigitsAt(t, 0) && t[2] == ':' && TwoDigitsAt(t, 3)
    && (|t| == 8 ==> t[5] == ':' && TwoDigitsAt(t, 6))
  }

  predicate IsMarker(s: string) {
    |s| == 2 && s[0] in {'A', 'a', 'P', 'p'} && s[1] in {'M', 'm'}
  }

  predicate IsAfternoon(marker: string) {
    |marker| == 2 && marker[0] in {'P', 'p'}
  }

  /** d:dd or dd:dd, then AM or PM in either case. */
  function TwelveHour(t: string): Option<string> {
    var n := if |t| > 1 && t[1] == ':' then 1 else 2;
    if !(|t| > n + 2 && IsDigit(t[0]) && IsDigit(t[n - 1]) && t[n] == ':' && TwoDigitsAt(t, n + 1)) then None
    else
      var marker := TrimStart(t[n + 3..]);
      var hour := if n == 1 then Digit(t[0]) else NumberAt(t, 0);
      if !IsMarker(marker) || hour < 1 || hour > 12 || NumberAt(t, n + 1) > 59 then None
      else Some(Padded(hour % 12 + (if IsAfternoon(marker) then 12 else 0)) + ":" + t[n + 1..n + 3])
  }

  function CanonicalTime(value: string): Option<string> {
    var t := Trim(value);
    if ClockShape(t) then
      if NumberAt(t, 0) < 24 && NumberAt(t, 3) < 60 then Some(t[..2] + ":" + t[3..5]) else None
    else TwelveHour(t)
  }

  /** The 24-hour form the server is sent. */
  predicate IsCanonical(t: string) {
    |t| == 5 && ClockShape(t) && NumberAt(t, 0) < 24 && NumberAt(t, 3) < 60
  }

  function Minutes(t: string): (m: nat)
    requires IsCanonical(t)
    ensures m < 24 * 60
  {
    60 * NumberAt(t, 0) + NumberAt(t, 3)
  }

  // ---- what the reader guarantees ----

  lemma CanonicalShape(value: string)
    requires CanonicalTime(value).Some?
    ensures IsCanonical(CanonicalTime(value).value)
  {
    var t := Trim(value);
    if !ClockShape(t) {
      var n := if |t| > 1 && t[1] == ':' then 1 else 2;
      assert t[n + 1..n + 3] == [t[n + 1], t[n + 2]];
    }
  }

  lemma TrimSkips(lead: string, body: string, trail: string)
    requires Blank(lead) && Blank(trail) && |body| > 0 && !IsSpace(body[0]) && !IsSpace(body[|body| - 1])
    ensures Trim(lead + body + trail) == body
  {
    TrimStartSkips(lead, body + trail);
    TrimEndSkips(body, trail);
    assert lead + body + trail == lead + (body + trail);
  }

  lemma {:induction false} TrimStartSkips(lead: string, body: string)
    requires Blank(lead) && |body| > 0 && !IsSpace(body[0])
    ensures TrimStart(lead + body) == body
  {
    if |lead| > 0 {
      assert lead[0] in lead;
      assert (lead + body)[1..] == lead[1..] + body;
      TrimStartSkips(lead[1..], body);
    } else {
      assert lead + body == body;
    }
  }

  lemma {:induction false} TrimEndSkips(body: string, trail: string)
    requires Blank(trail) && |body| > 0 && !IsSpace(body[|body| - 1])
    ensures TrimEnd(body + trail) == body
  {
    if |trail| > 0 {
      assert trail[|trail| - 1] in trail;
      assert (body + trail)[..|body + trail| - 1] == body + trail[..|trail| - 1];
      TrimEndSkips(body, trail[..|trail| - 1]);
    } else {
      assert body + trail == body;
    }
  }

  /** A canonical time reads as itself, with or without seconds and surrounding blanks; so the
      reader is idempotent. */
  lemma ClockReads(lead: string, t: string, seconds: string, trail: string)
    requires Blank(lead) && Blank(trail) && IsCanonical(t)
    requires seconds == "" || (|seconds| == 3 && seconds[0] == ':' && TwoDigitsAt(seconds, 1))
    ensures CanonicalTime(lead + (t + seconds) + trail) == Some(t)
  {
    var body := t + seconds;
    if seconds != "" {
      assert body[5] == seconds[0] && body[6] == seconds[1] && body[7] == seconds[2];
    }
    TrimSkips(lead, body, trail);
    assert body[..2] + ":" + body[3..5] == t;
  }

  /** One or two digits for an hour from 1 to 12. */
  predicate IsHour(hour: string) {
    || (|hour| == 1 && IsDigit(hour[0]) && Digit(hour[0]) >= 1)
    || (|hour| == 2 && TwoDigitsAt(hour, 0) && 1 <= NumberAt(hour, 0) <= 12)
  }

  function HourOf(hour: string): (h: nat)
    requires IsHour(hour)
    ensures 1 <= h <= 12
  {
    if |hour| == 1 then Digit(hour[0]) else NumberAt(hour, 0)
  }

  /** Hours 12 of both halves come first: midnight and noon. */
  function Converted(hour: nat, marker: string): (h: nat)
    requires 1 <= hour <= 12
    ensures h < 24
  {
    hour % 12 + (if IsAfternoon(marker) then 12 else 0)
  }

  /** The parts of a twelve-hour time are found again. */
  lemma TwelveHourParts(hour: string, minute: nat, rest: string)
    requires IsHour(hour) && minute < 60
    ensures var t, n := hour + ":" + Padded(minute) + rest, |hour|;
            && |t| == n + 3 + |rest| && t[..n] == hour && t[n] == ':'
            && t[n + 1..n + 3] == Padded(minute) && t[n + 3..] == rest
            && TwoDigitsAt(t, n + 1) && NumberAt(t, n + 1) == minute
            && (n == 1 <==> t[1] == ':')
  {
    var t, n := hour + ":" + Padded(minute) + rest, |hour|;
    assert t[n + 1] == Padded(minute)[0] && t[n + 2] == Padded(minute)[1];
  }

  lemma TwelveHourBody(hour: string, minute: nat, gap: string, marker: string)
    requires IsHour(hour) && minute < 60 && Blank(gap) && IsMarker(marker)
    ensures TwelveHour(hour + ":" + Padded(minute) + (gap + marker))
         == Some(Padded(Converted(HourOf(hour), marker)) + ":" + Padded(minute))
  {
    var t := hour + ":" + Padded(minute) + (gap + marker);
    TwelveHourParts(hour, minute, gap + marker);
    TrimStartSkips(gap, marker);
    assert t[0] == hour[0] && t[|hour| - 1] == hour[|hour| - 1];
  }

  /** A time that ends in a letter is not taken for a 24-hour one. */
  lemma MarkerIsNoClock(t: string, marker: string)
    requires IsMarker(marker) && |t| > 2 && t[|t| - 1] == marker[1]
    ensures !ClockShape(t) && !IsSpace(t[|t| - 1])
  {
    assert !IsDigit(t[|t| - 1]);
  }

  /** A twelve-hour time reads as the moment it means: noon and midnight are both hour 12. */
  lemma TwelveHourReads(lead: string, hour: string, minute: nat, gap: string, marker: string, trail: string)
    requires Blank(lead) && Blank(gap) && Blank(trail) && IsMarker(marker) && minute < 60 && IsHour(hour)
    ensures CanonicalTime(lead + (hour + ":" + Padded(minute) + (gap + marker)) + trail)
         == Some(Padded(Converted(HourOf(hour), marker)) + ":" + Padded(minute))
  {
    var body := hour + ":" + Padded(minute) + (gap + marker);
    assert body[|body| - 1] == marker[1] && body[0] == hour[0];
    MarkerIsNoClock(body, marker);
    TrimSkips(lead, body, trail);
    TwelveHourBody(hour, minute, gap, marker);
  }

  /** How an hour from 1 to 12 may be written: single digits with or without a leading zero. */
  function HourName(hour: nat, padded: bool): (name: string)
    requires 1 <= hour <= 12
    ensures IsHour(name) && HourOf(name) == hour
  {
    if hour < 10 && !padded then [DigitChar(hour)] else Padded(hour)
  }

  /** AM for the first half of the day and PM for the second, in any case. */
  predicate Marks(marker: string, afternoon: bool) {
    |marker| == 2 && marker[0] in (if afternoon then {'P', 'p'} else {'A', 'a'}) && marker[1] in {'M', 'm'}
  }

  /** The hour that a minute of the day has on a twelve-hour clock. */
  function HourShown(m: nat): (hour: nat)
    ensures 1 <= hour <= 12
  {
    if m / 60 % 12 == 0 then 12 else m / 60 % 12
  }

  /** Every minute of the day, written on a twelve-hour clock, is read back as itself. */
  lemma EveryMinuteReads(lead: string, m: nat, padded: bool, gap: string, marker: string, trail: string)
    requires Blank(lead) && Blank(gap) && Blank(trail) && m < 1440 && Marks(marker, m >= 720)
    ensures var typed := lead + (HourName(HourShown(m), padded) + ":" + Padded(m % 60) + (gap + marker)) + trail;
            && CanonicalTime(typed) == Some(Padded(m / 60) + ":" + Padded(m % 60))
            && IsCanonical(Padded(m / 60) + ":" + Padded(m % 60))
            && Minutes(Padded(m / 60) + ":" + Padded(m % 60)) == m
  {
    TwelveHourReads(lead, HourName(HourShown(m), padded), m % 60, gap, marker, trail);
    HalvesJoin(m, marker);
    PaddedMinutes(m / 60, m % 60);
  }

  lemma HalvesJoin(m: nat, marker: string)
    requires m < 1440 && Marks(marker, m >= 720)
    ensures Converted(HourShown(m), marker) == m / 60
  {
  }

  lemma PaddedMinutes(hour: nat, minute: nat)
    requires hour < 24 && minute < 60
    ensures IsCanonical(Padded(hour) + ":" + Padded(minute))
    ensures Minutes(Padded(hour) + ":" + Padded(minute)) == 60 * hour + minute
  {
    var t := Padded(hour) + ":" + Padded(minute);
    assert t[0] == Padded(hour)[0] && t[1] == Padded(hour)[1];
    assert t[3] == Padded(minute)[0] && t[4] == Padded(minute)[1];
  }

  /** No other hour and no minute from 60 on is read, whatever follows it. */
  lemma TwelveHourRefuses(hour: string, minute: string, rest: string)
    requires (|hour| == 1 && IsDigit(hour[0])) || (|hour| == 2 && TwoDigitsAt(hour, 0))
    requires |minute| == 2 && TwoDigitsAt(minute, 0)
    requires hour in {"0", "00"} || (|hour| == 2 && NumberAt(hour, 0) > 12) || NumberAt(minute, 0) > 59
    ensures TwelveHour(hour + ":" + minute + rest) == None
  {
    var t, n := hour + ":" + minute + rest, |hour|;
    assert t[0] == hour[0] && t[n - 1] == hour[n - 1] && t[n] == ':';
    assert t[n + 1] == minute[0] && t[n + 2] == minute[1];
  }

  // ---- comparing times as strings ----

  /** The < of ECMAScript strings. */
  predicate Before(a: string, b: string) {
    if |b| == 0 then false
    else if |a| == 0 then true
    else if a[0] != b[0] then a[0] < b[0]
    else Before(a[1..], b[1..])
  }

  lemma {:induction false} BeforeSkips(shared: string, a: string, b: string)
    ensures Before(shared + a, shared + b) == Before(a, b)
  {
    if |shared| > 0 {
      assert (shared + a)[1..] == shared[1..] + a && (shared + b)[1..] == shared[1..] + b;
      BeforeSkips(shared[1..], a, b);
    } else {
      assert shared + a == a && shared + b == b;
    }
  }

  /** Where two strings first differ decides. */
  lemma BeforeAt(a: string, b: string, k: nat)
    requires k < |a| && k < |b| && a[..k] == b[..k] && a[k] != b[k]
    ensures Before(a, b) <==> a[k] < b[k]
  {
    BeforeSkips(a[..k], a[k..], b[k..]);
    assert a == a[..k] + a[k..] && b == b[..k] + b[k..];
  }

  lemma {:induction false} BeforeIsStrict(a: string)
    ensures !Before(a, a)
  {
    if |a| == 0 {
    } else {
      BeforeIsStrict(a[1..]);
    }
  }

  /** On canonical times string order is time order. */
  lemma OrderIsTime(a: string, b: string)
    requires IsCanonical(a) && IsCanonical(b)
    ensures Before(a, b) <==> Minutes(a) < Minutes(b)
  {
    if a[0] != b[0] {
      BeforeAt(a, b, 0);
    } else if a[1] != b[1] {
      BeforeAt(a, b, 1);
    } else if a[3] != b[3] {
      BeforeAt(a, b, 3);
    } else if a[4] != b[4] {
      BeforeAt(a, b, 4);
    } else {
      assert a == b;
      BeforeIsStrict(a);
    }
  }

  // ---- the editor's complaints ----

  datatype FormRule = FormRule(weekday: int, start: string, end: string, timezone: string)

  datatype RangeError = EndNotLater | OverlapsOn(weekday: int)

  datatype RuleErrors = RuleErrors(start: bool, end: bool, timezone: bool, range: Option<RangeError>)

  const NO_ERRORS := RuleErrors(false, false, false, None)

  function ErrorsAt(errors: map<nat, RuleErrors>, i: nat): RuleErrors {
    if i in errors then errors[i] else NO_ERRORS
  }

  datatype Normalized = Normalized(weekday: int, start: Option<string>, end: Option<string>, timezone: string)

  function Normalize(rule: FormRule): Normalized {
    Normalized(rule.weekday, CanonicalTime(rule.start), CanonicalTime(rule.end), rule.timezone)
  }

  predicate Backwards(rule: FormRule) {
    var a := Normalize(rule);
    a.start.Some? && a.end.Some? && !Before(a.start.value, a.end.value)
  }

  predicate Clash(a: Normalized, b: Normalized) {
    && a.weekday == b.weekday && a.timezone == b.timezone
    && a.start.Some? && a.end.Some? && b.start.Some? && b.end.Some?
    && Before(a.start.value, b.end.value) && Before(b.start.value, a.end.value)
  }

  function NormalizeAll(rules: seq<FormRule>): seq<Normalized> {
    seq(|rules|, i requires 0 <= i < |rules| => Normalize(rules[i]))
  }

  ghost predicate ClashAmong(rows: seq<Normalized>, i: nat)
    requires i < |rows|
  {
    exists j :: 0 <= j < |rows| && j != i && Clash(rows[i], rows[j])
  }

  /** Some other rule of the form clashes with rule `i`. */
  ghost predicate Clashes(rules: seq<FormRule>, i: nat)
    requires i < |rules|
  {
    ClashAmong(NormalizeAll(rules), i)
  }

  ghost function Expected(rules: seq<FormRule>, known: set<string>, i: nat): RuleErrors
    requires i < |rules|
  {
    RuleErrors(
      CanonicalTime(rules[i].start).None?,
      CanonicalTime(rules[i].end).None?,
      rules[i].timezone !in known,
      if Clashes(rules, i) then Some(OverlapsOn(rules[i].weekday))
      else if Backwards(rules[i]) then Some(EndNotLater)
      else None)
  }

  /** The complaints about one rule by itself. */
  function OwnErrors(rule: FormRule, known: set<string>): RuleErrors {
    RuleErrors(
      CanonicalTime(rule.start).None?,
      CanonicalTime(rule.end).None?,
      rule.timezone !in known,
      if Backwards(rule) then Some(EndNotLater) else None)
  }

  /** The pairs compared before the inner loop looks at (left, right). */
  predicate Compared(left: nat, right: nat, i: nat, j: nat) {
    i < j && (i < left || (i == left && j < right))
  }

  ghost predicate Found(rows: seq<Normalized>, left: nat, right: nat, i: nat, j: nat)
    requires i < |rows|
  {
    && j < |rows|
    && (Compared(left, right, i, j) || Compared(left, right, j, i))
    && Clash(rows[i], rows[j])
  }

  ghost predicate ClashFound(rows: seq<Normalized>, left: nat, right: nat, i: nat)
    requires i < |rows|
  {
    exists j: nat :: Found(rows, left, right, i, j)
  }

  ghost function FoundSoFar(own: RuleErrors, rows: seq<Normalized>, left: nat, right: nat, i: nat): RuleErrors
    requires i < |rows|
  {
    if ClashFound(rows, left, right, i) then own.(range := Some(OverlapsOn(rows[i].weekday))) else own
  }

  /** The record holds exactly the complaints found so far. */
  ghost predicate Recorded(errors: map<nat, RuleErrors>, own: seq<RuleErrors>, rows: seq<Normalized>,
      left: nat, right: nat) {
    && |own| == |rows|
    && (forall i: nat :: i < |rows| ==> ErrorsAt(errors, i) == FoundSoFar(own[i], rows, left, right, i))
    && (forall i :: i in errors ==> i < |rows| && errors[i] != NO_ERRORS)
  }

  lemma FoundNext(rows: seq<Normalized>, left: nat, right: nat, i: nat)
    requires left < right < |rows| && i < |rows|
    ensures ClashFound(rows, left, right + 1, i) <==>
            ClashFound(rows, left, right, i) || (i in {left, right} && Clash(rows[left], rows[right]))
  {
    var next := right + 1;
    if i in {left, right} && Clash(rows[left], rows[right]) {
      assert Found(rows, left, next, i, if i == left then right else left);
    }
    if j: nat :| Found(rows, left, right, i, j) {
      assert Found(rows, left, next, i, j);
    }
    if j: nat :| Found(rows, left, next, i, j) {
      assert (i in {left, right} && j in {left, right}) || Found(rows, left, right, i, j);
    }
  }

  /** Ending one inner loop and starting the next compares nothing. */
  lemma FoundRow(rows: seq<Normalized>, left: nat, i: nat)
    requires left < |rows| && i < |rows|
    ensures ClashFound(rows, left, |rows|, i) <==> ClashFound(rows, left + 1, left + 2, i)
  {
    var n, row, next := |rows|, left + 1, left + 2;
    if j: nat :| Found(rows, left, n, i, j) {
      assert Found(rows, row, next, i, j);
    }
    if j: nat :| Found(rows, row, next, i, j) {
      assert Found(rows, left, n, i, j);
    }
  }

  method CheckRule(errors: map<nat, RuleErrors>, i: nat, rule: FormRule, known: set<string>)
    returns (after: map<nat, RuleErrors>, row: Normalized)
    requires i !in errors
    ensures row == Normalize(rule) && ErrorsAt(after, i) == OwnErrors(rule, known)
    ensures forall k :: k in after <==> k in errors || (k == i && OwnErrors(rule, known) != NO_ERRORS)
    ensures forall k :: k in errors ==> after[k] == errors[k]
  {
    after := errors;
    var start, end := CanonicalTime(rule.start), CanonicalTime(rule.end);
    if start.None? {
      after := after[i := ErrorsAt(after, i).(start := true)];
    }
    if end.None? {
      after := after[i := ErrorsAt(after, i).(end := true)];
    }
    if start.Some? && end.Some? && !Before(start.value, end.value) {
      after := after[i := ErrorsAt(after, i).(range := Some(EndNotLater))];
    }
    if rule.timezone !in known {
      after := after[i := ErrorsAt(after, i).(timezone := true)];
    }
    row := Normalized(rule.weekday, start, end, rule.timezone);
  }

  method CheckEach(rules: seq<FormRule>, known: set<string>)
    returns (errors: map<nat, RuleErrors>, rows: seq<Normalized>)
    ensures rows == NormalizeAll(rules)
    ensures forall k: nat :: k < |rules| ==> ErrorsAt(errors, k) == OwnErrors(rules[k], known)
    ensures forall k :: k in errors ==> k < |rules| && errors[k] != NO_ERRORS
  {
    errors, rows := map[], [];
    for i := 0 to |rules|
      invariant |rows| == i && forall k :: 0 <= k < i ==> rows[k] == Normalize(rules[k])
      invariant forall k: nat :: k < i ==> ErrorsAt(errors, k) == OwnErrors(rules[k], known)
      invariant forall k :: k in errors ==> k < i && errors[k] != NO_ERRORS
    {
      var row;
      errors, row := CheckRule(errors, i, rules[i], known);
      rows := rows + [row];
    }
  }

  method ComparePair(
    errors: map<nat, RuleErrors>, rows: seq<Normalized>, left: nat, right: nat, ghost own: seq<RuleErrors>)
    returns (after: map<nat, RuleErrors>)
    requires left < right < |rows| && Recorded(errors, own, rows, left, right)
    ensures Recorded(after, own, rows, left, right + 1)
  {
    after := errors;
    if Clash(rows[left], rows[right]) {
      var message := OverlapsOn(rows[left].weekday);
      after := after[left := ErrorsAt(after, left).(range := Some(message))];
      after := after[right := ErrorsAt(after, right).(range := Some(message))];
    }
    forall i: nat | i < |rows| ensures ErrorsAt(after, i) == FoundSoFar(own[i], rows, left, right + 1, i) {
      FoundNext(rows, left, right, i);
      assert ErrorsAt(errors, i) == FoundSoFar(own[i], rows, left, right, i);
    }
  }

  /** The nested comparison of every pair, left before right. */
  method CompareAll(errors: map<nat, RuleErrors>, rows: seq<Normalized>, ghost own: seq<RuleErrors>)
    returns (after: map<nat, RuleErrors>)
    requires Recorded(errors, own, rows, 0, 1)
    ensures Recorded(after, own, rows, |rows|, |rows| + 1)
  {
    after := errors;
    for left := 0 to |rows|
      invariant Recorded(after, own, rows, left, left + 1)
    {
      for right := left + 1 to |rows|
        invariant Recorded(after, own, rows, left, right)
      {
        after := ComparePair(after, rows, left, right, own);
      }
      RecordedRow(after, own, rows, left);
    }
  }

  lemma RecordedRow(errors: map<nat, RuleErrors>, own: seq<RuleErrors>, rows: seq<Normalized>, left: nat)
    requires left < |rows| && Recorded(errors, own, rows, left, |rows|)
    ensures Recorded(errors, own, rows, left + 1, left + 2)
  {
    forall i: nat | i < |rows| ensures ErrorsAt(errors, i) == FoundSoFar(own[i], rows, left + 1, left + 2, i) {
      FoundRow(rows, left, i);
    }
  }

  /** Once every pair has been compared, a clash has been found exactly where there is one. */
  lemma FoundIsClash(rows: seq<Normalized>, i: nat)
    requires i < |rows|
    ensures ClashFound(rows, |rows|, |rows| + 1, i) <==> ClashAmong(rows, i)
  {
    var n, next := |rows|, |rows| + 1;
    if j :| 0 <= j < |rows| && j != i && Clash(rows[i], rows[j]) {
      assert Found(rows, n, next, i, j);
    }
    if j: nat :| Found(rows, n, next, i, j) {
      assert j != i && Clash(rows[i], rows[j]);
    }
  }

  lemma FoundAll(rules: seq<FormRule>, known: set<string>, rows: seq<Normalized>, i: nat)
    requires i < |rules| && rows == NormalizeAll(rules)
    ensures FoundSoFar(OwnErrors(rules[i], known), rows, |rows|, |rows| + 1, i) == Expected(rules, known, i)
  {
    FoundIsClash(rows, i);
    assert rows[i].weekday == rules[i].weekday;
  }

  /** One record entry per rule with something to complain about, and exactly the complaints that
      the rule itself and its clashes with the others call for. */
  method AvailabilityErrors(rules: seq<FormRule>, known: set<string>) returns (errors: map<nat, RuleErrors>)
    ensures forall i: nat :: i < |rules| ==> ErrorsAt(errors, i) == Expected(rules, known, i)
    ensures forall i :: i in errors ==> i < |rules| && errors[i] != NO_ERRORS
  {
    var rows;
    errors, rows := CheckEach(rules, known);
    ghost var own := seq(|rules|, i requires 0 <= i < |rules| => OwnErrors(rules[i], known));
    forall i: nat | i < |rules| ensures ErrorsAt(errors, i) == FoundSoFar(own[i], rows, 0, 1, i) {
      assert own[i] == OwnErrors(rules[i], known);
    }
    errors := CompareAll(errors, rows, own);
    forall i: nat | i < |rules| ensures ErrorsAt(errors, i) == Expected(rules, known, i) {
      FoundAll(rules, known, rows, i);
      assert own[i] == OwnErrors(rules[i], known);
    }
  }

  // ---- the editor and the server agree ----

  /** The microseconds after midnight that the server reads from a canonical time. */
  function Stored(t: string): int
    requires IsCanonical(t)
  {
    60 * SECOND * Minutes(t)
  }

  predicate ReadableRule(rule: FormRule) {
    CanonicalTime(rule.start).Some? && CanonicalTime(rule.end).Some?
  }

  /** What saving sends for one rule; the server turns the name into a timezone. */
  function Sent(rule: FormRule, offset: string -> int): WeeklyRule
    requires ReadableRule(rule)
  {
    CanonicalShape(rule.start);
    CanonicalShape(rule.end);
    WeeklyRule(rule.weekday, Stored(CanonicalTime(rule.start).value), Stored(CanonicalTime(rule.end).value),
               Zone(rule.timezone, offset(rule.timezone)))
  }

  predicate Readable(rules: seq<FormRule>) {
    forall i :: 0 <= i < |rules| ==> ReadableRule(rules[i])
  }

  function SentAll(rules: seq<FormRule>, offset: string -> int): (sent: seq<WeeklyRule>)
    requires Readable(rules)
    ensures |sent| == |rules| && forall i :: 0 <= i < |rules| ==> sent[i] == Sent(rules[i], offset)
  {
    seq(|rules|, i requires 0 <= i < |rules| => Sent(rules[i], offset))
  }

  lemma ClashIsOverlap(a: FormRule, b: FormRule, offset: string -> int)
    requires ReadableRule(a) && ReadableRule(b)
    ensures Clash(Normalize(a), Normalize(b)) <==> Overlap(Sent(a, offset), Sent(b, offset))
  {
    CanonicalShape(a.start);
    CanonicalShape(a.end);
    CanonicalShape(b.start);
    CanonicalShape(b.end);
    OrderIsTime(CanonicalTime(a.start).value, CanonicalTime(b.end).value);
    OrderIsTime(CanonicalTime(b.start).value, CanonicalTime(a.end).value);
  }

  lemma BackwardsIsInvalid(rule: FormRule, offset: string -> int)
    requires ReadableRule(rule) && 0 <= rule.weekday <= 6
    ensures ValidRule(Sent(rule, offset)) <==> !Backwards(rule)
  {
    CanonicalShape(rule.start);
    CanonicalShape(rule.end);
    OrderIsTime(CanonicalTime(rule.start).value, CanonicalTime(rule.end).value);
  }

  lemma ClashesAreOverlaps(rows: seq<Normalized>, sent: seq<WeeklyRule>)
    requires |rows| == |sent|
    requires forall i, j :: 0 <= i < |rows| && 0 <= j < |rows| ==>
               (Clash(rows[i], rows[j]) <==> Overlap(sent[i], sent[j]))
    ensures (exists i :: 0 <= i < |rows| && ClashAmong(rows, i)) <==> !PairwiseFree(sent)
  {
    if i :| 0 <= i < |rows| && ClashAmong(rows, i) {
      var j :| 0 <= j < |rows| && j != i && Clash(rows[i], rows[j]);
      assert Overlap(sent[i], sent[j]) && Overlap(sent[j], sent[i]);
    }
    if !PairwiseFree(sent) {
      var i, j :| 0 <= i < j < |sent| && Overlap(sent[i], sent[j]);
      assert Clash(rows[i], rows[j]);
      assert ClashAmong(rows, i);
    }
  }

  /** The editor reports an overlap iff the rules it would send are not pairwise free, which is
      exactly when the server's sort-and-adjacent validator rejects them. */
  lemma OverlapAgrees(rules: seq<FormRule>, known: set<string>, offset: string -> int)
    requires Readable(rules)
    ensures (exists i :: 0 <= i < |rules| && Expected(rules, known, i).range == Some(OverlapsOn(rules[i].weekday)))
       <==> !PairwiseFree(SentAll(rules, offset))
  {
    var rows, sent := NormalizeAll(rules), SentAll(rules, offset);
    forall i, j | 0 <= i < |rules| && 0 <= j < |rules| ensures Clash(rows[i], rows[j]) <==> Overlap(sent[i], sent[j]) {
      ClashIsOverlap(rules[i], rules[j], offset);
    }
    ClashesAreOverlaps(rows, sent);
    forall i | 0 <= i < |rules|
      ensures Expected(rules, known, i).range == Some(OverlapsOn(rules[i].weekday)) <==> ClashAmong(rows, i)
    {
    }
  }

  /** What the server accepts: at most fifty rules, each valid in a timezone it knows, none overlapping. */
  ghost predicate ServerAccepts(rules: seq<FormRule>, known: set<string>, offset: string -> int) {
    && |rules| <= 50
    && (forall i :: 0 <= i < |rules| ==> rules[i].timezone in known)
    && Readable(rules)
    && ValidRules(SentAll(rules, offset))
    && PairwiseFree(SentAll(rules, offset))
  }

  /** The editor stays silent exactly on the forms that the server would accept, except that the
      editor does not count the rules. */
  lemma SilentIffAccepted(rules: seq<FormRule>, known: set<string>, offset: string -> int)
    requires forall i :: 0 <= i < |rules| ==> 0 <= rules[i].weekday <= 6
    ensures ServerAccepts(rules, known, offset) <==>
            |rules| <= 50 && forall i :: 0 <= i < |rules| ==> Expected(rules, known, i) == NO_ERRORS
  {
    if forall i :: 0 <= i < |rules| ==> Expected(rules, known, i) == NO_ERRORS {
      SilentIsReadable(rules, known);
    }
    if Readable(rules) {
      OverlapAgrees(rules, known, offset);
      var sent := SentAll(rules, offset);
      forall i | 0 <= i < |rules| ensures ValidRule(sent[i]) <==> !Backwards(rules[i]) {
        BackwardsIsInvalid(rules[i], offset);
      }
      ValidByIndex(sent);
      forall i | 0 <= i < |rules|
        ensures Clashes(rules, i) <==> Expected(rules, known, i).range == Some(OverlapsOn(rules[i].weekday))
      {
      }
    }
  }

  lemma SilentIsReadable(rules: seq<FormRule>, known: set<string>)
    requires forall i :: 0 <= i < |rules| ==> Expected(rules, known, i) == NO_ERRORS
    ensures Readable(rules)
  {
    forall i | 0 <= i < |rules| ensures ReadableRule(rules[i]) {
      assert Expected(rules, known, i) == NO_ERRORS;
    }
  }

  lemma ValidByIndex(rules: seq<WeeklyRule>)
    ensures ValidRules(rules) <==> forall i :: 0 <= i < |rules| ==> ValidRule(rules[i])
  {
    if forall i :: 0 <= i < |rules| ==> ValidRule(rules[i]) {
      forall r | r in rules ensures ValidRule(r) {
        var i :| 0 <= i < |rules| && rules[i] == r;
      }
    }
  }

  /** Saving: nothing is sent while the editor complains, and what is sent the server's overlap
      check accepts. */
  method SaveRules(rules: seq<FormRule>, known: set<string>, offset: string -> int)
    returns (errors: map<nat, RuleErrors>, sent: Option<seq<WeeklyRule>>, accepted: bool)
    requires forall i :: 0 <= i < |rules| ==> 0 <= rules[i].weekday <= 6
    ensures sent.Some? <==> errors == map[]
    ensures |rules| <= 50 ==> (sent.Some? <==> ServerAccepts(rules, known, offset))
    ensures sent.Some? ==> accepted && Readable(rules) && sent.value == SentAll(rules, offset)
  {
    errors := AvailabilityErrors(rules, known);
    sent, accepted := None, false;
    SilentIffAccepted(rules, known, offset);
    if errors == map[] {
      forall i | 0 <= i < |rules| ensures Expected(rules, known, i) == NO_ERRORS {
        assert ErrorsAt(errors, i) == Expected(rules, known, i);
      }
      SilentIsReadable(rules, known);
      sent := Some(SentAll(rules, offset));
      SilentIsFree(rules, known, offset);
      accepted := NonOverlapping(sent.value);
    } else {
      var i :| i in errors;
      assert ErrorsAt(errors, i) == Expected(rules, known, i);
    }
  }

  lemma SilentIsFree(rules: seq<FormRule>, known: set<string>, offset: string -> int)
    requires forall i :: 0 <= i < |rules| ==> 0 <= rules[i].weekday <= 6
    requires Readable(rules) && forall i :: 0 <= i < |rules| ==> Expected(rules, known, i) == NO_ERRORS
    ensures ValidRules(SentAll(rules, offset)) && PairwiseFree(SentAll(rules, offset))
  {
    OverlapAgrees(rules, known, offset);
    var sent := SentAll(rules, offset);
    forall i | 0 <= i < |rules| ensures ValidRule(sent[i]) {
      assert Expected(rules, known, i) == NO_ERRORS;
      BackwardsIsInvalid(rules[i], offset);
    }
    ValidByIndex(sent);
  }
}
