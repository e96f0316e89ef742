/** Weekly availability rules and the validator that keeps them from overlapping. */
module WeeklyRules {
  const DAY: int := 86_400_000_000

  /** A timezone whose distance from UTC never changes. */
  datatype Zone = Zone(name: string, offset: int)

  /** Weekday 0 is Monday; times are microseconds after local midnight. */
  datatype WeeklyRule = WeeklyRule(weekday: int, start: int, end: int, zone: Zone)

  datatype GroupKey = GroupKey(weekday: int, zone: Zone)

  function KeyOf(rule: WeeklyRule): GroupKey {
    GroupKey(rule.weekday, rule.zone)
  }

  /** What the request schema accepts for a single rule. */
  predicate ValidRule(rule: WeeklyRule) {
    0 <= rule.weekday <= 6 && 0 <= rule.start < rule.end < DAY
  }

  /** What the column types alone guarantee: both times are times of day. */
  predicate TimesOfDay(rules: seq<WeeklyRule>) {
    forall r :: r in rules ==> 0 <= r.start < DAY && 0 <= r.end < DAY
  }

  predicate ValidRules(rules: seq<WeeklyRule>) {
    forall r :: r in rules ==> ValidRule(r)
  }

  /** Two rules claim a common moment of the same weekday in the same timezone. */
  predicate Overlap(a: WeeklyRule, b: WeeklyRule) {
    KeyOf(a) == KeyOf(b) && a.start < b.end && b.start < a.end
  }

  /** The rule claims moment `t` of its weekday, counted from local midnight. */
  predicate Claims(rule: WeeklyRule, t: int) {
    rule.start <= t < rule.end
  }

  /** Two rules with a start before their end overlap iff they share a moment of one weekday in one zone;
      rules that only touch do not. */
  lemma OverlapIsSharedMoment(a: WeeklyRule, b: WeeklyRule)
    requires a.start < a.end && b.start < b.end
    ensures Overlap(a, b) <==> a.weekday == b.weekday && a.zone == b.zone
                               && exists t :: Claims(a, t) && Claims(b, t)
  {
    if Overlap(a, b) {
      var t := if a.start < b.start then b.start else a.start;
      assert Claims(a, t) && Claims(b, t);
    }
  }

  /** No two entries of the list overlap. */
  ghost predicate PairwiseFree(rules: seq<WeeklyRule>) {
    forall i, j :: 0 <= i < j < |rules| ==> !Overlap(rules[i], rules[j])
  }

  // ---- the parts of the validator ----

  /** The rules filed under one key, in request order. */
  function Group(rules: seq<WeeklyRule>, key: GroupKey): (group: seq<WeeklyRule>) {
    if |rules| == 0 then []
    else
      Group(rules[..|rules| - 1], key)
      + (if KeyOf(rules[|rules| - 1]) == key then [rules[|rules| - 1]] else [])
  }

  /** Stable insertion by start time. */
  function Insert(rule: WeeklyRule, sorted: seq<WeeklyRule>): seq<WeeklyRule> {
    if |sorted| == 0 || rule.start < sorted[0].start then [rule] + sorted
    else [sorted[0]] + Insert(rule, sorted[1..])
  }

  function SortByStart(rules: seq<WeeklyRule>): seq<WeeklyRule> {
    if |rules| == 0 then [] else Insert(rules[|rules| - 1], SortByStart(rules[..|rules| - 1]))
  }

  predicate Sorted(rules: seq<WeeklyRule>) {
    forall i, j :: 0 <= i < j < |rules| ==> rules[i].start <= rules[j].start
  }

  predicate AdjacentFree(rules: seq<WeeklyRule>) {
    forall i :: 0 <= i < |rules| - 1 ==> rules[i].end <= rules[i + 1].start
  }

  // ---- sorting keeps what the pairwise check sees ----

  lemma {:induction false} InsertPermutes(rule: WeeklyRule, sorted: seq<WeeklyRule>)
    ensures multiset(Insert(rule, sorted)) == multiset(sorted) + multiset{rule}
  {
    if |sorted| > 0 && sorted[0].start <= rule.start {
      InsertPermutes(rule, sorted[1..]);
      assert sorted == [sorted[0]] + sorted[1..];
    }
  }

  lemma {:induction false} InsertSorts(rule: WeeklyRule, sorted: seq<WeeklyRule>)
    requires Sorted(sorted)
    ensures Sorted(Insert(rule, sorted))
  {
    if |sorted| > 0 && sorted[0].start <= rule.start {
      InsertSorts(rule, sorted[1..]);
      InsertPermutes(rule, sorted[1..]);
      var tail := Insert(rule, sorted[1..]);
      forall i | 0 <= i < |tail| ensures sorted[0].start <= tail[i].start {
        assert tail[i] in multiset(tail);
        assert tail[i] == rule || tail[i] in sorted[1..];
      }
    }
  }

  lemma {:induction false} SortSorts(rules: seq<WeeklyRule>)
    ensures Sorted(SortByStart(rules))
    ensures multiset(SortByStart(rules)) == multiset(rules)
  {
    if |rules| == 0 {
    } else {
      var init := rules[..|rules| - 1];
      SortSorts(init);
      InsertSorts(rules[|rules| - 1], SortByStart(init));
      InsertPermutes(rules[|rules| - 1], SortByStart(init));
      assert rules == init + [rules[|rules| - 1]];
    }
  }

  /** Being pairwise free does not depend on the order of the list. */
  ghost predicate CountFree(rules: multiset<WeeklyRule>) {
    && (forall a, b :: a in rules && b in rules && a != b ==> !Overlap(a, b))
    && (forall a :: a in rules && rules[a] > 1 ==> !Overlap(a, a))
  }

  lemma TwoPlaces(rules: seq<WeeklyRule>, a: WeeklyRule) returns (i: int, j: int)
    requires multiset(rules)[a] > 1
    ensures 0 <= i < j < |rules| && rules[i] == a && rules[j] == a
  {
    i :| 0 <= i < |rules| && rules[i] == a;
    assert rules == rules[..i] + [a] + rules[i + 1..];
    assert multiset(rules) == multiset(rules[..i]) + multiset{a} + multiset(rules[i + 1..]);
    if a in rules[..i] {
      var k :| 0 <= k < i && rules[..i][k] == a;
      i, j := k, i;
    } else {
      assert a in rules[i + 1..];
      var k :| 0 <= k < |rules[i + 1..]| && rules[i + 1..][k] == a;
      j := i + 1 + k;
    }
  }

  lemma PairwiseIsUnordered(rules: seq<WeeklyRule>)
    ensures PairwiseFree(rules) <==> CountFree(multiset(rules))
  {
    if PairwiseFree(rules) {
      forall a, b | a in rules && b in rules && a != b ensures !Overlap(a, b) {
        var i :| 0 <= i < |rules| && rules[i] == a;
        var j :| 0 <= j < |rules| && rules[j] == b;
        if i < j {
          assert !Overlap(rules[i], rules[j]);
        } else {
          assert !Overlap(rules[j], rules[i]);
        }
      }
      forall a | a in rules && multiset(rules)[a] > 1 ensures !Overlap(a, a) {
        var i, j := TwoPlaces(rules, a);
        assert !Overlap(rules[i], rules[j]);
      }
    }
    if CountFree(multiset(rules)) {
      forall i, j | 0 <= i < j < |rules| ensures !Overlap(rules[i], rules[j]) {
        if rules[i] == rules[j] {
          assert rules == rules[..i] + [rules[i]] + rules[i + 1..j] + [rules[j]] + rules[j + 1..];
          assert multiset(rules)[rules[i]] > 1;
        }
        assert rules[i] in multiset(rules) && rules[j] in multiset(rules);
      }
    }
  }

  /** On a sorted list of rules of one group the adjacent check decides the pairwise one. */
  lemma AdjacentDecides(rules: seq<WeeklyRule>, key: GroupKey)
    requires Sorted(rules) && ValidRules(rules)
    requires forall r :: r in rules ==> KeyOf(r) == key
    ensures AdjacentFree(rules) <==> PairwiseFree(rules)
  {
    if AdjacentFree(rules) {
      forall i, j | 0 <= i < j < |rules| ensures !Overlap(rules[i], rules[j]) {
        assert rules[i].end <= rules[i + 1].start <= rules[j].start;
      }
    }
    if PairwiseFree(rules) {
      forall i | 0 <= i < |rules| - 1 ensures rules[i].end <= rules[i + 1].start {
        assert !Overlap(rules[i], rules[i + 1]);
        assert rules[i] in rules && rules[i + 1] in rules;
        assert rules[i].start <= rules[i + 1].start;
      }
    }
  }

  // ---- grouping keeps every overlapping pair together ----

  lemma {:induction false} GroupMembers(rules: seq<WeeklyRule>, key: GroupKey)
    ensures forall r :: r in Group(rules, key) <==> r in rules && KeyOf(r) == key
  {
    if |rules| == 0 {
    } else {
      var init := rules[..|rules| - 1];
      GroupMembers(init, key);
      assert rules == init + [rules[|rules| - 1]];
    }
  }

  ghost predicate MissesAll(last: WeeklyRule, group: seq<WeeklyRule>) {
    forall r :: r in group ==> !Overlap(r, last)
  }

  lemma AppendFree(rules: seq<WeeklyRule>, last: WeeklyRule)
    ensures PairwiseFree(rules + [last]) <==> PairwiseFree(rules) && MissesAll(last, rules)
  {
    var all := rules + [last];
    if PairwiseFree(all) {
      forall r | r in rules ensures !Overlap(r, last) {
        var i :| 0 <= i < |rules| && rules[i] == r;
        assert !Overlap(all[i], all[|rules|]);
      }
      forall i, j | 0 <= i < j < |rules| ensures !Overlap(rules[i], rules[j]) {
        assert !Overlap(all[i], all[j]);
      }
    }
  }

  /** None of the rules filed under the key overlaps a later rule of the request. */
  ghost predicate KeyFree(rules: seq<WeeklyRule>, key: GroupKey) {
    forall i, j :: 0 <= i < j < |rules| && KeyOf(rules[i]) == key ==> !Overlap(rules[i], rules[j])
  }

  lemma KeyFreeAppend(init: seq<WeeklyRule>, last: WeeklyRule, key: GroupKey)
    ensures KeyFree(init + [last], key) <==>
            KeyFree(init, key) && forall r :: r in init && KeyOf(r) == key ==> !Overlap(r, last)
  {
    var all := init + [last];
    if KeyFree(all, key) {
      forall i, j | 0 <= i < j < |init| && KeyOf(init[i]) == key ensures !Overlap(init[i], init[j]) {
        assert !Overlap(all[i], all[j]);
      }
      forall r | r in init && KeyOf(r) == key ensures !Overlap(r, last) {
        var k :| 0 <= k < |init| && init[k] == r;
        assert !Overlap(all[k], all[|init|]);
      }
    } else {
      var i, j :| 0 <= i < j < |all| && KeyOf(all[i]) == key && Overlap(all[i], all[j]);
      assert all[i] == init[i] && all[i] in init;
    }
  }

  lemma {:induction false} GroupFree(rules: seq<WeeklyRule>, key: GroupKey)
    ensures PairwiseFree(Group(rules, key)) <==> KeyFree(rules, key)
  {
    if |rules| == 0 {
    } else {
      var init, last := rules[..|rules| - 1], rules[|rules| - 1];
      assert rules == init + [last];
      GroupFree(init, key);
      GroupMembers(init, key);
      AppendFree(Group(init, key), last);
      KeyFreeAppend(init, last, key);
      GroupAppend(init, last, key);
      assert Group(init, key) + [] == Group(init, key);
    }
  }

  lemma GroupsDecide(rules: seq<WeeklyRule>)
    ensures PairwiseFree(rules) <==> (forall r :: r in rules ==> PairwiseFree(Group(rules, KeyOf(r))))
  {
    if PairwiseFree(rules) {
      forall r | r in rules ensures PairwiseFree(Group(rules, KeyOf(r))) {
        GroupFree(rules, KeyOf(r));
      }
    }
    if forall r :: r in rules ==> PairwiseFree(Group(rules, KeyOf(r))) {
      forall i, j | 0 <= i < j < |rules| ensures !Overlap(rules[i], rules[j]) {
        assert rules[i] in rules;
        GroupFree(rules, KeyOf(rules[i]));
      }
    }
  }

  /** The check of one group, sorted and then compared neighbour by neighbour. */
  lemma GroupDecides(rules: seq<WeeklyRule>, key: GroupKey)
    requires ValidRules(rules)
    ensures AdjacentFree(SortByStart(Group(rules, key))) <==> PairwiseFree(Group(rules, key))
  {
    var group := Group(rules, key);
    GroupMembers(rules, key);
    SortSorts(group);
    var sorted := SortByStart(group);
    forall r | r in sorted ensures r in group {
      assert r in multiset(sorted);
    }
    AdjacentDecides(sorted, key);
    PairwiseIsUnordered(group);
    PairwiseIsUnordered(sorted);
  }

  // ---- the validator itself ----

  method AdjacentCheck(ordered: seq<WeeklyRule>) returns (free: bool)
    ensures free <==> AdjacentFree(ordered)
  {
    for i := 0 to |ordered| - (if |ordered| == 0 then 0 else 1)
      invariant forall k :: 0 <= k < i && k < |ordered| - 1 ==> ordered[k].end <= ordered[k + 1].start
    {
      if ordered[i].end > ordered[i + 1].start {
        return false;
      }
    }
    return true;
  }

  method GroupRules(rules: seq<WeeklyRule>) returns (grouped: map<GroupKey, seq<WeeklyRule>>)
    ensures forall r :: r in rules ==> KeyOf(r) in grouped
    ensures forall key :: key in grouped ==> grouped[key] == Group(rules, key)
  {
    grouped := map[];
    for i := 0 to |rules|
      invariant forall r :: r in rules[..i] ==> KeyOf(r) in grouped
      invariant forall key :: key in grouped ==> grouped[key] == Group(rules[..i], key)
    {
      var key := KeyOf(rules[i]);
      ghost var seen := rules[..i];
      assert rules[..i + 1] == seen + [rules[i]];
      GroupMembers(seen, key);
      if key !in grouped && |Group(seen, key)| > 0 {
        assert Group(seen, key)[0] in Group(seen, key);
        assert false;
      }
      grouped := grouped[key := (if key in grouped then grouped[key] else []) + [rules[i]]];
      forall other | other in grouped ensures grouped[other] == Group(rules[..i + 1], other) {
        GroupAppend(seen, rules[i], other);
      }
    }
    assert rules[..|rules|] == rules;
  }

  lemma GroupAppend(rules: seq<WeeklyRule>, rule: WeeklyRule, key: GroupKey)
    ensures Group(rules + [rule], key) == Group(rules, key) + (if KeyOf(rule) == key then [rule] else [])
  {
    assert (rules + [rule])[..|rules|] == rules;
  }

  /** Group by weekday and timezone, sort each group by start time and compare neighbours:
      accepts exactly the lists in which no two rules overlap. */
  method NonOverlapping(rules: seq<WeeklyRule>) returns (accepted: bool)
    requires ValidRules(rules)
    ensures accepted <==> PairwiseFree(rules)
  {
    var grouped := GroupRules(rules);
    GroupsDecide(rules);
    var pending := grouped.Keys;
    while pending != {}
      invariant pending <= grouped.Keys
      invariant forall key :: key in grouped && key !in pending ==> PairwiseFree(Group(rules, key))
    {
      var key :| key in pending;
      pending := pending - {key};
      var ordered := SortByStart(grouped[key]);
      GroupDecides(rules, key);
      var free := AdjacentCheck(ordered);
      if !free {
        GroupFree(rules, key);
        return false;
      }
    }
    return true;
  }
}
