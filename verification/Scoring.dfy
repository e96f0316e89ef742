/** Rubrics and the scores an interviewer gives against them. */
module Scoring {

  datatype Criterion = Criterion(key: string, weight: nat, maximum: nat)

  datatype Score = Score(key: string, score: nat)

  function Weights(criteria: seq<Criterion>): nat {
    if |criteria| == 0 then 0 else Weights(criteria[..|criteria| - 1]) + criteria[|criteria| - 1].weight
  }

  /** The maximum score of a rubric: what its criteria allow together. */
  function Maximum(criteria: seq<Criterion>): nat {
    if |criteria| == 0 then 0 else Maximum(criteria[..|criteria| - 1]) + criteria[|criteria| - 1].maximum
  }

  predicate DistinctKeys(criteria: seq<Criterion>) {
    forall i, j :: 0 <= i < j < |criteria| ==> criteria[i].key != criteria[j].key
  }

  predicate ValidCriteria(criteria: seq<Criterion>) {
    && 1 <= |criteria| <= 30
    && (forall i :: 0 <= i < |criteria| ==> 1 <= criteria[i].weight <= 100 && 1 <= criteria[i].maximum <= 100)
    && DistinctKeys(criteria)
    && Weights(criteria) == 100
  }

  /** The dictionary of the scores: a repeated key keeps its last score. */
  function Dictionary(scores: seq<Score>): (given: map<string, nat>) {
    if |scores| == 0 then map[]
    else Dictionary(scores[..|scores| - 1])[scores[|scores| - 1].key := scores[|scores| - 1].score]
  }

  function Definitions(criteria: seq<Criterion>): (limits: map<string, nat>) {
    if |criteria| == 0 then map[]
    else Definitions(criteria[..|criteria| - 1])[criteria[|criteria| - 1].key := criteria[|criteria| - 1].maximum]
  }

  /** Exactly the rubric's keys, none above its maximum. */
  predicate Matches(given: map<string, nat>, limits: map<string, nat>) {
    given.Keys == limits.Keys && forall k :: k in given ==> given[k] <= limits[k]
  }

  ghost function Sum(given: map<string, nat>): nat
    decreases |given|
  {
    if given == map[] then 0
    else
      var k :| k in given;
      given[k] + Sum(given - {k})
  }

  /** The sum does not depend on the order in which the keys are taken. */
  lemma {:induction false} SumWithout(given: map<string, nat>, k: string)
    requires k in given
    ensures Sum(given) == given[k] + Sum(given - {k})
    decreases |given|
  {
    var first :| first in given && Sum(given) == given[first] + Sum(given - {first});
    if first != k {
      assert (given - {first}) - {k} == (given - {k}) - {first};
      SumWithout(given - {first}, k);
      SumWithout(given - {k}, first);
    }
  }

  /** What the criteria received, one by one. */
  function Received(criteria: seq<Criterion>, given: map<string, nat>): nat
    requires forall i :: 0 <= i < |criteria| ==> criteria[i].key in given
  {
    if |criteria| == 0 then 0
    else Received(criteria[..|criteria| - 1], given) + given[criteria[|criteria| - 1].key]
  }

  lemma {:induction false} DefinitionsAre(criteria: seq<Criterion>)
    requires DistinctKeys(criteria)
    ensures forall k :: k in Definitions(criteria) <==> exists i :: 0 <= i < |criteria| && criteria[i].key == k
    ensures forall i :: 0 <= i < |criteria| ==>
              criteria[i].key in Definitions(criteria) && Definitions(criteria)[criteria[i].key] == criteria[i].maximum
  {
    if |criteria| == 0 {
    } else {
      DefinitionsAre(criteria[..|criteria| - 1]);
    }
  }

  lemma {:induction false} ReceivedFrame(criteria: seq<Criterion>, a: map<string, nat>, b: map<string, nat>)
    requires forall i :: 0 <= i < |criteria| ==> criteria[i].key in a && criteria[i].key in b
    requires forall i :: 0 <= i < |criteria| ==> a[criteria[i].key] == b[criteria[i].key]
    ensures Received(criteria, a) == Received(criteria, b)
  {
    if |criteria| == 0 {
    } else {
      ReceivedFrame(criteria[..|criteria| - 1], a, b);
    }
  }

  /** Scores for exactly the rubric's keys add up to what its criteria received. */
  lemma {:induction false} SumIsReceived(criteria: seq<Criterion>, given: map<string, nat>)
    requires DistinctKeys(criteria) && given.Keys == Definitions(criteria).Keys
    requires forall i :: 0 <= i < |criteria| ==> criteria[i].key in given
    ensures Sum(given) == Received(criteria, given)
  {
    if |criteria| == 0 {
      assert given == map[];
    } else {
      var init, last := criteria[..|criteria| - 1], criteria[|criteria| - 1].key;
      DefinitionsAre(criteria);
      DefinitionsAre(init);
      SumWithout(given, last);
      assert (given - {last}).Keys == Definitions(init).Keys;
      SumIsReceived(init, given - {last});
      ReceivedFrame(init, given, given - {last});
    }
  }

  lemma {:induction false} ReceivedIsBounded(criteria: seq<Criterion>, given: map<string, nat>)
    requires forall i :: 0 <= i < |criteria| ==>
               criteria[i].key in given && given[criteria[i].key] <= criteria[i].maximum
    ensures Received(criteria, given) <= Maximum(criteria)
  {
    if |criteria| == 0 {
    } else {
      ReceivedIsBounded(criteria[..|criteria| - 1], given);
    }
  }

  /** An accepted report totals what its criteria received, and never more than the rubric's maximum. */
  lemma TotalFitsRubric(criteria: seq<Criterion>, given: map<string, nat>)
    requires DistinctKeys(criteria) && Matches(given, Definitions(criteria))
    ensures forall i :: 0 <= i < |criteria| ==> criteria[i].key in given
    ensures Sum(given) == Received(criteria, given) <= Maximum(criteria)
  {
    DefinitionsAre(criteria);
    SumIsReceived(criteria, given);
    ReceivedIsBounded(criteria, given);
  }

  // ---- the loops of the service ----

  method ReadScores(scores: seq<Score>) returns (given: map<string, nat>)
    ensures given == Dictionary(scores)
  {
    given := map[];
    for i := 0 to |scores|
      invariant given == Dictionary(scores[..i])
    {
      assert scores[..i + 1][..i] == scores[..i];
      given := given[scores[i].key := scores[i].score];
    }
    assert scores[..|scores|] == scores;
  }

  method ReadLimits(criteria: seq<Criterion>) returns (limits: map<string, nat>)
    ensures limits == Definitions(criteria)
  {
    limits := map[];
    for i := 0 to |criteria|
      invariant limits == Definitions(criteria[..i])
    {
      assert criteria[..i + 1][..i] == criteria[..i];
      limits := limits[criteria[i].key := criteria[i].maximum];
    }
    assert criteria[..|criteria|] == criteria;
  }

  method AddUp(given: map<string, nat>) returns (total: nat)
    ensures total == Sum(given)
  {
    total := 0;
    var rest := given;
    while rest != map[]
      invariant total + Sum(rest) == Sum(given)
      decreases |rest|
    {
      var k :| k in rest;
      SumWithout(rest, k);
      total := total + rest[k];
      rest := rest - {k};
    }
  }
}
