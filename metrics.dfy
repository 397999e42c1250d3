/**
 * crispo/metrics/metric.py and crispo/metrics/accuracy.py: how per-example
 * scores are produced, averaged and compared.
 *
 * Every score is a `FloatDict`; the plain float a plain metric returns is a
 * `FloatDict` with no parts. Comparisons between scores compare their values,
 * as Python compares two `float` subclasses.
 */
module Metrics {
  import opened Wrappers
  import opened Assoc
  import opened Floats

  /** `Metric.aggregate`: the mean of the scores; `statistics.mean` fails on an empty list. */
  function MeanAggregate(scores: seq<real>): (r: Option<real>)
    ensures r.None? <==> scores == []
    ensures r.Some? ==> Min(scores) <= r.value <= Max(scores)
  {
    if scores == [] then None
    else
      MeanBetween(scores, Min(scores), Max(scores));
      Some(Mean(scores))
  }

  /** The values of the parts named `name`, in order; the first loop of `MetricDict.aggregate` collects them. */
  function Matching(entries: seq<(string, real)>, name: string): seq<real>
  {
    if entries == [] then []
    else Matching(entries[..|entries| - 1], name) + (if entries[|entries| - 1].0 == name then [entries[|entries| - 1].1] else [])
  }

  /** `scores_per_metric[name]` once every score has been visited. */
  function Column(scores: seq<FloatDict>, name: string): seq<real>
  {
    if scores == [] then []
    else Column(scores[..|scores| - 1], name) + Matching(scores[|scores| - 1].scores, name)
  }

  /** With distinct names, a part list holds at most the one value `Get` reads. */
  lemma {:induction false} MatchingGet(entries: seq<(string, real)>, name: string)
    requires DistinctKeys(entries)
    ensures Matching(entries, name) == match Assoc.Get(entries, name) case Some(v) => [v] case None => []
  {
    if entries != [] {
      var e := entries[1..];
      MatchingFront(entries, name);
      MatchingGet(e, name);
      if entries[0].0 == name {
        assert Assoc.Get(e, name).None?;
      }
    }
  }

  lemma {:induction false} MatchingFront(entries: seq<(string, real)>, name: string)
    requires entries != []
    ensures Matching(entries, name) == (if entries[0].0 == name then [entries[0].1] else []) + Matching(entries[1..], name)
  {
    if |entries| > 1 {
      var last := |entries| - 1;
      assert entries[..last][1..] == entries[1..][..last - 1];
      MatchingFront(entries[..last], name);
    } else {
      assert entries[..0] == [];
    }
  }

  /** The per-name aggregated entries, or `None` when some configured name has no score to average. */
  function AggregatedEntries(names: seq<string>, scores: seq<FloatDict>): (r: Option<seq<(string, real)>>)
    ensures r.None? <==> exists i :: 0 <= i < |names| && Column(scores, names[i]) == []
    ensures r.Some? ==> Keys(r.value) == names
    ensures r.Some? ==> forall i :: 0 <= i < |names| ==> Column(scores, names[i]) != [] && r.value[i] == (names[i], Mean(Column(scores, names[i])))
  {
    if names == [] then Some([])
    else
      var front, name := names[..|names| - 1], names[|names| - 1];
      match AggregatedEntries(front, scores)
      case None =>
        var i :| 0 <= i < |front| && Column(scores, front[i]) == [];
        assert names[i] == front[i];
        None
      case Some(entries) =>
        var col := Column(scores, name);
        if col == [] then
          assert names[|names| - 1] == name;
          None
        else
          KeysAppend(entries, [(name, Mean(col))]);
          assert names == front + [name];
          AggregatedSnoc(front, name, entries, scores);
          Some(entries + [(name, Mean(col))])
  }

  /** One more name with a non-empty column extends the aggregated entries by its mean. */
  lemma AggregatedSnoc(front: seq<string>, name: string, entries: seq<(string, real)>, scores: seq<FloatDict>)
    requires Column(scores, name) != [] && |entries| == |front|
    requires forall i :: 0 <= i < |front| ==> Column(scores, front[i]) != [] && entries[i] == (front[i], Mean(Column(scores, front[i])))
    ensures var names, r := front + [name], entries + [(name, Mean(Column(scores, name)))];
      && (forall i :: 0 <= i < |names| ==> Column(scores, names[i]) != [] && r[i] == (names[i], Mean(Column(scores, names[i]))))
      && !(exists i :: 0 <= i < |names| && Column(scores, names[i]) == [])
  {
    var names, r := front + [name], entries + [(name, Mean(Column(scores, name)))];
    forall i | 0 <= i < |names|
      ensures Column(scores, names[i]) != [] && r[i] == (names[i], Mean(Column(scores, names[i])))
    {
      if i < |front| {
        assert names[i] == front[i] && r[i] == entries[i];
      }
    }
  }

  /**
   * The metric the trainer is configured with: a plain metric (mean as
   * aggregate, identity as key), or a `MetricDict` of plain metrics.
   */
  datatype Metric<!Pr, !G, !X> =
    | Plain(score: (Pr, G, X) -> real)
    | Dict(primary: Option<string>, metrics: seq<(string, (Pr, G, X) -> real)>)
  {
    /** `if self.primary:`, so an empty name counts as no primary. */
    predicate HasPrimary()
    {
      Dict? && primary.Some? && primary.value != ""
    }

    /**
     * `MetricDict(primary, **metrics)`: keyword arguments have distinct names,
     * and none is "primary" or "self", which bind `__init__`'s own parameters.
     */
    predicate WellNamed()
    {
      Dict? ==> DistinctKeys(metrics) && "primary" !in Keys(metrics) && "self" !in Keys(metrics)
    }

    /**
     * `MetricDict.score`: `FloatDict(**scores)` of one score per configured
     * sub-metric. A sub-metric named "value" gives the value and is no part;
     * every other one is a part, in configured order. One named "cls" raises.
     */
    function Score(pred: Pr, gold: G, x: X): (r: Option<FloatDict>)
      requires WellNamed()
      ensures r.None? <==> Dict? && (metrics == [] || "cls" in Keys(metrics))
      ensures Plain? ==> r == Some(FloatDict(score(pred, gold, x), []))
      ensures Dict? && r.Some? ==> Keys(r.value.scores) == Keys(Pop(metrics, "value"))
      ensures Dict? && r.Some? ==> "value" !in Keys(r.value.scores)
      ensures Dict? && r.Some? ==> forall i :: 0 <= i < |r.value.scores| ==> r.value.scores[i].1 == Pop(metrics, "value")[i].1(pred, gold, x)
      ensures Dict? && r.Some? && "value" in Keys(metrics) ==> r.value.value == SubMetric("value").value(pred, gold, x)
      ensures Dict? && r.Some? && "value" !in Keys(metrics) ==> r.value.value == Mean(Values(r.value.scores))
    {
      if Plain? then Some(FloatDict(score(pred, gold, x), []))
      else
        var parts := SubScores(metrics, pred, gold, x);
        DistinctKeysIff(metrics);
        DistinctKeysIff(parts);
        SubScoresPop(metrics, pred, gold, x, "value");
        SubScoresGet(metrics, pred, gold, x, "value");
        KeywordFloatDict(None, parts)
    }

    /**
     * `MetricDict.aggregate`: `FloatDict(**aggregated)` of each configured name
     * averaged over its parts; other names are dropped, and the name "value"
     * gives the value instead of a part.
     */
    function Aggregate(scores: seq<FloatDict>): (r: Option<FloatDict>)
      requires WellNamed()
      ensures Plain? ==> (r.None? <==> scores == [])
      ensures Plain? && r.Some? ==> r.value.scores == [] && r.value.value == Mean(ScoreValues(scores))
      ensures Dict? ==> (r.None? <==> metrics == [] || "cls" in Keys(metrics) || AggregatedEntries(Keys(metrics), scores).None?)
      ensures Dict? && r.Some? ==> AggregatedEntries(Keys(metrics), scores).Some?
                                   && r.value.scores == Pop(AggregatedEntries(Keys(metrics), scores).value, "value")
      ensures Dict? && r.Some? && "value" in Keys(metrics) ==> Some(r.value.value) == Assoc.Get(AggregatedEntries(Keys(metrics), scores).value, "value")
      ensures Dict? && r.Some? && "value" !in Keys(metrics) ==> r.value.value == Mean(Values(r.value.scores))
    {
      if Plain? then
        if scores == [] then None else Some(FloatDict(Mean(ScoreValues(scores)), []))
      else
        match AggregatedEntries(Keys(metrics), scores)
        case None => None
        case Some(entries) =>
          DistinctKeysIff(metrics);
          DistinctKeysIff(entries);
          KeywordFloatDict(None, entries)
    }

    /** The loops `MetricDict.aggregate` runs: per-name lists first, then one mean per configured name. */
    method AggregateByName(scores: seq<FloatDict>) returns (r: Option<FloatDict>)
      requires Dict? && WellNamed()
      ensures r == Aggregate(scores)
    {
      var perMetric := CollectColumns(scores);
      var aggregated := MeanColumns(Keys(metrics), perMetric, scores);
      match aggregated
      case None => r := None;
      case Some(entries) =>
        DistinctKeysIff(metrics);
        DistinctKeysIff(entries);
        r := KeywordFloatDict(None, entries);
    }

    /** The configured name's part of a score exists, so `key` does not raise. */
    predicate KeyDefined(s: FloatDict)
    {
      HasPrimary() ==> s.Get(primary.value).Some?
    }

    /**
     * `key`: the primary part, negated when the primary is "rank" (a lower rank
     * is better), or the whole score when there is no primary.
     */
    function Key(s: FloatDict): (k: real)
      requires KeyDefined(s)
      ensures HasPrimary() && primary.value == "rank" ==> k == -s.Get("rank").value
      ensures HasPrimary() && primary.value != "rank" ==> k == s.Get(primary.value).value
      ensures !HasPrimary() ==> k == s.value
    {
      if HasPrimary() then
        var p := s.Get(primary.value).value;
        if primary.value == "rank" then -p else p
      else s.value
    }

    /** `metric[name]`: the sub-metric configured under `name`. */
    function SubMetric(name: string): (r: Option<(Pr, G, X) -> real>)
      requires Dict?
      ensures r.None? <==> name !in Keys(metrics)
    {
      Assoc.Get(metrics, name)
    }
  }

  /** The first loop of `MetricDict.aggregate`: every part value appended to the list of its name. */
  method CollectColumns(scores: seq<FloatDict>) returns (perMetric: map<string, seq<real>>)
    ensures forall n :: Collected(perMetric, n) == Column(scores, n)
  {
    perMetric := map[];
    var i := 0;
    while i < |scores|
      invariant 0 <= i <= |scores|
      invariant forall n :: Collected(perMetric, n) == Column(scores[..i], n)
    {
      assert scores[..i + 1][..i] == scores[..i];
      perMetric := CollectParts(perMetric, scores[i].scores);
      i := i + 1;
    }
    assert scores[..i] == scores;
  }

  /** The second loop of `MetricDict.aggregate`: the mean of each configured name's list, failing on an empty one. */
  method MeanColumns(names: seq<string>, perMetric: map<string, seq<real>>, scores: seq<FloatDict>) returns (r: Option<seq<(string, real)>>)
    requires forall n :: Collected(perMetric, n) == Column(scores, n)
    ensures r == AggregatedEntries(names, scores)
  {
    var aggregated: seq<(string, real)> := [];
    var k := 0;
    while k < |names|
      invariant 0 <= k <= |names|
      invariant AggregatedEntries(names[..k], scores) == Some(aggregated)
    {
      var name := names[k];
      AggregatedStep(names, scores, k, aggregated);
      var col := Collected(perMetric, name);
      if col == [] {
        assert Column(scores, names[k]) == [];
        return None;
      }
      aggregated := aggregated + [(name, Mean(col))];
      k := k + 1;
    }
    assert names[..k] == names;
    r := Some(aggregated);
  }

  lemma AggregatedStep(names: seq<string>, scores: seq<FloatDict>, k: nat, prev: seq<(string, real)>)
    requires k < |names| && AggregatedEntries(names[..k], scores) == Some(prev)
    ensures AggregatedEntries(names[..k + 1], scores)
            == if Column(scores, names[k]) == [] then None else Some(prev + [(names[k], Mean(Column(scores, names[k])))])
  {
    assert names[..k + 1][..k] == names[..k];
  }

  /** The inner loop: the parts of one score appended, name by name. */
  method CollectParts(perMetric: map<string, seq<real>>, each: seq<(string, real)>) returns (r: map<string, seq<real>>)
    ensures forall n :: Collected(r, n) == Collected(perMetric, n) + Matching(each, n)
  {
    r := perMetric;
    var j := 0;
    while j < |each|
      invariant 0 <= j <= |each|
      invariant forall n :: Collected(r, n) == Collected(perMetric, n) + Matching(each[..j], n)
    {
      CollectStep(perMetric, r, each, j);
      r := r[each[j].0 := Collected(r, each[j].0) + [each[j].1]];
      j := j + 1;
    }
    assert each[..j] == each;
  }

  lemma CollectStep(perMetric: map<string, seq<real>>, r: map<string, seq<real>>, each: seq<(string, real)>, j: nat)
    requires j < |each|
    requires forall n :: Collected(r, n) == Collected(perMetric, n) + Matching(each[..j], n)
    ensures forall n ::
      Collected(r[each[j].0 := Collected(r, each[j].0) + [each[j].1]], n) == Collected(perMetric, n) + Matching(each[..j + 1], n)
  {
    forall n
      ensures Collected(r[each[j].0 := Collected(r, each[j].0) + [each[j].1]], n)
        == Collected(perMetric, n) + Matching(each[..j + 1], n)
    {
      MatchingSnoc(each, j, n);
      CollectedAppend(r, each[j].0, each[j].1, n);
      var x := if each[j].0 == n then [each[j].1] else [];
      SeqAssoc(Collected(perMetric, n), Matching(each[..j], n), x);
    }
  }

  lemma SeqAssoc(a: seq<real>, b: seq<real>, c: seq<real>)
    ensures a + b + c == a + (b + c)
  {
  }

  /** Appending a value under one name adds it to that name's list and to no other. */
  lemma CollectedAppend(r: map<string, seq<real>>, name: string, v: real, n: string)
    ensures Collected(r[name := Collected(r, name) + [v]], n) == Collected(r, n) + (if name == n then [v] else [])
  {
  }

  lemma MatchingSnoc(entries: seq<(string, real)>, j: nat, name: string)
    requires j < |entries|
    ensures Matching(entries[..j + 1], name)
      == Matching(entries[..j], name) + (if entries[j].0 == name then [entries[j].1] else [])
  {
    assert entries[..j + 1][..j] == entries[..j];
  }

  /**
   * Each configured name other than "value" is a part of the aggregate, the
   * mean of that name's parts across all scores; "value" is no part.
   */
  lemma AggregatePart<Pr, G, X>(m: Metric<Pr, G, X>, scores: seq<FloatDict>, i: nat)
    requires m.Dict? && m.WellNamed() && m.Aggregate(scores).Some? && i < |m.metrics|
    ensures Column(scores, m.metrics[i].0) != []
    ensures m.Aggregate(scores).value.Get(m.metrics[i].0)
            == if m.metrics[i].0 == "value" then None else Some(Mean(Column(scores, m.metrics[i].0)))
  {
    KeysAt(m.metrics, i);
    var entries := AggregatedEntries(Keys(m.metrics), scores).value;
    KeysAt(entries, i);
    DistinctKeysIff(m.metrics);
    DistinctKeysIff(entries);
    DistinctGet(entries, i);
    PopGet(entries, "value", m.metrics[i].0);
  }

  /**
   * A sub-metric named "value" is never a part of a score, so aggregating
   * scores that have no such part always fails: its list stays empty.
   */
  lemma ValueNamedNeverAggregates<Pr, G, X>(m: Metric<Pr, G, X>, scores: seq<FloatDict>)
    requires m.Dict? && m.WellNamed() && "value" in Keys(m.metrics)
    requires forall i :: 0 <= i < |scores| ==> "value" !in Keys(scores[i].scores)
    ensures m.Aggregate(scores).None?
  {
    var names := Keys(m.metrics);
    var k :| 0 <= k < |names| && names[k] == "value";
    ColumnAbsent(scores, "value");
  }

  /** A name that no score has as a part collects no values. */
  lemma {:induction false} ColumnAbsent(scores: seq<FloatDict>, name: string)
    requires forall i :: 0 <= i < |scores| ==> name !in Keys(scores[i].scores)
    ensures Column(scores, name) == []
  {
    if scores != [] {
      var last := scores[|scores| - 1];
      ColumnAbsent(scores[..|scores| - 1], name);
      MatchingAbsent(last.scores, name);
    }
  }

  lemma {:induction false} MatchingAbsent(entries: seq<(string, real)>, name: string)
    requires name !in Keys(entries)
    ensures Matching(entries, name) == []
  {
    if entries != [] {
      var front := entries[..|entries| - 1];
      KeysAppend(front, [entries[|entries| - 1]]);
      assert entries == front + [entries[|entries| - 1]];
      MatchingAbsent(front, name);
    }
  }

  /** In a list with distinct keys, the i-th key reads back the i-th value. */
  lemma {:induction false} DistinctGet<K, V>(d: seq<(K, V)>, i: nat)
    requires DistinctKeys(d) && i < |d|
    ensures Assoc.Get(d, d[i].0) == Some(d[i].1)
  {
    if i > 0 {
      KeysAt(d, i);
      assert d[i].0 == Keys(d[1..])[i - 1] by { KeysAt(d[1..], i - 1); }
      DistinctGet(d[1..], i - 1);
    }
  }

  /** The per-example part list `MetricDict.score` builds. */
  function SubScores<Pr, G, X>(metrics: seq<(string, (Pr, G, X) -> real)>, pred: Pr, gold: G, x: X): (r: seq<(string, real)>)
    ensures Keys(r) == Keys(metrics)
    ensures forall i :: 0 <= i < |metrics| ==> r[i].1 == metrics[i].1(pred, gold, x)
  {
    if metrics == [] then []
    else [(metrics[0].0, metrics[0].1(pred, gold, x))] + SubScores(metrics[1..], pred, gold, x)
  }

  /** `scores_per_metric[name]` of a `defaultdict(list)`. */
  function Collected(perMetric: map<string, seq<real>>, name: string): seq<real>
  {
    if name in perMetric then perMetric[name] else []
  }

  function ScoreValues(scores: seq<FloatDict>): (vs: seq<real>)
    ensures |vs| == |scores|
    ensures forall i :: 0 <= i < |scores| ==> vs[i] == scores[i].value
  {
    if scores == [] then [] else [scores[0].value] + ScoreValues(scores[1..])
  }

  /** Popping a name from the configuration pops its part from the scores. */
  lemma {:induction false} SubScoresPop<Pr, G, X>(metrics: seq<(string, (Pr, G, X) -> real)>, pred: Pr, gold: G, x: X, name: string)
    ensures Pop(SubScores(metrics, pred, gold, x), name) == SubScores(Pop(metrics, name), pred, gold, x)
  {
    if metrics != [] && metrics[0].0 != name {
      SubScoresPop(metrics[1..], pred, gold, x, name);
      assert Pop(metrics, name)[1..] == Pop(metrics[1..], name);
    }
  }

  /** Reading a part by name gives the configured sub-metric's own score. */
  lemma {:induction false} SubScoresGet<Pr, G, X>(metrics: seq<(string, (Pr, G, X) -> real)>, pred: Pr, gold: G, x: X, name: string)
    ensures Assoc.Get(SubScores(metrics, pred, gold, x), name)
      == match Assoc.Get(metrics, name) case Some(f) => Some(f(pred, gold, x)) case None => None
  {
    if metrics != [] && metrics[0].0 != name {
      SubScoresGet(metrics[1..], pred, gold, x, name);
    }
  }

  /**
   * `metric[name].score(...)` equals the `name` part of `metric.score(...)`,
   * except for "value", whose score is the value and no part.
   */
  lemma SubMetricAgreesWithScore<Pr, G, X>(m: Metric<Pr, G, X>, name: string, pred: Pr, gold: G, x: X)
    requires m.Dict? && m.WellNamed() && m.metrics != [] && "cls" !in Keys(m.metrics) && m.SubMetric(name).Some?
    ensures name != "value" ==> m.Score(pred, gold, x).value.Get(name) == Some(m.SubMetric(name).value(pred, gold, x))
    ensures name == "value" ==> m.Score(pred, gold, x).value.Get(name).None?
                                && m.Score(pred, gold, x).value.value == m.SubMetric(name).value(pred, gold, x)
  {
    var parts := SubScores(m.metrics, pred, gold, x);
    DistinctKeysIff(m.metrics);
    DistinctKeysIff(parts);
    SubScoresGet(m.metrics, pred, gold, x, name);
    PopGet(parts, "value", name);
  }

  /**
   * With a configured primary, `key` is defined on the aggregate exactly when
   * the primary is not "value": a "value" part never survives the `FloatDict`.
   */
  lemma AggregateKeyDefined<Pr, G, X>(m: Metric<Pr, G, X>, scores: seq<FloatDict>)
    requires m.Dict? && m.WellNamed() && m.Aggregate(scores).Some?
    requires m.HasPrimary() && m.primary.value in Keys(m.metrics)
    ensures m.KeyDefined(m.Aggregate(scores).value) <==> m.primary.value != "value"
  {
    var entries := AggregatedEntries(Keys(m.metrics), scores).value;
    DistinctKeysIff(m.metrics);
    DistinctKeysIff(entries);
    PopGet(entries, "value", m.primary.value);
  }

  /** With "rank" as primary, the lower rank has the higher key. */
  lemma RankKeyOrder<Pr, G, X>(m: Metric<Pr, G, X>, a: FloatDict, b: FloatDict)
    requires m.HasPrimary() && m.primary.value == "rank" && m.KeyDefined(a) && m.KeyDefined(b)
    ensures m.Key(a) > m.Key(b) <==> a.Get("rank").value < b.Get("rank").value
  {
  }

  // ---------------------------------------------------------------------
  // crispo/metrics/accuracy.py

  /** `Accuracy.score`: `float(gold == pred)`. */
  function AccuracyScore<T(==)>(pred: T, gold: T): (r: real)
    ensures r == 1.0 <==> gold == pred
    ensures r == 0.0 || r == 1.0
  {
    if gold == pred then 1.0 else 0.0
  }

  function AccuracyScores<T(==)>(preds: seq<T>, golds: seq<T>): (r: seq<real>)
    requires |preds| == |golds|
    ensures |r| == |preds|
  {
    if preds == [] then [] else [AccuracyScore(preds[0], golds[0])] + AccuracyScores(preds[1..], golds[1..])
  }

  function Matches<T(==)>(preds: seq<T>, golds: seq<T>): nat
    requires |preds| == |golds|
  {
    if preds == [] then 0 else (if preds[0] == golds[0] then 1 else 0) + Matches(preds[1..], golds[1..])
  }

  lemma {:induction false} AccuracySum<T>(preds: seq<T>, golds: seq<T>)
    requires |preds| == |golds|
    ensures Sum(AccuracyScores(preds, golds)) == Matches(preds, golds) as real
  {
    if preds != [] {
      AccuracySum(preds[1..], golds[1..]);
    }
  }

  /** The inherited aggregate of accuracy scores is the fraction of exact matches. */
  lemma AccuracyAggregate<T>(preds: seq<T>, golds: seq<T>)
    requires |preds| == |golds| > 0
    ensures MeanAggregate(AccuracyScores(preds, golds)) == Some(Matches(preds, golds) as real / |preds| as real)
  {
    AccuracySum(preds, golds);
  }
}
