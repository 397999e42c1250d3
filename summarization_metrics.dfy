/**
 * The metrics of the experiments that are computed from text alone:
 * exact match against a list of answers (experiments/summarization/metrics/ragqa.py),
 * accuracy on the label of a reasoned answer (nested_accuracy.py), and the
 * wrapper that scores with several named metrics at once and averages them
 * (multi_metrics_wrapper.py).
 */
module SummarizationMetrics {
  import opened Wrappers
  import opened Text
  import opened Assoc
  import opened Floats
  import opened Formatting
  import opened Render
  import opened Metrics
  import opened GsmExample

  // ---------------------------------------------------------------------
  // experiments/summarization/metrics/ragqa.py

  /** `str.lower` on one character, for the ASCII letters. */
  function LowerChar(c: char): char
  {
    if 'A' <= c <= 'Z' then (c as int + 32) as char else c
  }

  /** `str.lower`, for the ASCII letters. */
  function Lower(s: string): (r: string)
    ensures |r| == |s|
    ensures forall i :: 0 <= i < |s| ==> r[i] == LowerChar(s[i])
  {
    seq(|s|, i requires 0 <= i < |s| => LowerChar(s[i]))
  }

  /** Some gold answer equals the stripped prediction, ignoring case. */
  predicate ExactMatchHit(pred: string, gold: seq<string>)
  {
    exists i :: 0 <= i < |gold| && Lower(gold[i]) == Lower(Strip(pred))
  }

  /**
   * `ExactMatch.score`: the prediction is stripped once, then the gold
   * answers are tried in order and the first one that equals it ignoring
   * case gives 1.0; none gives 0.0.
   */
  method ExactMatch(pred: string, gold: seq<string>) returns (r: real)
    ensures r == 1.0 <==> ExactMatchHit(pred, gold)
    ensures r == 0.0 || r == 1.0
  {
    var p := Strip(pred);
    for i := 0 to |gold|
      invariant forall j :: 0 <= j < i ==> Lower(gold[j]) != Lower(p)
    {
      if Lower(gold[i]) == Lower(p) {
        return 1.0;
      }
    }
    return 0.0;
  }

  /** Lower-casing twice is lower-casing once. */
  lemma LowerIdempotent(s: string)
    ensures Lower(Lower(s)) == Lower(s)
  {
  }

  /**
   * No gold answer, no match; a prediction that is, after stripping, one
   * of the gold answers matches; and case and surrounding blanks of the
   * prediction never matter.
   */
  lemma ExactMatchMeaning(pred: string, gold: seq<string>)
    ensures gold == [] ==> !ExactMatchHit(pred, gold)
    ensures Strip(pred) in gold ==> ExactMatchHit(pred, gold)
    ensures ExactMatchHit(pred, gold) <==> ExactMatchHit(Lower(Strip(pred)), gold)
  {
    if Strip(pred) in gold {
      var i :| 0 <= i < |gold| && gold[i] == Strip(pred);
      assert Lower(gold[i]) == Lower(Strip(pred));
    }
    StripIdempotent(pred);
    LowerStripCommute(Strip(pred));
    LowerIdempotent(Strip(pred));
  }

  /** Lower-casing keeps blanks and never makes one, so it commutes with stripping a stripped text. */
  lemma LowerStripCommute(s: string)
    requires IsStripped(s)
    ensures Strip(Lower(s)) == Lower(s)
  {
    assert forall i :: 0 <= i < |s| ==> (IsSpace(Lower(s)[i]) <==> IsSpace(s[i]));
    StripNoop(s);
    assert IsStripped(Lower(s));
    StripNoop(Lower(s));
  }

  /** Only the prediction is stripped: a gold answer with a leading blank never matches. */
  lemma ExactMatchGoldNotStripped()
    ensures !ExactMatchHit("a", [" a"])
    ensures ExactMatchHit(" A\n", ["a"])
  {
    GoldBlankMisses();
    PaddedPredictionHits();
  }

  lemma GoldBlankMisses()
    ensures !ExactMatchHit("a", [" a"])
  {
    StripNoop("a");
    assert Lower(" a")[0] == ' ';
  }

  lemma PaddedPredictionHits()
    ensures ExactMatchHit(" A\n", ["a"])
  {
    PaddedStripped();
    assert Lower(["a"][0]) == Lower("A");
  }

  lemma PaddedStripped()
    ensures Strip(" A\n") == "A"
  {
    assert LeadingSpaces(" A\n") == 1;
    assert TrailingSpaces(" A\n"[1..]) == 1;
  }

  // ---------------------------------------------------------------------
  // experiments/summarization/metrics/nested_accuracy.py

  /** `NestedAccuracy.score`: accuracy on the labels alone. */
  function NestedAccuracyScore(pred: Output, gold: Output): (r: real)
    ensures r == 1.0 <==> pred.labelText == gold.labelText
    ensures r == 0.0 || r == 1.0
  {
    AccuracyScore(pred.labelText, gold.labelText)
  }

  /** The reasoning never changes the score. */
  lemma NestedAccuracyIgnoresReasoning(pred: Output, gold: Output, why: string, why': string)
    ensures NestedAccuracyScore(pred, gold) == NestedAccuracyScore(pred.(reasoning := why), gold.(reasoning := why'))
  {
  }

  function Labels(outputs: seq<Output>): (r: seq<Option<string>>)
    ensures |r| == |outputs|
    ensures forall i :: 0 <= i < |outputs| ==> r[i] == outputs[i].labelText
  {
    seq(|outputs|, i requires 0 <= i < |outputs| => outputs[i].labelText)
  }

  function NestedAccuracyScores(preds: seq<Output>, golds: seq<Output>): (r: seq<real>)
    requires |preds| == |golds|
    ensures |r| == |preds|
  {
    if preds == [] then [] else [NestedAccuracyScore(preds[0], golds[0])] + NestedAccuracyScores(preds[1..], golds[1..])
  }

  lemma {:induction false} NestedScoresAreLabelScores(preds: seq<Output>, golds: seq<Output>)
    requires |preds| == |golds|
    ensures NestedAccuracyScores(preds, golds) == AccuracyScores(Labels(preds), Labels(golds))
  {
    if preds != [] {
      assert Labels(preds)[1..] == Labels(preds[1..]);
      assert Labels(golds)[1..] == Labels(golds[1..]);
      NestedScoresAreLabelScores(preds[1..], golds[1..]);
    }
  }

  /** The inherited aggregate is the fraction of answers whose label matches. */
  lemma NestedAccuracyAggregate(preds: seq<Output>, golds: seq<Output>)
    requires |preds| == |golds| > 0
    ensures MeanAggregate(NestedAccuracyScores(preds, golds))
      == Some(Matches(Labels(preds), Labels(golds)) as real / |preds| as real)
  {
    NestedScoresAreLabelScores(preds, golds);
    AccuracyAggregate(Labels(preds), Labels(golds));
  }

  // ---------------------------------------------------------------------
  // experiments/summarization/metrics/multi_metrics_wrapper.py

  const AvgScore := "avg_score"

  /**
   * `MultiMetricsWrapper.score`: one entry per named metric, in the order
   * given, then with `compute_avg` the mean of those entries under
   * "avg_score" (a metric of that name is overwritten in place). The mean
   * of no metrics fails, here `None`.
   */
  function MultiScore<Pr, G, X>(metrics: seq<(string, (Pr, G, X) -> real)>, computeAvg: bool, pred: Pr, gold: G, x: X): (r: Option<seq<(string, real)>>)
    ensures r.None? <==> computeAvg && metrics == []
  {
    var scores := SubScores(metrics, pred, gold, x);
    if !computeAvg then Some(scores)
    else if scores == [] then None
    else Some(Put(scores, AvgScore, Mean(Values(scores))))
  }

  /**
   * Every metric other than "avg_score" reads as its own score; with the
   * average, "avg_score" reads as the mean of the metric scores taken before
   * it was inserted, lies between their least and greatest, and is the only
   * key added; without it the keys are the metric names.
   */
  lemma MultiScoreMeaning<Pr, G, X>(metrics: seq<(string, (Pr, G, X) -> real)>, computeAvg: bool, pred: Pr, gold: G, x: X, name: string)
    requires DistinctKeys(metrics)
    requires MultiScore(metrics, computeAvg, pred, gold, x).Some?
    ensures var r := MultiScore(metrics, computeAvg, pred, gold, x).value;
      var scores := SubScores(metrics, pred, gold, x);
      DistinctKeys(r)
      && (name != AvgScore || !computeAvg ==>
            Get(r, name) == match Get(metrics, name) case Some(f) => Some(f(pred, gold, x)) case None => None)
      && (computeAvg ==>
            Get(r, AvgScore) == Some(Mean(Values(scores)))
            && Min(Values(scores)) <= Mean(Values(scores)) <= Max(Values(scores))
            && (name in Keys(r) <==> name in Keys(metrics) || name == AvgScore))
      && (!computeAvg ==> Keys(r) == Keys(metrics))
  {
    var scores := SubScores(metrics, pred, gold, x);
    DistinctKeysIff(metrics);
    DistinctKeysIff(scores);
    SubScoresGet(metrics, pred, gold, x, name);
    if computeAvg {
      PutGet(scores, AvgScore, Mean(Values(scores)), name);
      PutGet(scores, AvgScore, Mean(Values(scores)), AvgScore);
      PutKeys(scores, AvgScore, Mean(Values(scores)), name);
      MeanBetween(Values(scores), Min(Values(scores)), Max(Values(scores)));
    }
  }

  /** The values one column of a data frame has: `name`'s value in each dict that has it, in order. */
  function Present(scores: seq<seq<(string, real)>>, name: string): seq<real>
  {
    if scores == [] then []
    else (match Get(scores[0], name) case Some(v) => [v] case None => []) + Present(scores[1..], name)
  }

  /** Some dict has the key `name`. */
  predicate Has(scores: seq<seq<(string, real)>>, name: string)
  {
    exists i :: 0 <= i < |scores| && name in Keys(scores[i])
  }

  /** Appends the keys not yet seen, in their order. */
  function AddNew(seen: seq<string>, keys: seq<string>): seq<string>
    decreases |keys|
  {
    if keys == [] then seen
    else AddNew(if keys[0] in seen then seen else seen + [keys[0]], keys[1..])
  }

  /** The data frame's columns: every key, in the order of its first appearance. */
  function FirstSeenFrom(seen: seq<string>, scores: seq<seq<(string, real)>>): seq<string>
    decreases |scores|
  {
    if scores == [] then seen else FirstSeenFrom(AddNew(seen, Keys(scores[0])), scores[1..])
  }

  function Columns(scores: seq<seq<(string, real)>>): seq<string>
  {
    FirstSeenFrom([], scores)
  }

  /** One column mean per name. */
  function ColumnMeans(names: seq<string>, scores: seq<seq<(string, real)>>): seq<(string, real)>
    requires forall k :: 0 <= k < |names| ==> Present(scores, names[k]) != []
  {
    if names == [] then [] else [(names[0], Mean(Present(scores, names[0])))] + ColumnMeans(names[1..], scores)
  }

  /**
   * `MultiMetricsWrapper.aggregate`: `pd.DataFrame(scores).mean().to_dict()`,
   * the mean of every column, skipping the dicts that lack that key.
   */
  function MultiAggregate(scores: seq<seq<(string, real)>>): seq<(string, real)>
  {
    ColumnsPresent(scores);
    ColumnMeans(Columns(scores), scores)
  }

  lemma {:induction false} AddNewMembers(seen: seq<string>, keys: seq<string>, x: string)
    ensures x in AddNew(seen, keys) <==> x in seen || x in keys
    ensures Distinct(seen) ==> Distinct(AddNew(seen, keys))
    decreases |keys|
  {
    if keys != [] {
      var next := if keys[0] in seen then seen else seen + [keys[0]];
      AddNewMembers(next, keys[1..], x);
      if Distinct(seen) && keys[0] !in seen {
        DistinctSnoc(seen, keys[0]);
      }
    }
  }

  lemma {:induction false} DistinctSnoc(s: seq<string>, x: string)
    requires Distinct(s) && x !in s
    ensures Distinct(s + [x])
  {
    if s != [] {
      assert (s + [x])[1..] == s[1..] + [x];
      DistinctSnoc(s[1..], x);
    }
  }

  lemma {:induction false} FirstSeenMembers(seen: seq<string>, scores: seq<seq<(string, real)>>, x: string)
    ensures x in FirstSeenFrom(seen, scores) <==> x in seen || Has(scores, x)
    ensures Distinct(seen) ==> Distinct(FirstSeenFrom(seen, scores))
    decreases |scores|
  {
    if scores != [] {
      AddNewMembers(seen, Keys(scores[0]), x);
      FirstSeenMembers(AddNew(seen, Keys(scores[0])), scores[1..], x);
      if Has(scores, x) && x !in Keys(scores[0]) {
        var i :| 0 <= i < |scores| && x in Keys(scores[i]);
        assert x in Keys(scores[1..][i - 1]);
      }
      if Has(scores[1..], x) {
        var i :| 0 <= i < |scores[1..]| && x in Keys(scores[1..][i]);
        assert x in Keys(scores[i + 1]);
      }
    }
  }

  lemma {:induction false} PresentIffHas(scores: seq<seq<(string, real)>>, name: string)
    ensures Present(scores, name) != [] <==> Has(scores, name)
  {
    if scores != [] {
      PresentIffHas(scores[1..], name);
      if Has(scores, name) && name !in Keys(scores[0]) {
        var i :| 0 <= i < |scores| && name in Keys(scores[i]);
        assert name in Keys(scores[1..][i - 1]);
      }
      if Has(scores[1..], name) {
        var i :| 0 <= i < |scores[1..]| && name in Keys(scores[1..][i]);
        assert name in Keys(scores[i + 1]);
      }
    }
  }

  lemma ColumnsPresent(scores: seq<seq<(string, real)>>)
    ensures forall k :: 0 <= k < |Columns(scores)| ==> Present(scores, Columns(scores)[k]) != []
  {
    forall k | 0 <= k < |Columns(scores)|
      ensures Present(scores, Columns(scores)[k]) != []
    {
      FirstSeenMembers([], scores, Columns(scores)[k]);
      PresentIffHas(scores, Columns(scores)[k]);
    }
  }

  lemma {:induction false} ColumnMeansGet(names: seq<string>, scores: seq<seq<(string, real)>>, name: string)
    requires forall k :: 0 <= k < |names| ==> Present(scores, names[k]) != []
    ensures Keys(ColumnMeans(names, scores)) == names
    ensures name in names ==> Get(ColumnMeans(names, scores), name) == Some(Mean(Present(scores, name)))
  {
    if names != [] {
      ColumnMeansGet(names[1..], scores, name);
    }
  }

  /**
   * The aggregate has one entry per key of any score, each key once; each
   * entry is the mean of the values present for that key, so it lies
   * between the least and the greatest of them; no scores give no entries.
   */
  lemma MultiAggregateMeaning(scores: seq<seq<(string, real)>>, name: string)
    ensures Distinct(Keys(MultiAggregate(scores)))
    ensures name in Keys(MultiAggregate(scores)) <==> Has(scores, name)
    ensures scores == [] ==> MultiAggregate(scores) == []
    ensures Has(scores, name) ==>
      var present := Present(scores, name);
      present != [] && Get(MultiAggregate(scores), name) == Some(Mean(present))
      && Min(present) <= Mean(present) <= Max(present)
  {
    ColumnsPresent(scores);
    FirstSeenMembers([], scores, name);
    ColumnMeansGet(Columns(scores), scores, name);
    PresentIffHas(scores, name);
    if Has(scores, name) {
      MeanBetween(Present(scores, name), Min(Present(scores, name)), Max(Present(scores, name)));
    }
  }

  /** A key that every score has is averaged over all of them. */
  lemma {:induction false} PresentEverywhere(scores: seq<seq<(string, real)>>, name: string)
    requires forall i :: 0 <= i < |scores| ==> name in Keys(scores[i])
    ensures |Present(scores, name)| == |scores|
  {
    if scores != [] {
      PresentEverywhere(scores[1..], name);
    }
  }

  /** One `"{metric}: {score:.2f}"` line. */
  function DescriptionLine(entry: (string, real)): string
  {
    entry.0 + ": " + Fixed2(entry.1)
  }

  /** `MultiMetricsWrapper.get_description`: one line per entry, in order. */
  function MultiDescription(result: seq<(string, real)>): string
  {
    Join(Map(result, DescriptionLine), "\n")
  }

  /**
   * Every entry has its line in the description, and a description of one
   * more entry is the earlier description, a line break and the new line.
   */
  lemma MultiDescriptionLines(result: seq<(string, real)>, entry: (string, real), k: nat)
    requires k < |result|
    ensures Contains(MultiDescription(result), DescriptionLine(result[k]))
    ensures MultiDescription(result + [entry]) == MultiDescription(result) + "\n" + DescriptionLine(entry)
  {
    JoinContains(Map(result, DescriptionLine), "\n", k);
    assert Map(result + [entry], DescriptionLine) == Map(result, DescriptionLine) + [DescriptionLine(entry)];
    JoinSnoc(Map(result, DescriptionLine), "\n", DescriptionLine(entry));
  }
}
