/**
 * Which training examples the trainer puts in front of the meta LLM: the
 * few-shot examples of a meta-prompt (`select_few_shot_examples`) and the
 * examples a critique is asked about (the index selection of
 * `update_critique`). Python's `random` module is an arbitrary stream
 * `rand: nat -> nat` read from position `t`.
 */
module TrainerSelect {
  import opened Wrappers
  import opened Assoc
  import opened Floats
  import opened Metrics
  import opened TrainerOrder
  import opened TrainerHistory
  import Text
  import Render

  // ---------------------------------------------------------------------
  // Few-shot examples

  /** `few_shot_selection_criteria`; every string other than the first two selects the last. */
  datatype FewShotCriteria = RandomExamples | CurrentLowestScore | AccumulativeLowestScore

  /** One training example's scores: one per prompt evaluated (this round, or so far). */
  type Row = seq<FloatDict>

  /** `sum(row)`: a `FloatDict` adds up as its value. */
  function RowSum(row: Row): real
  {
    if row == [] then 0.0 else RowSum(row[..|row| - 1]) + row[|row| - 1].value
  }

  /** Sorting best-first on the negated sum is sorting by increasing sum. */
  function LowSumFirst(p: (nat, Row)): real
  {
    -RowSum(p.1)
  }

  function Fst(p: (nat, Row)): int
  {
    p.0
  }

  /** `sorted(enumerate(rows), key=lambda x: sum(x[1]))`, a stable sort. */
  function SortedRows(rows: seq<Row>): seq<(nat, Row)>
  {
    SortDesc(Render.Enumerate(rows), LowSumFirst)
  }

  /** The indices of the first `k` rows of that order (`[:k]`, so a negative `k` drops from the end). */
  function LowestRows(rows: seq<Row>, k: int): seq<nat>
  {
    Keys(Text.Take(SortedRows(rows), k))
  }

  /**
   * The few-shot example indices, or `None` where `random.sample` raises
   * `ValueError` (a sample larger than the population, or negative).
   * `k == 0` selects nothing.
   */
  function FewShotIndices(criteria: FewShotCriteria, k: int, n: nat, stepRows: seq<Row>, runRows: seq<Row>,
                          rand: nat -> nat, t: nat): Option<seq<nat>>
  {
    if k == 0 then Some([])
    else
      match criteria
      case RandomExamples => if k < 0 || k > n then None else Some(Draw<nat>(Range(n), k, rand, t))
      case CurrentLowestScore => Some(LowestRows(stepRows, k))
      case AccumulativeLowestScore => Some(LowestRows(runRows, k))
  }

  /**
   * `select_few_shot_examples`: the training examples at those indices. Both
   * score tables hold one row per training example.
   */
  function FewShotExamples<E>(train: seq<E>, criteria: FewShotCriteria, k: int, stepRows: seq<Row>, runRows: seq<Row>,
                              rand: nat -> nat, t: nat): (r: Option<seq<E>>)
    requires |stepRows| == |train| && |runRows| == |train|
    ensures r.None? <==> FewShotIndices(criteria, k, |train|, stepRows, runRows, rand, t).None?
    ensures r.Some? ==> var ix := FewShotIndices(criteria, k, |train|, stepRows, runRows, rand, t).value;
                        |r.value| == |ix| && forall a :: 0 <= a < |ix| ==> ix[a] < |train| && r.value[a] == train[ix[a]]
  {
    match FewShotIndices(criteria, k, |train|, stepRows, runRows, rand, t)
    case None => None
    case Some(ix) =>
      FewShotIndicesInRange(criteria, k, |train|, stepRows, runRows, rand, t);
      Some(seq(|ix|, a requires 0 <= a < |ix| => train[ix[a]]))
  }

  lemma FewShotIndicesInRange(criteria: FewShotCriteria, k: int, n: nat, stepRows: seq<Row>, runRows: seq<Row>,
                              rand: nat -> nat, t: nat)
    requires |stepRows| == n && |runRows| == n
    requires FewShotIndices(criteria, k, n, stepRows, runRows, rand, t).Some?
    ensures var ix := FewShotIndices(criteria, k, n, stepRows, runRows, rand, t).value;
            forall a :: 0 <= a < |ix| ==> ix[a] < n
  {
    if k != 0 {
      match criteria
      case RandomExamples => DrawnIndices(n, k, rand, t);
      case CurrentLowestScore => LowestRowsChosen(stepRows, k);
      case AccumulativeLowestScore => LowestRowsChosen(runRows, k);
    }
  }

  /** A sample of `k` of the indices below `n` holds `k` different indices. */
  lemma DrawnIndices(n: nat, k: nat, rand: nat -> nat, t: nat)
    requires k <= n
    ensures var r := Draw<nat>(Range(n), k, rand, t);
            |r| == k && Distinct<nat>(r) && forall a :: 0 <= a < |r| ==> r[a] < n
  {
    var r := Draw<nat>(Range(n), k, rand, t);
    RangeDistinct(n);
    SubMultisetDistinct<nat>(r, Range(n));
    forall a | 0 <= a < |r|
      ensures r[a] < n
    {
      assert r[a] in multiset(Range(n));
      var c :| 0 <= c < n && Range(n)[c] == r[a];
    }
  }

  /** Every element of the sorted rows is an index paired with its own row. */
  lemma SortedRowsEntries(rows: seq<Row>, x: (nat, Row))
    requires x in SortedRows(rows)
    ensures x.0 < |rows| && x.1 == rows[x.0]
  {
    var e := Render.Enumerate(rows);
    assert x in multiset(e);
    var c :| 0 <= c < |e| && e[c] == x;
  }

  /** The sorted rows run by increasing sum, equal sums by increasing index. */
  lemma SortedRowsRanked(rows: seq<Row>)
    ensures Ranked(SortedRows(rows), LowSumFirst, Fst)
  {
    SortDescRanked<(nat, Row)>(Render.Enumerate(rows), LowSumFirst, Fst);
  }

  /** The `a`-th chosen index is the index of the `a`-th sorted row. */
  lemma LowestRowsAt(rows: seq<Row>, k: int, a: nat)
    requires a < |LowestRows(rows, k)|
    ensures var s := SortedRows(rows);
            a < |s| && LowestRows(rows, k)[a] == s[a].0 && s[a].0 < |rows| && s[a].1 == rows[s[a].0]
  {
    var s := SortedRows(rows);
    var p := Text.Take(s, k);
    Text.TakePrefix(s, k);
    KeysAt(p, a);
    assert p[a] == s[a];
    SortedRowsEntries(rows, s[a]);
  }

  /** An index that is not chosen belongs to a row sorted after every chosen one. */
  lemma LowestRowsLeftOut(rows: seq<Row>, k: int, a: nat, j: nat)
    requires a < |LowestRows(rows, k)| && j < |rows| && j !in LowestRows(rows, k)
    ensures Precedes(SortedRows(rows)[a], (j, rows[j]), LowSumFirst, Fst)
  {
    var s := SortedRows(rows);
    var r := LowestRows(rows, k);
    var p := Text.Take(s, k);
    var m := |p|;
    Text.TakePrefix(s, k);
    SortedRowsRanked(rows);
    var e := Render.Enumerate(rows);
    assert e[j] == (j, rows[j]);
    assert (j, rows[j]) in multiset(s);
    assert (j, rows[j]) !in p by {
      forall c | 0 <= c < m
        ensures p[c] != (j, rows[j])
      {
        KeysAt(p, c);
      }
    }
    assert p[a] == s[a];
    PrefixPrecedesRest<(nat, Row)>(s, m, LowSumFirst, Fst, s[a], (j, rows[j]));
  }

  /**
   * The lowest-score selection: `min(k, n)` different indices below `n`, in
   * increasing order of their row sums, and every index left out has a
   * larger sum than each chosen one, or the same sum and a larger index.
   */
  lemma LowestRowsChosen(rows: seq<Row>, k: int)
    ensures var r := LowestRows(rows, k);
            && (k >= 0 ==> |r| == if k < |rows| then k else |rows|)
            && Distinct<nat>(r)
            && (forall a :: 0 <= a < |r| ==> r[a] < |rows|)
            && (forall a, b :: 0 <= a < b < |r| ==> RowSum(rows[r[a]]) <= RowSum(rows[r[b]]))
            && (forall i, j :: i in r && 0 <= j < |rows| && j !in r ==>
                  RowSum(rows[i]) < RowSum(rows[j]) || (RowSum(rows[i]) == RowSum(rows[j]) && i < j))
  {
    var s := SortedRows(rows);
    var r := LowestRows(rows, k);
    Text.TakePrefix(s, k);
    SortedRowsRanked(rows);
    forall a | 0 <= a < |r|
      ensures r[a] < |rows|
    {
      LowestRowsAt(rows, k, a);
    }
    forall a, b | 0 <= a < b < |r|
      ensures r[a] != r[b] && RowSum(rows[r[a]]) <= RowSum(rows[r[b]])
    {
      LowestRowsAt(rows, k, a);
      LowestRowsAt(rows, k, b);
      assert Precedes(s[a], s[b], LowSumFirst, Fst);
    }
    DistinctPairwise<nat>(r);
    forall i, j | i in r && 0 <= j < |rows| && j !in r
      ensures RowSum(rows[i]) < RowSum(rows[j]) || (RowSum(rows[i]) == RowSum(rows[j]) && i < j)
    {
      var a :| 0 <= a < |r| && r[a] == i;
      LowestRowsAt(rows, k, a);
      LowestRowsLeftOut(rows, k, a, j);
    }
  }

  /** With a random criterion the sample is exactly `k` different indices, and too large a `k` fails. */
  lemma FewShotRandom(k: int, n: nat, stepRows: seq<Row>, runRows: seq<Row>, rand: nat -> nat, t: nat)
    requires k != 0
    ensures var r := FewShotIndices(RandomExamples, k, n, stepRows, runRows, rand, t);
            && (r.None? <==> k < 0 || k > n)
            && (r.Some? ==> |r.value| == k && Distinct<nat>(r.value) && forall a :: 0 <= a < k ==> r.value[a] < n)
  {
    if 0 < k <= n {
      DrawnIndices(n, k, rand, t);
    }
  }

  // ---------------------------------------------------------------------
  // Critique examples

  /** `critique_example_selection_criteria`; every string other than "random" sorts by score. */
  datatype CritiqueCriteria = RandomCritique | LowestScore

  /** `metric.key(scores[i])`, where it is defined. */
  function KeyAt<Pr, G, X>(metric: Metric<Pr, G, X>, scores: seq<FloatDict>, i: nat): real
  {
    if i < |scores| then ScoreKey(metric, scores[i]) else 0.0
  }

  /** Best-first on the negated key is increasing key order. */
  function LowKeyFirst<Pr, G, X>(metric: Metric<Pr, G, X>, scores: seq<FloatDict>): nat -> real
  {
    (i: nat) => -KeyAt(metric, scores, i)
  }

  function Index(i: nat): int
  {
    i
  }

  /** `metric.key` is evaluated on every score: by the sort, or by the ceiling filter. */
  predicate NeedsKeys(criteria: CritiqueCriteria, ceiling: Option<real>)
  {
    criteria == LowestScore || ceiling.Some?
  }

  predicate AllKeyed<Pr, G, X>(metric: Metric<Pr, G, X>, scores: seq<FloatDict>)
  {
    forall i :: 0 <= i < |scores| ==> metric.KeyDefined(scores[i])
  }

  /** Index `i` passes the ceiling `max_score_of_example_in_critique`. */
  function UnderCeiling<Pr, G, X>(metric: Metric<Pr, G, X>, scores: seq<FloatDict>, ceiling: Option<real>): nat -> bool
  {
    (i: nat) => ceiling.None? || KeyAt(metric, scores, i) < ceiling.value
  }

  /** All indices, shuffled or by increasing key (ties by index), before the ceiling. */
  function CritiqueOrder<Pr, G, X>(metric: Metric<Pr, G, X>, scores: seq<FloatDict>, criteria: CritiqueCriteria,
                                   rand: nat -> nat, t: nat): seq<nat>
  {
    match criteria
    case RandomCritique => Draw<nat>(Range(|scores|), |scores|, rand, t)
    case LowestScore => SortDesc<nat>(Range(|scores|), LowKeyFirst(metric, scores))
  }

  /**
   * The indices of the examples shown to the critic: the order, without those
   * at or above the ceiling, cut to the first `num` (`[:num]`). `None` is the
   * `KeyError` of `metric.key` on a score without the primary part.
   */
  function CritiqueIndices<Pr, G, X>(metric: Metric<Pr, G, X>, scores: seq<FloatDict>, criteria: CritiqueCriteria,
                                     ceiling: Option<real>, num: int, rand: nat -> nat, t: nat): Option<seq<nat>>
  {
    if NeedsKeys(criteria, ceiling) && !AllKeyed(metric, scores) then None
    else
      var order: seq<nat> := CritiqueOrder(metric, scores, criteria, rand, t);
      var eligible: seq<nat> := if ceiling.Some? then Filter<nat>(order, UnderCeiling(metric, scores, ceiling)) else order;
      Some(Text.Take<nat>(eligible, num))
  }

  /** The order holds every index below `n` exactly once, whatever the criterion. */
  lemma CritiqueOrderPermutes<Pr, G, X>(metric: Metric<Pr, G, X>, scores: seq<FloatDict>, criteria: CritiqueCriteria,
                                        rand: nat -> nat, t: nat)
    ensures multiset(CritiqueOrder(metric, scores, criteria, rand, t)) == multiset(Range(|scores|))
  {
    if criteria == RandomCritique {
      SameSizeSubMultiset(Draw<nat>(Range(|scores|), |scores|, rand, t), Range(|scores|));
    }
  }

  /**
   * The cut `[:num]` of a duplicate-free list of the indices below `n` that
   * pass `keep`: at most `num` of them, each once, and all of them when `num`
   * leaves room.
   */
  lemma CutOfEligible(eligible: seq<nat>, n: nat, keep: nat -> bool, num: int)
    requires multiset(eligible) <= multiset(Range(n))
    requires forall i: nat :: i in eligible <==> i < n && keep(i)
    ensures var r := Text.Take(eligible, num);
            && (num >= 0 ==> |r| <= num)
            && Distinct<nat>(r)
            && (forall a :: 0 <= a < |r| ==> r[a] < n && keep(r[a]))
            && (num >= n ==> forall i: nat :: i < n && keep(i) ==> i in r)
  {
    var r := Text.Take(eligible, num);
    var m := |r|;
    Text.TakePrefix(eligible, num);
    PrefixSubMultiset(eligible, m);
    RangeDistinct(n);
    SubMultisetDistinct<nat>(r, Range(n));
    SubMultisetLength(eligible, Range(n));
    forall a | 0 <= a < m
      ensures r[a] < n && keep(r[a])
    {
      assert r[a] in eligible;
    }
  }

  /** Every index below `n`, and only those, is in the order. */
  lemma CritiqueOrderMembers<Pr, G, X>(metric: Metric<Pr, G, X>, scores: seq<FloatDict>, criteria: CritiqueCriteria,
                                       rand: nat -> nat, t: nat)
    ensures forall i: nat :: i in CritiqueOrder(metric, scores, criteria, rand, t) <==> i < |scores|
  {
    var order := CritiqueOrder(metric, scores, criteria, rand, t);
    CritiqueOrderPermutes(metric, scores, criteria, rand, t);
    forall i: nat
      ensures i in order <==> i < |scores|
    {
      if i < |scores| {
        assert Range(|scores|)[i] == i;
      }
      assert i in order <==> i in multiset(Range(|scores|));
    }
  }

  /**
   * What the critic sees: `KeyError` exactly when a key is needed and missing;
   * otherwise at most `num` different indices, every one below `n` and under
   * the ceiling, and every index under the ceiling is shown when `num` leaves
   * room for all of them.
   */
  lemma CritiqueIndicesChosen<Pr, G, X>(metric: Metric<Pr, G, X>, scores: seq<FloatDict>, criteria: CritiqueCriteria,
                                        ceiling: Option<real>, num: int, rand: nat -> nat, t: nat)
    ensures var r := CritiqueIndices(metric, scores, criteria, ceiling, num, rand, t);
            && (r.None? <==> NeedsKeys(criteria, ceiling) && !AllKeyed(metric, scores))
            && (r.Some? ==>
                  && (num >= 0 ==> |r.value| <= num)
                  && Distinct<nat>(r.value)
                  && (forall a :: 0 <= a < |r.value| ==> r.value[a] < |scores|)
                  && (ceiling.Some? ==> forall a :: 0 <= a < |r.value| ==> metric.Key(scores[r.value[a]]) < ceiling.value)
                  && (num >= |scores| ==> forall i :: 0 <= i < |scores| && UnderCeiling(metric, scores, ceiling)(i) ==> i in r.value))
  {
    if !(NeedsKeys(criteria, ceiling) && !AllKeyed(metric, scores)) {
      var keep := UnderCeiling(metric, scores, ceiling);
      var order: seq<nat> := CritiqueOrder(metric, scores, criteria, rand, t);
      CritiqueOrderPermutes(metric, scores, criteria, rand, t);
      CritiqueOrderMembers(metric, scores, criteria, rand, t);
      var eligible: seq<nat> := if ceiling.Some? then Filter<nat>(order, keep) else order;
      assert multiset(eligible) <= multiset(Range(|scores|));
      CutOfEligible(eligible, |scores|, keep, num);
      var r := Text.Take(eligible, num);
      if ceiling.Some? {
        forall a | 0 <= a < |r|
          ensures metric.Key(scores[r[a]]) < ceiling.value
        {
          assert keep(r[a]);
          assert KeyAt(metric, scores, r[a]) == metric.Key(scores[r[a]]);
        }
      }
    }
  }

  /** A cut of a ranked list: the best come first, and each one kept precedes each one cut off. */
  lemma RankedCut(eligible: seq<nat>, key: nat -> real, num: int)
    requires Ranked(eligible, key, Index)
    ensures var r := Text.Take(eligible, num);
            && (forall a, b :: 0 <= a < b < |r| ==> key(r[a]) >= key(r[b]))
            && (forall i: nat, j: nat :: i in r && j in eligible && j !in r ==> Precedes<nat>(i, j, key, Index))
  {
    var r := Text.Take(eligible, num);
    Text.TakePrefix(eligible, num);
    forall a, b | 0 <= a < b < |r|
      ensures key(r[a]) >= key(r[b])
    {
      assert Precedes<nat>(eligible[a], eligible[b], key, Index);
    }
    forall i: nat, j: nat | i in r && j in eligible && j !in r
      ensures Precedes<nat>(i, j, key, Index)
    {
      PrefixPrecedesRest<nat>(eligible, |r|, key, Index, i, j);
    }
  }

  lemma PrecedesLowKey<Pr, G, X>(metric: Metric<Pr, G, X>, scores: seq<FloatDict>, i: nat, j: nat)
    requires Precedes<nat>(i, j, LowKeyFirst(metric, scores), Index)
    ensures KeyAt(metric, scores, i) < KeyAt(metric, scores, j)
            || (KeyAt(metric, scores, i) == KeyAt(metric, scores, j) && i < j)
  {
  }

  /**
   * The lowest-score criterion shows the lowest-keyed eligible examples:
   * keys increase along the selection, and every eligible index left out has
   * a larger key than each shown one, or the same key and a larger index.
   */
  lemma CritiqueLowestFirst<Pr, G, X>(metric: Metric<Pr, G, X>, scores: seq<FloatDict>, ceiling: Option<real>,
                                      num: int, rand: nat -> nat, t: nat)
    requires AllKeyed(metric, scores)
    ensures var r := CritiqueIndices(metric, scores, LowestScore, ceiling, num, rand, t).value;
            && (forall a, b :: 0 <= a < b < |r| ==> KeyAt(metric, scores, r[a]) <= KeyAt(metric, scores, r[b]))
            && (forall i, j :: i in r && 0 <= j < |scores| && UnderCeiling(metric, scores, ceiling)(j) && j !in r ==>
                  KeyAt(metric, scores, i) < KeyAt(metric, scores, j)
                  || (KeyAt(metric, scores, i) == KeyAt(metric, scores, j) && i < j))
  {
    var eligible := LowestEligible(metric, scores, ceiling);
    LowestEligibleRanked(metric, scores, ceiling, num, rand, t);
    RankedCut(eligible, LowKeyFirst(metric, scores), num);
    var r := Text.Take(eligible, num);
    forall i: nat, j: nat | i in r && j < |scores| && UnderCeiling(metric, scores, ceiling)(j) && j !in r
      ensures KeyAt(metric, scores, i) < KeyAt(metric, scores, j)
              || (KeyAt(metric, scores, i) == KeyAt(metric, scores, j) && i < j)
    {
      PrecedesLowKey(metric, scores, i, j);
    }
  }

  /** The indices the lowest-score criterion chooses from, in order, before the cut. */
  function LowestEligible<Pr, G, X>(metric: Metric<Pr, G, X>, scores: seq<FloatDict>, ceiling: Option<real>): seq<nat>
  {
    var order: seq<nat> := SortDesc<nat>(Range(|scores|), LowKeyFirst(metric, scores));
    if ceiling.Some? then Filter(order, UnderCeiling(metric, scores, ceiling)) else order
  }

  /** The eligible list is ranked by increasing key and holds every index under the ceiling. */
  lemma LowestEligibleRanked<Pr, G, X>(metric: Metric<Pr, G, X>, scores: seq<FloatDict>, ceiling: Option<real>,
                                       num: int, rand: nat -> nat, t: nat)
    requires AllKeyed(metric, scores)
    ensures var eligible := LowestEligible(metric, scores, ceiling);
            && CritiqueIndices(metric, scores, LowestScore, ceiling, num, rand, t) == Some(Text.Take(eligible, num))
            && Ranked(eligible, LowKeyFirst(metric, scores), Index)
            && forall j: nat :: j < |scores| && UnderCeiling(metric, scores, ceiling)(j) ==> j in eligible
  {
    var key := LowKeyFirst(metric, scores);
    var order: seq<nat> := SortDesc<nat>(Range(|scores|), key);
    SortDescRanked<nat>(Range(|scores|), key, Index);
    assert order == CritiqueOrder(metric, scores, LowestScore, rand, t);
    CritiqueOrderMembers(metric, scores, LowestScore, rand, t);
    FilterRanked<nat>(order, UnderCeiling(metric, scores, ceiling), key, Index);
  }

  /**
   * The predictions and examples handed to the critique prompt: the ones at
   * the selected indices, pairwise aligned. This is only the gathering step;
   * which indices are selected, and why, is the contract of
   * `CritiqueIndicesChosen`.
   */
  function CritiqueExamples<P, E>(indices: seq<nat>, predictions: seq<P>, train: seq<E>): (r: (seq<P>, seq<E>))
    requires forall a :: 0 <= a < |indices| ==> indices[a] < |predictions| && indices[a] < |train|
    ensures |r.0| == |indices| == |r.1|
    ensures forall a :: 0 <= a < |indices| ==> r.0[a] == predictions[indices[a]] && r.1[a] == train[indices[a]]
  {
    (seq(|indices|, a requires 0 <= a < |indices| => predictions[indices[a]]),
     seq(|indices|, a requires 0 <= a < |indices| => train[indices[a]]))
  }
}
