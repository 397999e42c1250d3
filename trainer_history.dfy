/**
 * crispo/trainer/trainer.py, the prompt history: `prompt_score_pairs` maps
 * each prompt evaluated so far to its score. It is kept best first
 * (`sort_prompts_best_to_worst`), the best ones are shown to the optimizer
 * (`fill_in_meta_prompt`), and under a `MetricDict` whose primary is "rank"
 * every stored score is re-ranked after each evaluation (`evaluate`).
 */
module TrainerHistory {
  import opened Wrappers
  import opened Assoc
  import opened Floats
  import opened Metrics
  import opened Formatting
  import opened TrainerOrder
  import Text

  /** Each prompt with its score, in insertion order; prompts are distinct. */
  type History = seq<(string, FloatDict)>

  /** `metric.key(score)`, read only for scores that carry the primary part. */
  function ScoreKey<Pr, G, X>(metric: Metric<Pr, G, X>, s: FloatDict): real
  {
    if metric.KeyDefined(s) then metric.Key(s) else 0.0
  }

  /** Every stored score can be passed to `metric.key` without a `KeyError`. */
  predicate Keyed<Pr, G, X>(metric: Metric<Pr, G, X>, d: History)
  {
    forall i :: 0 <= i < |d| ==> metric.KeyDefined(d[i].1)
  }

  // ---------------------------------------------------------------------
  // sort_prompts_best_to_worst

  /** `dict(sorted(d.items(), key=lambda x: metric.key(x[1]), reverse=True))`. */
  function SortBestToWorst<Pr, G, X>(metric: Metric<Pr, G, X>, d: History): (r: History)
    ensures multiset(r) == multiset(d)
  {
    SortDesc(d, (e: (string, FloatDict)) => ScoreKey(metric, e.1))
  }

  /** The sorted history is best first by `metric.key`, and every score in it still has a key. */
  lemma SortBestToWorstOrder<Pr, G, X>(metric: Metric<Pr, G, X>, d: History)
    requires Keyed(metric, d)
    ensures var r := SortBestToWorst(metric, d);
      Keyed(metric, r)
      && forall a, b :: 0 <= a < b < |r| ==> metric.Key(r[a].1) >= metric.Key(r[b].1)
  {
    var key := (e: (string, FloatDict)) => ScoreKey(metric, e.1);
    var r := SortBestToWorst(metric, d);
    SortDescOrdered(d, key);
    forall i | 0 <= i < |r|
      ensures metric.KeyDefined(r[i].1)
    {
      assert r[i] in multiset(d);
    }
  }

  /** The best entry comes first. */
  lemma SortBestToWorstBestFirst<Pr, G, X>(metric: Metric<Pr, G, X>, d: History)
    requires Keyed(metric, d) && d != []
    ensures var r := SortBestToWorst(metric, d);
      Keyed(metric, r) && forall i :: 0 <= i < |d| ==> metric.Key(d[i].1) <= metric.Key(r[0].1)
  {
    var r := SortBestToWorst(metric, d);
    SortBestToWorstOrder(metric, d);
    forall i | 0 <= i < |d|
      ensures metric.Key(d[i].1) <= metric.Key(r[0].1)
    {
      assert d[i] in multiset(r);
      var j :| 0 <= j < |r| && r[j] == d[i];
      assert j == 0 || metric.Key(r[0].1) >= metric.Key(r[j].1);
    }
  }

  /** Sorting keeps the dictionary: the same keys, still distinct, each with the same score. */
  lemma SortBestToWorstEntries<Pr, G, X>(metric: Metric<Pr, G, X>, d: History)
    requires DistinctKeys(d)
    ensures DistinctKeys(SortBestToWorst(metric, d))
    ensures forall k :: Get(SortBestToWorst(metric, d), k) == Get(d, k)
  {
    var key := (e: (string, FloatDict)) => ScoreKey(metric, e.1);
    var r := SortBestToWorst(metric, d);
    SortKeys(d, key);
    forall k
      ensures Get(r, k) == Get(d, k)
    {
      if Get(r, k).Some? {
        GetStored(r, k);
        assert (k, Get(r, k).value) in multiset(d);
        GetMember(d, k, Get(r, k).value);
      }
    }
  }

  /** Prompts with equal keys keep the order in which they were first evaluated. */
  lemma SortBestToWorstStable<Pr, G, X>(metric: Metric<Pr, G, X>, d: History, v: real)
    ensures var key := (e: (string, FloatDict)) => ScoreKey(metric, e.1);
      WithKey(SortBestToWorst(metric, d), key, v) == WithKey(d, key, v)
  {
    SortDescStable(d, (e: (string, FloatDict)) => ScoreKey(metric, e.1), v);
  }

  /** Re-sorting the sorted history, as every round does, changes nothing. */
  lemma SortBestToWorstIdempotent<Pr, G, X>(metric: Metric<Pr, G, X>, d: History)
    ensures SortBestToWorst(metric, SortBestToWorst(metric, d)) == SortBestToWorst(metric, d)
  {
    SortDescIdempotent(d, (e: (string, FloatDict)) => ScoreKey(metric, e.1));
  }

  lemma {:induction false} MemberKey<K, V>(s: seq<(K, V)>, k: K, v: V)
    ensures (k, v) in s ==> k in Keys(s)
  {
    if s != [] {
      assert s == [s[0]] + s[1..];
      MemberKey(s[1..], k, v);
    }
  }

  /** In a dictionary, a stored entry is what a lookup of its key returns. */
  lemma {:induction false} GetMember<K, V>(d: seq<(K, V)>, k: K, v: V)
    requires DistinctKeys(d) && (k, v) in d
    ensures Get(d, k) == Some(v)
  {
    assert d == [d[0]] + d[1..];
    if d[0].0 == k {
      MemberKey(d[1..], k, v);
    } else {
      GetMember(d[1..], k, v);
    }
  }

  // ---------------------------------------------------------------------
  // fill_in_meta_prompt: the prompts shown to the optimizer

  function Reversed<T>(s: seq<T>): (r: seq<T>)
    ensures |r| == |s| && forall i :: 0 <= i < |s| ==> r[i] == s[|s| - 1 - i]
  {
    seq(|s|, i requires 0 <= i < |s| => s[|s| - 1 - i])
  }

  /** `list(reversed(d.items()))[-n:]` on the best-first history. */
  function Promising<T>(sorted: seq<T>, n: int): (r: seq<T>)
  {
    Text.Drop(Reversed(sorted), -n)
  }

  /**
   * The window holds the best entries, the worst of them first and the best
   * last: `n` of them for a positive `n` (all if there are fewer), all of them
   * for `n == 0`, and all but the `-n` worst for a negative `n`.
   */
  lemma PromisingBest<T>(sorted: seq<T>, n: int)
    ensures var r := Promising(sorted, n);
      r == Reversed(sorted[..|r|])
      && (n == 0 || n >= |sorted| ==> |r| == |sorted|)
      && (0 < n < |sorted| ==> |r| == n)
      && (n < 0 ==> |r| == if |sorted| + n > 0 then |sorted| + n else 0)
  {
    var r := Promising(sorted, n);
    var rev := Reversed(sorted);
    var m := |rev| - |r|;
    assert r == rev[m..];
    forall i | 0 <= i < |r|
      ensures r[i] == Reversed(sorted[..|r|])[i]
    {
      assert r[i] == rev[m + i];
    }
  }

  /** The window's `i`-th entry is the `i`-th before the last one it takes from the front of the list. */
  lemma PromisingAt<T>(sorted: seq<T>, n: int)
    ensures var r := Promising(sorted, n);
      forall i :: 0 <= i < |r| ==> r[i] == sorted[|r| - 1 - i]
  {
    var r := Promising(sorted, n);
    PromisingBest(sorted, n);
    var m := |r|;
    forall i | 0 <= i < m
      ensures r[i] == sorted[m - 1 - i]
    {
      assert r[i] == Reversed(sorted[..m])[i] == sorted[..m][m - 1 - i];
    }
  }

  /** The prompt shown last is the best one. */
  lemma PromisingEndsWithBest<T>(sorted: seq<T>, n: int)
    requires Promising(sorted, n) != []
    ensures Promising(sorted, n)[|Promising(sorted, n)| - 1] == sorted[0]
  {
    PromisingBest(sorted, n);
  }

  /**
   * `(prompt, metric.get_description(score))` when the metric describes its
   * scores, else the prompt with its score as a number.
   */
  function ShownScore(describe: Option<FloatDict -> string>, s: FloatDict): Rating
  {
    match describe
    case Some(f) => StrScore(f(s))
    case None => FloatScore(s.value)
  }

  function Shown(describe: Option<FloatDict -> string>, window: History): (r: seq<(string, Rating)>)
    ensures |r| == |window|
    ensures forall i :: 0 <= i < |window| ==> r[i] == (window[i].0, ShownScore(describe, window[i].1))
  {
    if window == [] then [] else [(window[0].0, ShownScore(describe, window[0].1))] + Shown(describe, window[1..])
  }

  /** `[critiques.get(p, None) for p, _ in window]`: aligned with the window, `None` where a prompt has none. */
  function CritiquesFor<S>(window: seq<(string, S)>, critiques: seq<(string, string)>): (r: seq<Option<string>>)
    ensures |r| == |window|
    ensures forall i :: 0 <= i < |window| ==> r[i] == Get(critiques, window[i].0)
  {
    if window == [] then [] else [Get(critiques, window[0].0)] + CritiquesFor(window[1..], critiques)
  }

  /** The window as the meta-prompt shows it: the `i`-th pair and critique are those of the `i`-th best from the end. */
  lemma WindowShown(describe: Option<FloatDict -> string>, sorted: History, critiques: seq<(string, string)>, n: int)
    ensures var w := Promising(sorted, n);
      var pairs, shown := Shown(describe, w), CritiquesFor(w, critiques);
      |pairs| == |w| && |shown| == |w|
      && forall i :: 0 <= i < |w| ==>
           pairs[i] == (sorted[|w| - 1 - i].0, ShownScore(describe, sorted[|w| - 1 - i].1))
           && shown[i] == Get(critiques, sorted[|w| - 1 - i].0)
  {
    PromisingAt(sorted, n);
  }

  // ---------------------------------------------------------------------
  // evaluate: re-ranking under a "rank" primary

  /** Re-ranking happens after every evaluation with a `MetricDict` whose primary is "rank". */
  predicate RankMode<Pr, G, X>(metric: Metric<Pr, G, X>)
  {
    metric.Dict? && metric.primary == Some("rank")
  }

  /** A stored score after `prompt_scores.scores.pop("rank", None)`. */
  function Unranked(s: FloatDict): FloatDict
  {
    FloatDict(s.value, Pop(s.scores, "rank"))
  }

  function UnrankedAll(d: History): (u: seq<FloatDict>)
    ensures |u| == |d| && forall i :: 0 <= i < |d| ==> u[i] == Unranked(d[i].1)
  {
    if d == [] then [] else UnrankedAll(d[..|d| - 1]) + [Unranked(d[|d| - 1].1)]
  }

  /** `names` followed by those of `more` not seen before, in order. */
  function AddNew(names: seq<string>, more: seq<string>): (r: seq<string>)
    ensures forall n :: n in r <==> n in names || n in more
    ensures Distinct(names) ==> Distinct(r)
    decreases |more|
  {
    if more == [] then names
    else if more[0] in names then AddNew(names, more[1..])
    else
      var r := AddNew(names + [more[0]], more[1..]);
      assert Distinct(names) ==> Distinct(names + [more[0]]) by {
        if Distinct(names) {
          DistinctCounts(names);
          DistinctCounts(names + [more[0]]);
          assert multiset(names + [more[0]]) == multiset(names) + multiset{more[0]};
        }
      }
      r
  }

  /** The keys of `metric_scores`: every part name, in order of first appearance. */
  function PartNames(u: seq<FloatDict>): (names: seq<string>)
    ensures Distinct(names)
    ensures forall n :: n in names <==> exists i :: 0 <= i < |u| && n in Keys(u[i].scores)
  {
    if u == [] then []
    else
      var front := u[..|u| - 1];
      var names := AddNew(PartNames(front), Keys(u[|u| - 1].scores));
      assert forall i :: 0 <= i < |front| ==> front[i] == u[i];
      names
  }

  /**
   * `sorted(scores, key=metric[name].key, reverse=True).index(v)`: where the
   * value stands among all values of its part, best first. Sub-metrics score
   * plain numbers, so their key is the number itself.
   */
  function Position(col: seq<real>, v: real): nat
    requires v in col
  {
    assert v in multiset(SortDesc(col, Identity));
    IndexOf(SortDesc(col, Identity), v)
  }

  /** The position is the number of strictly better values: equal values share the best of their places. */
  lemma PositionCountsBetter(col: seq<real>, v: real)
    requires v in col
    ensures Position(col, v) == CountAbove(col, v) < |col|
  {
    var sorted := SortDesc(col, Identity);
    assert v in multiset(sorted);
    SortDescOrdered(col, Identity);
    IndexOfSorted(sorted, v);
    CountAboveSort(col, Identity, v);
  }

  /**
   * The position of one part of an unranked score; `None` stands for the
   * `KeyError` of a part the score lacks or a name with no sub-metric.
   */
  function RankPart<Pr, G, X>(metric: Metric<Pr, G, X>, u: seq<FloatDict>, e: FloatDict, name: string): Option<real>
    requires metric.Dict?
  {
    if metric.SubMetric(name).None? then None
    else
      match e.Get(name)
      case None => None
      case Some(v) =>
        var col := Column(u, name);
        if v in col then Some(Position(col, v) as real) else None
  }

  /** `ranks`: one position per part name, in the order of `names`. */
  function RankParts<Pr, G, X>(metric: Metric<Pr, G, X>, u: seq<FloatDict>, e: FloatDict, names: seq<string>): (r: Option<seq<real>>)
    requires metric.Dict?
    ensures r.Some? ==> |r.value| == |names|
  {
    if names == [] then Some([])
    else
      match RankParts(metric, u, e, names[..|names| - 1])
      case None => None
      case Some(ranks) =>
        match RankPart(metric, u, e, names[|names| - 1])
        case None => None
        case Some(p) => Some(ranks + [p])
  }

  /** `statistics.mean(ranks) if ranks else 0`. */
  function MeanRank(ranks: seq<real>): real
  {
    if ranks == [] then 0.0 else Mean(ranks)
  }

  /** The rebuilt entry: the mean rank as value and as a last part named "rank". */
  function RankedScore(e: FloatDict, rank: real): FloatDict
  {
    FloatDict(rank, e.scores + [("rank", rank)])
  }

  /** The whole history after the re-ranking; `None` when a lookup raises. */
  function Reranked<Pr, G, X>(metric: Metric<Pr, G, X>, d: History): (r: Option<History>)
    requires metric.Dict?
  {
    var u := UnrankedAll(d);
    RerankedFrom(metric, u, PartNames(u), d)
  }

  function RerankedFrom<Pr, G, X>(metric: Metric<Pr, G, X>, u: seq<FloatDict>, names: seq<string>, d: History): (r: Option<History>)
    requires metric.Dict?
    ensures r.Some? ==> Keys(r.value) == Keys(d)
  {
    if d == [] then Some([])
    else
      var last := d[|d| - 1];
      match RerankedFrom(metric, u, names, d[..|d| - 1])
      case None => None
      case Some(front) =>
        match RankParts(metric, u, Unranked(last.1), names)
        case None => None
        case Some(ranks) =>
          KeysAppend(front, [(last.0, RankedScore(Unranked(last.1), MeanRank(ranks)))]);
          KeysAppend(d[..|d| - 1], [last]);
          assert d == d[..|d| - 1] + [last];
          Some(front + [(last.0, RankedScore(Unranked(last.1), MeanRank(ranks)))])
  }

  lemma {:induction false} RerankedFromPrefixNone<Pr, G, X>(metric: Metric<Pr, G, X>, u: seq<FloatDict>, names: seq<string>, d: History, i: nat)
    requires metric.Dict? && i <= |d| && RerankedFrom(metric, u, names, d[..i]).None?
    ensures RerankedFrom(metric, u, names, d).None?
    decreases |d| - i
  {
    if i < |d| {
      assert d[..i + 1][..i] == d[..i];
      RerankedFromPrefixNone(metric, u, names, d, i + 1);
    } else {
      assert d[..i] == d;
    }
  }

  lemma {:induction false} RankPartsPrefixNone<Pr, G, X>(metric: Metric<Pr, G, X>, u: seq<FloatDict>, e: FloatDict, names: seq<string>, j: nat)
    requires metric.Dict? && j <= |names| && RankParts(metric, u, e, names[..j]).None?
    ensures RankParts(metric, u, e, names).None?
    decreases |names| - j
  {
    if j < |names| {
      assert names[..j + 1][..j] == names[..j];
      RankPartsPrefixNone(metric, u, e, names, j + 1);
    } else {
      assert names[..j] == names;
    }
  }

  /**
   * The loops of the re-ranking: pop "rank" from every score while collecting
   * the part names; collect every part's values; rank each part of each score
   * and rebuild the score from the mean rank.
   */
  method Rerank<Pr, G, X>(metric: Metric<Pr, G, X>, d: History) returns (r: Option<History>)
    requires metric.Dict?
    ensures r == Reranked(metric, d)
  {
    var u, names := PopRanks(d);
    var perName := CollectColumns(u);
    r := RankAll(metric, u, names, perName, d);
  }

  /** The first loop: every score with "rank" popped, and the part names met on the way. */
  method PopRanks(d: History) returns (u: seq<FloatDict>, names: seq<string>)
    ensures u == UnrankedAll(d) && names == PartNames(u)
  {
    u := [];
    names := [];
    var i := 0;
    while i < |d|
      invariant 0 <= i <= |d|
      invariant u == UnrankedAll(d[..i]) && names == PartNames(u)
    {
      var e := Unranked(d[i].1);
      assert d[..i + 1][..i] == d[..i];
      assert (u + [e])[..|u|] == u;
      u := u + [e];
      names := AddNew(names, Keys(e.scores));
      i := i + 1;
    }
    assert d[..i] == d;
  }

  /** The second and third loops: each score's mean rank, stored back under its prompt. */
  method RankAll<Pr, G, X>(metric: Metric<Pr, G, X>, u: seq<FloatDict>, names: seq<string>, perName: map<string, seq<real>>, d: History)
    returns (r: Option<History>)
    requires metric.Dict? && u == UnrankedAll(d)
    requires forall n :: Collected(perName, n) == Column(u, n)
    ensures r == RerankedFrom(metric, u, names, d)
  {
    var rebuilt: History := [];
    var i := 0;
    assert d[..0] == [];
    while i < |d|
      invariant 0 <= i <= |d|
      invariant RerankedFrom(metric, u, names, d[..i]) == Some(rebuilt)
    {
      RerankedFromStep(metric, u, names, d, i);
      var ranks := RanksOf(metric, u, perName, u[i], names);
      if ranks.None? {
        RerankedFromPrefixNone(metric, u, names, d, i + 1);
        return None;
      }
      rebuilt := rebuilt + [(d[i].0, RankedScore(u[i], MeanRank(ranks.value)))];
      i := i + 1;
    }
    assert d[..i] == d;
    r := Some(rebuilt);
  }

  lemma RerankedFromStep<Pr, G, X>(metric: Metric<Pr, G, X>, u: seq<FloatDict>, names: seq<string>, d: History, i: nat)
    requires metric.Dict? && i < |d|
    ensures RerankedFrom(metric, u, names, d[..i + 1])
      == match RerankedFrom(metric, u, names, d[..i])
         case None => None
         case Some(front) =>
           match RankParts(metric, u, Unranked(d[i].1), names)
           case None => None
           case Some(ranks) => Some(front + [(d[i].0, RankedScore(Unranked(d[i].1), MeanRank(ranks)))])
  {
    assert d[..i + 1][..i] == d[..i];
  }

  /** `for name, _scores in metric_scores.items(): ranks.append(...)` for one unranked score `e`. */
  method RanksOf<Pr, G, X>(metric: Metric<Pr, G, X>, u: seq<FloatDict>, perName: map<string, seq<real>>, e: FloatDict, names: seq<string>)
    returns (ranks: Option<seq<real>>)
    requires metric.Dict?
    requires forall n :: Collected(perName, n) == Column(u, n)
    ensures ranks == RankParts(metric, u, e, names)
  {
    var acc: seq<real> := [];
    var j := 0;
    assert names[..0] == [];
    while j < |names|
      invariant 0 <= j <= |names|
      invariant RankParts(metric, u, e, names[..j]) == Some(acc)
    {
      RankPartsStep(metric, u, e, names, j);
      var name := names[j];
      var v := e.Get(name);
      var col := Collected(perName, name);
      if metric.SubMetric(name).None? || v.None? || v.value !in col {
        RankPartsPrefixNone(metric, u, e, names, j + 1);
        return None;
      }
      acc := acc + [Position(col, v.value) as real];
      j := j + 1;
    }
    assert names[..j] == names;
    ranks := Some(acc);
  }

  lemma RankPartsStep<Pr, G, X>(metric: Metric<Pr, G, X>, u: seq<FloatDict>, e: FloatDict, names: seq<string>, j: nat)
    requires metric.Dict? && j < |names|
    ensures RankParts(metric, u, e, names[..j + 1])
      == match RankParts(metric, u, e, names[..j])
         case None => None
         case Some(ranks) =>
           match RankPart(metric, u, e, names[j])
           case None => None
           case Some(p) => Some(ranks + [p])
  {
    assert names[..j + 1][..j] == names[..j];
  }

  /** With distinct part names, each score adds at most one value to a part's column. */
  lemma {:induction false} ColumnLength(u: seq<FloatDict>, name: string)
    requires forall i :: 0 <= i < |u| ==> DistinctKeys(u[i].scores)
    ensures |Column(u, name)| <= |u|
  {
    if u != [] {
      ColumnLength(u[..|u| - 1], name);
      MatchingGet(u[|u| - 1].scores, name);
    }
  }

  /** Popping "rank" keeps the part names distinct and leaves no part named "rank". */
  lemma UnrankedParts(s: FloatDict)
    requires DistinctKeys(s.scores)
    ensures DistinctKeys(Unranked(s).scores) && "rank" !in Keys(Unranked(s).scores)
  {
    PopGet(s.scores, "rank", "rank");
  }

  lemma {:induction false} RankPartsBounds<Pr, G, X>(metric: Metric<Pr, G, X>, u: seq<FloatDict>, e: FloatDict, names: seq<string>)
    requires metric.Dict? && RankParts(metric, u, e, names).Some?
    requires forall i :: 0 <= i < |u| ==> DistinctKeys(u[i].scores)
    ensures var ranks := RankParts(metric, u, e, names).value;
      forall k :: 0 <= k < |ranks| ==> 0.0 <= ranks[k] <= (|u| - 1) as real
  {
    if names != [] {
      var front, name := names[..|names| - 1], names[|names| - 1];
      RankPartsBounds(metric, u, e, front);
      var v := e.Get(name).value;
      var col := Column(u, name);
      PositionCountsBetter(col, v);
      ColumnLength(u, name);
      var p := Position(col, v) as real;
      assert 0.0 <= p <= (|u| - 1) as real;
      var ranks := RankParts(metric, u, e, front).value;
      assert RankParts(metric, u, e, names).value == ranks + [p];
    }
  }

  lemma {:induction false} GetSnocAbsent(a: seq<(string, real)>, k: string, v: real)
    requires k !in Keys(a)
    ensures Get(a + [(k, v)], k) == Some(v)
    ensures DistinctKeys(a) ==> DistinctKeys(a + [(k, v)])
  {
    if a != [] {
      assert (a + [(k, v)])[1..] == a[1..] + [(k, v)];
      GetSnocAbsent(a[1..], k, v);
      KeysAppend(a[1..], [(k, v)]);
    } else {
      assert ([(k, v)])[1..] == [];
    }
  }

  /**
   * Re-ranking keeps the prompts and gives every one the mean of its parts'
   * positions as value and as its "rank" part: a number between 0 and the
   * number of prompts less one, 0 when no score has any other part.
   */
  lemma {:induction false} RerankedMeaning<Pr, G, X>(metric: Metric<Pr, G, X>, d: History)
    requires metric.Dict? && Reranked(metric, d).Some?
    requires forall i :: 0 <= i < |d| ==> DistinctKeys(d[i].1.scores)
    ensures var r := Reranked(metric, d).value;
      Keys(r) == Keys(d)
      && forall i :: 0 <= i < |r| ==>
           0.0 <= r[i].1.value <= (|d| - 1) as real
           && r[i].1.Get("rank") == Some(r[i].1.value)
           && DistinctKeys(r[i].1.scores)
           && (PartNames(UnrankedAll(d)) == [] ==> r[i].1.value == 0.0)
  {
    var u := UnrankedAll(d);
    forall i | 0 <= i < |d|
      ensures DistinctKeys(u[i].scores)
    {
      UnrankedParts(d[i].1);
    }
    RerankedFromMeaning(metric, u, PartNames(u), d);
  }

  lemma {:induction false} RerankedFromMeaning<Pr, G, X>(metric: Metric<Pr, G, X>, u: seq<FloatDict>, names: seq<string>, d: History)
    requires metric.Dict? && RerankedFrom(metric, u, names, d).Some? && |d| <= |u|
    requires forall i :: 0 <= i < |u| ==> DistinctKeys(u[i].scores)
    requires forall i :: 0 <= i < |d| ==> DistinctKeys(d[i].1.scores)
    ensures var r := RerankedFrom(metric, u, names, d).value;
      forall i :: 0 <= i < |r| ==>
        0.0 <= r[i].1.value <= (|u| - 1) as real
        && r[i].1.Get("rank") == Some(r[i].1.value)
        && DistinctKeys(r[i].1.scores)
        && (names == [] ==> r[i].1.value == 0.0)
  {
    if d != [] {
      var front, last := d[..|d| - 1], d[|d| - 1];
      RerankedFromMeaning(metric, u, names, front);
      var e := Unranked(last.1);
      var ranks := RankParts(metric, u, e, names).value;
      RankPartsBounds(metric, u, e, names);
      if ranks != [] {
        MeanBetween(ranks, 0.0, (|u| - 1) as real);
      }
      UnrankedParts(last.1);
      GetSnocAbsent(e.scores, "rank", MeanRank(ranks));
      assert forall i :: 0 <= i < |front| ==> front[i] == d[i];
    }
  }

  /** A prompt whose every part is at least as good as every other prompt's ranks 0. */
  lemma {:induction false} RankPartsZero<Pr, G, X>(metric: Metric<Pr, G, X>, u: seq<FloatDict>, e: FloatDict, names: seq<string>)
    requires metric.Dict? && RankParts(metric, u, e, names).Some?
    requires forall n :: n in names ==> e.Get(n).Some? && forall c :: c in Column(u, n) ==> c <= e.Get(n).value
    ensures var ranks := RankParts(metric, u, e, names).value;
      forall k :: 0 <= k < |ranks| ==> ranks[k] == 0.0
  {
    if names != [] {
      var front, name := names[..|names| - 1], names[|names| - 1];
      RankPartsZero(metric, u, e, front);
      var col := Column(u, name);
      var v := e.Get(name).value;
      forall i | 0 <= i < |col|
        ensures col[i] <= v
      {
        assert col[i] in col;
      }
      PositionCountsBetter(col, v);
      CountAboveNone(col, v);
      var ranks := RankParts(metric, u, e, front).value;
      assert RankParts(metric, u, e, names).value == ranks + [Position(col, v) as real];
    }
  }

  lemma MeanRankZero(ranks: seq<real>)
    requires forall k :: 0 <= k < |ranks| ==> ranks[k] == 0.0
    ensures MeanRank(ranks) == 0.0
  {
    if ranks != [] {
      MeanBetween(ranks, 0.0, 0.0);
    }
  }
}
