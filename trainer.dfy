/**
 * `Trainer` (crispo/trainer/trainer.py): the search loop of the optimizer.
 * Each round evaluates the new prompts on the training set, records their
 * scores and critiques, sorts the history best first, evaluates on the
 * development set every few rounds, and asks the meta LLM for new prompts.
 *
 * The LLMs, prompt templates and metric parts are oracles handed in through
 * `Oracles`; the random module is a stream of numbers read from a position
 * the search keeps; a raised exception is a `false`/`None` result.
 */
module Trainer {
  import opened Wrappers
  import opened Assoc
  import opened Floats
  import opened Metrics
  import opened Formatting
  import opened TrainerOrder
  import opened TrainerHistory
  import opened TrainerSelect

  /** A critique prompt: `fill(task_prompt, predictions, examples)` and `parse`. */
  datatype Critic<!E, !Pr> = Critic(fill: (string, seq<Pr>, seq<E>) -> string, parse: string -> string)

  /**
   * What `fit` is handed and the model does not look inside: how an example
   * splits into input and reference; the task prompt's `fill` and `parse`
   * and the task LLM; the meta-prompt's `fill` and `parse`; the meta LLM,
   * whose n-th call may answer differently; the optional critique prompt;
   * `metric.get_description` where the metric has one; the random stream.
   */
  datatype Oracles<!E, !Pr, !G, !X> = Oracles(
    input: E -> X,
    reference: E -> G,
    taskFill: (string, X) -> string,
    taskLlm: string -> string,
    taskParse: string -> Pr,
    metaFill: (seq<(string, Rating)>, Option<seq<E>>, seq<Option<string>>) -> string,
    metaParse: string -> Option<string>,
    metaLlm: (string, nat) -> string,
    critic: Option<Critic<E, Pr>>,
    describe: Option<FloatDict -> string>,
    rand: nat -> nat)

  /** The keyword arguments of `fit` that are numbers, flags and choices. */
  datatype Settings = Settings(
    numExamplesInCritique: int,
    maxScoreInCritique: Option<real>,
    critiqueCriteria: CritiqueCriteria,
    numSearchSteps: nat,
    numNewPrompts: int,
    fewShotCriteria: FewShotCriteria,
    numFewShot: int,
    numInMetaPrompt: int,
    devEvery: int,
    devThreshold: Option<FloatDict>,
    maxRetry: int,
    refresh: bool)

  /** The defaults of `fit`'s keyword arguments. */
  const DefaultSettings := Settings(10, None, RandomCritique, 200, 8, CurrentLowestScore, 3, 20, 5, None, 5, true)

  // ---------------------------------------------------------------------
  // predict and evaluate

  /** `predict`: the parse of the task LLM's answer to the prompt filled with each input. */
  function Predict<E, Pr, G, X>(o: Oracles<E, Pr, G, X>, prompt: string, data: seq<E>): (r: seq<Pr>)
    ensures |r| == |data|
    ensures forall i :: 0 <= i < |data| ==> r[i] == o.taskParse(o.taskLlm(o.taskFill(prompt, o.input(data[i]))))
  {
    if data == [] then []
    else [o.taskParse(o.taskLlm(o.taskFill(prompt, o.input(data[0]))))] + Predict(o, prompt, data[1..])
  }

  /** Each prediction depends on its own example only: predicting a split batch is predicting its halves. */
  lemma {:induction false} PredictSplits<E, Pr, G, X>(o: Oracles<E, Pr, G, X>, prompt: string, a: seq<E>, b: seq<E>)
    ensures Predict(o, prompt, a + b) == Predict(o, prompt, a) + Predict(o, prompt, b)
  {
    if a == [] {
      assert a + b == b;
    } else {
      assert (a + b)[1..] == a[1..] + b;
      PredictSplits(o, prompt, a[1..], b);
    }
  }

  /** `[metric.score(p, e.y, x=e.x) for p, e in zip(predictions, dataset)]`; `None` when a score raises. */
  function ScoreAll<E, Pr, G, X>(metric: Metric<Pr, G, X>, o: Oracles<E, Pr, G, X>, preds: seq<Pr>, data: seq<E>): (r: Option<seq<FloatDict>>)
    requires metric.WellNamed() && |preds| == |data|
    ensures r.None? <==> data != [] && metric.Dict? && (metric.metrics == [] || "cls" in Keys(metric.metrics))
    ensures r.Some? ==> |r.value| == |data|
    ensures r.Some? ==> forall i :: 0 <= i < |data| ==> metric.Score(preds[i], o.reference(data[i]), o.input(data[i])) == Some(r.value[i])
  {
    if data != [] && metric.Dict? && (metric.metrics == [] || "cls" in Keys(metric.metrics)) then None
    else Some(Scores(metric, o, preds, data))
  }

  /** The scores of every example, for a metric whose scores do not raise. */
  function Scores<E, Pr, G, X>(metric: Metric<Pr, G, X>, o: Oracles<E, Pr, G, X>, preds: seq<Pr>, data: seq<E>): (r: seq<FloatDict>)
    requires metric.WellNamed() && |preds| == |data| && (data != [] ==> !(metric.Dict? && (metric.metrics == [] || "cls" in Keys(metric.metrics))))
    ensures |r| == |data|
    ensures forall i :: 0 <= i < |data| ==> metric.Score(preds[i], o.reference(data[i]), o.input(data[i])) == Some(r[i])
  {
    if data == [] then []
    else [metric.Score(preds[0], o.reference(data[0]), o.input(data[0])).value] + Scores(metric, o, preds[1..], data[1..])
  }

  /** What `evaluate` returns: the overall score, the per-example scores and the predictions. */
  datatype Evaluation<Pr> = Evaluation(overall: FloatDict, scores: seq<FloatDict>, predictions: seq<Pr>)

  /**
   * The history write of `evaluate`: store `overall` under the prompt and, in
   * rank mode, re-rank the whole history and return the prompt's re-ranked
   * entry. `None` when the re-ranking raises.
   */
  function Stored<Pr, G, X>(metric: Metric<Pr, G, X>, history: History, prompt: string, overall: FloatDict): Option<(FloatDict, History)>
  {
    var h := Put(history, prompt, overall);
    if RankMode(metric) then
      match Reranked(metric, h)
      case None => None
      case Some(ranked) =>
        PutKeys(history, prompt, overall, prompt);
        Some((Get(ranked, prompt).value, ranked))
    else Some((overall, h))
  }

  /**
   * `evaluate` with a history map: predict, score, aggregate, then the
   * history write. `None` when a step raises.
   */
  function Evaluated<E, Pr, G, X>(metric: Metric<Pr, G, X>, o: Oracles<E, Pr, G, X>, prompt: string, data: seq<E>,
                                  history: History): Option<(Evaluation<Pr>, History)>
    requires metric.WellNamed()
  {
    var preds := Predict(o, prompt, data);
    match ScoreAll(metric, o, preds, data)
    case None => None
    case Some(scores) =>
      match metric.Aggregate(scores)
      case None => None
      case Some(overall) =>
        match Stored(metric, history, prompt, overall)
        case None => None
        case Some((returned, h)) => Some((Evaluation(returned, scores, preds), h))
  }

  /** `evaluate` as the source runs it. */
  method Evaluate<E, Pr, G, X>(metric: Metric<Pr, G, X>, o: Oracles<E, Pr, G, X>, prompt: string, data: seq<E>,
                               history: History) returns (r: Option<(Evaluation<Pr>, History)>)
    requires metric.WellNamed()
    ensures r == Evaluated(metric, o, prompt, data, history)
  {
    var preds := Predict(o, prompt, data);
    var scores := ScoreAll(metric, o, preds, data);
    if scores.None? {
      return None;
    }
    var overall := metric.Aggregate(scores.value);
    if overall.None? {
      return None;
    }
    var stored := Store(metric, history, prompt, overall.value);
    if stored.None? {
      return None;
    }
    r := Some((Evaluation(stored.value.0, scores.value, preds), stored.value.1));
  }

  /** The history write, with the rank recompute's loops. */
  method Store<Pr, G, X>(metric: Metric<Pr, G, X>, history: History, prompt: string, overall: FloatDict)
    returns (r: Option<(FloatDict, History)>)
    ensures r == Stored(metric, history, prompt, overall)
  {
    var h := Put(history, prompt, overall);
    if RankMode(metric) {
      var ranked := Rerank(metric, h);
      if ranked.None? {
        return None;
      }
      PutKeys(history, prompt, overall, prompt);
      r := Some((Get(ranked.value, prompt).value, ranked.value));
    } else {
      r := Some((overall, h));
    }
  }

  /**
   * The write always leaves the returned score stored under the prompt, keeps
   * every other prompt in place, and appends the prompt when it is new;
   * outside rank mode no other entry changes.
   */
  lemma StoredRecords<Pr, G, X>(metric: Metric<Pr, G, X>, history: History, prompt: string, overall: FloatDict)
    requires DistinctKeys(history) && Stored(metric, history, prompt, overall).Some?
    ensures var (returned, h) := Stored(metric, history, prompt, overall).value;
            && DistinctKeys(h)
            && Get(h, prompt) == Some(returned)
            && (prompt in Keys(history) ==> Keys(h) == Keys(history))
            && (prompt !in Keys(history) ==> Keys(h) == Keys(history) + [prompt])
            && (!RankMode(metric) ==> returned == overall && forall k :: k != prompt ==> Get(h, k) == Get(history, k))
  {
    var h := Put(history, prompt, overall);
    PutGetAll(history, prompt, overall);
    if prompt !in Keys(history) {
      KeysAppend(history, [(prompt, overall)]);
      assert Keys([(prompt, overall)]) == [prompt];
    }
    if RankMode(metric) {
      PutKeys(history, prompt, overall, prompt);
      RerankedKeys(metric, h);
    }
  }

  /** Re-ranking keeps the keys, so distinct keys stay distinct. */
  lemma RerankedKeys<Pr, G, X>(metric: Metric<Pr, G, X>, h: History)
    requires metric.Dict? && DistinctKeys(h) && Reranked(metric, h).Some?
    ensures Keys(Reranked(metric, h).value) == Keys(h) && DistinctKeys(Reranked(metric, h).value)
  {
    DistinctKeysIff(h);
    DistinctKeysIff(Reranked(metric, h).value);
  }

  /** One score and one prediction per example, and the history write of the aggregate. */
  lemma EvaluatedRecords<E, Pr, G, X>(metric: Metric<Pr, G, X>, o: Oracles<E, Pr, G, X>, prompt: string, data: seq<E>,
                                      history: History)
    requires metric.WellNamed() && DistinctKeys(history)
    requires Evaluated(metric, o, prompt, data, history).Some?
    ensures var (ev, h) := Evaluated(metric, o, prompt, data, history).value;
            && |ev.scores| == |data| && |ev.predictions| == |data|
            && metric.Aggregate(ev.scores).Some?
            && Stored(metric, history, prompt, metric.Aggregate(ev.scores).value) == Some((ev.overall, h))
  {
  }

  /**
   * In rank mode, every entry of the history the write leaves has the mean
   * rank as its value and as its "rank" part, between 0 and the number of
   * prompts less one.
   */
  lemma StoredRanks<Pr, G, X>(metric: Metric<Pr, G, X>, history: History, prompt: string, overall: FloatDict)
    requires RankMode(metric) && Stored(metric, history, prompt, overall).Some?
    requires DistinctKeys(overall.scores)
    requires forall i :: 0 <= i < |history| ==> DistinctKeys(history[i].1.scores)
    ensures var (_, h) := Stored(metric, history, prompt, overall).value;
            forall i :: 0 <= i < |h| ==>
              0.0 <= h[i].1.value <= (|h| - 1) as real && h[i].1.Get("rank") == Some(h[i].1.value)
  {
    var h := Put(history, prompt, overall);
    PutEntries(history, prompt, overall);
    RerankedMeaning(metric, h);
  }

  /** A `MetricDict`'s aggregate has at most one part per sub-metric, so its part names are distinct. */
  lemma AggregateDistinct<Pr, G, X>(metric: Metric<Pr, G, X>, scores: seq<FloatDict>)
    requires metric.Dict? && metric.WellNamed() && metric.Aggregate(scores).Some?
    ensures DistinctKeys(metric.Aggregate(scores).value.scores)
  {
    var entries := AggregatedEntries(Keys(metric.metrics), scores).value;
    DistinctKeysIff(metric.metrics);
    DistinctKeysIff(entries);
    PopGet(entries, "value", "value");
  }

  /** Every entry of `d[k] = v` is an old entry or the new one. */
  lemma {:induction false} PutEntries<K, V>(d: seq<(K, V)>, k: K, v: V)
    ensures forall i :: 0 <= i < |Put(d, k, v)| ==> Put(d, k, v)[i] in d || Put(d, k, v)[i] == (k, v)
  {
    if d != [] && d[0].0 != k {
      PutEntries(d[1..], k, v);
    }
  }

  /** A stored entry can be found at some position of the history. */
  lemma {:induction false} GetIndex<K, V>(d: seq<(K, V)>, k: K)
    requires Get(d, k).Some?
    ensures exists i :: 0 <= i < |d| && d[i] == (k, Get(d, k).value)
  {
    if d[0].0 != k {
      GetIndex(d[1..], k);
      var i :| 0 <= i < |d[1..]| && d[1..][i] == (k, Get(d, k).value);
      assert d[i + 1] == d[1..][i];
    }
  }

  // ---------------------------------------------------------------------
  // the best prompt so far, compared as the source compares

  /**
   * The test of the in-round best and of the development best: the
   * challenger's `metric.key` against the incumbent's stored score taken as
   * a number (its `value`), not against the incumbent's key.
   */
  predicate ReplacesBest<Pr, G, X>(metric: Metric<Pr, G, X>, challenger: FloatDict, incumbent: FloatDict)
    requires metric.KeyDefined(challenger)
  {
    metric.Key(challenger) > incumbent.value
  }

  /**
   * Whether a prompt scoring `score` becomes the best: always when there is
   * no best yet, else by `ReplacesBest` against the best's entry in `d`.
   */
  predicate Replaces<Pr, G, X>(metric: Metric<Pr, G, X>, incumbent: Option<string>, d: History, score: FloatDict)
  {
    incumbent.None?
    || (metric.KeyDefined(score) && Get(d, incumbent.value).Some? && ReplacesBest(metric, score, Get(d, incumbent.value).value))
  }

  /**
   * Without a primary part the key is the value and the test compares the
   * two scores. Under a "rank" primary the key is minus a rank, so a
   * challenger with a rank of zero or more never beats an incumbent whose
   * stored value is zero or more.
   */
  lemma ReplacesBestMeaning<Pr, G, X>(metric: Metric<Pr, G, X>, challenger: FloatDict, incumbent: FloatDict)
    requires metric.KeyDefined(challenger)
    ensures !metric.HasPrimary() ==> (ReplacesBest(metric, challenger, incumbent) <==> challenger.value > incumbent.value)
    ensures metric.HasPrimary() && metric.primary.value == "rank" && challenger.Get("rank").value >= 0.0 && incumbent.value >= 0.0
            ==> !ReplacesBest(metric, challenger, incumbent)
  {
  }

  /**
   * In a history as rank mode leaves it (`StoredRanks`: every value a mean
   * rank of zero or more, repeated as the "rank" part), a best prompt that
   * is already set is never replaced by a prompt of that history: the first
   * prompt evaluated stays the best of its round, and the first prompt
   * evaluated on the development set stays the development best.
   */
  lemma RankBestNeverReplaced<Pr, G, X>(metric: Metric<Pr, G, X>, h: History, prompt: string, incumbent: string)
    requires RankMode(metric)
    requires forall i :: 0 <= i < |h| ==> 0.0 <= h[i].1.value && h[i].1.Get("rank") == Some(h[i].1.value)
    requires Get(h, prompt).Some? && Get(h, incumbent).Some?
    ensures metric.KeyDefined(Get(h, prompt).value) && !Replaces(metric, Some(incumbent), h, Get(h, prompt).value)
  {
    GetIndex(h, prompt);
    GetIndex(h, incumbent);
    var i :| 0 <= i < |h| && h[i] == (prompt, Get(h, prompt).value);
    var j :| 0 <= j < |h| && h[j] == (incumbent, Get(h, incumbent).value);
  }

  /**
   * The two scores of the comparison in concrete form: the challenger has
   * the better rank and the better key, and still does not replace the
   * incumbent, whose stored mean rank is 1.
   */
  lemma RankBestExample<Pr, G, X>(metric: Metric<Pr, G, X>)
    requires metric.HasPrimary() && metric.primary.value == "rank"
    ensures var incumbent := FloatDict(1.0, [("rouge1", 0.2), ("rank", 1.0)]);
            var challenger := FloatDict(0.0, [("rouge1", 0.5), ("rank", 0.0)]);
            && metric.KeyDefined(incumbent) && metric.KeyDefined(challenger)
            && metric.Key(challenger) > metric.Key(incumbent)
            && !ReplacesBest(metric, challenger, incumbent)
  {
    var incumbent := FloatDict(1.0, [("rouge1", 0.2), ("rank", 1.0)]);
    var challenger := FloatDict(0.0, [("rouge1", 0.5), ("rank", 0.0)]);
    assert incumbent.Get("rank") == Some(1.0);
    assert challenger.Get("rank") == Some(0.0);
  }

  // ---------------------------------------------------------------------
  // fill_in_meta_prompt

  /** What the meta-prompt is filled with: the shown prompts and scores, the few-shot examples, the critiques. */
  datatype MetaInputs<E> = MetaInputs(pairs: seq<(string, Rating)>, fewShot: Option<seq<E>>, critiques: seq<Option<string>>)

  /**
   * `fill_in_meta_prompt` before the template: few-shot examples when their
   * number is non-zero, the window of best prompts, shown through
   * `get_description` where the metric has one, and each one's critique.
   * `None` when sampling the few-shot examples raises.
   */
  function MetaPromptInputs<E, Pr, G, X>(o: Oracles<E, Pr, G, X>, s: Settings, train: seq<E>, stepRows: seq<Row>,
                                         runRows: seq<Row>, history: History, critiques: seq<(string, string)>, t: nat)
    : Option<MetaInputs<E>>
    requires |stepRows| == |train| && |runRows| == |train|
  {
    var fewShot := if s.numFewShot != 0 then FewShotExamples(train, s.fewShotCriteria, s.numFewShot, stepRows, runRows, o.rand, t) else None;
    if s.numFewShot != 0 && fewShot.None? then None
    else
      var window := Promising(history, s.numInMetaPrompt);
      Some(MetaInputs(Shown(o.describe, window), fewShot, CritiquesFor(window, critiques)))
  }

  /** The filled meta-prompt text. */
  function FillInMetaPrompt<E, Pr, G, X>(o: Oracles<E, Pr, G, X>, s: Settings, train: seq<E>, stepRows: seq<Row>,
                                         runRows: seq<Row>, history: History, critiques: seq<(string, string)>, t: nat)
    : Option<string>
    requires |stepRows| == |train| && |runRows| == |train|
  {
    match MetaPromptInputs(o, s, train, stepRows, runRows, history, critiques, t)
    case None => None
    case Some(m) => Some(o.metaFill(m.pairs, m.fewShot, m.critiques))
  }

  /** How many numbers of the random stream filling the meta-prompt consumes. */
  function FewShotDraws(s: Settings, n: nat): nat
  {
    if s.numFewShot > 0 && s.fewShotCriteria == RandomExamples && s.numFewShot <= n then s.numFewShot else 0
  }

  /** Filling the meta-prompt fails only when sampling the few-shot examples raises. */
  lemma MetaPromptFails<E, Pr, G, X>(o: Oracles<E, Pr, G, X>, s: Settings, train: seq<E>, stepRows: seq<Row>,
                                     runRows: seq<Row>, history: History, critiques: seq<(string, string)>, t: nat)
    requires |stepRows| == |train| && |runRows| == |train|
    ensures MetaPromptInputs(o, s, train, stepRows, runRows, history, critiques, t).None?
            <==> s.numFewShot != 0 && FewShotIndices(s.fewShotCriteria, s.numFewShot, |train|, stepRows, runRows, o.rand, t).None?
  {
  }

  /**
   * The meta-prompt shows the best prompts of the best-first history, the
   * worst of them first and the best last, each with its score and its
   * critique (`None` where it has none); the window holds
   * `num_task_prompts_in_meta_prompt` of them, all of them when that is 0
   * or at least their number, and all but the worst `-n` for a negative
   * `n`. The few-shot examples are those selected, or none when their
   * number is 0.
   */
  lemma MetaPromptShowsBest<E, Pr, G, X>(o: Oracles<E, Pr, G, X>, s: Settings, train: seq<E>, stepRows: seq<Row>,
                                         runRows: seq<Row>, history: History, critiques: seq<(string, string)>, t: nat)
    requires |stepRows| == |train| && |runRows| == |train|
    requires MetaPromptInputs(o, s, train, stepRows, runRows, history, critiques, t).Some?
    ensures var r := MetaPromptInputs(o, s, train, stepRows, runRows, history, critiques, t).value;
            && ShowsWindow(o.describe, history, critiques, s.numInMetaPrompt, r.pairs, r.critiques)
            && (s.numFewShot == 0 ==> r.fewShot.None?)
            && (s.numFewShot != 0 ==> r.fewShot == FewShotExamples(train, s.fewShotCriteria, s.numFewShot, stepRows, runRows, o.rand, t))
  {
    var r := MetaPromptInputs(o, s, train, stepRows, runRows, history, critiques, t).value;
    MetaPromptInputsShape(o, s, train, stepRows, runRows, history, critiques, t);
    ShownWindow(o.describe, history, critiques, s.numInMetaPrompt, r.pairs, r.critiques);
  }

  /**
   * The pairs and critiques a meta-prompt shows for the best-first history
   * and the window size `n`: the `i`-th is the `i`-th best from the end of
   * the window, so the best comes last; `n` of them for a positive `n` (all
   * if there are fewer), all for 0, all but the `-n` worst for a negative `n`.
   */
  ghost predicate ShowsWindow(describe: Option<FloatDict -> string>, history: History, critiques: seq<(string, string)>,
                              n: int, pairs: seq<(string, Rating)>, shown: seq<Option<string>>)
  {
    var m := |pairs|;
    && |shown| == m
    && (n == 0 || n >= |history| ==> m == |history|)
    && (0 < n < |history| ==> m == n)
    && (n < 0 ==> m == if |history| + n > 0 then |history| + n else 0)
    && (forall i :: 0 <= i < m ==>
          && m - 1 - i < |history|
          && pairs[i] == (history[m - 1 - i].0, ShownScore(describe, history[m - 1 - i].1))
          && shown[i] == Get(critiques, history[m - 1 - i].0))
  }

  /** What the window of the `n` most promising prompts shows satisfies `ShowsWindow`. */
  lemma ShownWindow(describe: Option<FloatDict -> string>, history: History, critiques: seq<(string, string)>, n: int,
                    pairs: seq<(string, Rating)>, shown: seq<Option<string>>)
    requires pairs == Shown(describe, Promising(history, n)) && shown == CritiquesFor(Promising(history, n), critiques)
    ensures ShowsWindow(describe, history, critiques, n, pairs, shown)
  {
    PromisingBest(history, n);
    WindowShown(describe, history, critiques, n);
  }

  lemma MetaPromptInputsShape<E, Pr, G, X>(o: Oracles<E, Pr, G, X>, s: Settings, train: seq<E>, stepRows: seq<Row>,
                                           runRows: seq<Row>, history: History, critiques: seq<(string, string)>, t: nat)
    requires |stepRows| == |train| && |runRows| == |train|
    requires MetaPromptInputs(o, s, train, stepRows, runRows, history, critiques, t).Some?
    ensures var r := MetaPromptInputs(o, s, train, stepRows, runRows, history, critiques, t).value;
            var window := Promising(history, s.numInMetaPrompt);
            && r.pairs == Shown(o.describe, window) && r.critiques == CritiquesFor(window, critiques)
            && (s.numFewShot == 0 ==> r.fewShot.None?)
            && (s.numFewShot != 0 ==> r.fewShot == FewShotExamples(train, s.fewShotCriteria, s.numFewShot, stepRows, runRows, o.rand, t))
  {
  }

  // ---------------------------------------------------------------------
  // update_critique

  /** The critique of a prompt, or `None` where selecting its examples raises. */
  function CritiqueOf<E, Pr, G, X>(metric: Metric<Pr, G, X>, o: Oracles<E, Pr, G, X>, s: Settings, train: seq<E>,
                                   prompt: string, scores: seq<FloatDict>, predictions: seq<Pr>, t: nat, call: nat): Option<string>
    requires o.critic.Some? && |scores| == |train| && |predictions| == |train|
  {
    match CritiqueIndices(metric, scores, s.critiqueCriteria, s.maxScoreInCritique, s.numExamplesInCritique, o.rand, t)
    case None => None
    case Some(ix) =>
      CritiqueIndicesChosen(metric, scores, s.critiqueCriteria, s.maxScoreInCritique, s.numExamplesInCritique, o.rand, t);
      var shown := CritiqueExamples(ix, predictions, train);
      Some(o.critic.value.parse(o.metaLlm(o.critic.value.fill(prompt, shown.0, shown.1), call)))
  }

  /** How many numbers of the random stream a critique consumes: a shuffle of all `n` indices, or none. */
  function CritiqueDraws(s: Settings, n: nat): nat
  {
    if s.critiqueCriteria == RandomCritique then n else 0
  }

  // ---------------------------------------------------------------------
  // the score tables of the few-shot selection

  /** `[[] for _ in range(n)]`. */
  function EmptyRows(n: nat): (r: seq<Row>)
    ensures |r| == n && forall i :: 0 <= i < n ==> r[i] == []
  {
    if n == 0 then [] else EmptyRows(n - 1) + [[]]
  }

  /** `rows[i].append(score)` for each example's score. */
  method AppendColumn(rows: seq<Row>, col: seq<FloatDict>) returns (r: seq<Row>)
    requires |rows| == |col|
    ensures |r| == |rows| && forall i :: 0 <= i < |rows| ==> r[i] == rows[i] + [col[i]]
  {
    r := rows;
    var i := 0;
    while i < |col|
      invariant 0 <= i <= |col| && |r| == |rows|
      invariant forall j :: 0 <= j < i ==> r[j] == rows[j] + [col[j]]
      invariant forall j :: i <= j < |rows| ==> r[j] == rows[j]
    {
      r := r[i := r[i] + [col[i]]];
      i := i + 1;
    }
  }

  // ---------------------------------------------------------------------
  // the development phase

  /** The development phase runs on steps that are multiples of `dev_evaluation_per_n_steps`, with a non-empty dev set. */
  predicate DevDue<E>(s: Settings, step: nat, dev: seq<E>)
    requires s.devEvery != 0
  {
    step % s.devEvery == 0 && dev != []
  }

  /** The new prompts, and the best train prompt after them when it has no dev score and is not among them. */
  function DevCandidates(newPrompts: seq<string>, best: string, devHistory: History): seq<string>
  {
    if best !in Keys(devHistory) && best !in newPrompts then newPrompts + [best] else newPrompts
  }

  /**
   * The candidates are the new prompts and the best train prompt where it
   * has no dev score yet; they hold no duplicate when the new prompts hold
   * none.
   */
  lemma DevCandidatesCover(newPrompts: seq<string>, best: string, devHistory: History)
    ensures var r := DevCandidates(newPrompts, best, devHistory);
            && (forall p :: p in r <==> p in newPrompts || (p == best && best !in Keys(devHistory)))
            && (best in r || best in Keys(devHistory))
            && (Distinct(newPrompts) ==> Distinct(r))
  {
    if best !in Keys(devHistory) && best !in newPrompts && Distinct(newPrompts) {
      DistinctSnoc(newPrompts, best);
    }
  }

  /**
   * The threshold test: a prompt goes to the dev set unless its train
   * score's key is below the threshold's key.
   */
  predicate Qualifies<Pr, G, X>(metric: Metric<Pr, G, X>, threshold: Option<FloatDict>, history: History, prompt: string)
  {
    threshold.None?
    || (Get(history, prompt).Some? && metric.KeyDefined(Get(history, prompt).value) && metric.KeyDefined(threshold.value)
        && metric.Key(Get(history, prompt).value) >= metric.Key(threshold.value))
  }

  /** A best-first history: every score has a key, and the keys do not increase. */
  predicate BestFirst<Pr, G, X>(metric: Metric<Pr, G, X>, d: History)
  {
    Keyed(metric, d) && forall a, b :: 0 <= a < b < |d| ==> metric.Key(d[a].1) >= metric.Key(d[b].1)
  }

  // ---------------------------------------------------------------------
  // generating_new_prompts

  /**
   * A parsed generation is accepted when it is a prompt neither scored before
   * nor already accepted. The source tests `new_prompt` for truth first, but a
   * parsed `TaskPrompt` object is always true, so only a failed parse is refused.
   */
  predicate Novel(parsed: Option<string>, history: History, prompts: seq<string>)
  {
    parsed.Some? && parsed.value !in Keys(history) && parsed.value !in prompts
  }

  /**
   * What the acceptance test refuses: a failed parse, a prompt already scored
   * and a prompt already accepted; an empty prompt is accepted like any other.
   */
  lemma NovelMeaning(history: History, prompts: seq<string>, p: string)
    ensures !Novel(None, history, prompts)
    ensures Novel(Some(p), history, prompts) <==> p !in Keys(history) && p !in prompts
    ensures "" !in Keys(history) && "" !in prompts ==> Novel(Some(""), history, prompts)
  {
  }

  /**
   * The inner loop over one batch of generations: each novel one is added
   * to the prompts and to the table, each other one counts as a retry.
   */
  method AcceptGenerations(parse: string -> Option<string>, history: History, text: string, gens: seq<string>,
                           prompts: seq<string>, table: seq<(string, string, string)>, retries: nat)
    returns (prompts': seq<string>, table': seq<(string, string, string)>, retries': nat)
    requires Distinct(prompts) && |table| == |prompts|
    ensures |prompts| <= |prompts'| && prompts'[..|prompts|] == prompts
    ensures |table'| == |prompts'| && table'[..|table|] == table
    ensures Distinct(prompts')
    ensures forall a :: |prompts| <= a < |prompts'| ==>
              && table'[a] == (text, table'[a].1, prompts'[a]) && table'[a].1 in gens
              && parse(table'[a].1) == Some(prompts'[a]) && prompts'[a] !in Keys(history)
    ensures retries <= retries' && (|prompts'| - |prompts|) + (retries' - retries) == |gens|
    ensures forall j :: 0 <= j < |gens| && parse(gens[j]).Some? && parse(gens[j]).value !in Keys(history)
              ==> parse(gens[j]).value in prompts'
  {
    prompts', table', retries' := prompts, table, retries;
    var j := 0;
    while j < |gens|
      invariant 0 <= j <= |gens|
      invariant |prompts| <= |prompts'| && prompts'[..|prompts|] == prompts
      invariant |table'| == |prompts'| && table'[..|table|] == table
      invariant Distinct(prompts')
      invariant forall a :: |prompts| <= a < |prompts'| ==>
                  && table'[a] == (text, table'[a].1, prompts'[a]) && table'[a].1 in gens
                  && parse(table'[a].1) == Some(prompts'[a]) && prompts'[a] !in Keys(history)
      invariant retries <= retries' && (|prompts'| - |prompts|) + (retries' - retries) == j
      invariant forall k :: 0 <= k < j && parse(gens[k]).Some? && parse(gens[k]).value !in Keys(history)
                  ==> parse(gens[k]).value in prompts'
    {
      var parsed := parse(gens[j]);
      if Novel(parsed, history, prompts') {
        DistinctSnoc(prompts', parsed.value);
        prompts' := prompts' + [parsed.value];
        table' := table' + [(text, gens[j], parsed.value)];
      } else {
        retries' := retries' + 1;
      }
      j := j + 1;
    }
  }

  /** `meta_llm.batch_generate([text] * n)`: the answers to the meta LLM's next `n` calls, from call number `call` on. */
  function Generations<E, Pr, G, X>(o: Oracles<E, Pr, G, X>, text: string, call: nat, n: nat): (r: seq<string>)
    ensures |r| == n && forall i :: 0 <= i < n ==> r[i] == o.metaLlm(text, call + i)
  {
    if n == 0 then [] else Generations(o, text, call, n - 1) + [o.metaLlm(text, call + n - 1)]
  }

  /**
   * A row of the generation table: a filled meta-prompt, the meta LLM's
   * answer to it on a call numbered `from` or later, and the prompt parsed
   * from that answer.
   */
  ghost predicate Generated<E, Pr, G, X>(o: Oracles<E, Pr, G, X>, s: Settings, train: seq<E>, stepRows: seq<Row>,
                                         runRows: seq<Row>, history: History, critiques: seq<(string, string)>,
                                         from: nat, row: (string, string, string))
    requires |stepRows| == |train| && |runRows| == |train|
  {
    && (exists t :: FillInMetaPrompt(o, s, train, stepRows, runRows, history, critiques, t) == Some(row.0))
    && (exists c: nat :: from <= c && o.metaLlm(row.0, c) == row.1)
    && o.metaParse(row.1) == Some(row.2)
  }

  /** Without the refresh flag, only an empty fill makes `generating_new_prompts` fill the meta-prompt again. */
  lemma OneFillUnlessEmpty<E, Pr, G, X>(o: Oracles<E, Pr, G, X>, s: Settings, train: seq<E>, stepRows: seq<Row>,
                                        runRows: seq<Row>, history: History, critiques: seq<(string, string)>,
                                        fills: nat, emptyFill: bool, emptyAt: nat)
    requires |stepRows| == |train| && |runRows| == |train|
    requires emptyFill ==> FillInMetaPrompt(o, s, train, stepRows, runRows, history, critiques, emptyAt) == Some("")
    requires !s.refresh && !emptyFill ==> fills <= 1
    ensures !s.refresh && (forall u :: FillInMetaPrompt(o, s, train, stepRows, runRows, history, critiques, u) != Some(""))
            ==> fills <= 1
  {
  }

  lemma MulSucc(a: nat, b: nat)
    ensures (a + 1) * b == a * b + b
  {
  }

  /** Every parsed answer of a batch generated from a filled meta-prompt makes a row of the generation table. */
  lemma GeneratedBatch<E, Pr, G, X>(o: Oracles<E, Pr, G, X>, s: Settings, train: seq<E>, stepRows: seq<Row>,
                                    runRows: seq<Row>, history: History, critiques: seq<(string, string)>,
                                    from: nat, call: nat, t: nat, text: string, gens: seq<string>)
    requires |stepRows| == |train| && |runRows| == |train| && from <= call
    requires FillInMetaPrompt(o, s, train, stepRows, runRows, history, critiques, t) == Some(text)
    requires gens == Generations(o, text, call, |gens|)
    ensures forall g, p :: g in gens && o.metaParse(g) == Some(p) ==>
              Generated(o, s, train, stepRows, runRows, history, critiques, from, (text, g, p))
  {
    forall g, p | g in gens && o.metaParse(g) == Some(p)
      ensures Generated(o, s, train, stepRows, runRows, history, critiques, from, (text, g, p))
    {
      var i :| 0 <= i < |gens| && gens[i] == g;
      assert o.metaLlm(text, call + i) == g;
    }
  }

  /**
   * One batch of `generating_new_prompts` (lines 378-408): `want` meta LLM
   * calls on the filled meta-prompt `text`, numbered from `now` on, whose
   * novel parses join the prompts; every other answer counts as a retry.
   */
  method GenerateBatch<E, Pr, G, X>(o: Oracles<E, Pr, G, X>, s: Settings, train: seq<E>, stepRows: seq<Row>,
                                    runRows: seq<Row>, history: History, critiques: seq<(string, string)>,
                                    call: nat, now: nat, ghost at: nat, text: string, want: nat,
                                    prompts: seq<string>, table: seq<(string, string, string)>, retries: nat)
    returns (prompts': seq<string>, table': seq<(string, string, string)>, retries': nat)
    requires |stepRows| == |train| && |runRows| == |train| && call <= now
    requires FillInMetaPrompt(o, s, train, stepRows, runRows, history, critiques, at) == Some(text)
    requires Distinct(prompts) && |table| == |prompts|
    requires forall a :: 0 <= a < |prompts| ==>
               && prompts[a] !in Keys(history) && table[a].2 == prompts[a]
               && Generated(o, s, train, stepRows, runRows, history, critiques, call, table[a])
    ensures Distinct(prompts') && |table'| == |prompts'| && (|prompts'| - |prompts|) + (retries' - retries) == want
    ensures |prompts| <= |prompts'| && retries <= retries' && prompts'[..|prompts|] == prompts
    ensures forall a :: 0 <= a < |prompts'| ==>
              && prompts'[a] !in Keys(history) && table'[a].2 == prompts'[a]
              && Generated(o, s, train, stepRows, runRows, history, critiques, call, table'[a])
  {
    var gens := Generations(o, text, now, want);
    GeneratedBatch(o, s, train, stepRows, runRows, history, critiques, call, now, at, text, gens);
    prompts', table', retries' := AcceptGenerations(o.metaParse, history, text, gens, prompts, table, retries);
    forall a | 0 <= a < |prompts|
      ensures prompts'[a] == prompts[a] && table'[a] == table[a]
    {
      assert prompts'[..|prompts|][a] == prompts'[a];
      assert table'[..|table|][a] == table'[a];
    }
  }

  /**
   * Filling the meta-prompt once more inside `generating_new_prompts`
   * (lines 373-377), from position `u` of the random stream: a fill that
   * succeeds moves the stream on by one fill's draws and counts as one more
   * fill, and an empty one is remembered as the witness `emptyAt`.
   */
  method FillAgain<E, Pr, G, X>(o: Oracles<E, Pr, G, X>, s: Settings, train: seq<E>, stepRows: seq<Row>,
                                runRows: seq<Row>, history: History, critiques: seq<(string, string)>,
                                ghost t: nat, u: nat, ghost fills: nat, ghost emptyFill: bool, ghost emptyAt: nat)
    returns (m: Option<string>, u': nat, ghost fills': nat, ghost emptyFill': bool, ghost emptyAt': nat)
    requires |stepRows| == |train| && |runRows| == |train|
    requires u == t + fills * FewShotDraws(s, |train|)
    requires emptyFill ==> FillInMetaPrompt(o, s, train, stepRows, runRows, history, critiques, emptyAt) == Some("")
    ensures m == FillInMetaPrompt(o, s, train, stepRows, runRows, history, critiques, u)
    ensures m.None? ==> s.numFewShot != 0
    ensures m.Some? ==> fills' == fills + 1 && u' == t + fills' * FewShotDraws(s, |train|)
    ensures m.None? ==> fills' == fills && u' == u
    ensures emptyFill' ==> FillInMetaPrompt(o, s, train, stepRows, runRows, history, critiques, emptyAt') == Some("")
    ensures emptyFill' == (emptyFill || m == Some(""))
  {
    m := FillInMetaPrompt(o, s, train, stepRows, runRows, history, critiques, u);
    emptyFill', emptyAt' := emptyFill, emptyAt;
    if m.None? {
      MetaPromptFails(o, s, train, stepRows, runRows, history, critiques, u);
      return m, u, fills, emptyFill', emptyAt';
    }
    if m == Some("") {
      emptyFill', emptyAt' := true, u;
    }
    MulSucc(fills, FewShotDraws(s, |train|));
    u', fills' := u + FewShotDraws(s, |train|), fills + 1;
  }

  /**
   * `generating_new_prompts` (lines 342-412): asks the meta LLM for the
   * missing number of prompts, batch after batch, until there are
   * `num_new_prompts_in_each_step` of them or `max_retry` generations have
   * been rejected; the meta-prompt is filled again before every batch when
   * `refresh_meta_prompt_each_attempt` holds or its text is empty. Each
   * generation is one meta LLM call, numbered from `call` on; each fill
   * draws the few-shot examples' random numbers from position `t` on. The
   * positions reached come back as `t'` and `call'`; `fills` counts the
   * fills and `batches` the batches sent. With the refresh flag set every
   * batch has a fill of its own; without it, and when no fill is ever the
   * empty text, the meta-prompt is filled at most once (line 373).
   */
  method GenerateNewPrompts<E, Pr, G, X>(o: Oracles<E, Pr, G, X>, s: Settings, train: seq<E>, stepRows: seq<Row>,
                                         runRows: seq<Row>, history: History, critiques: seq<(string, string)>,
                                         t: nat, call: nat)
    returns (ok: bool, prompts: seq<string>, table: seq<(string, string, string)>, retries: nat, t': nat, call': nat,
             ghost fills: nat, ghost batches: nat)
    requires |stepRows| == |train| && |runRows| == |train|
    ensures Distinct(prompts) && |table| == |prompts| && |prompts| <= if s.numNewPrompts > 0 then s.numNewPrompts else 0
    ensures forall a :: 0 <= a < |prompts| ==>
              && prompts[a] !in Keys(history) && table[a].2 == prompts[a]
              && Generated(o, s, train, stepRows, runRows, history, critiques, call, table[a])
    ensures ok && |prompts| < s.numNewPrompts ==> retries >= s.maxRetry
    ensures !ok ==> s.numFewShot != 0
    ensures call' == call + |prompts| + retries
    ensures t' == t + fills * FewShotDraws(s, |train|)
    ensures fills <= batches && (s.refresh ==> fills == batches)
    ensures !s.refresh && (forall u :: FillInMetaPrompt(o, s, train, stepRows, runRows, history, critiques, u) != Some(""))
            ==> fills <= 1
  {
    ok, prompts, table, retries, t', call', fills, batches := true, [], [], 0, t, call, 0, 0;
    var text := "";
    ghost var filled, at, emptyFill, emptyAt := false, 0, false, 0;
    while |prompts| < s.numNewPrompts
      invariant Distinct(prompts) && |table| == |prompts| && |prompts| <= if s.numNewPrompts > 0 then s.numNewPrompts else 0
      invariant forall a :: 0 <= a < |prompts| ==>
                  && prompts[a] !in Keys(history) && table[a].2 == prompts[a]
                  && Generated(o, s, train, stepRows, runRows, history, critiques, call, table[a])
      invariant call' == call + |prompts| + retries
      invariant t' == t + fills * FewShotDraws(s, |train|)
      invariant filled ==> FillInMetaPrompt(o, s, train, stepRows, runRows, history, critiques, at) == Some(text)
      invariant !filled ==> text == "" && fills == 0
      invariant fills <= batches && (s.refresh ==> fills == batches)
      invariant emptyFill ==> FillInMetaPrompt(o, s, train, stepRows, runRows, history, critiques, emptyAt) == Some("")
      invariant !s.refresh && !emptyFill ==> fills <= 1 && (filled ==> text != "")
      decreases (s.numNewPrompts - |prompts|) + (if retries < s.maxRetry then s.maxRetry - retries else 0)
    {
      if retries >= s.maxRetry {
        break;
      }
      if text == "" || s.refresh {
        var m, u;
        m, u, fills, emptyFill, emptyAt := FillAgain(o, s, train, stepRows, runRows, history, critiques,
                                                     t, t', fills, emptyFill, emptyAt);
        if m.None? {
          OneFillUnlessEmpty(o, s, train, stepRows, runRows, history, critiques, fills, emptyFill, emptyAt);
          return false, prompts, table, retries, t', call', fills, batches;
        }
        text, filled, at, t' := m.value, true, t', u;
      }
      var want := s.numNewPrompts - |prompts|;
      prompts, table, retries := GenerateBatch(o, s, train, stepRows, runRows, history, critiques, call, call', at, text,
                                               want, prompts, table, retries);
      call', batches := call' + want, batches + 1;
    }
    OneFillUnlessEmpty(o, s, train, stepRows, runRows, history, critiques, fills, emptyFill, emptyAt);
  }

  /** What evaluating a new prompt leaves in the history: the prompt added last, under the score returned. */
  lemma EvaluatedNew<E, Pr, G, X>(metric: Metric<Pr, G, X>, o: Oracles<E, Pr, G, X>, prompt: string, data: seq<E>,
                                  history: History)
    requires metric.WellNamed() && DistinctKeys(history) && prompt !in Keys(history)
    requires Evaluated(metric, o, prompt, data, history).Some?
    ensures var (ev, h) := Evaluated(metric, o, prompt, data, history).value;
            && |ev.scores| == |data| && |ev.predictions| == |data|
            && DistinctKeys(h) && Keys(h) == Keys(history) + [prompt] && Get(h, prompt) == Some(ev.overall)
  {
    var (ev, h) := Evaluated(metric, o, prompt, data, history).value;
    EvaluatedRecords(metric, o, prompt, data, history);
    StoredRecords(metric, history, prompt, metric.Aggregate(ev.scores).value);
  }

  /** `Put` keeps the keys distinct, stores the value under its key and leaves every other key alone. */
  lemma PutGetAll<K, V>(d: seq<(K, V)>, k: K, v: V)
    requires DistinctKeys(d)
    ensures DistinctKeys(Put(d, k, v))
    ensures forall k' :: Get(Put(d, k, v), k') == if k' == k then Some(v) else Get(d, k')
  {
    PutGet(d, k, v, k);
    forall k'
      ensures Get(Put(d, k, v), k') == if k' == k then Some(v) else Get(d, k')
    {
      PutGet(d, k, v, k');
    }
  }

  /**
   * The train history, the dev history and the table of steps have
   * distinct keys; the steps are kept for exactly the prompts scored on
   * train, and only those can have been scored on dev.
   */
  ghost predicate Agree(history: History, devHistory: History, steps: seq<(string, nat)>)
  {
    && DistinctKeys(history) && DistinctKeys(devHistory) && DistinctKeys(steps)
    && (forall p :: p in Keys(steps) <==> p in Keys(history))
    && (forall p :: p in Keys(devHistory) ==> p in Keys(history))
  }

  /** A best prompt, when there is one, is a key of the history. */
  ghost predicate Among(best: Option<string>, history: History)
  {
    best.Some? ==> best.value in Keys(history)
  }

  /**
   * The invariant of a `fit` call's state, on its values: a well-formed
   * metric, agreeing histories and steps, one critique per prompt, one row
   * per training example holding a score for every prompt scored on train,
   * and best prompts that were scored.
   */
  ghost predicate Consistent<Pr, G, X>(metric: Metric<Pr, G, X>, n: nat, history: History, devHistory: History,
                                  steps: seq<(string, nat)>, critiques: seq<(string, string)>, stepRows: seq<Row>,
                                  runRows: seq<Row>, best: Option<string>, bestDev: Option<string>)
  {
    && metric.WellNamed() && Agree(history, devHistory, steps) && DistinctKeys(critiques)
    && |stepRows| == n && |runRows| == n && (forall i :: 0 <= i < n ==> |runRows[i]| == |history|)
    && Among(best, history) && Among(bestDev, devHistory)
  }

  /**
   * Training appends the new prompts, none of them known before, to the
   * keys: they are then keys on train and still none of them on dev.
   */
  lemma FreshKeys(before: seq<string>, added: seq<string>, after: seq<string>, devKeys: seq<string>)
    requires after == before + added
    requires forall p :: p in added ==> p !in before
    requires forall p :: p in devKeys ==> p in before
    ensures forall p :: p in added ==> p in after && p !in devKeys
    ensures forall p :: p in after <==> p in before || p in added
  {
  }

  /** The state a `fit` call starts from is consistent. */
  lemma InitialConsistent<Pr, G, X>(metric: Metric<Pr, G, X>, n: nat)
    requires metric.WellNamed()
    ensures Consistent(metric, n, [], [], [], [], EmptyRows(n), EmptyRows(n), None, None)
  {
  }

  /** Recording a new prompt on train, with its step, keeps the histories and the steps in agreement. */
  lemma RecordAgrees(history: History, devHistory: History, steps: seq<(string, nat)>, h: History, prompt: string, step: nat)
    requires Agree(history, devHistory, steps) && prompt !in Keys(history)
    requires DistinctKeys(h) && Keys(h) == Keys(history) + [prompt]
    ensures Put(steps, prompt, step) == steps + [(prompt, step)]
    ensures Agree(h, devHistory, steps + [(prompt, step)])
  {
    assert prompt !in Keys(steps);
    PutGet(steps, prompt, step, prompt);
    KeysAppend(steps, [(prompt, step)]);
    assert Keys([(prompt, step)]) == [prompt];
  }

  /** A best prompt stays among the keys of a history whose keys grow. */
  lemma AmongGrows(best: Option<string>, history: History, h: History)
    requires Among(best, history) && forall p :: p in Keys(history) ==> p in Keys(h)
    ensures Among(best, h)
  {
  }

  /**
   * Sorting a history whose scores all have keys: the same dictionary, best
   * first.
   */
  lemma SortedHistory<Pr, G, X>(metric: Metric<Pr, G, X>, d: History)
    requires DistinctKeys(d) && Keyed(metric, d)
    ensures var r := SortBestToWorst(metric, d);
            && DistinctKeys(r) && |r| == |d| && BestFirst(metric, r)
            && (forall k :: Get(r, k) == Get(d, k))
            && (forall p :: p in Keys(r) <==> p in Keys(d))
  {
    var r := SortBestToWorst(metric, d);
    SortBestToWorstEntries(metric, d);
    SortBestToWorstOrder(metric, d);
    assert |r| == |multiset(r)| == |multiset(d)| == |d|;
    forall p
      ensures p in Keys(r) <==> p in Keys(d)
    {
      assert Get(r, p) == Get(d, p);
    }
  }

  /** Agreement survives replacing the train history by one with the same keys. */
  lemma AgreeRekeyed(history: History, h: History, devHistory: History, steps: seq<(string, nat)>)
    requires Agree(history, devHistory, steps) && DistinctKeys(h)
    requires forall p :: p in Keys(h) <==> p in Keys(history)
    ensures Agree(h, devHistory, steps)
  {
  }

  /**
   * Writing a new prompt, already scored on train, into the dev history and
   * sorting it keeps the histories in agreement.
   */
  lemma DevRecorded<Pr, G, X>(metric: Metric<Pr, G, X>, history: History, devHistory: History, steps: seq<(string, nat)>,
                              h: History, prompt: string)
    requires Agree(history, devHistory, steps) && prompt in Keys(history)
    requires DistinctKeys(h) && Keys(h) == Keys(devHistory) + [prompt] && Keyed(metric, h)
    ensures var r := SortBestToWorst(metric, h);
            && Agree(history, r, steps) && BestFirst(metric, r) && Get(r, prompt) == Get(h, prompt)
            && (forall p :: p in Keys(r) <==> p in Keys(devHistory) || p == prompt)
  {
    SortedHistory(metric, h);
  }

  /** A best prompt, and the prompt just added, are among the keys of the history it was added to. */
  lemma AmongAdded(best: Option<string>, d: History, r: History, prompt: string)
    requires Among(best, d) && forall p :: p in Keys(r) <==> p in Keys(d) || p == prompt
    ensures Among(best, r) && Among(Some(prompt), r)
  {
  }

  /**
   * The keys of a dev history `d` during the dev phase: the keys it had
   * before, and the candidates so far whose train score passed the
   * threshold.
   */
  ghost predicate DevKeys<Pr, G, X>(metric: Metric<Pr, G, X>, threshold: Option<FloatDict>, history: History,
                                    before: seq<string>, candidates: seq<string>, d: History)
  {
    forall p :: p in Keys(d) <==> p in before || (p in candidates && Qualifies(metric, threshold, history, p))
  }

  /** One more candidate: its dev score is added exactly when it passes the threshold; later candidates stay unscored. */
  lemma DevKeysStep<Pr, G, X>(metric: Metric<Pr, G, X>, threshold: Option<FloatDict>, history: History,
                              before: seq<string>, candidates: seq<string>, i: nat, d: History, d': History)
    requires i < |candidates| && DevKeys(metric, threshold, history, before, candidates[..i], d)
    requires forall j :: i < j < |candidates| ==> candidates[j] != candidates[i] && candidates[j] !in Keys(d)
    requires !Qualifies(metric, threshold, history, candidates[i]) ==> d' == d
    requires Qualifies(metric, threshold, history, candidates[i]) ==>
               forall p :: p in Keys(d') <==> p in Keys(d) || p == candidates[i]
    ensures DevKeys(metric, threshold, history, before, candidates[..i + 1], d')
    ensures forall j :: i < j < |candidates| ==> candidates[j] !in Keys(d')
  {
    assert candidates[..i + 1] == candidates[..i] + [candidates[i]];
  }

  /** Taking one more element of `s` into the prefix. */
  lemma InPrefixStep<T>(s: seq<T>, i: nat)
    requires i < |s|
    ensures forall p :: p in s[..i + 1] <==> p in s[..i] || p == s[i]
  {
    assert s[..i + 1] == s[..i] + [s[i]];
  }

  /** An element of a sequence without repeats does not occur after its own position. */
  lemma DistinctLater<T>(s: seq<T>, i: nat)
    requires Distinct(s) && i < |s|
    ensures forall j :: i < j < |s| ==> s[j] != s[i]
  {
    DistinctApart(s);
  }

  /** The threshold test raises `KeyError`: there is a threshold, and it or the train score lacks the primary part. */
  predicate ThresholdFails<Pr, G, X>(metric: Metric<Pr, G, X>, threshold: Option<FloatDict>, history: History, prompt: string)
  {
    && threshold.Some?
    && (Get(history, prompt).None? || !metric.KeyDefined(Get(history, prompt).value) || !metric.KeyDefined(threshold.value))
  }

  /** An element of a sequence without repeats does not occur before its own position. */
  lemma DistinctAt<T>(s: seq<T>, i: nat)
    requires Distinct(s) && i < |s|
    ensures s[i] !in s[..i]
  {
    DistinctApart(s);
  }

  /** The table of steps for prompts all generated at one step. */
  function StepsOf(prompts: seq<string>, step: nat): (r: seq<(string, nat)>)
    ensures Keys(r) == prompts
    ensures forall i :: 0 <= i < |r| ==> r[i].1 == step
  {
    if prompts == [] then [] else [(prompts[0], step)] + StepsOf(prompts[1..], step)
  }

  /** One more element of `b` taken after `a`. */
  lemma Extend<T>(a: seq<T>, b: seq<T>, i: nat)
    requires i < |b|
    ensures a + b[..i + 1] == (a + b[..i]) + [b[i]]
  {
    assert b[..i + 1] == b[..i] + [b[i]];
  }

  /** One more prompt of `prompts` recorded with its step after `a`. */
  lemma StepsOfExtend(a: seq<(string, nat)>, prompts: seq<string>, i: nat, step: nat)
    requires i < |prompts|
    ensures a + StepsOf(prompts[..i + 1], step) == (a + StepsOf(prompts[..i], step)) + [(prompts[i], step)]
  {
    assert prompts[..i + 1] == prompts[..i] + [prompts[i]];
    StepsOfSnoc(prompts[..i], prompts[i], step);
  }

  lemma {:induction false} StepsOfSnoc(prompts: seq<string>, p: string, step: nat)
    ensures StepsOf(prompts + [p], step) == StepsOf(prompts, step) + [(p, step)]
  {
    if prompts != [] {
      assert (prompts + [p])[1..] == prompts[1..] + [p];
      StepsOfSnoc(prompts[1..], p, step);
    }
  }

  // ---------------------------------------------------------------------
  // fit

  /**
   * The state of one `fit` call: the train and dev histories, the best
   * prompts, the step at which each prompt was generated, the two score
   * tables of the few-shot selection, the critiques, the prompts of the
   * current step, and how far the random stream and the meta LLM's calls
   * have been read.
   */
  class Search<E, Pr, G, X> {
    const metric: Metric<Pr, G, X>
    const o: Oracles<E, Pr, G, X>
    const s: Settings
    const train: seq<E>
    const dev: seq<E>

    var history: History
    var devHistory: History
    var best: Option<string>
    var bestDev: Option<string>
    var bestDevStep: nat
    var steps: seq<(string, nat)>
    var stepRows: seq<Row>
    var runRows: seq<Row>
    var critiques: seq<(string, string)>
    var newPrompts: seq<string>
    var draws: nat
    var metaCalls: nat

    /**
     * Dictionaries have distinct keys; every prompt scored on train has its
     * step and one score per training example in the accumulated table;
     * every prompt scored on dev was scored on train; the best prompts are
     * among the scored ones.
     */
    ghost predicate Valid()
      reads this
    {
      Consistent(metric, |train|, history, devHistory, steps, critiques, stepRows, runRows, best, bestDev)
    }

    /** The part of `Valid` that the dev phase maintains. */
    ghost predicate DevValid()
      reads this
    {
      metric.WellNamed() && Agree(history, devHistory, steps) && Among(bestDev, devHistory)
    }

    /** The state `fit` starts from. */
    ghost predicate Initial()
      reads this
    {
      && history == [] && devHistory == [] && best.None? && bestDev.None? && bestDevStep == 0
      && steps == [] && critiques == [] && stepRows == EmptyRows(|train|) && runRows == EmptyRows(|train|)
    }

    constructor(metric: Metric<Pr, G, X>, o: Oracles<E, Pr, G, X>, s: Settings, train: seq<E>, dev: seq<E>)
      requires metric.WellNamed()
      ensures this.metric == metric && this.o == o && this.s == s && this.train == train && this.dev == dev
      ensures Valid() && Initial() && newPrompts == [] && draws == 0 && metaCalls == 0
    {
      this.metric, this.o, this.s, this.train, this.dev := metric, o, s, train, dev;
      InitialConsistent(metric, |train|);
      history, devHistory, best, bestDev, bestDevStep := [], [], None, None, 0;
      steps, critiques, stepRows, runRows := [], [], EmptyRows(|train|), EmptyRows(|train|);
      newPrompts, draws, metaCalls := [], 0, 0;
    }

    /** The local state `fit` sets up before its first step; the random stream and the meta LLM go on where they were. */
    method Reset()
      requires metric.WellNamed()
      modifies this`history, this`devHistory, this`best, this`bestDev, this`bestDevStep
      modifies this`steps, this`critiques, this`stepRows, this`runRows
      ensures Valid() && Initial() && newPrompts == old(newPrompts)
      ensures draws == old(draws) && metaCalls == old(metaCalls)
    {
      InitialConsistent(metric, |train|);
      history, devHistory, best, bestDev, bestDevStep := [], [], None, None, 0;
      steps, critiques, stepRows, runRows := [], [], EmptyRows(|train|), EmptyRows(|train|);
    }

    /**
     * Recording a prompt just evaluated on train: the history the evaluation
     * wrote, the prompt's step, and its per-example scores appended to both
     * score tables.
     */
    method Record(prompt: string, step: nat, ev: Evaluation<Pr>, h: History)
      requires Valid() && prompt !in Keys(history)
      requires DistinctKeys(h) && Keys(h) == Keys(history) + [prompt] && Get(h, prompt) == Some(ev.overall)
      requires |ev.scores| == |train|
      modifies this`history, this`steps, this`stepRows, this`runRows
      ensures Valid() && history == h && steps == old(steps) + [(prompt, step)]
      ensures forall i :: 0 <= i < |train| ==>
                stepRows[i] == old(stepRows)[i] + [ev.scores[i]] && runRows[i] == old(runRows)[i] + [ev.scores[i]]
    {
      PutSame(h, prompt, ev.overall);
      RecordAgrees(history, devHistory, steps, h, prompt, step);
      AmongGrows(best, history, h);
      history := Put(h, prompt, ev.overall);
      steps := Put(steps, prompt, step);
      stepRows := AppendColumn(stepRows, ev.scores);
      runRows := AppendColumn(runRows, ev.scores);
    }

    /**
     * The in-round best, as the source compares: the new prompt becomes the
     * best when there is none yet or when `ReplacesBest` holds against the
     * best's stored score. Fails on the `KeyError` of a score without the
     * primary part, which is looked up only when there is a best already.
     */
    method UpdateBest(prompt: string, overall: FloatDict) returns (ok: bool)
      requires Valid() && prompt in Keys(history)
      modifies this`best
      ensures ok <==> old(best).None? || metric.KeyDefined(overall)
      ensures ok ==> Valid() && best == if Replaces(metric, old(best), history, overall) then Some(prompt) else old(best)
    {
      if best.Some? && !metric.KeyDefined(overall) {
        return false;
      }
      if Replaces(metric, best, history, overall) {
        best := Some(prompt);
      }
      ok := true;
    }

    /**
     * `update_critique`: the critique of the prompt replaces any earlier one
     * and leaves the others alone. Fails where selecting the examples raises.
     */
    method UpdateCritique(prompt: string, ev: Evaluation<Pr>) returns (ok: bool)
      requires Valid() && o.critic.Some? && |ev.scores| == |train| && |ev.predictions| == |train|
      modifies this`critiques, this`draws, this`metaCalls
      ensures var c := CritiqueOf(metric, o, s, train, prompt, ev.scores, ev.predictions, old(draws), old(metaCalls));
              && (ok <==> c.Some?)
              && (ok ==> && Valid() && critiques == Put(old(critiques), prompt, c.value)
                         && Get(critiques, prompt) == c
                         && (forall p :: p != prompt ==> Get(critiques, p) == Get(old(critiques), p))
                         && draws == old(draws) + CritiqueDraws(s, |train|) && metaCalls == old(metaCalls) + 1)
    {
      var c := CritiqueOf(metric, o, s, train, prompt, ev.scores, ev.predictions, draws, metaCalls);
      if c.None? {
        return false;
      }
      PutGetAll(critiques, prompt, c.value);
      critiques := Put(critiques, prompt, c.value);
      draws := draws + CritiqueDraws(s, |train|);
      metaCalls := metaCalls + 1;
      ok := true;
    }

    /**
     * One prompt of a step (lines 83-136): evaluate it on train, record it,
     * update the in-round best and, with a critic, its critique. Fails where
     * any of these raises.
     */
    method TrainOn(prompt: string, step: nat) returns (ok: bool)
      requires Valid() && prompt !in Keys(history)
      modifies this`history, this`steps, this`stepRows, this`runRows, this`best, this`critiques, this`draws, this`metaCalls
      ensures Evaluated(metric, o, prompt, train, old(history)).None? ==> !ok
      ensures ok ==> && Valid() && Keys(history) == old(Keys(history)) + [prompt]
                     && steps == old(steps) + [(prompt, step)] && best.Some?
                     && (forall i :: 0 <= i < |train| ==> |stepRows[i]| == |old(stepRows)[i]| + 1)
      ensures ok ==> var (ev, h) := Evaluated(metric, o, prompt, train, old(history)).value;
                     && history == h && Get(history, prompt) == Some(ev.overall)
                     && (forall i :: 0 <= i < |train| ==> stepRows[i] == old(stepRows)[i] + [ev.scores[i]])
                     && best == (if Replaces(metric, old(best), h, ev.overall) then Some(prompt) else old(best))
                     && (o.critic.Some? ==> Get(critiques, prompt).Some?)
    {
      var e := Evaluate(metric, o, prompt, train, history);
      if e.None? {
        return false;
      }
      var (ev, h) := e.value;
      EvaluatedNew(metric, o, prompt, train, history);
      ok := Admit(prompt, step, ev, h);
    }

    /**
     * What follows a prompt's evaluation on train (lines 96-136): the record,
     * the best-so-far update and, with a critic, the prompt's critique.
     */
    method Admit(prompt: string, step: nat, ev: Evaluation<Pr>, h: History) returns (ok: bool)
      requires Valid() && prompt !in Keys(history)
      requires DistinctKeys(h) && Keys(h) == Keys(history) + [prompt] && Get(h, prompt) == Some(ev.overall)
      requires |ev.scores| == |train| && |ev.predictions| == |train|
      modifies this`history, this`steps, this`stepRows, this`runRows, this`best, this`critiques, this`draws, this`metaCalls
      ensures ok ==> && Valid() && history == h && steps == old(steps) + [(prompt, step)] && best.Some?
                     && (forall i :: 0 <= i < |train| ==> stepRows[i] == old(stepRows)[i] + [ev.scores[i]])
                     && best == (if Replaces(metric, old(best), h, ev.overall) then Some(prompt) else old(best))
                     && (o.critic.Some? ==> Get(critiques, prompt).Some?)
    {
      Record(prompt, step, ev, h);
      ok := UpdateBest(prompt, ev.overall);
      if ok && o.critic.Some? {
        ok := UpdateCritique(prompt, ev);
      }
    }

    /**
     * The prompts of a step, evaluated in order (line 83). Every one of them
     * joins the history after the prompts already there, with this step as
     * its step; afterwards there is a best prompt.
     */
    method TrainAll(step: nat) returns (ok: bool)
      requires Valid() && Distinct(newPrompts) && forall p :: p in newPrompts ==> p !in Keys(history)
      modifies this`history, this`steps, this`stepRows, this`runRows, this`best, this`critiques, this`draws, this`metaCalls
      ensures ok ==> Valid() && Keys(history) == old(Keys(history)) + newPrompts
      ensures ok ==> steps == old(steps) + StepsOf(newPrompts, step)
    {
      ok := true;
      var i := 0;
      while i < |newPrompts|
        invariant 0 <= i <= |newPrompts| && Valid()
        invariant Keys(history) == old(Keys(history)) + newPrompts[..i]
        invariant steps == old(steps) + StepsOf(newPrompts[..i], step)
      {
        DistinctAt(newPrompts, i);
        Extend(old(Keys(history)), newPrompts, i);
        StepsOfExtend(old(steps), newPrompts, i, step);
        ok := TrainOn(newPrompts[i], step);
        if !ok {
          return;
        }
        i := i + 1;
      }
      assert newPrompts[..i] == newPrompts;
    }

    /**
     * Sorting the train history after a step (lines 139-142): the best
     * prompt is the first. Fails on an empty history (`IndexError`) or on a
     * score without a key (`KeyError` inside the sort).
     */
    method SortHistory() returns (ok: bool)
      requires Valid()
      modifies this`history, this`best
      ensures ok <==> old(history) != [] && Keyed(metric, old(history))
      ensures ok ==> && Valid() && history == SortBestToWorst(metric, old(history))
                     && BestFirst(metric, history) && best == Some(history[0].0)
                     && (forall k :: Get(history, k) == Get(old(history), k))
                     && (forall p :: p in Keys(history) <==> p in old(Keys(history)))
    {
      if history == [] || !Keyed(metric, history) {
        return false;
      }
      var sorted := SortBestToWorst(metric, history);
      SortedHistory(metric, history);
      AgreeRekeyed(history, sorted, devHistory, steps);
      KeysAt(sorted, 0);
      history, best := sorted, Some(sorted[0].0);
      ok := true;
    }

    /**
     * Recording a prompt just evaluated on dev (lines 177-201): the dev
     * history the evaluation wrote, sorted again, and the dev best as the
     * source compares. Fails where the sort or the comparison raises.
     */
    method RecordDev(step: nat, prompt: string, overall: FloatDict, h: History) returns (ok: bool)
      requires DevValid() && prompt in Keys(history) && prompt !in Keys(devHistory)
      requires DistinctKeys(h) && Keys(h) == Keys(devHistory) + [prompt] && Get(h, prompt) == Some(overall)
      modifies this`devHistory, this`bestDev, this`bestDevStep
      ensures ok <==> Keyed(metric, h) && (old(bestDev).Some? ==> metric.KeyDefined(overall))
      ensures ok ==> && DevValid() && devHistory == SortBestToWorst(metric, h) && BestFirst(metric, devHistory)
                     && Get(devHistory, prompt) == Some(overall)
                     && (forall p :: p in Keys(devHistory) <==> p in old(Keys(devHistory)) || p == prompt)
                     && bestDev.Some?
                     && (if Replaces(metric, old(bestDev), devHistory, overall)
                         then bestDev == Some(prompt) && bestDevStep == step
                         else bestDev == old(bestDev) && bestDevStep == old(bestDevStep))
    {
      if !Keyed(metric, h) {
        return false;
      }
      if bestDev.Some? && !metric.KeyDefined(overall) {
        return false;
      }
      DevRecorded(metric, history, devHistory, steps, h, prompt);
      var sorted := SortBestToWorst(metric, h);
      AmongAdded(bestDev, devHistory, sorted, prompt);
      if Replaces(metric, bestDev, sorted, overall) {
        bestDev, bestDevStep := Some(prompt), step;
      }
      devHistory := sorted;
      ok := true;
    }

    /**
     * One prompt of the dev phase (lines 160-201): skipped when its train
     * score is below the threshold; otherwise evaluated on dev and recorded.
     * Fails where the threshold test, the evaluation, the sort or the
     * comparison raises.
     */
    method DevOne(step: nat, prompt: string) returns (ok: bool)
      requires DevValid() && prompt in Keys(history) && prompt !in Keys(devHistory)
      modifies this`devHistory, this`bestDev, this`bestDevStep
      ensures ThresholdFails(metric, s.devThreshold, history, prompt) ==> !ok
      ensures !ThresholdFails(metric, s.devThreshold, history, prompt) && !Qualifies(metric, s.devThreshold, history, prompt) ==>
                ok && devHistory == old(devHistory) && bestDev == old(bestDev) && bestDevStep == old(bestDevStep)
      ensures Qualifies(metric, s.devThreshold, history, prompt) && Evaluated(metric, o, prompt, dev, old(devHistory)).None? ==> !ok
      ensures ok && Qualifies(metric, s.devThreshold, history, prompt) ==>
                && (forall p :: p in Keys(devHistory) <==> p in old(Keys(devHistory)) || p == prompt)
                && BestFirst(metric, devHistory) && bestDev.Some?
      ensures ok ==> DevValid()
    {
      if ThresholdFails(metric, s.devThreshold, history, prompt) {
        return false;
      }
      if !Qualifies(metric, s.devThreshold, history, prompt) {
        return true;
      }
      var e := Evaluate(metric, o, prompt, dev, devHistory);
      if e.None? {
        return false;
      }
      var (ev, h) := e.value;
      EvaluatedNew(metric, o, prompt, dev, devHistory);
      ok := RecordDev(step, prompt, ev.overall, h);
    }

    /**
     * The dev phase of a step (lines 155-201). On a due step the new
     * prompts, with the best train prompt added when it has no dev score
     * yet, are scored on dev one by one; the dev history then holds exactly
     * its earlier prompts and the candidates that passed the threshold,
     * best first. A `dev_evaluation_per_n_steps` of 0 raises
     * `ZeroDivisionError`.
     */
    method DevPhase(step: nat) returns (ok: bool)
      requires Valid() && best.Some? && Distinct(newPrompts)
      requires forall p :: p in newPrompts ==> p in Keys(history) && p !in Keys(devHistory)
      modifies this`newPrompts, this`devHistory, this`bestDev, this`bestDevStep
      ensures s.devEvery == 0 ==> !ok
      ensures s.devEvery != 0 && !DevDue(s, step, dev) ==>
                ok && newPrompts == old(newPrompts) && devHistory == old(devHistory) && bestDev == old(bestDev)
      ensures s.devEvery != 0 && DevDue(s, step, dev) ==> newPrompts == DevCandidates(old(newPrompts), best.value, old(devHistory))
      ensures ok ==> && Valid() && Distinct(newPrompts)
                     && (devHistory == old(devHistory) || (BestFirst(metric, devHistory) && bestDev.Some?))
      ensures ok && s.devEvery != 0 && DevDue(s, step, dev) ==>
                forall p :: p in Keys(devHistory) <==>
                              p in old(Keys(devHistory)) || (p in newPrompts && Qualifies(metric, s.devThreshold, history, p))
      ensures ok && s.devEvery != 0 && DevDue(s, step, dev) && Qualifies(metric, s.devThreshold, history, best.value) ==>
                best.value in Keys(devHistory)
    {
      if s.devEvery == 0 {
        return false;
      }
      ok := true;
      if !DevDue(s, step, dev) {
        return;
      }
      var candidates := DevCandidates(newPrompts, best.value, devHistory);
      DevCandidatesCover(newPrompts, best.value, devHistory);
      newPrompts := candidates;
      ok := DevAll(step, candidates);
    }

    /** Dev-evaluates the candidates in order, stopping at the first failure. */
    method DevAll(step: nat, candidates: seq<string>) returns (ok: bool)
      requires DevValid() && Distinct(candidates)
      requires forall p :: p in candidates ==> p in Keys(history) && p !in Keys(devHistory)
      modifies this`devHistory, this`bestDev, this`bestDevStep
      ensures ok ==> DevValid()
      ensures ok ==> DevKeys(metric, s.devThreshold, history, old(Keys(devHistory)), candidates, devHistory)
      ensures ok ==> devHistory == old(devHistory) || (BestFirst(metric, devHistory) && bestDev.Some?)
    {
      ghost var dev0 := Keys(devHistory);
      ok := true;
      var i := 0;
      while i < |candidates|
        invariant 0 <= i <= |candidates| && DevValid()
        invariant DevKeys(metric, s.devThreshold, history, dev0, candidates[..i], devHistory)
        invariant forall j :: i <= j < |candidates| ==> candidates[j] in Keys(history) && candidates[j] !in Keys(devHistory)
        invariant devHistory == old(devHistory) || (BestFirst(metric, devHistory) && bestDev.Some?)
      {
        ghost var before := devHistory;
        DistinctLater(candidates, i);
        ok := DevOne(step, candidates[i]);
        if !ok {
          return;
        }
        DevKeysStep(metric, s.devThreshold, history, dev0, candidates, i, before, devHistory);
        i := i + 1;
      }
      assert candidates[..i] == candidates;
    }

    /** Each step's per-example score table starts empty (line 77). */
    method NewStep()
      requires Valid()
      modifies this`stepRows
      ensures Valid() && stepRows == EmptyRows(|train|)
    {
      stepRows := EmptyRows(|train|);
    }

    /**
     * One step of `fit` up to its end-of-search test (lines 74-201): the
     * per-step score table starts empty, the new prompts are trained, the
     * history is sorted best first and the dev phase runs when due.
     */
    method Step(step: nat) returns (ok: bool)
      requires Valid() && Distinct(newPrompts) && forall p :: p in newPrompts ==> p !in Keys(history)
      modifies this
      ensures ok ==> && Valid() && history != [] && BestFirst(metric, history) && best == Some(history[0].0)
                     && forall p :: p in Keys(history) <==> p in old(Keys(history)) || p in old(newPrompts)
    {
      ok := TrainStep(step);
      if !ok {
        return;
      }
      ok := DevPhase(step);
    }

    /**
     * The train half of a step: the new prompts scored on train, then the
     * history sorted best first. The new prompts are then keys on train and
     * still none of them on dev.
     */
    method TrainStep(step: nat) returns (ok: bool)
      requires Valid() && Distinct(newPrompts) && forall p :: p in newPrompts ==> p !in Keys(history)
      modifies this`history, this`steps, this`stepRows, this`runRows, this`best, this`critiques, this`draws, this`metaCalls
      ensures ok ==> && Valid() && history != [] && BestFirst(metric, history) && best == Some(history[0].0)
                     && (forall p :: p in newPrompts ==> p in Keys(history) && p !in Keys(devHistory))
                     && forall p :: p in Keys(history) <==> p in old(Keys(history)) || p in newPrompts
    {
      ghost var keys := Keys(history);
      NewStep();
      ok := TrainAll(step);
      if !ok {
        return;
      }
      FreshKeys(keys, newPrompts, Keys(history), Keys(devHistory));
      ok := SortHistory();
    }

    /**
     * `fit` (lines 32-254): steps `0` to `num_search_steps`; each trains the
     * new prompts, sorts the history best first, runs the dev phase when due
     * and, before every step but the last, generates the next new prompts.
     * Returns the sorted train history and the best dev prompt. `false`
     * where the source raises: a metric or an LLM part failing, a score
     * without a key, or no prompt at all to sort after the first step.
     */
    method Fit(initial: seq<string>) returns (ok: bool, result: History, chosen: Option<string>)
      requires metric.WellNamed() && Distinct(initial)
      modifies this
      ensures ok ==> && Valid() && result == history && chosen == bestDev
                     && result != [] && BestFirst(metric, result) && best == Some(result[0].0)
                     && (forall p :: p in initial ==> p in Keys(result))
                     && (chosen.Some? ==> chosen.value in Keys(result))
    {
      result, chosen := [], None;
      Reset();
      newPrompts := initial;
      var step := 0;
      while true
        invariant step <= s.numSearchSteps
        invariant Valid() && Distinct(newPrompts) && forall p :: p in newPrompts ==> p !in Keys(history)
        invariant forall p :: p in initial ==> p in Keys(history) || (step == 0 && p in newPrompts)
        decreases s.numSearchSteps - step
      {
        ok := Step(step);
        if !ok {
          return;
        }
        if step == s.numSearchSteps {
          break;
        }
        var prompts, table, retries;
        ghost var fills, batches;
        ok, prompts, table, retries, draws, metaCalls, fills, batches :=
          GenerateNewPrompts(o, s, train, stepRows, runRows, history, critiques, draws, metaCalls);
        if !ok {
          return;
        }
        newPrompts := prompts;
        step := step + 1;
      }
      ok, result, chosen := true, history, bestDev;
    }
  }
}
