# CriSPO in Dafny

CriSPO (Critique-Suggestion-guided automatic Prompt Optimisation) searches for a
better task prompt for a large language model. A `Trainer` starts from a few
initial prompts and repeats one round per search step:

- it scores every new prompt on the train set;
- it asks a critic LLM to criticise the current prompts on randomly chosen (or,
  optionally, lowest-scoring) train examples;
- it fills a meta-prompt with the scored history, few-shot examples and the
  critiques, and asks the meta LLM for new prompts until enough distinct ones
  parse;
- every `dev_evaluation_per_n_steps` steps, when there is a dev set, it scores
  the round's new prompts, and the best train prompt when it has no dev score
  yet, on the dev set (skipping those whose train score is under the optional
  threshold) and tracks the dev best.

Everything the search sees goes through a text protocol. A task prompt fills an
input into a prompt and parses the answer out of the generation. A meta-prompt
fills the history into a request and parses a new instruction out of the reply.
A critique prompt fills wrong predictions into a request and parses the critique.
The experiments adapt these three shapes to summarisation, GSM8K, MedMCQA,
NarrativeQA, Natural Questions and WebNLG. The Bedrock wrappers turn a prompt
into the Claude or Mistral request body.

This project models that core. The LLMs, the metric scorers and the random
module are parameters. Everything else is modelled:

- the search bookkeeping;
- the score algebra;
- every fill and parse of the text protocol;
- the string utilities underneath them.

Modules, one per area of the code base:

| module | files | models |
|---|---|---|
| `Wrappers`, `Assoc`, `Text`, `Render` | — | `Option`, insertion-ordered dictionaries as sequences of pairs, Python's `str` methods (`strip`, `find`, `replace`, `join`, `lstrip` with a character set; `lower` and the digit class on ASCII only, see Left out), `zip` and `str.format` on a parsed template |
| `Formatting` | — | `round`, `"%.2f"`, `"{:.2%}"` and `"{:.2f}%"` on reals, with round-half-even |
| `Floats`, `Metrics` | crispo/metrics/floats.py, metric.py, accuracy.py | `FloatDict`, `Metric`, `MetricDict`: score, aggregate, key, sub-metric lookup |
| `PromptUtil`, `Task`, `CritiqueSuffix` | crispo/utilities/prompt_util.py, crispo/task/*.py | `extract_xml_tag`, `trim_space`, `TaskPrompt`, `Example.to_xml`, the suffix critique |
| `Optimizer`, `OptimizerAst` | crispo/optimizer/*.py, crispo/optimizer/ast/*.py | the OPRO and CriSPO meta-prompts, and the suffix variants |
| `Trainer`, `TrainerOrder`, `TrainerSelect`, `TrainerHistory` | crispo/trainer/trainer.py | the state of one `fit` call as a class `Search`, plus the pure parts: the best-to-worst sort, few-shot and critique selection, history slicing, the generate–deduplicate–retry loop, dev gating and the "rank" recompute |
| `LogUtil` | crispo/utilities/log_util.py | colour tags: `color_format`, `remove_color_tag`, `color_format_len` |
| `Bedrock` | crispo/llms/bedrock/claude2.py, claude3.py, mistral.py | request building and response parsing |
| `Summarization*` | experiments/summarization/ | task prompts, suffix prompts, the OPRO and CriSPO meta-prompts, critiques, truncation, ExactMatch, nested accuracy, the multi-metric wrapper |
| `GsmExample`, `Gsm`, `MedMcqa`, `NarrativeQa`, `Nq`, `WebNlg` | experiments/<task>/ | each task's prompts, meta-prompts, critiques and, for GSM8K and MedMCQA, the record shaping |

Conventions of the model:

- Scores are `real`.
- Python strings are `seq<char>`.
- A Python `dict` is a sequence of pairs with distinct keys, in insertion order.
- `str.format` fills become concatenations. Chained `.replace` calls are applied
  one after another.
- A Python exception is the `None` of an `Option` result.
- The task LLM is a function from request to generation. The meta LLM also takes
  the number of its call, so a retry can see a different generation.
- `random` is an arbitrary stream `rand: nat -> nat` that drives a selection
  shuffle. Permutation and distinctness are proved for every stream.
- Placeholders whose constants module is not part of this model
  (experiments/summarization/constants.py and experiments/nq/constants.py) are
  constants of a non-empty string type with no stated value.

Many parse methods share one of two shapes, and each shape is modelled once:

- `extract_xml_tag(g, tag) or g` is `Task.TagOrRaw`. The critique parses and most
  task-prompt parses use it.
- `extract_xml_tag` followed by "no content means no prompt" is `Task.NonEmptyTag`.
  Most meta-prompt parses use it.

The trainer keeps one quirk of the source. The in-round best test compares
`metric.key` of the new score against the raw stored score of the current best,
not against its key (crispo/trainer/trainer.py:104-107 and 181-185).
The predicate `Trainer.ReplacesBest` is that test as written, and
`Trainer.ReplacesBestMeaning` spells out what it compares.

## Model

| member | source | states |
|---|---|---|
| Task.ShortStrShape | crispo/task/prompt.py:24-25 | `short_str` has no newline, is `min(max_length, len)` long and agrees with the prompt except that newlines read as spaces |
| Task.ShortStrDefault | crispo/task/prompt.py:24-25 | with the default bound the short form is at most 50 characters long |
| Task.ToXmlOutputRoundTrip | crispo/task/example.py:13-22 | reading the `output` tag back out of `Example.to_xml` gives the stripped gold output, when that output does not itself contain `<output>` |
| Task.TagOrRaw | crispo/task/ast/critique_suffix.py:59-63 | the `extract_xml_tag(...) or generation` parse returns the generation unchanged when the tag is absent, and anything else it returns is the non-empty tag content |
| Task.TagOrRawWrapped | crispo/task/ast/critique_suffix.py:59-63 | non-blank content wrapped in the tag comes back stripped |
| Task.NonEmptyTagMeaning | experiments/summarization/meta_prompt.py:63-67 | a parsed instruction exists exactly when the tag content is present and non-empty, and is then non-empty and stripped |
| Task.NonEmptyTagWrapped | experiments/summarization/meta_prompt.py:63-67 | non-blank content wrapped in `<instruction>`-style tags is read back, stripped, as the new instruction |
| Task.AppendIfMissingMeaning | experiments/summarization/crispo/meta_prompt.py:45-46 | appending a sentence when its marker is missing always leaves the marker in the text, keeps the text as its beginning, and leaves a text that already has the marker untouched |
| Task.PrependIfMissingMeaning | experiments/summarization/crispo/meta_prompt.py:43-44 | prepending when the marker is missing always leaves the marker in the text, keeps the text as its end, and leaves a text that already has the marker untouched |
| Floats.MeanBetween | crispo/metrics/floats.py:9-13 | the mean of non-empty scores lies between any lower and upper bound of them |
| Floats.MakeFloatList | crispo/metrics/floats.py:9-13 | a `FloatList` fails exactly on no scores, keeps its scores in order, and its value lies between their minimum and maximum |
| Floats.MakeFloatDict | crispo/metrics/floats.py:16-26 | a `FloatDict` fails exactly when it has neither a value nor parts, keeps the parts as given, takes an explicit value whenever one is given (0.0 included) and otherwise the mean of the parts; its parts are what `**scores` collects, so none is named "value", "cls" or "self" |
| Floats.KeywordFloatDict | crispo/metrics/floats.py:17-23 | `FloatDict(value, **kwargs)` raises exactly on a keyword "cls" or "self", on a keyword "value" next to a positional value, or with no value and no keywords; a keyword "value" becomes the value and is no part, and the parts are the other keywords in order |
| Floats.FloatDictValueBetween | crispo/metrics/floats.py:18-20 | without an explicit value, the value lies between any bounds of the parts |
| Metrics.MeanAggregate | crispo/metrics/metric.py:20-21 | `Metric.aggregate` fails exactly on an empty list and otherwise lies between the smallest and the largest score |
| Metrics.AggregatedEntries | crispo/metrics/metric.py:46-49 | the per-name means fail exactly when some configured name has no score; otherwise there is one entry per configured name, in configured order, holding the mean of that name's scores |
| Metrics.Metric.Score | crispo/metrics/metric.py:33-39 | `MetricDict.score` fails exactly when no sub-metric is configured (the mean of nothing) or one is named "cls"; otherwise each sub-metric other than "value" gives a part, in configured order, holding its own score, and the value is the "value" sub-metric's score when there is one, else the mean of the parts |
| Metrics.Metric.Aggregate | crispo/metrics/metric.py:20-50 | a plain metric's aggregate is the mean of the values; a `MetricDict`'s aggregate fails when no name is configured, a name is "cls" or a configured name has no parts; otherwise it holds, per configured name other than "value", the mean of that name's parts, drops every other name, and its value is the "value" mean when that name is configured, else the mean of the parts |
| Metrics.Metric.AggregateByName | crispo/metrics/metric.py:41-50 | the two loops of `MetricDict.aggregate` compute exactly `Aggregate` |
| Metrics.CollectColumns | crispo/metrics/metric.py:42-45 | after the first loop, every name's list holds that name's part of every score, in input order |
| Metrics.CollectParts | crispo/metrics/metric.py:44-45 | the inner loop appends the parts of one score to their names' lists and to no other |
| Metrics.MeanColumns | crispo/metrics/metric.py:46-49 | the second loop computes `AggregatedEntries` from the collected lists |
| Metrics.AggregatePart | crispo/metrics/metric.py:41-50 | every configured name other than "value" reads back from the aggregate as the mean of that name's parts across all scores; "value" is no part of the aggregate |
| Metrics.ValueNamedNeverAggregates | crispo/metrics/metric.py:33-50 | with a sub-metric named "value", aggregating scores that lack a "value" part (as every `MetricDict.score` does) always fails, because that name's list is empty |
| Metrics.Metric.Key | crispo/metrics/metric.py:23-58 | `key` is the primary part, negated for "rank", or the whole score when no primary is set |
| Metrics.RankKeyOrder | crispo/metrics/metric.py:52-58 | with "rank" as primary, the lower rank has the higher key |
| Metrics.AggregateKeyDefined | crispo/metrics/metric.py:41-58 | with a configured primary, `key` is defined on the aggregate exactly when the primary is not "value" (a "value" part never survives the `FloatDict`) |
| Metrics.Metric.SubMetric | crispo/metrics/metric.py:60-61 | `metric[name]` fails exactly when no sub-metric is configured under the name |
| Metrics.SubScores | crispo/metrics/metric.py:36-38 | the per-example part list has one entry per configured sub-metric, in order, each that sub-metric's score |
| Metrics.SubMetricAgreesWithScore | crispo/metrics/metric.py:33-61 | `metric[name].score(...)` equals the `name` part of `metric.score(...)`; for "value" there is no such part and it equals the score's value instead |
| Metrics.AccuracyScore | crispo/metrics/accuracy.py:12-14 | the score is 1.0 exactly when gold equals the prediction, and is always 0.0 or 1.0 |
| Metrics.AccuracySum | crispo/metrics/accuracy.py:12-14 | the accuracy scores of a batch add up to the number of exact matches |
| Metrics.AccuracyAggregate | crispo/metrics/accuracy.py:9-14 | the inherited aggregate of accuracy scores is the fraction of exact matches |
| Formatting.NatToStringRoundTrip | crispo/optimizer/opro_meta_prompt.py:30 | the decimal text of a non-negative integer, as `str` writes it, reads back as that integer |
| Formatting.NatToStringInjective | crispo/optimizer/opro_meta_prompt.py:30 | distinct integers have distinct decimal texts, so distinct rounded scores show differently |
| Formatting.RoundHalfEven | crispo/optimizer/opro_meta_prompt.py:30 | `round(x)` is an integer within one half of `x`, the even one on a tie |
| Formatting.Fixed2Meaning | crispo/optimizer/crispo_meta_prompt.py:79 | the two-decimal text ends in a point and two digits that spell the hundredths of `x` rounded half-even |
| Formatting.Fixed2PercentIsUnscaled | experiments/webnlg/meta_prompt_opro.py:64 | the score in `"{:.2f}%"` reads as one hundredth of what `"{:.2%}"` shows for the same score |
| Formatting.RoundOrVerbatim | crispo/optimizer/ast/opro_meta_prompt.py:44-50 | a string score is shown verbatim; a float or an int is shown as integer text |
| Formatting.PercentUnlessStr | crispo/optimizer/crispo_meta_prompt.py:79 | a string score is shown verbatim, any other score as a percentage |
| Formatting.Fixed2PercentUnlessStr | experiments/webnlg/meta_prompt_opro.py:64 | a string score is shown verbatim, any other score as two decimals and a percent sign |
| PromptUtil.ExtractXmlTag | crispo/utilities/prompt_util.py:7-16 | `extract_xml_tag` returns None when `<tag>` does not occur, and any result is stripped |
| PromptUtil.ExtractSomeIff | crispo/utilities/prompt_util.py:8-14 | the extraction fails exactly when `<tag>` is absent or no `</tag>` follows the last `<tag>` |
| PromptUtil.ExtractHasNoOpenTag | crispo/utilities/prompt_util.py:8-11 | content starts after the last `<tag>`, so a result never contains `<tag>` |
| PromptUtil.ExtractBetween | crispo/utilities/prompt_util.py:8-16 | with the last `<tag>` at `b` and the last `</tag>` after it at `e`, the result is the stripped text between them |
| PromptUtil.ExtractWrapped | crispo/utilities/prompt_util.py:7-16 | content wrapped in the tag is read back stripped whatever precedes it, when no later `<tag>` or `</tag>` follows |
| PromptUtil.ExtractTagged | crispo/utilities/prompt_util.py:7-16 | a value without `<`, tagged once, is extracted back stripped |
| PromptUtil.ExtractNewlineWrapped | crispo/utilities/prompt_util.py:7-16 | content on its own lines between the tags is read back stripped |
| PromptUtil.CollapseBlanks | crispo/utilities/prompt_util.py:20 | the first substitution leaves no tab and no double space, is never longer, removes only blanks, and keeps a non-blank first character |
| PromptUtil.DropIndent | crispo/utilities/prompt_util.py:21 | the second substitution leaves no blank after a newline, adds no tab, is never longer, removes only blanks, and keeps the first character |
| PromptUtil.DropIndentSpacing | crispo/utilities/prompt_util.py:21 | deleting indentation from a text without tabs or double spaces never puts two spaces side by side |
| PromptUtil.TrimSpace | crispo/utilities/prompt_util.py:19-22 | `trim_space` leaves no tab, no two spaces in a row and no space after a newline; it is never longer than its input and removes nothing but blanks |
| PromptUtil.TrimSpaceKeepsNewlines | crispo/utilities/prompt_util.py:19-22 | `trim_space` keeps exactly as many newlines as the input had |
| LogUtil.ColorFormat | crispo/utilities/log_util.py:60-65 | the loops of `color_format` compute `ColorFormatted`: every start tag of every table entry, in table order, replaced by its escape code and every end tag by the reset code |
| LogUtil.RemoveColorTag | crispo/utilities/log_util.py:68-73 | the loops of `remove_color_tag` compute `ColorTagsRemoved`: every start and end tag deleted, entry by entry in table order |
| LogUtil.RemoveColorTagShortens | crispo/utilities/log_util.py:68-73 | removing tags never lengthens a message |
| LogUtil.ReplaceColorOffsetMeaning | crispo/utilities/log_util.py:88-91 | `_replace_color_offset` is `msg.replace(color, ctrl)` with an offset of the number of non-overlapping occurrences of `color` times its length |
| LogUtil.ColorFormatLen | crispo/utilities/log_util.py:76-85 | the loops of `color_format_len` compute the message and running length of `FormattedWithLength` |
| LogUtil.LenStepMeaning | crispo/utilities/log_util.py:79-84 | one step of `color_format_len` is one step of `color_format`, lowering the length by the length of the tags it replaced |
| LogUtil.FormatStepLength | crispo/utilities/log_util.py:63-64 | one step of `color_format` trades each replaced tag for its code in the message's length |
| LogUtil.ColorFormatLenMeaning | crispo/utilities/log_util.py:60-85 | `color_format_len` formats exactly as `color_format` does, and the length it reports is the formatted text's length less its escape-code characters |
| LogUtil.NoTagsUnchanged | crispo/utilities/log_util.py:60-85 | a message holding no tag comes out of all three functions unchanged, with its own length |
| CritiqueSuffix.SuffixBlockShows | crispo/task/ast/critique_suffix.py:27-53 | a critique block shows the input and the prediction, and is the same whatever the reference is |
| CritiqueSuffix.SuffixExamplesShow | crispo/task/ast/critique_suffix.py:50-53 | there is one block per zipped (prediction, example), as many as the shorter list, and each appears in the joined examples |
| CritiqueSuffix.SuffixCritiqueFillShows | crispo/task/ast/critique_suffix.py:10-56 | the filled critique prompt holds the constructor's main prompt in the instruction slot, the prompt under critique in the postscript slot, and every block |
| Optimizer.ScaledRound | crispo/optimizer/opro_meta_prompt.py:30 | `round(score * 100)` gives integer text for a float or an int score and raises `TypeError` exactly for a string score |
| Optimizer.ScaledRoundRange | crispo/optimizer/opro_meta_prompt.py:26-30 | a score in [0, 1] is shown as a whole number in [0, 100], the range the header announces |
| Optimizer.OproFill | crispo/optimizer/opro_meta_prompt.py:17-47 | the list-building loops of `OproMetaPrompt.fill` compute `OproText` |
| Optimizer.AppendOproRated | crispo/optimizer/opro_meta_prompt.py:28-31 | the loop over the rated instructions appends one block per pair in order, and fails exactly when some score is a string |
| Optimizer.AppendOproProblems | crispo/optimizer/opro_meta_prompt.py:35-37 | the loop over the few-shot problems appends each problem's two parts, in order |
| Optimizer.OproRatedBlocksDefinedIff | crispo/optimizer/opro_meta_prompt.py:28-31 | a string score is the only thing that makes the OPRO meta-prompt fail |
| Optimizer.OproRatedBlocksShow | crispo/optimizer/opro_meta_prompt.py:28-31 | each rated instruction appears with its text and its rounded score |
| Optimizer.OproTextEnds | crispo/optimizer/opro_meta_prompt.py:23-46 | the meta-prompt starts with the instruction, a newline and the score header, and ends with the fixed closing request |
| Optimizer.OproTextParts | crispo/optimizer/opro_meta_prompt.py:23-46 | the meta-prompt is the header, then the rated blocks in order, then the problems section only for non-empty examples, then the closing request |
| Optimizer.OproTextShowsPairs | crispo/optimizer/opro_meta_prompt.py:28-31 | each rated instruction appears in the meta-prompt with its rounded score |
| Optimizer.OproTextShowsProblems | crispo/optimizer/opro_meta_prompt.py:33-37 | each few-shot problem appears with its input and its answer |
| Optimizer.OproTextWithoutProblems | crispo/optimizer/opro_meta_prompt.py:33-37 | few-shot problems only add a section after the history: without them the text is the same up to the closing request |
| Optimizer.CrispoFill | crispo/optimizer/crispo_meta_prompt.py:38-63 | the two loops of `CriSPOMetaPrompt.fill` compute `CrispoText`: the wrapped examples and the zipped rated instructions, each joined by newlines, put into the template |
| Optimizer.CrispoDefaultSlots | crispo/optimizer/crispo_meta_prompt.py:15-35 | the default template has exactly the `examples` and `instructions` fields, in that order |
| Optimizer.CrispoTextArgs | crispo/optimizer/crispo_meta_prompt.py:59-62 | a template with those two fields always renders and shows both arguments |
| Optimizer.CrispoTextContents | crispo/optimizer/crispo_meta_prompt.py:45-81 | the CriSPO meta-prompt renders and shows every few-shot example in its `<example>` wrapper and, for every zipped index, the rated instruction with its score (verbatim for a string, a percentage otherwise) and its critique |
| OptimizerAst.AstOproFill | crispo/optimizer/ast/opro_meta_prompt.py:20-65 | the list-building loops of `OproASTMetaPrompt.fill` compute `AstOproText` |
| OptimizerAst.AstOproTextEnds | crispo/optimizer/ast/opro_meta_prompt.py:26-63 | the text starts with the prompt, a newline and the main instruction in `<instruction>` tags, and ends with the fixed closing request |
| OptimizerAst.AstOproTextShowsRatings | crispo/optimizer/ast/opro_meta_prompt.py:43-54 | every rated postscript appears, in its `<rating>` block |
| OptimizerAst.AstOproTextShowsExamples | crispo/optimizer/ast/opro_meta_prompt.py:32-38 | every few-shot example appears with its `<input>` and `<output>` |
| OptimizerAst.AstRatingScore | crispo/optimizer/ast/opro_meta_prompt.py:44-53 | a float score is shown as `round(score * 100)`, an int or a string exactly as given |
| OptimizerAst.AstCrispoFill | crispo/optimizer/ast/crispo_meta_prompt.py:43-78 | the loops of `CriSPOASTMetaPrompt.fill` compute `AstCrispoText` |
| OptimizerAst.AstCrispoDefaultSlots | crispo/optimizer/ast/crispo_meta_prompt.py:13-39 | the default template has exactly the `main_prompt`, `examples` and `postscripts` fields |
| OptimizerAst.AstCrispoTextArgs | crispo/optimizer/ast/crispo_meta_prompt.py:73-77 | a template with those three fields always renders and shows all three arguments |
| OptimizerAst.AstCrispoTextContents | crispo/optimizer/ast/crispo_meta_prompt.py:50-77 | the meta-prompt shows the main instruction, every example as `format_example` renders it with no added wrapper, and one rated postscript per zipped (pair, critique) |
| Render.FormatDefinedIff | crispo/optimizer/crispo_meta_prompt.py:59-62 | `str.format` on a template fails exactly when one of its fields has no argument |
| Render.FormatContainsArg | crispo/optimizer/crispo_meta_prompt.py:59-62 | the rendered template contains the argument of each of its fields |
| Render.FormatOnlyReadsSlots | crispo/optimizer/crispo_meta_prompt.py:59-62 | the rendering depends only on the arguments the template's fields name |
| Text.JoinSplitIsReplace | crispo/utilities/log_util.py:89-91 | `ctrl.join(s.split(sep))` is `s.replace(sep, ctrl)` |
| Text.SplitCount | crispo/utilities/log_util.py:89-90 | `split` yields one more piece than there are non-overlapping occurrences of the separator |
| TrainerOrder.SortDesc | crispo/trainer/trainer.py:575-581 | `sorted(..., reverse=True)` returns a permutation of its input |
| TrainerOrder.SortDescOrdered | crispo/trainer/trainer.py:575-581 | the sort is best-first: keys never increase along the result |
| TrainerOrder.SortDescStable | crispo/trainer/trainer.py:575-581 | the sort is stable even with `reverse=True`: the entries sharing any one key keep their insertion order |
| TrainerOrder.SortDescSortedNoop | crispo/trainer/trainer.py:575-581 | a list that is already best-first is left exactly as it is |
| TrainerOrder.SortDescIdempotent | crispo/trainer/trainer.py:575-581 | sorting the sorted history again changes nothing |
| TrainerOrder.SortKeys | crispo/trainer/trainer.py:577-581 | sorting a dictionary's items keeps exactly its keys, and keeps them distinct |
| TrainerOrder.IndexOf | crispo/trainer/trainer.py:456-458 | `list.index(v)` is the first position holding `v` |
| TrainerOrder.IndexOfSorted | crispo/trainer/trainer.py:456-458 | in a list sorted from the highest value down, the first `v` sits right after the values above `v`, so ties share the lower position |
| TrainerOrder.CountAboveSort | crispo/trainer/trainer.py:456-458 | sorting does not change how many elements exceed a value |
| TrainerOrder.Draw | crispo/trainer/trainer.py:509-511 | drawing without replacement, as `random.shuffle` and `random.sample` do, yields `min(k, len)` items taken from the pool |
| TrainerOrder.SortDescRanked | crispo/trainer/trainer.py:513-515 | sorting a list whose indices increase orders equal keys by increasing index |
| TrainerOrder.Filter | crispo/trainer/trainer.py:276-280 | the comprehension filter keeps exactly the elements that pass the test |
| TrainerOrder.FilterRanked | crispo/trainer/trainer.py:276-280 | filtering keeps the relative order |
| TrainerOrder.PrefixPrecedesRest | crispo/trainer/trainer.py:513-515 | in a ranked list, every element of a prefix precedes every element left out of it |
| TrainerOrder.SubMultisetDistinct | crispo/trainer/trainer.py:509-511 | a selection from a list without repeats has no repeats |
| TrainerOrder.SameSizeSubMultiset | crispo/trainer/trainer.py:272 | a full draw is a permutation |
| TrainerSelect.FewShotExamples | crispo/trainer/trainer.py:498-524 | `select_few_shot_examples` fails exactly when the index choice does (a `random.sample` of a wrong size), and otherwise returns the training examples at the chosen indices, in order |
| TrainerSelect.FewShotIndicesInRange | crispo/trainer/trainer.py:506-522 | every chosen few-shot index is a training index |
| TrainerSelect.DrawnIndices | crispo/trainer/trainer.py:509-511 | a sample of `k` of the indices below `n` holds `k` different indices, each below `n` |
| TrainerSelect.SortedRowsRanked | crispo/trainer/trainer.py:513-521 | the rows are sorted by increasing sum, equal sums by increasing index |
| TrainerSelect.LowestRowsChosen | crispo/trainer/trainer.py:512-522 | the lowest-score choice is `min(k, n)` different indices in increasing order of their row sums, and every index left out has a larger sum than each chosen one, or the same sum and a larger index |
| TrainerSelect.FewShotRandom | crispo/trainer/trainer.py:508-511 | a random choice is exactly `k` different training indices, and a negative or too large `k` raises |
| TrainerSelect.CritiqueOrderPermutes | crispo/trainer/trainer.py:270-274 | whether shuffled or sorted by key, the order holds every example index exactly once |
| TrainerSelect.CritiqueOrderMembers | crispo/trainer/trainer.py:270-274 | every example index, and only those, is in the order |
| TrainerSelect.CritiqueIndicesChosen | crispo/trainer/trainer.py:270-285 | the critique selection raises exactly when `key` is needed and a score lacks the primary part; otherwise it is at most `num_examples_in_critique` different indices, all under the ceiling, and it holds every index under the ceiling when `num` leaves room |
| TrainerSelect.CutOfEligible | crispo/trainer/trainer.py:284-285 | the cut `[:num]` of the eligible indices is at most `num` of them, each once, and all of them when `num` leaves room |
| TrainerSelect.RankedCut | crispo/trainer/trainer.py:284-285 | the cut of a ranked list keeps the best first, and each index kept precedes each one cut off |
| TrainerSelect.CritiqueLowestFirst | crispo/trainer/trainer.py:273-285 | the "lowest_score" criterion shows keys in increasing order, and every eligible index left out has a larger key than each shown one, or the same key and a larger index |
| TrainerSelect.LowestEligibleRanked | crispo/trainer/trainer.py:274-280 | the eligible indices are ranked by increasing key and hold every index under the ceiling |
| TrainerSelect.CritiqueExamples | crispo/trainer/trainer.py:284-285 | the predictions and examples handed to the critique prompt are the ones at the selected indices, index-aligned (which indices are selected is stated by `TrainerSelect.CritiqueIndicesChosen`) |
| TrainerHistory.SortBestToWorst | crispo/trainer/trainer.py:575-581 | `sort_prompts_best_to_worst` returns a permutation of the history's entries |
| TrainerHistory.SortBestToWorstOrder | crispo/trainer/trainer.py:575-581 | the sorted history is ordered by non-increasing `metric.key` |
| TrainerHistory.SortBestToWorstBestFirst | crispo/trainer/trainer.py:575-581 | the first entry has the highest key, so `fit` takes the best prompt from the front |
| TrainerHistory.SortBestToWorstEntries | crispo/trainer/trainer.py:575-581 | sorting keeps the dictionary: the same keys, still distinct, each with the same score |
| TrainerHistory.SortBestToWorstStable | crispo/trainer/trainer.py:575-581 | prompts with equal keys keep their insertion order |
| TrainerHistory.SortBestToWorstIdempotent | crispo/trainer/trainer.py:178-180 | re-sorting the sorted history, as every round does, changes nothing |
| TrainerHistory.PromisingBest | crispo/trainer/trainer.py:323-325 | `list(reversed(items))[-N:]` holds the N best entries, worst first and best last; N = 0 or N at least the size gives the whole history, and a negative N drops the -N worst |
| TrainerHistory.PromisingAt | crispo/trainer/trainer.py:323-325 | the window's i-th entry is the (w-1-i)-th best, w being the window's size |
| TrainerHistory.PromisingEndsWithBest | crispo/trainer/trainer.py:323-325 | the prompt shown last is the best one |
| TrainerHistory.Shown | crispo/trainer/trainer.py:326-330 | each window entry is shown with its score, described when the metric describes scores |
| TrainerHistory.CritiquesFor | crispo/trainer/trainer.py:334-336 | the critique list is aligned with the window and holds `None` for a prompt with no critique |
| TrainerHistory.WindowShown | crispo/trainer/trainer.py:323-336 | the i-th pair and critique shown are those of the (w-1-i)-th best prompt |
| TrainerHistory.PartNames | crispo/trainer/trainer.py:446-451 | the keys of `metric_scores` are every part name of the unranked scores, once each, in order of first appearance |
| TrainerHistory.PositionCountsBetter | crispo/trainer/trainer.py:456-458 | a score's position is the number of strictly better values, so equal values share the lower position |
| TrainerHistory.UnrankedParts | crispo/trainer/trainer.py:449 | popping "rank" keeps the part names distinct and leaves no part named "rank" |
| TrainerHistory.RankPartsBounds | crispo/trainer/trainer.py:453-459 | each position lies between 0 and the number of prompts less one |
| TrainerHistory.Rerank | crispo/trainer/trainer.py:444-466 | the loops of the re-ranking compute `Reranked` |
| TrainerHistory.PopRanks | crispo/trainer/trainer.py:447-451 | the first loop pops "rank" from every score and collects the part names met on the way |
| TrainerHistory.RankAll | crispo/trainer/trainer.py:452-466 | the second and third loops give each prompt its mean rank and store it back under the prompt |
| TrainerHistory.RanksOf | crispo/trainer/trainer.py:453-459 | the inner loop appends one position per part name, in the order of the names |
| TrainerHistory.RerankedMeaning | crispo/trainer/trainer.py:437-467 | re-ranking keeps the prompts and gives each one the mean of its parts' positions as its value and as its "rank" part: a number between 0 and the number of prompts less one, and 0 when no score has any other part |
| TrainerHistory.RankPartsZero | crispo/trainer/trainer.py:453-459 | a prompt at least as good as every other on every part has every position 0 |
| TrainerHistory.MeanRankZero | crispo/trainer/trainer.py:460-462 | all-zero positions give a mean rank of 0 |
| Trainer.Predict | crispo/trainer/trainer.py:526-538 | `predict` gives one prediction per input, the task prompt's parse of the task LLM's answer to the filled prompt |
| Trainer.PredictSplits | crispo/trainer/trainer.py:533-537 | each prediction depends on its own input only: predicting a split batch is predicting its halves |
| Trainer.ScoreAll | crispo/trainer/trainer.py:428-435 | the per-example scores fail exactly when there is an example and a `MetricDict` has no sub-metric or one named "cls"; otherwise there is one score per example, each `metric.score(p, e.y, x=e.x)` |
| Trainer.Scores | crispo/trainer/trainer.py:428-435 | for a metric whose scores do not raise, one score per example, each the metric's score of its prediction |
| Trainer.Evaluate | crispo/trainer/trainer.py:414-473 | `evaluate` computes `Evaluated`: predict, score, aggregate, then the history write |
| Trainer.Store | crispo/trainer/trainer.py:437-467 | the history write with the loops of the rank recompute computes `Stored` |
| Trainer.StoredRecords | crispo/trainer/trainer.py:437-467 | the write always leaves the returned score stored under the prompt, keeps every other prompt in place, appends the prompt when it is new, and outside rank mode changes no other entry and returns the aggregate itself |
| Trainer.RerankedKeys | crispo/trainer/trainer.py:463-466 | re-ranking keeps the keys, so distinct keys stay distinct |
| Trainer.EvaluatedRecords | crispo/trainer/trainer.py:424-438 | an evaluation has one score and one prediction per example, and writes the aggregate of those scores into the history |
| Trainer.EvaluatedNew | crispo/trainer/trainer.py:437-438 | evaluating a new prompt adds it last to the history, under the score returned |
| Trainer.StoredRanks | crispo/trainer/trainer.py:439-467 | in rank mode every entry the write leaves has its mean rank as value and as "rank" part, between 0 and the number of prompts less one |
| Trainer.AggregateDistinct | crispo/metrics/metric.py:46-50 | a `MetricDict` aggregate has at most one part per sub-metric, so its part names are distinct |
| Trainer.ReplacesBestMeaning | crispo/trainer/trainer.py:181-185 | the best test compares `metric.key` of the new score with the best's raw stored score: without a primary this is a comparison of the two scores, and under "rank" a non-negative rank never beats a non-negative stored value |
| Trainer.RankBestNeverReplaced | crispo/trainer/trainer.py:181-185 | in a history as rank mode leaves it, a best prompt that is already set is never replaced by another prompt of that history |
| Trainer.RankBestExample | crispo/trainer/trainer.py:104-107 | concrete scores: a challenger with the better rank and the better key still does not replace an incumbent whose stored mean rank is 1 |
| Trainer.MetaPromptFails | crispo/trainer/trainer.py:294-340 | filling the meta-prompt fails only when few-shot examples are asked for and sampling them raises |
| Trainer.MetaPromptShowsBest | crispo/trainer/trainer.py:308-337 | the meta-prompt is filled with the window of best prompts, worst first and best last, each with its score and its critique (`None` where it has none), and with few-shot examples exactly when their number is not 0 |
| Trainer.ShownWindow | crispo/trainer/trainer.py:323-337 | what the meta-prompt is given for the window of the N most promising prompts satisfies `ShowsWindow`: sizes, window size cases and per-index pairs and critiques |
| Trainer.EmptyRows | crispo/trainer/trainer.py:66-79 | `[[] for _ in range(n)]` is n empty rows |
| Trainer.AppendColumn | crispo/trainer/trainer.py:99-101 | appending a prompt's scores adds score i at the end of row i and changes nothing else |
| Trainer.DevCandidatesCover | crispo/trainer/trainer.py:156-158 | the dev candidates are the new prompts plus the best train prompt when it has no dev score yet, without duplicates |
| Trainer.NovelMeaning | crispo/trainer/trainer.py:393-398 | the acceptance test refuses exactly a failed parse, a prompt already scored and a prompt already accepted; since a parsed `TaskPrompt` is always true, an empty prompt is accepted |
| Trainer.AcceptGenerations | crispo/trainer/trainer.py:393-410 | the loop over a batch appends each successful parse that is not yet scored and not yet accepted (an empty one included), to the prompts and to the table, counts every other generation as a retry, and keeps the prompts distinct |
| Trainer.Generations | crispo/trainer/trainer.py:388-392 | a batch of n generations is the answers of the meta LLM's next n calls on the same text |
| Trainer.GeneratedBatch | crispo/trainer/trainer.py:373-408 | every accepted parse of a batch generated from a filled meta-prompt makes a row of the generation table |
| Trainer.GenerateBatch | crispo/trainer/trainer.py:388-410 | one batch requests exactly the shortfall; its accepted prompts join the earlier ones, stay distinct and unscored, and every rejection raises the retry counter |
| Trainer.FillAgain | crispo/trainer/trainer.py:373-377 | filling the meta-prompt again gives the fill of the current position of the random stream; it fails only when few-shot sampling raises; a successful fill moves the stream on by one fill's draws, and an empty fill is kept as a witness position whose fill is empty |
| Trainer.GenerateNewPrompts | crispo/trainer/trainer.py:342-412 | `generating_new_prompts` returns at most `num_new_prompts_in_each_step` distinct prompts, none already scored, each a parse of a generation from a filled meta-prompt; it stops short only once `max_retry` rejections are counted (the counter is never reset and may overshoot); every generation is one meta LLM call; with `refresh_meta_prompt_each_attempt` every batch gets a fresh fill, and without it the meta-prompt is filled at most once unless a fill comes out empty |
| Trainer.FreshKeys | crispo/trainer/trainer.py:83-97 | training appends the new prompts to the keys: they are then keys on train and none of them is on dev |
| Trainer.InitialConsistent | crispo/trainer/trainer.py:61-68 | the state a `fit` call starts from is consistent |
| Trainer.RecordAgrees | crispo/trainer/trainer.py:96-97 | recording a new prompt with its step keeps the histories and the steps in agreement |
| Trainer.SortedHistory | crispo/trainer/trainer.py:139-142 | sorting a keyed history keeps the same dictionary, best first |
| Trainer.DevRecorded | crispo/trainer/trainer.py:177-180 | writing a prompt already scored on train into the dev history and sorting it keeps the histories in agreement and the dev history best first |
| Trainer.DevKeysStep | crispo/trainer/trainer.py:160-177 | each candidate gets a dev score exactly when it passes the threshold; later candidates stay unscored |
| Trainer.StepsOf | crispo/trainer/trainer.py:97 | the prompts of one step are recorded with that step, in order |
| Trainer.Search.constructor | crispo/trainer/trainer.py:32-68 | a `fit` call starts from empty histories, no best prompts, no steps, no critiques and empty score rows, with the state invariant |
| Trainer.Search.Reset | crispo/trainer/trainer.py:60-68 | the local state `fit` sets up is the initial one and keeps the invariant |
| Trainer.Search.Record | crispo/trainer/trainer.py:96-101 | recording a prompt stores its history entry and its step, and appends score i to row i of both score tables |
| Trainer.Search.UpdateBest | crispo/trainer/trainer.py:103-109 | the new prompt becomes the best exactly when there is none or `ReplacesBest` holds against the best's stored score; it fails only on a score without a key when a best exists |
| Trainer.Search.UpdateCritique | crispo/trainer/trainer.py:256-292 | `update_critique` fails exactly when the selection raises; otherwise it writes the new critique under this prompt only |
| Trainer.Search.TrainOn | crispo/trainer/trainer.py:83-136 | one prompt of a round is evaluated on train, added last to the history with its step, its scores appended to both tables, and there is a best afterwards |
| Trainer.Search.Admit | crispo/trainer/trainer.py:96-136 | after a prompt's evaluation: the record, the best update and, with a critic, its critique |
| Trainer.Search.TrainAll | crispo/trainer/trainer.py:83-136 | the round's new prompts are evaluated in order and each joins the history after the earlier ones, with this step as its step |
| Trainer.Search.SortHistory | crispo/trainer/trainer.py:138-142 | sorting after a round fails exactly on an empty history or a score without a key, and otherwise leaves the same dictionary best first with the first prompt as the best |
| Trainer.Search.RecordDev | crispo/trainer/trainer.py:176-190 | a dev score is written, the dev history sorted again, and the dev best updated as the source compares |
| Trainer.Search.DevOne | crispo/trainer/trainer.py:160-201 | a candidate below the threshold is skipped with nothing changed; otherwise it is evaluated on dev and recorded |
| Trainer.Search.DevPhase | crispo/trainer/trainer.py:154-201 | on a due step (step divisible by `dev_evaluation_per_n_steps`, non-empty dev) the candidates are scored on dev in order and the dev history then holds exactly its earlier prompts and the candidates that passed the threshold, best first; on other steps nothing changes; a period of 0 raises |
| Trainer.Search.DevAll | crispo/trainer/trainer.py:160-201 | the candidates are dev-evaluated in order and exactly those passing the threshold gain a dev entry |
| Trainer.Search.NewStep | crispo/trainer/trainer.py:79 | each round's per-example score table starts empty |
| Trainer.Search.TrainStep | crispo/trainer/trainer.py:79-142 | the train half of a round leaves the new prompts scored on train and not on dev, the history sorted best first and its first prompt the best |
| Trainer.Search.Step | crispo/trainer/trainer.py:75-201 | one round leaves the history holding exactly the earlier prompts and the new ones, best first, with its first prompt as the best |
| Trainer.Search.Fit | crispo/trainer/trainer.py:32-254 | `fit` returns the train history best first, holding every initial prompt, with the best train prompt first, and a dev best that was scored |
| Bedrock.InputMessagesAsWritten | crispo/llms/bedrock/claude3.py:62-73 | `get_input_msg_claude3` as written always gives one user message first, and a second, assistant message only with a non-empty stripped assistant part |
| Bedrock.GetInputMsgClaude3 | crispo/llms/bedrock/claude3.py:62-73 | the steps of `get_input_msg_claude3` compute `InputMessagesAsWritten`: a user message first, then an assistant message only when the assistant part is non-empty |
| Bedrock.AssistantWithoutColonSplits | crispo/llms/bedrock/claude3.py:66-69 | when "Assistant" occurs with no colon after it, `find` returns -1: the user message loses its last character and whatever follows the first nine characters becomes an assistant turn |
| Bedrock.AssistantWithoutColonExample | crispo/llms/bedrock/claude3.py:64-73 | "Dear Assistant" is sent as "Dear Assistan" from the user and "stant" from the assistant, where the intended messages are the whole prompt from the user |
| Bedrock.HumanCharsExample | crispo/llms/bedrock/claude3.py:64 | `lstrip("Human:")` strips a set of characters: "manual check" is sent as "l check", where the intended message keeps it whole |
| Bedrock.LStripCharsRun | crispo/llms/bedrock/claude3.py:64 | `lstrip(chars)` removes a leading run of characters of the set and stops at the first other one |
| Bedrock.InputMessages | crispo/llms/bedrock/claude3.py:62-73 | the intended messages: one user message first, and an assistant message only with non-empty content |
| Bedrock.InputMessagesMeaning | crispo/llms/bedrock/claude3.py:62-73 | a prompt without "Assistant:" is one user message holding all of it; one with it is split at its first occurrence, user part, tag and rest making the whole, and the assistant turn is the stripped rest when that is non-empty |
| Bedrock.FirstTagSplit | crispo/llms/bedrock/claude3.py:67-69 | splitting at the first "Assistant:" leaves no earlier occurrence in the user part |
| Bedrock.NormalisedMeaning | crispo/llms/bedrock/claude3.py:64 | only a literal leading "Human:" is removed; a prompt without it keeps every character but surrounding whitespace |
| Bedrock.ParseClaude3Response | crispo/llms/bedrock/claude3.py:75-77 | `parse_response` is the first content item's text, or "" when there is none |
| Bedrock.BuildClaude3Payload | crispo/llms/bedrock/claude3.py:40-60 | a string prompt is converted by `get_input_msg_claude3` as written (`InputMessagesAsWritten`) into one or two messages beginning with a user turn, a list prompt is passed through unchanged, and the sampling settings and version are copied |
| Bedrock.PayloadDearAssistant | crispo/llms/bedrock/claude3.py:48-53 | the payload for "Dear Assistant" carries the messages user "Dear Assistan" and assistant "stant" |
| Bedrock.Claude3Generate | crispo/llms/bedrock/claude3.py:103-106 | the generation has no leading whitespace and is the end of the service's answer |
| Bedrock.ClaudeInstantGenerate | crispo/llms/bedrock/claude2.py:34-42 | the wrapped prompt is sent and the answer returned without leading whitespace |
| Bedrock.Claude2TextMeaning | crispo/llms/bedrock/claude2.py:35-39 | the sent text starts with "\n\nHuman: ", ends with "\n\nAssistant: " and holds the prompt; an already wrapped prompt is sent unchanged, so wrapping is idempotent |
| Bedrock.Claude2ChatUnchanged | crispo/llms/bedrock/claude2.py:35-40 | a list prompt reaches the client unchanged |
| Bedrock.BuildMistralPayload | crispo/llms/bedrock/mistral.py:21-25 | the payload prompt is exactly "<s>[INST] " + prompt + "\n[/INST]", with the temperature and top_p copied |
| Bedrock.ParseMistralResponse | crispo/llms/bedrock/mistral.py:27-28 | the first output's text without leading whitespace; no output raises |
| Bedrock.MistralGenerate | crispo/llms/bedrock/mistral.py:36-49 | an empty prompt, an exception or a non-text answer gives ""; otherwise the answer without leading whitespace |
| Bedrock.TaggedTwoParts | crispo/llms/bedrock/claude3.py:66-73 | with "Assistant:" present, the prompt is the user message, the tag and the rest; the user message contains no earlier tag, and an assistant message exists exactly when the stripped rest is non-empty and then holds it |
| SummarizationTask.NoPlaceholderFill | experiments/summarization/task_prompt.py:13-17 | the prompt and the input on separate lines, followed by the request for `<summary>` tags exactly when the prompt does not already mention them; the result always mentions `<summary>` |
| SummarizationTask.WithPlaceholderFill | experiments/summarization/task_prompt.py:31-37 | fails exactly when the prompt has no article placeholder; otherwise the filled prompt shows the input |
| SummarizationTask.ArticleShowsInput | experiments/summarization/task_prompt.py:33-36 | the text put in place of the placeholder shows the input, wrapped in `<input>` tags or not |
| SummarizationTask.SuffixFillMeaning | experiments/summarization/ast/suffix_prompt.py:16-22 | the filled prompt ends with the postscript; it shows the input when the main instruction has the placeholder, and otherwise does not depend on the input at all |
| SummarizationTask.SummaryXmlEnds | experiments/summarization/example.py:8-16 | the rendering starts with the input tag and ends with the summary tag |
| SummarizationTask.SummaryXmlRoundTrip | experiments/summarization/example.py:8-16 | reading the `summary` tag back from the rendering gives the stripped reference summary, when that does not itself contain `<summary>` |
| SummarizationTask.TruncateTextWords | experiments/summarization/utilities/dataset_util.py:7-10 | for any bound but -1 the result is the text's words sliced as Python slices them, single-spaced and stripped: at most `max_length` words for a non-negative bound, all but the last `abs(max_length)` for a negative one |
| SummarizationTask.TruncateTextIdempotent | experiments/summarization/utilities/dataset_util.py:7-10 | truncating twice to the same non-negative bound is truncating once |
| SummarizationTask.TruncatedDatasetLoader | experiments/summarization/utilities/dataset_util.py:13-28 | as many splits as the loader gave, each as long and in the same order, every example with input and output truncated to their bounds |
| SummarizationAst.SuffixOproFill | experiments/summarization/ast/opro_meta_prompt.py:22-67 | the pieces appended step by step make up the postscript meta-prompt text, whose contents `SuffixOproTextShows` states |
| SummarizationAst.SuffixOproTextShows | experiments/summarization/ast/opro_meta_prompt.py:28-66 | the meta-prompt starts with the instruction and the main instruction in its tag, shows every few-shot example and every rated postscript, and ends with the closing request |
| SummarizationAst.SuffixParseMeaning | experiments/summarization/ast/opro_meta_prompt.py:69-75 | a postscript prompt is parsed exactly when the `postscript` tag has content; it keeps the meta-prompt's main instruction, and filling it ends with the new postscript and shows the article when the main instruction has the placeholder |
| SummarizationAst.SuffixParseWrapped | experiments/summarization/ast/critique/crispo_meta_prompt.py:42-48 | a postscript wrapped in its tag, with no later tag, is what the parse returns, stripped |
| SummarizationAst.SuffixCrispoSlots | experiments/summarization/ast/critique/crispo_meta_prompt.py:16-40 | the CriSPO postscript template has exactly the `main_prompt`, `examples` and `postscripts` fields, in that order |
| SummarizationAst.SuffixCrispoTextContents | experiments/summarization/ast/critique/crispo_meta_prompt.py:15-40 | the inherited `fill` over this template always renders, and shows the main instruction, every example and every rated postscript with its critique |
| SummarizationAst.SuffixCritiqueFillShows | experiments/summarization/ast/critique/critique_prompt.py:45-58 | the critique prompt shows the main instruction and the postscript in their tags, and the block of every zipped prediction and example |
| SummarizationAst.SuffixCritiqueIgnoresReferences | experiments/summarization/ast/critique/critique_prompt.py:28-58 | the critic never sees the reference summaries: examples that differ only in them give the same prompt |
| SummarizationCritique.CritiqueBlockShows | experiments/summarization/crispo/critique_prompt.py:27-39 | an example block shows the article, the prediction and the reference summary |
| SummarizationCritique.CritiqueFillShows | experiments/summarization/crispo/critique_prompt.py:43-54 | the critique prompt shows the instruction in its tag and the block of every zipped prediction and example |
| SummarizationCritique.MistralTextShows | experiments/summarization/crispo/critique_prompt.py:81-97 | the Mistral critique template, filled, shows the instruction and every example block |
| SummarizationCritique.MistralCritiqueFillShows | experiments/summarization/crispo/critique_prompt.py:101-134 | both Mistral critique prompts show the instruction and, headed by the number `k + 1`, the block of the `k`-th zipped prediction and example |
| SummarizationCritique.MistralNoInputIgnoresArticles | experiments/summarization/crispo/critique_prompt.py:120-134 | the "no input" critique prompt never shows the articles: examples that differ only in their inputs give the same prompt |
| SummarizationMeta.SummOproFill | experiments/summarization/meta_prompt.py:20-61 | the pieces appended step by step make up the summarization OPRO meta-prompt text, whose contents the three lemmas below state |
| SummarizationMeta.SummOproTextEnds | experiments/summarization/meta_prompt.py:26-61 | the meta-prompt starts with the instance's prompt and ends with the closing request |
| SummarizationMeta.SummOproTextShowsRatings | experiments/summarization/meta_prompt.py:39-50 | every rated instruction appears in the meta-prompt |
| SummarizationMeta.SummOproTextShowsExamples | experiments/summarization/meta_prompt.py:28-34 | every few-shot example appears in the meta-prompt |
| SummarizationMeta.SummRatingScore | experiments/summarization/meta_prompt.py:40-49 | a rated instruction shows the instruction and the score in their tags; a float score is shown as a whole number, an int or string score verbatim |
| SummarizationMeta.SummOproParse | experiments/summarization/meta_prompt.py:63-67 | a parsed instruction is non-empty and stripped |
| SummarizationMeta.MistralOproExampleNumbered | experiments/summarization/meta_prompt.py:83-88 | a Mistral few-shot example opens with its heading, numbered from 1 |
| SummarizationMeta.ScaledFixed2OrVerbatim | experiments/summarization/meta_prompt.py:94-99 | a string score is shown verbatim |
| SummarizationMeta.MistralOproFill | experiments/summarization/meta_prompt.py:73-113 | the pieces appended step by step make up the Mistral OPRO meta-prompt text |
| SummarizationMeta.MistralOproTextShowsExamples | experiments/summarization/meta_prompt.py:81-88 | every few-shot example appears in the Mistral meta-prompt under its number |
| SummarizationMeta.MistralOproTextShowsRatings | experiments/summarization/meta_prompt.py:93-103 | every rated instruction appears in the Mistral meta-prompt |
| SummarizationMeta.MistralOproRatingScore | experiments/summarization/meta_prompt.py:94-102 | a float score is shown scaled by 100 with two decimals, the rounded hundredths within half a unit of the exact value |
| SummarizationMeta.MistralOproTextEnds | experiments/summarization/meta_prompt.py:79-113 | the Mistral meta-prompt starts with the instance's prompt and ends with its closing request |
| SummarizationMeta.MistralOproPromptShadowed | experiments/summarization/meta_prompt.py:70-71 | as written, the Mistral meta-prompt opens with the inherited generic OPRO prompt and not with the summarization prompt the class declares |
| SummarizationMeta.MistralOproCorrected | experiments/summarization/meta_prompt.py:70-113 | with the declared prompt, the Mistral meta-prompt opens with the summarization task statement and ends with the closing request |
| SummarizationMeta.SummCrispoSlots | experiments/summarization/crispo/meta_prompt.py:17-37 | both summarization CriSPO templates have exactly the `examples` and `instructions` fields, in that order |
| SummarizationMeta.SummCrispoTextContents | experiments/summarization/crispo/meta_prompt.py:15-37 | the inherited `fill` over this template always renders and shows every example and every rated instruction with its critique |
| SummarizationMeta.SummCrispoParseMeaning | experiments/summarization/crispo/meta_prompt.py:39-47 | a new instruction is parsed exactly when the tag has content; the result contains that content, always has the placeholder and the `<summary>` request, is the content itself when it had both, and so fills with the article in it |
| SummarizationMeta.HasStrScoreIff | experiments/summarization/crispo/meta_prompt.py:108-113 | the fill fails exactly when some zipped rated instruction has a string score |
| SummarizationMeta.MistralCrispoFill | experiments/summarization/crispo/meta_prompt.py:93-119 | the loops compute the Mistral CriSPO meta-prompt text, failing where formatting a string score as a percentage raises |
| SummarizationMeta.MistralCrispoInstructions | experiments/summarization/crispo/meta_prompt.py:107-113 | the loop fails exactly when a zipped score is a string, and otherwise gives one block per zipped rated instruction, in order |
| SummarizationMeta.HasStrScoreStep | experiments/summarization/crispo/meta_prompt.py:108-113 | the loop's invariant step: one more zipped instruction adds a string score exactly when its own score is one |
| SummarizationMeta.MistralCrispoTextContents | experiments/summarization/crispo/meta_prompt.py:93-119 | with either template the meta-prompt renders exactly when no zipped score is a string, and then shows every numbered example and every rated instruction with its critique |
| SummarizationMeta.MistralCrispoStep5Dropped | experiments/summarization/crispo/meta_prompt.py:68-90 | as written the instance keeps the inherited template, so the meta-prompt ends with step 4 and never with the fifth step its class declares |
| SummarizationMeta.MistralCrispoCorrected | experiments/summarization/crispo/meta_prompt.py:68-119 | with the declared template the meta-prompt renders exactly when no zipped score is a string, and then ends with the fifth step |
| SummarizationMeta.MistralCrispoEnds | experiments/summarization/crispo/meta_prompt.py:69-89 | the declared template, rendered with any arguments, ends with the fifth step |
| SummarizationMetrics.Lower | experiments/summarization/metrics/ragqa.py:18 | lower-casing keeps the length and maps every character on its own |
| SummarizationMetrics.LowerIdempotent | experiments/summarization/metrics/ragqa.py:18 | lower-casing twice is lower-casing once |
| SummarizationMetrics.ExactMatch | experiments/summarization/metrics/ragqa.py:15-21 | the loop gives 1.0 exactly when some gold answer equals the stripped prediction ignoring case, and 0.0 otherwise |
| SummarizationMetrics.ExactMatchMeaning | experiments/summarization/metrics/ragqa.py:15-21 | no gold answers never match; a stripped prediction listed among them always matches; and the match does not change when the prediction is first stripped and lower-cased |
| SummarizationMetrics.ExactMatchGoldNotStripped | experiments/summarization/metrics/ragqa.py:16-18 | only the prediction is stripped: a gold answer with surrounding blanks never matches its bare form, while a padded upper-case prediction matches |
| SummarizationMetrics.NestedAccuracyScore | experiments/summarization/metrics/nested_accuracy.py:9-10 | 1.0 exactly when the two labels agree, and 0.0 otherwise |
| SummarizationMetrics.NestedAccuracyIgnoresReasoning | experiments/summarization/metrics/nested_accuracy.py:9-10 | the reasoning of either output never changes the score |
| SummarizationMetrics.Labels | experiments/summarization/metrics/nested_accuracy.py:10 | the labels of the outputs, one per output and in order |
| SummarizationMetrics.NestedScoresAreLabelScores | experiments/summarization/metrics/nested_accuracy.py:8-10 | the nested scores are the accuracy scores of the labels |
| SummarizationMetrics.NestedAccuracyAggregate | experiments/summarization/metrics/nested_accuracy.py:8-10 | the inherited mean of the nested scores is the share of outputs whose labels agree |
| SummarizationMetrics.MultiScore | experiments/summarization/metrics/multi_metrics_wrapper.py:15-24 | fails exactly when an average is asked of no metrics, where `statistics.mean` raises |
| SummarizationMetrics.MultiScoreMeaning | experiments/summarization/metrics/multi_metrics_wrapper.py:15-24 | the result has distinct keys, every metric's own score under its name, and with `compute_avg` an `avg_score` entry that is the mean of those scores and overrides a metric of that name |
| SummarizationMetrics.MultiAggregateMeaning | experiments/summarization/metrics/multi_metrics_wrapper.py:29-30 | the aggregate has one key per name present in some score, each the mean of the values present for it, between their minimum and maximum, and nothing for no scores |
| SummarizationMetrics.PresentEverywhere | experiments/summarization/metrics/multi_metrics_wrapper.py:29-30 | a name present in every score is averaged over all of them |
| SummarizationMetrics.MultiDescriptionLines | experiments/summarization/metrics/multi_metrics_wrapper.py:26-27 | the description shows one line per entry, and one more entry adds one line at the end |
| Gsm.DefaultPromptHasPlaceholder | experiments/gsm/task_prompt.py:13-22 | the default prompt names the question placeholder |
| Gsm.FillMeaning | experiments/gsm/task_prompt.py:24-25 | a prompt with the placeholder shows the question; one without it is sent unchanged |
| Gsm.DigitRun | experiments/gsm/task_prompt.py:33 | the run of digits starting at a position: all digits, and followed by no digit |
| Gsm.NumberEnd | experiments/gsm/task_prompt.py:33 | a match starting at a digit is non-empty, holds only digits and commas, and is followed by no digit |
| Gsm.Numbers | experiments/gsm/task_prompt.py:33 | every match `re.findall` returns has the shape of a number: digits, with comma groups of digits |
| Gsm.NumbersEmptyIff | experiments/gsm/task_prompt.py:33-34 | there are no matches exactly when no digit occurs |
| Gsm.WithoutCommasDigits | experiments/gsm/task_prompt.py:35 | removing the commas of a match leaves only digits, starting with its first |
| Gsm.LabelFrom | experiments/gsm/task_prompt.py:33-35 | a label exists exactly when a digit occurs, and is a non-empty run of digits |
| Gsm.ParseLabel | experiments/gsm/task_prompt.py:30-35 | the label is the last match of `\d+(?:,\d+)?` without commas, read from the answer tag's content, or from the whole generation without it; it exists exactly when that text has a digit, and is all digits |
| Gsm.ParseLabelCorrected | experiments/gsm/task_prompt.py:30-35 | the corrected reading with every thousands group matched has the same label condition: a label exactly when a digit occurs, all digits |
| Gsm.NumbersAgreeWithoutCommas | experiments/gsm/task_prompt.py:34 | on a text without commas the two patterns find the same matches |
| Gsm.ReadingsAgreeWithoutCommas | experiments/gsm/task_prompt.py:30-35 | the program's label and the corrected one differ only on answers that contain a comma |
| Gsm.Parse | experiments/gsm/task_prompt.py:27-28 | the parsed output keeps the whole generation as its reasoning and the program's label (`ParseLabel`) as its label |
| Gsm.NumeralLabel | experiments/gsm/task_prompt.py:33-35 | with every thousands group matched, a text that is one numeral is read as that number without its separators |
| Gsm.MillionsMatchedAsWritten | experiments/gsm/task_prompt.py:33 | as written the pattern splits "1,234,567" into the matches "1,234" and "567" |
| Gsm.ParseLabelAsWrittenDropsMillions | experiments/gsm/task_prompt.py:33-35 | `ParseLabel` reads "1,234,567" as 567; `ParseLabelCorrected` reads it as 1234567 |
| Gsm.ExampleBlock | experiments/gsm/meta_prompt_critique.py:33-43 | a few-shot block shows the question and the gold label |
| Gsm.ExampleBlockIgnoresReasoning | experiments/gsm/meta_prompt_critique.py:72 | an example's reasoning never reaches its block |
| Gsm.CritiqueMetaFill | experiments/gsm/meta_prompt_critique.py:62-90 | the loops compute the GSM critique meta-prompt text, whose contents the lemmas below state |
| Gsm.CritiqueMetaNamesTask | experiments/gsm/meta_prompt_critique.py:13-31 | the meta-prompt opens by stating the task and names the question placeholder |
| Gsm.CritiqueMetaShowsExamples | experiments/gsm/meta_prompt_critique.py:69-72 | every few-shot example's block appears in the meta-prompt |
| Gsm.CritiqueMetaShowsRatings | experiments/gsm/meta_prompt_critique.py:74-82 | every zipped instruction appears with its score and critique |
| Gsm.CritiqueMetaParse | experiments/gsm/meta_prompt_critique.py:92-98 | no prompt exactly when the instruction tag is missing or empty; otherwise the prompt starts with the instruction and has the placeholder, and is the instruction itself when that had it |
| Gsm.SplitPlan | experiments/gsm/dataset.py:13-15 | "validation" reads the tail of "train" with the count negated; any other split is read as asked |
| Gsm.SampleIndices | experiments/gsm/dataset.py:18-22 | `abs(n)` indices: the first `n` for positive `n`, else the last `-n` |
| Gsm.SampleIndicesInRange | experiments/gsm/dataset.py:18-22 | for a dataset at least as long as the sample, the indices are in range and strictly increasing |
| Gsm.CalcClose | experiments/gsm/dataset.py:8 | a closing `>>` found lies at or after the start, within the text |
| Gsm.RemoveCalc | experiments/gsm/dataset.py:29 | removing calculator annotations never lengthens the text |
| Gsm.RemoveCalcAnnotation | experiments/gsm/dataset.py:29 | text without `<` is kept and an annotation `<<e>>` on one line is removed |
| Gsm.RemoveCalcPlain | experiments/gsm/dataset.py:29 | text without `<` is unchanged |
| Gsm.ParseRecord | experiments/gsm/dataset.py:24-34 | a record fails exactly when its answer lacks "####"; otherwise the example keeps the question and has a label without commas |
| Gsm.ParseRecordShape | experiments/gsm/dataset.py:24-34 | an answer "reasoning#### label" with a clean reasoning yields exactly that reasoning and label |
| Gsm.LoadAll | experiments/gsm/dataset.py:23-35 | a successful load has one example per selected index |
| Gsm.LoadAllNoneIff | experiments/gsm/dataset.py:23-35 | the load fails exactly when some selected record is missing or rejected |
| Gsm.LoadAllElements | experiments/gsm/dataset.py:23-35 | a successful load holds, at each position, the parse of the selected record |
| Gsm.LoadAllStep | experiments/gsm/dataset.py:23-34 | the loop's step: one more selected record joins the examples when it loads, and the load fails otherwise |
| Gsm.GsmLoadMeaning | experiments/gsm/dataset.py:11-35 | loading fails exactly when a selected record is missing or lacks "####"; otherwise every example is the parsed record at its index |
| Gsm.LoadGsm | experiments/gsm/dataset.py:11-35 | the loop loads the records the sample size selects, parsed in order |
| MedMcqa.DefaultPromptHasPlaceholder | experiments/medmcqa/task_prompt.py:12-21 | the default prompt names the question placeholder |
| MedMcqa.FirstLetter | experiments/medmcqa/task_prompt.py:53-56 | for one spelling, the first letter from a position whose spelled-out form occurs, with no earlier letter occurring; none when no later letter occurs |
| MedMcqa.FirstHit | experiments/medmcqa/task_prompt.py:40-56 | the first spelling, in the listed order, for which some letter occurs, and the first such letter; none when no spelling of any letter occurs |
| MedMcqa.ExtractChoice | experiments/medmcqa/task_prompt.py:39-56 | a letter found is one of "ABCDEFGH" and occurs in the text |
| MedMcqa.ExtractChoiceNoneIff | experiments/medmcqa/task_prompt.py:39-56 | no letter is found exactly when none of the eight letters occurs in the text, since the last spelling is the bare letter |
| MedMcqa.ExtractChoiceLetter | experiments/medmcqa/task_prompt.py:39-56 | a text that is a single letter is read as that letter |
| MedMcqa.ParseLabel | experiments/medmcqa/task_prompt.py:29-33 | a label read from the answer tag's content, or from the whole generation without it, is one of the eight letters |
| MedMcqa.Parse | experiments/medmcqa/task_prompt.py:26-27 | the parsed output keeps the whole generation as its reasoning and the parsed letter as its label |
| MedMcqa.ParseLabelOfAnswer | experiments/medmcqa/task_prompt.py:29-33 | a generation ending with an answer tag around a letter is read as that letter |
| MedMcqa.OproFill | experiments/medmcqa/meta_prompt_opro.py:52-76 | the loops compute the MedMCQA OPRO meta-prompt text, whose contents `OproTextShows` states |
| MedMcqa.OproTextShows | experiments/medmcqa/meta_prompt_opro.py:13-76 | the meta-prompt shows every few-shot example's block and every rated instruction |
| MedMcqa.CompletedMeaning | experiments/medmcqa/meta_prompt_opro.py:82-88 | the completed instruction starts with the new one and always has the placeholder and the answer tag; it is the new one itself when that had both |
| MedMcqa.OproParse | experiments/medmcqa/meta_prompt_opro.py:78-89 | no prompt exactly when the instruction tag is missing or empty; otherwise the prompt starts with the instruction and has the placeholder and the answer tag |
| MedMcqa.CritiqueMetaNamesTask | experiments/medmcqa/meta_prompt_critique.py:13-19 | the inherited critique meta-prompt opens by stating the MedMCQA task and names the placeholder |
| MedMcqa.Field | experiments/medmcqa/critique_prompt.py:27-43 | a tagged field shows its value |
| MedMcqa.ErrorBlockShows | experiments/medmcqa/critique_prompt.py:27-43 | an error block shows the question, both reasonings and both answers |
| MedMcqa.CritiqueFill | experiments/medmcqa/critique_prompt.py:48-66 | the loop collects one error block per zipped prediction whose label differs from the gold one, in order, and the critique prompt is built from them |
| MedMcqa.ErrorsStep | experiments/medmcqa/critique_prompt.py:52-64 | the loop's step: the next zipped pair adds its block exactly when its label is wrong |
| MedMcqa.ErrorsComplete | experiments/medmcqa/critique_prompt.py:52-64 | every wrongly answered example has its block among the errors |
| MedMcqa.ErrorsSound | experiments/medmcqa/critique_prompt.py:52-64 | every error block comes from a wrongly answered example |
| MedMcqa.ErrorsNoneWhenAllRight | experiments/medmcqa/critique_prompt.py:52-64 | when every label is right there are no error blocks |
| MedMcqa.CriticTextShows | experiments/medmcqa/critique_prompt.py:65 | the critique prompt shows the instruction in its tag and every error block |
| MedMcqa.OptionsDictMeaning | experiments/medmcqa/dataset.py:24-29 | the options are keyed "A" to "D", in that order, holding `opa` to `opd` |
| MedMcqa.CorrectOption | experiments/medmcqa/dataset.py:30-33 | a correct option exists exactly when `cop` is an int from 0 to 3, and is then its letter |
| MedMcqa.CorrectOptionInjective | experiments/medmcqa/dataset.py:30-31 | different valid `cop` values give different letters |
| MedMcqa.OptionLinesShow | experiments/medmcqa/dataset.py:9-13 | every option appears as "(letter) content" |
| MedMcqa.PromptText | experiments/medmcqa/dataset.py:16-20 | the prompt is the question, a line break and the options |
| MedMcqa.KeepIff | experiments/medmcqa/dataset.py:44-48 | a row is kept exactly when it has an explanation containing a comma |
| MedMcqa.Kept | experiments/medmcqa/dataset.py:44-48 | the filter keeps only rows that pass, taken from the input |
| MedMcqa.KeptComplete | experiments/medmcqa/dataset.py:44-48 | every row that passes is kept |
| MedMcqa.SplitPlan | experiments/medmcqa/dataset.py:39-41 | "test" reads the tail of "validation" with the count negated; any other split is read as asked |
| MedMcqa.McqaRecord.constructor | experiments/medmcqa/dataset.py:23-35 | a fresh record holds the row's fields and none of the derived ones |
| MedMcqa.McqaRecord.ProcessToMcqa | experiments/medmcqa/dataset.py:23-35 | sets the options dictionary and the explanation, sets the correct option only for a valid `cop` and leaves it as it was otherwise, and changes nothing else |
| MedMcqa.McqaRecord.FormatOptions | experiments/medmcqa/dataset.py:9-13 | sets the options text from the options dictionary and changes nothing else |
| MedMcqa.McqaRecord.FormatPrompt | experiments/medmcqa/dataset.py:16-20 | sets the prompt from the question and the options text and changes nothing else |
| MedMcqa.RowExample | experiments/medmcqa/dataset.py:65-71 | a row fails to load exactly when it has no explanation |
| MedMcqa.RowExampleShows | experiments/medmcqa/dataset.py:65-71 | the example's input starts with the question and shows every lettered option, and its label is the correct option |
| MedMcqa.LoadRow | experiments/medmcqa/dataset.py:54-71 | one row put through the three mapping steps on a record gives the example `RowExample` describes |
| MedMcqa.LoadMedMcqa | experiments/medmcqa/dataset.py:38-72 | the loop loads the rows the sample size selects, each as `RowExample` gives it, in order |
| MedMcqa.OutputOfExampleParses | experiments/medmcqa/experiments/manual/__init__.py:11-12 | the written-out output of an example with a letter label is parsed back to that label |
| MedMcqa.ExampleTemplateParses | experiments/medmcqa/experiments/manual/__init__.py:19-24 | the templated example is parsed back to its letter label |
| MedMcqa.ScoreOf | experiments/medmcqa/experiments/manual/__init__.py:15-16 | a score exists exactly when the record has a "score" key |
| NarrativeQa.DefaultPromptPlaceholders | experiments/narrativeqa/task_prompt.py:13-23 | the default prompt names both the context and the question placeholder |
| NarrativeQa.FillMeaning | experiments/narrativeqa/task_prompt.py:25-28 | a prompt with neither placeholder is sent unchanged; the context is shown whenever its placeholder survives the question's replacement, including one brought in by the question itself |
| NarrativeQa.FillQuestionFirst | experiments/narrativeqa/task_prompt.py:25-28 | the question is substituted first: a question that is the context placeholder is itself replaced by the context |
| NarrativeQa.FormatExamples | experiments/narrativeqa/meta_prompt_opro.py:85-98 | the loop fails, as `IndexError`, exactly when some example has fewer than two references, and otherwise gives one block per example, in order |
| NarrativeQa.TwoReferencesStep | experiments/narrativeqa/meta_prompt_opro.py:88-97 | the loop's step: one more example with two references keeps every example so far formattable |
| NarrativeQa.ExampleBlockShows | experiments/narrativeqa/meta_prompt_opro.py:32-48 | an example block shows the context, the question and the first two references |
| NarrativeQa.OproFill | experiments/narrativeqa/meta_prompt_opro.py:62-83 | the fill fails exactly when an example lacks two references, and otherwise computes the OPRO meta-prompt text |
| NarrativeQa.OproTextShows | experiments/narrativeqa/meta_prompt_opro.py:17-83 | the meta-prompt shows every example block and every rated instruction |
| NarrativeQa.OproRatingScore | experiments/narrativeqa/meta_prompt_opro.py:50-77 | a rated instruction shows the instruction and its score in their tags; a string score verbatim, any other as a percentage |
| NarrativeQa.OproParse | experiments/narrativeqa/meta_prompt_opro.py:100-111 | no prompt exactly when the instruction tag is missing or empty; otherwise the prompt has both placeholders and the answer tag |
| NarrativeQa.ParseSteps | experiments/narrativeqa/meta_prompt_opro.py:100-111 | the steps of `parse`, each appending what is missing, compute `OproParse` |
| NarrativeQa.CompletedMeaning | experiments/narrativeqa/meta_prompt_opro.py:104-110 | the completed instruction starts with the new one and has both placeholders and the answer tag; a complete one is kept exactly; missing pieces come in the order context, question, answer request |
| NarrativeQa.CritiqueArgsGet | experiments/narrativeqa/meta_prompt_critique.py:83-89 | the format arguments give the examples, the instructions, the task and both placeholders |
| NarrativeQa.CritiqueMetaFill | experiments/narrativeqa/meta_prompt_critique.py:64-90 | the loops compute the critique meta-prompt text over the instance's template |
| NarrativeQa.OproTemplateRenders | experiments/narrativeqa/meta_prompt_opro.py:17-30 | the OPRO template uses only the examples and the instructions, so extra arguments are ignored |
| NarrativeQa.CritiqueMetaTaskDropped | experiments/narrativeqa/meta_prompt_critique.py:58-61 | as written the instance holds the inherited OPRO template, so the critique meta-prompt is the OPRO text with the critiqued instructions and never states the task |
| NarrativeQa.CritiqueTemplateSlots | experiments/narrativeqa/meta_prompt_critique.py:15-33 | the declared template has exactly the fields task, examples, instructions and the two placeholders, in that order |
| NarrativeQa.CritiqueTemplateRenders | experiments/narrativeqa/meta_prompt_critique.py:15-33 | the declared template, rendered with the fill's arguments, is the task statement, the examples, the instructions and the steps naming both placeholders |
| NarrativeQa.CritiqueTemplateShows | experiments/narrativeqa/meta_prompt_critique.py:15-33 | the declared template always renders, opens with the task request, and names the task and both placeholders |
| NarrativeQa.CritiqueMetaCorrected | experiments/narrativeqa/meta_prompt_critique.py:58-90 | with the declared template the meta-prompt renders exactly when every example has two references, and then opens with the task request and names the task and both placeholders |
| NarrativeQa.CritiqueMetaCorrectedShowsExamples | experiments/narrativeqa/meta_prompt_critique.py:71 | the corrected meta-prompt shows every example block |
| NarrativeQa.CritiqueMetaCorrectedShowsRatings | experiments/narrativeqa/meta_prompt_critique.py:73-81 | the corrected meta-prompt shows every zipped instruction with its score and critique |
| NarrativeQa.CritiqueFill | experiments/narrativeqa/critique_prompt.py:52-73 | the loop fails exactly when a wrong prediction's example has fewer than two references, and otherwise gives the critique prompt over the blocks of the wrong predictions, in order |
| NarrativeQa.ErrorsStep | experiments/narrativeqa/critique_prompt.py:59-71 | the loop's step: the next pair adds its block exactly when its prediction is not among the references |
| NarrativeQa.MissingReferenceStep | experiments/narrativeqa/critique_prompt.py:59-71 | the loop's step for failure: the next pair fails it exactly when it is wrong and has fewer than two references |
| NarrativeQa.ErrorsComplete | experiments/narrativeqa/critique_prompt.py:59-71 | every wrong prediction has its block among the errors |
| NarrativeQa.ErrorsSound | experiments/narrativeqa/critique_prompt.py:59-71 | every error block comes from a wrong prediction |
| NarrativeQa.ErrorsNoneWhenAllRight | experiments/narrativeqa/critique_prompt.py:59-71 | when every prediction is a reference there are no error blocks |
| NarrativeQa.ErrorBlockShows | experiments/narrativeqa/critique_prompt.py:27-47 | an error block shows the context, the question, the prediction and the first two references |
| NarrativeQa.CriticTextShows | experiments/narrativeqa/critique_prompt.py:72 | the critique prompt shows the instruction in its tag and every error block |
| NarrativeQa.CriticTextNoErrors | experiments/narrativeqa/critique_prompt.py:72 | with no errors the examples section is empty |
| Nq.Selected | experiments/nq/example.py:12-14 | the contexts used are a prefix of all of them: the first `k` when `0 < k` is below their number, all of them otherwise |
| Nq.EncodeContext | experiments/nq/example.py:10-19 | the loop builds the context block of the selected contexts |
| Nq.ContextBlockShape | experiments/nq/example.py:18 | the block opens with the context tag and ends with its closing tag; no contexts give "<context>\n</context>" |
| Nq.ContextBlockShows | experiments/nq/example.py:16-17 | every selected context appears as "Context i: …", numbered from 1 |
| Nq.ContextBlockUsesFirstK | experiments/nq/example.py:12-14 | with a positive `k`, contexts beyond the first `k` never change the block |
| Nq.GetYStr | experiments/nq/example.py:27-32 | a list answer gives its first item, and fails when empty; a dict answer fails without a "text" key and otherwise gives the first of its texts |
| Nq.AppendAnswered | experiments/nq/meta_prompt.py:29-36 | the few-shot loop fails exactly when some example has no answer, and otherwise appends one rendering per example, in order |
| Nq.CollectAnswered | experiments/nq/critique/meta_prompt.py:69-78 | the few-shot loop fails exactly when some example has no answer, and otherwise collects one rendering per example, in order |
| Nq.AnswerSentenceHasTag | experiments/nq/task_prompt.py:21 | the appended request names the answer tag |
| Nq.RagTaskPrompt | experiments/nq/task_prompt.py:19-22 | the stored prompt starts with the given one and has the answer tag; a prompt that has it is kept, any other gets the request appended with no separator |
| Nq.RagFillShows | experiments/nq/task_prompt.py:24-31 | the filled prompt starts with the question block, ends with a blank line and the prompt, and shows every context |
| Nq.NewUniversalTemplate | experiments/nq/task_prompt.py:46-55 | the constructor's steps give a template that has both placeholders and the answer tag |
| Nq.UniversalTemplateMeaning | experiments/nq/task_prompt.py:46-55 | the template has both placeholders and the answer tag; without the contexts marker it contains the given prompt, and a prompt that already has all three is kept verbatim |
| Nq.UniversalFillMeaning | experiments/nq/task_prompt.py:57-62 | a template without placeholders is sent unchanged; the question block appears when the question placeholder is present and no context placeholder is left; a context placeholder still present after the question step is replaced by all the contexts |
| Nq.OproFill | experiments/nq/meta_prompt.py:21-63 | the fill fails exactly when some few-shot example has no answer, and otherwise computes the OPRO meta-prompt text |
| Nq.OproExampleShows | experiments/nq/meta_prompt.py:33-35 | an example block shows the question, the first 20 contexts and the answer |
| Nq.OproTextShowsExamples | experiments/nq/meta_prompt.py:29-36 | every example block appears in the meta-prompt |
| Nq.OproTextShowsRatings | experiments/nq/meta_prompt.py:41-52 | every rated instruction appears in the meta-prompt |
| Nq.OproParse | experiments/nq/meta_prompt.py:65-69 | no prompt exactly when the instruction tag is missing or empty; otherwise the prompt starts with the instruction and has the answer tag |
| Nq.CritiqueMetaFill | experiments/nq/critique/meta_prompt.py:62-96 | the fill fails exactly when some few-shot example has no answer, and otherwise computes the critique meta-prompt text |
| Nq.CritiqueMetaTextNamesPlaceholders | experiments/nq/critique/meta_prompt.py:15-33 | the critique meta-prompt names both placeholders |
| Nq.CritiqueMetaTextShowsExamples | experiments/nq/critique/meta_prompt.py:69-78 | every example block appears in the critique meta-prompt |
| Nq.CritiqueMetaTextShowsRatings | experiments/nq/critique/meta_prompt.py:80-88 | every zipped instruction appears with its score and critique |
| Nq.CritiqueMetaParse | experiments/nq/critique/meta_prompt.py:98-102 | no prompt exactly when the instruction tag is missing or empty; otherwise a universal template with both placeholders and the answer tag |
| Nq.CritiquePromptFillFails | experiments/nq/critique/critique_prompt.py:44-63 | the critique prompt fails exactly when some zipped example has no answer |
| Nq.CritiqueBlockShows | experiments/nq/critique/critique_prompt.py:27-40 | a block shows the question, the first 20 contexts, the generated answer and the gold answer |
| Nq.CritiquePromptTextShows | experiments/nq/critique/critique_prompt.py:44-63 | the critique prompt shows the instruction in its tag and the block of every zipped prediction and example |
| WebNlg.FillMeaning | experiments/webnlg/task_prompt.py:26-27 | a prompt with the triples placeholder shows every triple; one without it is sent unchanged |
| WebNlg.DefaultPromptShowsTriples | experiments/webnlg/task_prompt.py:11-27 | the default prompt has the placeholder, so filling it shows every triple |
| WebNlg.ReferencesNumbered | experiments/webnlg/meta_prompt_opro.py:83-86 | every reference text appears in its own tag numbered from 1, and the number written reads back as `j + 1` |
| WebNlg.FirstReferenceTag | experiments/webnlg/meta_prompt_opro.py:84 | the first reference tag is `reference_text_1` |
| WebNlg.ExampleBlockShows | experiments/webnlg/meta_prompt_opro.py:27-37 | an example block shows every triple and every numbered reference |
| WebNlg.FormatExamples | experiments/webnlg/meta_prompt_opro.py:74-89 | the loop gives one block per example, in order |
| WebNlg.OproFill | experiments/webnlg/meta_prompt_opro.py:51-72 | the loops compute the OPRO meta-prompt text, whose contents `OproTextShows` states |
| WebNlg.OproTextShows | experiments/webnlg/meta_prompt_opro.py:12-72 | the meta-prompt shows every example block and every rated instruction, and ends by asking for the self-closing `<instruction/>` tag |
| WebNlg.OproRatingScore | experiments/webnlg/meta_prompt_opro.py:59-66 | a rated instruction shows the instruction and its score; a string score verbatim, any other with two decimals and a "%" sign but not scaled by 100 |
| WebNlg.WithTextRequest | experiments/webnlg/meta_prompt_opro.py:95-100 | the request for the text tag is appended exactly when none of its three forms is mentioned; the result always mentions one |
| WebNlg.OproParseAsWritten | experiments/webnlg/meta_prompt_opro.py:91-101 | as written, only a missing tag gives no prompt; a prompt starts with the instruction and mentions the text tag, and is the instruction itself when it did already |
| WebNlg.SelfClosingIsNotOpenTag | experiments/webnlg/meta_prompt_opro.py:24 | the self-closing form the meta-prompt asks for does not contain the opening tag `parse` looks for |
| WebNlg.OproParseAcceptsEmpty | experiments/webnlg/meta_prompt_opro.py:92-94 | an empty instruction tag is accepted as written and yields the bare text request |
| WebNlg.OproParseAsWrittenDropsTriples | experiments/webnlg/meta_prompt_opro.py:91-101 | as written, a plain instruction comes back without the triples placeholder, so filling it never shows the triples |
| WebNlg.OproParseAsWrittenPlain | experiments/webnlg/meta_prompt_opro.py:91-101 | "Describe the data." is parsed into a prompt that every input fills to the same text |
| WebNlg.CompletedMeaning | experiments/webnlg/meta_prompt_opro.py:95-100 | the completed instruction starts with the new one, has the triples placeholder and mentions the text tag; it is the new one itself when that had both |
| WebNlg.OproParse | experiments/webnlg/meta_prompt_opro.py:91-101 | the corrected parse: no prompt exactly when the tag is missing; otherwise the prompt starts with the instruction and has the placeholder and the text tag |
| WebNlg.OproParseKeepsTriples | experiments/webnlg/meta_prompt_opro.py:91-101 | every prompt the corrected parse yields shows every triple once filled |
| WebNlg.CritiqueArgsGet | experiments/webnlg/meta_prompt_critique.py:82-87 | the format arguments give the examples, the instructions, the task and the placeholder |
| WebNlg.CritiqueMetaFill | experiments/webnlg/meta_prompt_critique.py:63-88 | the loops compute the critique meta-prompt text over the instance's template |
| WebNlg.CritiqueTemplateSlots | experiments/webnlg/meta_prompt_critique.py:12-30 | the template has exactly the fields task, examples, instructions and the placeholder, in that order |
| WebNlg.CritiqueTemplateRenders | experiments/webnlg/meta_prompt_critique.py:12-30 | rendered with the fill's arguments, the template is the task request, the examples, the instructions and the steps naming the placeholder |
| WebNlg.CritiqueTemplateDefined | experiments/webnlg/meta_prompt_critique.py:82-87 | the fill's arguments always render the template |
| WebNlg.CritiqueTemplateShows | experiments/webnlg/meta_prompt_critique.py:12-30 | the rendered template opens with the task request and shows the task, the placeholder and everything in the examples and instructions |
| WebNlg.CritiqueMetaShows | experiments/webnlg/meta_prompt_critique.py:55-88 | the critique meta-prompt always renders, opens with the task request, names the task and the placeholder, and shows every example block and every critiqued instruction |
| WebNlg.CritiquedRatingShows | experiments/webnlg/meta_prompt_critique.py:44-52 | a critiqued instruction shows the instruction, the score and the critique, "None" for a missing one |
| WebNlg.CritiqueFill | experiments/webnlg/critique_prompt.py:46-64 | the loop gives one block per zipped prediction and example, every one and not only the wrong ones, and the critique prompt is built from them |
| WebNlg.ErrorBlockShows | experiments/webnlg/critique_prompt.py:27-41 | a block shows the prediction, every triple and every numbered reference |
| WebNlg.CriticTextShows | experiments/webnlg/critique_prompt.py:63 | the critique prompt shows the instruction in its tag, one block per zipped pair, and each of them |

## Left out

- Files, logging and plots in `Trainer.fit` are not modelled because they are I/O. This covers the per-step directories, the per-prompt CSV files written by `evaluate` (`save_evaluation_info`), `prompts.json`, `prompts_dev.json`, the step-wise box plots, the `CountdownTimer`, the `tqdm` bar and every `logger` call.
- `convert_prompt_scores_to_df` and `convert_examples_to_df` only shape pandas tables for those files, so they are not modelled.
- `Trainer.__init__` only opens the log and stores the save directory, so it is not modelled.
- The default `task_llm = meta_llm` is not modelled: the task LLM is always a parameter of its own.
- The language models are functions given as parameters, because the Bedrock client, throttling retries, credentials and the asyncio batch executor are network I/O. So are the metric's per-example `score`, the few-shot example selectors and the dataset contents.
- `random.shuffle` and `random.sample` are an arbitrary number stream rather than Python's generator. The model proves what holds for every stream, not for a given seed.
- Floating point is not modelled. Scores are exact reals: `statistics.mean`, pandas `mean` and score formatting have no rounding error, and pandas' skipping of NaN values does not arise.
- The `TypeError` that `fill` raises for a score that is neither a string nor a number cannot occur, because the `Rating` datatype has only those two cases.
- The placeholder constants of experiments/summarization/constants.py and experiments/nq/constants.py are not part of this model. They are non-empty strings with no stated value, so nothing proved depends on their text.
- `SquadMetric` in experiments/summarization/metrics/ragqa.py calls the external `evaluate` library, so only `ExactMatch` is modelled. The foreign scorers are left out for the same reason: ROUGE, BLEU, AlignScore, the multi-metric summariser, the tokenizer and the BERT example selector.
- The critique parse of the Mistral summarisation critique returns the generation unchanged, so it has no member of its own.
- `_input_of_example` in experiments/medmcqa/experiments/manual/__init__.py returns the example's input unchanged, so it has no member of its own.
- The `__str__` methods of the task prompts return the stored prompt, so they have no members of their own; a prompt is its text in this model.
- The abstract `MetaPrompt`, `CritiquePrompt`, `TaskPrompt`, `TaskPromptSuffix` and `Metric.score` declare interfaces only. The model has one datatype or function per concrete implementation.
- `load_gsm8k_standard_train_dev_test`, `load_gsm8k_quick_train_dev_test` and `load_medmcqa_standard_train_dev_test` only call the loaders with fixed sample sizes, so they have no members of their own. Every `main` is a demonstration script and is not modelled.
- Loading from the Hugging Face hub (`load_dataset`) is not modelled: the rows of a split are a parameter. The seeded shuffles in experiments/gsm/dataset.py and experiments/medmcqa/dataset.py are not modelled either; the rows are given in the order the shuffle leaves them.
- `SummarizationMetrics.Lower`: lower-cases only the ASCII letters A-Z. Python's `str.lower` (experiments/summarization/metrics/ragqa.py:18) folds every cased Unicode letter; Unicode case tables are not modelled.
- `SummarizationMetrics.ExactMatch`: compares up to ASCII case only, because it uses `Lower`. On non-ASCII letters it can miss a match the source finds: "É" against the gold "é" scores 0.0 here and 1.0 in the source.
- `SummarizationMetrics.ExactMatchMeaning`: states the match up to ASCII case only, for the same reason.
- `Text.IsDigit`: accepts only '0' to '9'. Python's `\d` on `str` matches every Unicode decimal digit, so `Gsm.DigitRun`, `Gsm.Numbers` and the GSM labels do not see digits of other scripts.
- `Metrics.Metric`: a `MetricDict` holds only plain scoring functions, each with the mean as aggregate and the identity as key. The source accepts any `Metric` as a sub-metric (crispo/metrics/metric.py:27-31), including a nested `MetricDict` or a subclass with its own `aggregate`; those are not modelled.
- `Metrics.Metric.WellNamed`: a `MetricDict` has no sub-metric named "primary" or "self". Those keywords bind the parameters of `MetricDict.__init__(self, primary=None, **metrics)` (crispo/metrics/metric.py:26): "self" raises `TypeError` at construction, and "primary" sets the primary name to the metric object, which the model's string primary cannot hold.
- `Trainer.Settings`: `numSearchSteps`, the number of search steps that `Trainer.Search.Fit` runs, is a `nat`. The source's `range(num_search_steps + 1)` (crispo/trainer/trainer.py:75) also accepts a negative count and then runs no step; that case is not modelled.
- `Trainer.Search.Fit`: states the final history, the best and the dev best, but not how many rounds ran. The loop stops after `num_search_steps` rounds or at the first failing round, and the model reports the failure through `ok`.
- `Trainer.Search.DevOne`: states only skip-or-record. The exact dev history after a recorded candidate is stated by `Trainer.Search.RecordDev`.
- `Trainer.Search.TrainAll`: states which prompts join the history and with which step, not the score rows of each. `Trainer.Search.TrainOn` states the rows of one prompt.
- `Trainer.GenerateNewPrompts`: does not state that every novel generation is accepted, only that every accepted one is novel and parsed from a generation.
- `SummarizationMeta.SummOproParse`: states only that a parsed instruction is non-empty and stripped. The exact condition is the shared `Task.NonEmptyTagMeaning`.

## Findings

| source | as written | input that shows it | evidently intended | confidence | as-written member | corrected member |
|---|---|---|---|---|---|---|
| experiments/narrativeqa/meta_prompt_critique.py:60 | `prompt = _P` has no type annotation, so the dataclass field keeps the parent's default: the instance renders the OPRO template | any history: the critique meta-prompt never states the question-answering task | the class's own critique template, which names the task and both placeholders | high, not executed | NarrativeQa.CritiqueMetaTaskDropped | NarrativeQa.CritiqueMetaCorrected |
| experiments/summarization/meta_prompt.py:70-71 | `CnnMetaPromptForMistral` is not a dataclass, so the class attribute does not replace the parent's field default | any history: the meta-prompt opens with "Your task is to generate the instruction <INS>." | the summarisation task statement the class declares | high, not executed | SummarizationMeta.MistralOproPromptShadowed | SummarizationMeta.MistralOproCorrected |
| experiments/summarization/crispo/meta_prompt.py:68-90 | the Mistral CriSPO template with a fifth step is a plain class attribute that the dataclass default shadows | any history: the meta-prompt ends with step 4 | the declared template ending with step 5 | high, not executed | SummarizationMeta.MistralCrispoStep5Dropped | SummarizationMeta.MistralCrispoCorrected |
| crispo/llms/bedrock/claude3.py:66-69 | the test looks for "Assistant", but the split uses `find("Assistant:")`, which gives -1 when no colon follows; the user part then loses its last character and the assistant part starts at index 9 | "Dear Assistant" becomes user "Dear Assistan" and assistant "stant" | one user message holding the whole prompt | high, not executed | Bedrock.AssistantWithoutColonExample | Bedrock.InputMessagesMeaning |
| crispo/llms/bedrock/claude3.py:64 | `lstrip("Human:")` removes any leading run of the characters H, u, m, a, n and ":" | "manual check" becomes "l check" | only a literal leading "Human:" is removed | high, not executed | Bedrock.HumanCharsExample | Bedrock.NormalisedMeaning |
| experiments/gsm/task_prompt.py:33-35 | the number pattern allows one thousands group, so `findall` splits a longer numeral and the last match wins | "1,234,567" is read as "567" | every thousands group matched, giving "1234567" | medium, not executed | Gsm.ParseLabelAsWrittenDropsMillions | Gsm.NumeralLabel |
| experiments/webnlg/meta_prompt_opro.py:91-101 | the parse appends a request for `<text/>` output but never the triples placeholder, so a new instruction without it is sent without the data | "Describe the data." parses into a prompt that shows no triple for any input | the placeholder is appended whenever the instruction lacks it | medium, not executed | WebNlg.OproParseAsWrittenPlain | WebNlg.OproParseKeepsTriples |
