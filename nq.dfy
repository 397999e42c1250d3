/**
 * The retrieval-augmented question answering experiments (Natural
 * Questions): an example is a question with its retrieved contexts and a
 * set of gold answers; the task prompts show the question and the numbered
 * contexts; the OPRO meta-prompt asks for instructions that keep the
 * `<answer>` tag, the CriSPO meta-prompt for templates that also place the
 * question and the contexts themselves; the critic compares generated and
 * gold answers.
 *
 * experiments/nq/constants.py is not part of this model: its
 * QUESTION_PLACEHOLDER and CONTEXT_PLACEHOLDER are non-empty texts whose
 * values are left open.
 */
module Nq {
  import opened Wrappers
  import opened Text
  import opened Formatting
  import opened Render
  import opened Task
  import opened PromptUtil
  import Assoc
  import Optimizer
  import SummarizationMeta

  const QuestionPlaceholder: NonEmptyString

  const ContextPlaceholder: NonEmptyString

  // ---------------------------------------------------------------------
  // experiments/nq/example.py

  /** The gold answers: a list, or a dictionary whose `"text"` entry holds the list. */
  datatype Answers = AnswerList(items: seq<string>) | AnswerDict(entries: seq<(string, seq<string>)>)

  /** `RAGExample`: `x` is the question with its retrieved contexts, `y` the gold answers. */
  datatype RagExample = RagExample(question: string, contexts: seq<string>, y: Answers)

  /** The contexts `encode_context` shows: the first `k` when `k > 0`, otherwise all of them. */
  function Selected(contexts: seq<string>, k: int): (r: seq<string>)
    ensures r <= contexts
    ensures |r| == if 0 < k < |contexts| then k else |contexts|
  {
    if k > 0 then Take(contexts, k) else contexts
  }

  /** One context, numbered from 1, followed by a blank line. */
  function ContextLine(item: (nat, string)): string
  {
    "Context " + NatToString(item.0 + 1) + ": " + item.1 + "\n\n"
  }

  /** What `encode_context(x, k)` returns for the contexts of `x`. */
  function ContextBlock(contexts: seq<string>, k: int): string
  {
    "<context>\n" + ConcatMap(Enumerate(Selected(contexts, k)), ContextLine) + "</context>"
  }

  /** `encode_context`: the selected contexts are accumulated one line at a time, then wrapped. */
  method EncodeContext(contexts: seq<string>, k: int) returns (r: string)
    ensures r == ContextBlock(contexts, k)
  {
    var contextStr := "";
    var selected := contexts;
    if k > 0 {
      selected := Take(contexts, k);
    }
    var idx := 0;
    while idx < |selected|
      invariant idx <= |selected|
      invariant contextStr == ConcatMap(Enumerate(selected)[..idx], ContextLine)
    {
      ConcatMapSnoc(Enumerate(selected), idx, ContextLine);
      contextStr := contextStr + ContextLine((idx, selected[idx]));
      idx := idx + 1;
    }
    assert Enumerate(selected)[..idx] == Enumerate(selected);
    r := "<context>\n" + contextStr + "</context>";
  }

  /** The block is wrapped in the context tag, and with no contexts it is the bare wrapper. */
  lemma ContextBlockShape(contexts: seq<string>, k: int)
    ensures var b := ContextBlock(contexts, k);
      "<context>\n" <= b && EndsWith(b, "</context>")
      && (contexts == [] ==> b == "<context>\n</context>")
  {
    var body := ConcatMap(Enumerate(Selected(contexts, k)), ContextLine);
    EndsWithAppend("<context>\n" + body, "</context>");
    assert ("<context>\n" + body + "</context>")[..|"<context>\n"|] == "<context>\n";
  }

  /** Every selected context appears, under its number counted from 1 in the original order. */
  lemma ContextBlockShows(contexts: seq<string>, k: int, j: nat)
    requires j < |Selected(contexts, k)|
    ensures Contains(ContextBlock(contexts, k), ContextLine((j, contexts[j])))
  {
    var selected := Selected(contexts, k);
    assert Enumerate(selected)[j] == (j, contexts[j]);
    ConcatMapContains(Enumerate(selected), ContextLine, j);
    ContainsInfix("<context>\n", ConcatMap(Enumerate(selected), ContextLine), "</context>", ContextLine((j, contexts[j])));
  }

  /** With `k > 0`, contexts after the first `k` play no part in the block. */
  lemma ContextBlockUsesFirstK(contexts: seq<string>, contexts': seq<string>, k: int)
    requires 0 < k <= |contexts| && k <= |contexts'| && contexts[..k] == contexts'[..k]
    ensures ContextBlock(contexts, k) == ContextBlock(contexts', k)
  {
    assert Selected(contexts, k) == contexts[..k];
    assert Selected(contexts', k) == contexts'[..k];
  }

  /**
   * `get_y_str`: the first gold answer, read from the `"text"` entry of a
   * dictionary. `None` stands for the failed assertion when the entry is
   * missing and for the index error when the list is empty.
   */
  function GetYStr(y: Answers): (r: Option<string>)
    ensures y.AnswerList? ==> (r.Some? <==> y.items != []) && (r.Some? ==> r.value == y.items[0])
    ensures y.AnswerDict? && "text" !in Assoc.Keys(y.entries) ==> r.None?
    ensures y.AnswerDict? && r.Some? ==>
      exists texts :: ("text", texts) in y.entries && texts != [] && r.value == texts[0]
  {
    match y
    case AnswerList(items) => if items == [] then None else Some(items[0])
    case AnswerDict(entries) =>
      match Assoc.Get(entries, "text")
      case None => None
      case Some(texts) =>
        if texts == [] then None
        else
          Assoc.GetStored(entries, "text");
          Some(texts[0])
  }

  /** The first gold answer of an example that has one (the prompts below fail otherwise). */
  function AnswerOrEmpty(y: Answers): string
  {
    match GetYStr(y)
    case Some(s) => s
    case None => ""
  }

  /** Every example has a first gold answer, so formatting it does not fail. */
  predicate AllAnswered(examples: seq<RagExample>)
  {
    forall i :: 0 <= i < |examples| ==> GetYStr(examples[i].y).Some?
  }

  /**
   * The few-shot loops of the meta-prompts: one rendering per example is
   * appended in order, and the first example without an answer stops the
   * fill (`None`).
   */
  method AppendAnswered(parts: seq<string>, xs: seq<RagExample>, f: RagExample -> string) returns (r: Option<seq<string>>)
    ensures r.None? <==> !AllAnswered(xs)
    ensures r.Some? ==> Concat(r.value) == Concat(parts) + ConcatMap(xs, f)
  {
    var acc := parts;
    var i := 0;
    while i < |xs|
      invariant i <= |xs|
      invariant AllAnswered(xs[..i])
      invariant Concat(acc) == Concat(parts) + ConcatMap(xs[..i], f)
    {
      var answer := GetYStr(xs[i].y);
      if answer.None? {
        return None;
      }
      ConcatMapSnoc(xs, i, f);
      AppendAssoc(Concat(parts), ConcatMap(xs[..i], f), f(xs[i]));
      acc := Optimizer.Snoc(acc, f(xs[i]));
      assert forall j :: 0 <= j < i + 1 ==> xs[..i + 1][j] == xs[j];
      i := i + 1;
    }
    assert xs[..i] == xs;
    r := Some(acc);
  }

  /** The same loop collecting the renderings in a list. */
  method CollectAnswered(xs: seq<RagExample>, f: RagExample -> string) returns (r: Option<seq<string>>)
    ensures r.None? <==> !AllAnswered(xs)
    ensures r.Some? ==> r.value == Map(xs, f)
  {
    var acc := [];
    var i := 0;
    while i < |xs|
      invariant i <= |xs|
      invariant AllAnswered(xs[..i])
      invariant acc == Map(xs[..i], f)
    {
      var answer := GetYStr(xs[i].y);
      if answer.None? {
        return None;
      }
      MapSnoc(xs, i, f);
      acc := acc + [f(xs[i])];
      assert forall j :: 0 <= j < i + 1 ==> xs[..i + 1][j] == xs[j];
      i := i + 1;
    }
    assert xs[..i] == xs;
    r := Some(acc);
  }

  // ---------------------------------------------------------------------
  // experiments/nq/task_prompt.py

  const AnswerTag := "<answer>"

  const AnswerSentence := "Write your answer in " + AnswerTag + " tags."

  lemma AnswerSentenceHasTag()
    ensures Contains(AnswerSentence, AnswerTag)
  {
    ContainsSelf(AnswerTag);
    ContainsInfix("Write your answer in ", AnswerTag, " tags.", AnswerTag);
  }

  /**
   * The `RAGTaskPrompt` constructor: an instruction without the answer tag
   * gets the answer sentence appended with no separator; one with the tag is
   * kept as it is.
   */
  function RagTaskPrompt(prompt: string): (r: string)
    ensures Contains(r, AnswerTag) && prompt <= r
    ensures Contains(prompt, AnswerTag) ==> r == prompt
    ensures !Contains(prompt, AnswerTag) ==> r == prompt + AnswerSentence
  {
    AnswerSentenceHasTag();
    AppendIfMissingMeaning(prompt, AnswerTag, AnswerSentence);
    AppendIfMissing(prompt, AnswerTag, AnswerSentence)
  }

  /** The question as `RAGTaskPrompt.fill` shows it. */
  function QuestionHead(question: string): string
  {
    "<question>\n" + question + "\n</question>\n\n"
  }

  /** `RAGTaskPrompt.fill`: the question, every context, a blank line, then the instruction. */
  function RagFill(prompt: string, question: string, contexts: seq<string>): string
  {
    QuestionHead(question) + ContextBlock(contexts, -1) + "\n\n" + prompt
  }

  /** The filled prompt starts with the question, shows all contexts and ends with the instruction. */
  lemma RagFillShows(prompt: string, question: string, contexts: seq<string>, j: nat)
    requires j < |contexts|
    ensures var r := RagFill(prompt, question, contexts);
      QuestionHead(question) <= r && EndsWith(r, "\n\n" + prompt)
      && Contains(r, ContextLine((j, contexts[j])))
  {
    var r := RagFill(prompt, question, contexts);
    var block := ContextBlock(contexts, -1);
    ContextBlockShows(contexts, -1, j);
    ContainsInfix(QuestionHead(question), block, "\n\n" + prompt, ContextLine((j, contexts[j])));
    AppendAssoc(QuestionHead(question) + block, "\n\n", prompt);
    EndsWithAppend(QuestionHead(question) + block, "\n\n" + prompt);
    AppendAssoc(QuestionHead(question), block, "\n\n" + prompt);
    assert r[..|QuestionHead(question)|] == QuestionHead(question);
  }

  const InsertContextsHere := "INSERT_CONTEXTS_HERE"

  /** The `"INSERT_CONTEXTS_HERE"` step of the Universal constructor. */
  function ContextsMarked(prompt: string): string
  {
    if Contains(prompt, InsertContextsHere) then ReplaceAll(prompt, InsertContextsHere, ContextPlaceholder) else prompt
  }

  /**
   * The text `RAGTaskPromptUniversalTemplate(prompt)` keeps: the inserted
   * contexts marker replaced by the context placeholder, then the context
   * placeholder prepended if missing, then the question placeholder prepended
   * if missing, then the answer sentence appended if the tag is missing.
   */
  function UniversalTemplate(prompt: string): string
  {
    var marked := ContextsMarked(prompt);
    var withContext := PrependIfMissing(marked, ContextPlaceholder, ContextPlaceholder + "\n\n");
    var withQuestion := PrependIfMissing(withContext, QuestionPlaceholder, QuestionPlaceholder + "\n\n");
    AppendIfMissing(withQuestion, AnswerTag, AnswerSentence)
  }

  /** The Universal constructor, one conditional reassignment at a time. */
  method NewUniversalTemplate(prompt: string) returns (r: string)
    ensures r == UniversalTemplate(prompt)
    ensures Contains(r, QuestionPlaceholder) && Contains(r, ContextPlaceholder) && Contains(r, AnswerTag)
  {
    r := prompt;
    if Contains(r, InsertContextsHere) {
      r := ReplaceAll(r, InsertContextsHere, ContextPlaceholder);
    }
    if !Contains(r, ContextPlaceholder) {
      r := ContextPlaceholder + "\n\n" + r;
    }
    if !Contains(r, QuestionPlaceholder) {
      r := QuestionPlaceholder + "\n\n" + r;
    }
    if !Contains(r, AnswerTag) {
      r := r + AnswerSentence;
    }
    UniversalTemplateMeaning(prompt);
  }

  /** A placeholder followed by a blank line contains the placeholder. */
  lemma HeadHasPlaceholder(p: string)
    ensures Contains(p + "\n\n", p)
  {
    ContainsSelf(p);
    ContainsLeft(p, "\n\n", p);
  }

  /**
   * A Universal template always has both placeholders and the answer tag,
   * keeps the instruction when it has no inserted-contexts marker, and keeps
   * a complete instruction exactly.
   */
  lemma UniversalTemplateMeaning(prompt: string)
    ensures var r := UniversalTemplate(prompt);
      Contains(r, QuestionPlaceholder) && Contains(r, ContextPlaceholder) && Contains(r, AnswerTag)
      && (!Contains(prompt, InsertContextsHere) ==> Contains(r, prompt))
      && ((!Contains(prompt, InsertContextsHere) && Contains(prompt, QuestionPlaceholder)
           && Contains(prompt, ContextPlaceholder) && Contains(prompt, AnswerTag)) ==> r == prompt)
  {
    var marked := ContextsMarked(prompt);
    var withContext := PrependIfMissing(marked, ContextPlaceholder, ContextPlaceholder + "\n\n");
    var withQuestion := PrependIfMissing(withContext, QuestionPlaceholder, QuestionPlaceholder + "\n\n");
    var r := AppendIfMissing(withQuestion, AnswerTag, AnswerSentence);
    HeadHasPlaceholder(ContextPlaceholder);
    HeadHasPlaceholder(QuestionPlaceholder);
    PrependIfMissingMeaning(marked, ContextPlaceholder, ContextPlaceholder + "\n\n");
    PrependIfMissingMeaning(withContext, QuestionPlaceholder, QuestionPlaceholder + "\n\n");
    AnswerSentenceHasTag();
    AppendIfMissingMeaning(withQuestion, AnswerTag, AnswerSentence);
    // Prepending the question keeps what the context step produced.
    if !Contains(withContext, QuestionPlaceholder) {
      ContainsRight(QuestionPlaceholder + "\n\n", withContext, ContextPlaceholder);
    }
    // Appending the sentence keeps both placeholders.
    if !Contains(withQuestion, AnswerTag) {
      ContainsLeft(withQuestion, AnswerSentence, ContextPlaceholder);
      ContainsLeft(withQuestion, AnswerSentence, QuestionPlaceholder);
    }
    if !Contains(prompt, InsertContextsHere) {
      assert marked == prompt;
      ContainsSelf(prompt);
      if !Contains(prompt, ContextPlaceholder) {
        ContainsRight(ContextPlaceholder + "\n\n", prompt, prompt);
      }
      if !Contains(withContext, QuestionPlaceholder) {
        ContainsRight(QuestionPlaceholder + "\n\n", withContext, prompt);
      }
      if !Contains(withQuestion, AnswerTag) {
        ContainsLeft(withQuestion, AnswerSentence, prompt);
      }
    }
  }

  /** The question as the Universal template's `fill` shows it. */
  function QuestionBlock(question: string): string
  {
    "\n<question>\n" + question + "\n</question>\n"
  }

  /**
   * `RAGTaskPromptUniversalTemplate.fill`: every question placeholder is
   * replaced first, then every context placeholder in the result.
   */
  function UniversalFill(template: string, question: string, contexts: seq<string>): string
  {
    ReplaceAll(ReplaceAll(template, QuestionPlaceholder, QuestionBlock(question)), ContextPlaceholder, ContextBlock(contexts, -1))
  }

  /**
   * A template without placeholders is shown unchanged; a template with the
   * question placeholder shows the question block when no context
   * placeholder is left to replace, and a context placeholder still present
   * after the question step is replaced by all the contexts.
   */
  lemma UniversalFillMeaning(template: string, question: string, contexts: seq<string>)
    ensures var r := UniversalFill(template, question, contexts);
      var afterQuestion := ReplaceAll(template, QuestionPlaceholder, QuestionBlock(question));
      (!Contains(template, QuestionPlaceholder) && !Contains(template, ContextPlaceholder) ==> r == template)
      && (Contains(template, QuestionPlaceholder) && !Contains(afterQuestion, ContextPlaceholder) ==> Contains(r, QuestionBlock(question)))
      && (Contains(afterQuestion, ContextPlaceholder) ==> Contains(r, ContextBlock(contexts, -1)))
  {
    var afterQuestion := ReplaceAll(template, QuestionPlaceholder, QuestionBlock(question));
    if !Contains(template, QuestionPlaceholder) {
      ReplaceAbsent(template, QuestionPlaceholder, QuestionBlock(question));
      if !Contains(template, ContextPlaceholder) {
        ReplaceAbsent(template, ContextPlaceholder, ContextBlock(contexts, -1));
      }
    } else if !Contains(afterQuestion, ContextPlaceholder) {
      ReplacePresent(template, QuestionPlaceholder, QuestionBlock(question));
      ReplaceAbsent(afterQuestion, ContextPlaceholder, ContextBlock(contexts, -1));
    }
    if Contains(afterQuestion, ContextPlaceholder) {
      ReplacePresent(afterQuestion, ContextPlaceholder, ContextBlock(contexts, -1));
    }
  }

  // ---------------------------------------------------------------------
  // experiments/nq/meta_prompt.py: RAGMetaPrompt (OPRO)

  const OproDefaultPrompt := "Your task is to generate the instruction <instruction> for a question answering task."

  /** One few-shot example: the question, at most 20 contexts and the first gold answer. */
  function OproExample(e: RagExample): string
  {
    "\n<example>\n<instruction>?</instruction>\n<question>\n" + e.question + "\n</question>\n"
    + ContextBlock(e.contexts, 20) + "\n"
    + "<answer>\n" + AnswerOrEmpty(e.y) + "\n</answer>\n</example>\n"
  }

  /**
   * The OPRO meta-prompt: the instruction, the examples section only when
   * there are examples, the rated instructions in order (rendered as in the
   * summarization experiments) and the same closing request.
   */
  function OproText(prompt: string, pairs: seq<(string, Rating)>, fewShot: seq<RagExample>): string
  {
    prompt + "\n"
    + (if fewShot != [] then SummarizationMeta.ExamplesHeader + ConcatMap(fewShot, OproExample) else "")
    + Optimizer.OproScoresHeader + ConcatMap(pairs, SummarizationMeta.SummRating) + SummarizationMeta.SummOproClosing
  }

  /** `RAGMetaPrompt.fill` (OPRO): fails exactly when an example has no first gold answer. */
  method OproFill(prompt: string, pairs: seq<(string, Rating)>, fewShot: seq<RagExample>) returns (r: Option<string>)
    ensures r.None? <==> !AllAnswered(fewShot)
    ensures r.Some? ==> r.value == OproText(prompt, pairs, fewShot)
  {
    var metaPrompt := Optimizer.Snoc([], prompt);
    assert Concat(metaPrompt) == prompt by {
      assert metaPrompt[..0] == [];
    }
    metaPrompt := Optimizer.Snoc(metaPrompt, "\n");
    ghost var head := Concat(metaPrompt);
    ghost var examples := if fewShot != [] then SummarizationMeta.ExamplesHeader + ConcatMap(fewShot, OproExample) else "";
    if fewShot != [] {
      metaPrompt := Optimizer.Snoc(metaPrompt, SummarizationMeta.ExamplesHeader);
      var appended := AppendAnswered(metaPrompt, fewShot, OproExample);
      if appended.None? {
        return None;
      }
      metaPrompt := appended.value;
      AppendAssoc(head, SummarizationMeta.ExamplesHeader, ConcatMap(fewShot, OproExample));
    } else {
      assert head + examples == head;
    }
    assert Concat(metaPrompt) == head + examples;
    metaPrompt := Optimizer.Snoc(metaPrompt, Optimizer.OproScoresHeader);
    metaPrompt := AppendEach(metaPrompt, pairs, SummarizationMeta.SummRating);
    metaPrompt := Optimizer.Snoc(metaPrompt, SummarizationMeta.SummOproClosing);
    r := Some(Concat(metaPrompt));
  }

  /** An example block shows the question, the first 20 contexts and the first gold answer. */
  lemma OproExampleShows(e: RagExample)
    ensures var b := OproExample(e);
      Contains(b, e.question) && Contains(b, ContextBlock(e.contexts, 20)) && Contains(b, AnswerOrEmpty(e.y))
  {
    var a := "\n<example>\n<instruction>?</instruction>\n<question>\n";
    var q := e.question;
    var c := "\n</question>\n";
    var ctx := ContextBlock(e.contexts, 20);
    var d := "\n" + "<answer>\n";
    var ans := AnswerOrEmpty(e.y);
    var f := "\n</answer>\n</example>\n";
    ContainsSelf(q);
    ContainsSelf(ctx);
    ContainsSelf(ans);
    ContainsRight(a, q, q);
    ContainsLeft(a + q, c, q);
    ContainsLeft(a + q + c, ctx, q);
    ContainsRight(a + q + c, ctx, ctx);
    ContainsLeft(a + q + c + ctx, "\n", q);
    ContainsLeft(a + q + c + ctx, "\n", ctx);
    ContainsLeft(a + q + c + ctx + "\n", "<answer>\n", q);
    ContainsLeft(a + q + c + ctx + "\n", "<answer>\n", ctx);
    var pre := a + q + c + ctx + "\n" + "<answer>\n";
    ContainsLeft(pre, ans, q);
    ContainsLeft(pre, ans, ctx);
    ContainsRight(pre, ans, ans);
    ContainsLeft(pre + ans, f, q);
    ContainsLeft(pre + ans, f, ctx);
    ContainsLeft(pre + ans, f, ans);
  }

  /** Every few-shot example appears in the OPRO meta-prompt. */
  lemma OproTextShowsExamples(prompt: string, pairs: seq<(string, Rating)>, fewShot: seq<RagExample>, k: nat)
    requires k < |fewShot|
    ensures Contains(OproText(prompt, pairs, fewShot), OproExample(fewShot[k]))
  {
    var head := prompt + "\n";
    var examples := SummarizationMeta.ExamplesHeader + ConcatMap(fewShot, OproExample);
    var block := OproExample(fewShot[k]);
    ConcatMapContains(fewShot, OproExample, k);
    ContainsRight(SummarizationMeta.ExamplesHeader, ConcatMap(fewShot, OproExample), block);
    ContainsRight(head, examples, block);
    ContainsLeft(head + examples, Optimizer.OproScoresHeader, block);
    ContainsLeft(head + examples + Optimizer.OproScoresHeader, ConcatMap(pairs, SummarizationMeta.SummRating), block);
    ContainsLeft(head + examples + Optimizer.OproScoresHeader + ConcatMap(pairs, SummarizationMeta.SummRating), SummarizationMeta.SummOproClosing, block);
  }

  /** Every rated instruction appears with its score. */
  lemma OproTextShowsRatings(prompt: string, pairs: seq<(string, Rating)>, fewShot: seq<RagExample>, k: nat)
    requires k < |pairs|
    ensures Contains(OproText(prompt, pairs, fewShot), SummarizationMeta.SummRating(pairs[k]))
  {
    var examples := if fewShot != [] then SummarizationMeta.ExamplesHeader + ConcatMap(fewShot, OproExample) else "";
    ConcatMapContains(pairs, SummarizationMeta.SummRating, k);
    ContainsInfix(prompt + "\n" + examples + Optimizer.OproScoresHeader, ConcatMap(pairs, SummarizationMeta.SummRating),
      SummarizationMeta.SummOproClosing, SummarizationMeta.SummRating(pairs[k]));
  }

  /**
   * `RAGMetaPrompt.parse` (OPRO): no prompt when the instruction is missing
   * or blank; otherwise a `RAGTaskPrompt`, which carries the answer tag.
   */
  function OproParse(generation: string): (r: Option<string>)
    ensures r.None? <==> NonEmptyTag(generation, "instruction").None?
    ensures r.Some? ==> Contains(r.value, AnswerTag) && NonEmptyTag(generation, "instruction").value <= r.value
  {
    match NonEmptyTag(generation, "instruction")
    case None => None
    case Some(instruction) => Some(RagTaskPrompt(instruction))
  }

  // ---------------------------------------------------------------------
  // experiments/nq/critique/meta_prompt.py: RAGMetaPrompt (CriSPO)

  const CritiqueMetaIntro :=
    "Your task is to optimize the instruction for a question-answering task, where the question and context are provided.\n\n"
    + "Below are some examples:\n"

  const CritiqueMetaMiddle := "\n\nBelow are some previous instructions with their scores and critiques.\n"

  const CritiqueMetaSteps :=
    "\n\nGenerate an instruction that is different from all the instructions above, and has a higher score than all the instructions above.\n"
    + "It should be concise, effective, and generally applicable to all examples above.\n\n"
    + "Draft your new instruction step by step:\n\n"
    + "1. Compare high-score instructions to low-score ones, identify what suggestions could have improved them. List them in <suggestion> tags.\n"
    + "2. Apply the suggestions and draft a new instruction aiming for a higher score.\n"
    + "3. Be creative and vary the wording, paraphrase, position of \""

  const CritiqueMetaEnd :=
    "\", phrase order, grammar, sentence order, which specific examples to give, etc.\n"
    + "4. Write your final new instruction in <instruction> tags."

  /** The closing steps, which name both placeholders. */
  const CritiqueMetaTail := CritiqueMetaSteps + QuestionPlaceholder + "\", \"" + ContextPlaceholder + CritiqueMetaEnd

  /** `_E`: the question, at most 20 contexts and the first gold answer. */
  function CritiqueMetaExample(e: RagExample): string
  {
    "<example>\n<instruction>?</instruction>\n<question>\n" + e.question + "\n</question>\n"
    + ContextBlock(e.contexts, 20) + "\n<answer>\n" + AnswerOrEmpty(e.y) + "\n</answer>\n</example>"
  }

  /** `_P` filled with the example blocks and the rated-and-critiqued instructions, each joined by newlines. */
  function CritiqueMetaText(pairs: seq<(string, Rating)>, fewShot: seq<RagExample>, critiques: seq<Option<string>>): string
  {
    CritiqueMetaIntro + Join(Map(fewShot, CritiqueMetaExample), "\n")
    + CritiqueMetaMiddle + Join(Map(Zip(pairs, critiques), Optimizer.RatedWithCritique), "\n")
    + CritiqueMetaTail
  }

  /** `RAGMetaPrompt.fill` (CriSPO): fails exactly when an example has no first gold answer. */
  method CritiqueMetaFill(pairs: seq<(string, Rating)>, fewShot: seq<RagExample>, critiques: seq<Option<string>>)
    returns (r: Option<string>)
    ensures r.None? <==> !AllAnswered(fewShot)
    ensures r.Some? ==> r.value == CritiqueMetaText(pairs, fewShot, critiques)
  {
    var examples := CollectAnswered(fewShot, CritiqueMetaExample);
    if examples.None? {
      return None;
    }
    var instructions := MapEach(Zip(pairs, critiques), Optimizer.RatedWithCritique);
    r := Some(CritiqueMetaIntro + Join(examples.value, "\n") + CritiqueMetaMiddle + Join(instructions, "\n") + CritiqueMetaTail);
  }

  /** The closing steps name the question placeholder and the context placeholder. */
  lemma CritiqueMetaTailNamesPlaceholders()
    ensures Contains(CritiqueMetaTail, QuestionPlaceholder) && Contains(CritiqueMetaTail, ContextPlaceholder)
  {
    ContainsSelf(QuestionPlaceholder);
    ContainsSelf(ContextPlaceholder);
    ContainsRight(CritiqueMetaSteps, QuestionPlaceholder, QuestionPlaceholder);
    ContainsLeft(CritiqueMetaSteps + QuestionPlaceholder, "\", \"", QuestionPlaceholder);
    var pre := CritiqueMetaSteps + QuestionPlaceholder + "\", \"";
    ContainsLeft(pre, ContextPlaceholder, QuestionPlaceholder);
    ContainsRight(pre, ContextPlaceholder, ContextPlaceholder);
    ContainsLeft(pre + ContextPlaceholder, CritiqueMetaEnd, QuestionPlaceholder);
    ContainsLeft(pre + ContextPlaceholder, CritiqueMetaEnd, ContextPlaceholder);
  }

  /** The CriSPO meta-prompt names both placeholders. */
  lemma CritiqueMetaTextNamesPlaceholders(pairs: seq<(string, Rating)>, fewShot: seq<RagExample>, critiques: seq<Option<string>>)
    ensures var t := CritiqueMetaText(pairs, fewShot, critiques);
      Contains(t, QuestionPlaceholder) && Contains(t, ContextPlaceholder)
  {
    var ex := Join(Map(fewShot, CritiqueMetaExample), "\n");
    var ins := Join(Map(Zip(pairs, critiques), Optimizer.RatedWithCritique), "\n");
    CritiqueMetaTailNamesPlaceholders();
    ContainsRight(CritiqueMetaIntro + ex + CritiqueMetaMiddle + ins, CritiqueMetaTail, QuestionPlaceholder);
    ContainsRight(CritiqueMetaIntro + ex + CritiqueMetaMiddle + ins, CritiqueMetaTail, ContextPlaceholder);
  }

  /** The CriSPO meta-prompt shows every example block. */
  lemma CritiqueMetaTextShowsExamples(pairs: seq<(string, Rating)>, fewShot: seq<RagExample>, critiques: seq<Option<string>>, k: nat)
    requires k < |fewShot|
    ensures Contains(CritiqueMetaText(pairs, fewShot, critiques), CritiqueMetaExample(fewShot[k]))
  {
    var ex := Join(Map(fewShot, CritiqueMetaExample), "\n");
    var ins := Join(Map(Zip(pairs, critiques), Optimizer.RatedWithCritique), "\n");
    var block := CritiqueMetaExample(fewShot[k]);
    JoinContains(Map(fewShot, CritiqueMetaExample), "\n", k);
    ContainsRight(CritiqueMetaIntro, ex, block);
    ContainsLeft(CritiqueMetaIntro + ex, CritiqueMetaMiddle, block);
    ContainsLeft(CritiqueMetaIntro + ex + CritiqueMetaMiddle, ins, block);
    ContainsLeft(CritiqueMetaIntro + ex + CritiqueMetaMiddle + ins, CritiqueMetaTail, block);
  }

  /** The CriSPO meta-prompt shows every zipped rated instruction with its critique. */
  lemma CritiqueMetaTextShowsRatings(pairs: seq<(string, Rating)>, fewShot: seq<RagExample>, critiques: seq<Option<string>>, k: nat)
    requires k < |pairs| && k < |critiques|
    ensures Contains(CritiqueMetaText(pairs, fewShot, critiques), Optimizer.FormatInstruction(pairs[k].0, pairs[k].1, critiques[k]))
  {
    var ex := Join(Map(fewShot, CritiqueMetaExample), "\n");
    var ins := Join(Map(Zip(pairs, critiques), Optimizer.RatedWithCritique), "\n");
    assert Zip(pairs, critiques)[k] == (pairs[k], critiques[k]);
    JoinContains(Map(Zip(pairs, critiques), Optimizer.RatedWithCritique), "\n", k);
    ContainsInfix(CritiqueMetaIntro + ex + CritiqueMetaMiddle, ins, CritiqueMetaTail,
      Optimizer.FormatInstruction(pairs[k].0, pairs[k].1, critiques[k]));
  }

  /**
   * `RAGMetaPrompt.parse` (CriSPO): no prompt when the instruction is
   * missing or blank; otherwise a Universal template, which has both
   * placeholders and the answer tag.
   */
  function CritiqueMetaParse(generation: string): (r: Option<string>)
    ensures r.None? <==> NonEmptyTag(generation, "instruction").None?
    ensures r.Some? ==> Contains(r.value, QuestionPlaceholder) && Contains(r.value, ContextPlaceholder) && Contains(r.value, AnswerTag)
  {
    match NonEmptyTag(generation, "instruction")
    case None => None
    case Some(instruction) =>
      UniversalTemplateMeaning(instruction);
      Some(UniversalTemplate(instruction))
  }

  // ---------------------------------------------------------------------
  // experiments/nq/critique/critique_prompt.py: RAGCritiquePrompt

  const CritiquePromptIntro := "In a question-answering task, question and context are provided and the answer needs to be generated.\n\n"

  const CritiquePromptTail :=
    "\n</examples>\n\n"
    + "Write a general and helpful critique in <critique> XML tags to improve the instruction such that the generated answer are the same as gold answer.\n\n"
    + "1. Come up with several dimensions to compare its generated and gold answer, e.g., number of words, style, precision, recall, etc.\n"
    + "2. List the difference between generated and gold answer on each dimension.\n"
    + "3. Identify specific phrases in the instruction that could have gotten these generated answer different with gold one on each dimension.\n"
    + "4. Suggest specific action items that are general to all examples and helpful to improve the instruction."

  /** `_E` for a zipped (prediction, example): question, at most 20 contexts, generated and gold answer. */
  function CritiqueBlock(item: (string, RagExample)): string
  {
    "<example>\n<question>\n" + item.1.question + "\n</question>\n" + ContextBlock(item.1.contexts, 20)
    + "\n<generated_answer>\n" + item.0 + "\n</generated_answer>\n<gold_answer>\n" + AnswerOrEmpty(item.1.y)
    + "\n</gold_answer>\n</example>"
  }

  /** `_P` filled with the instruction and the blocks joined by newlines. */
  function CritiquePromptText(prompt: string, predictions: seq<string>, examples: seq<RagExample>): string
  {
    CritiquePromptIntro + Tagged("instruction", prompt) + "\n<examples>\n"
    + Join(Map(Zip(predictions, examples), CritiqueBlock), "\n") + CritiquePromptTail
  }

  /**
   * `RAGCritiquePrompt.fill`: only the examples that are zipped with a
   * prediction are formatted, so only those must have a gold answer.
   */
  function CritiquePromptFill(prompt: string, predictions: seq<string>, examples: seq<RagExample>): Option<string>
  {
    if AllAnswered(Take(examples, |predictions|)) then Some(CritiquePromptText(prompt, predictions, examples)) else None
  }

  /** The fill fails exactly when some example paired with a prediction has no gold answer. */
  lemma CritiquePromptFillFails(prompt: string, predictions: seq<string>, examples: seq<RagExample>)
    ensures CritiquePromptFill(prompt, predictions, examples).None?
      <==> exists k :: 0 <= k < |predictions| && k < |examples| && GetYStr(examples[k].y).None?
  {
    var taken := Take(examples, |predictions|);
    assert |taken| == if |predictions| < |examples| then |predictions| else |examples|;
    assert forall k :: 0 <= k < |taken| ==> taken[k] == examples[k];
  }

  /** A block shows the question, at most 20 contexts, the prediction and the first gold answer. */
  lemma CritiqueBlockShows(p: string, e: RagExample)
    ensures var b := CritiqueBlock((p, e));
      Contains(b, e.question) && Contains(b, ContextBlock(e.contexts, 20)) && Contains(b, p) && Contains(b, AnswerOrEmpty(e.y))
  {
    var a := "<example>\n<question>\n";
    var q := e.question;
    var c := "\n</question>\n";
    var ctx := ContextBlock(e.contexts, 20);
    var d := "\n<generated_answer>\n";
    var g := "\n</generated_answer>\n<gold_answer>\n";
    var ans := AnswerOrEmpty(e.y);
    var f := "\n</gold_answer>\n</example>";
    ContainsSelf(q);
    ContainsSelf(ctx);
    ContainsSelf(p);
    ContainsSelf(ans);
    ContainsRight(a, q, q);
    ContainsLeft(a + q, c, q);
    ContainsLeft(a + q + c, ctx, q);
    ContainsRight(a + q + c, ctx, ctx);
    var s1 := a + q + c + ctx;
    ContainsLeft(s1, d, q);
    ContainsLeft(s1, d, ctx);
    ContainsLeft(s1 + d, p, q);
    ContainsLeft(s1 + d, p, ctx);
    ContainsRight(s1 + d, p, p);
    var s2 := s1 + d + p;
    ContainsLeft(s2, g, q);
    ContainsLeft(s2, g, ctx);
    ContainsLeft(s2, g, p);
    ContainsLeft(s2 + g, ans, q);
    ContainsLeft(s2 + g, ans, ctx);
    ContainsLeft(s2 + g, ans, p);
    ContainsRight(s2 + g, ans, ans);
    var s3 := s2 + g + ans;
    ContainsLeft(s3, f, q);
    ContainsLeft(s3, f, ctx);
    ContainsLeft(s3, f, p);
    ContainsLeft(s3, f, ans);
  }

  /** The critique prompt shows the instruction in its tag and the block of every zipped pair. */
  lemma CritiquePromptTextShows(prompt: string, predictions: seq<string>, examples: seq<RagExample>, k: nat)
    requires k < |predictions| && k < |examples|
    ensures var r := CritiquePromptText(prompt, predictions, examples);
      Contains(r, Tagged("instruction", prompt)) && Contains(r, CritiqueBlock((predictions[k], examples[k])))
  {
    var ex := Join(Map(Zip(predictions, examples), CritiqueBlock), "\n");
    var inst := Tagged("instruction", prompt);
    var block := CritiqueBlock((predictions[k], examples[k]));
    assert Zip(predictions, examples)[k] == (predictions[k], examples[k]);
    JoinContains(Map(Zip(predictions, examples), CritiqueBlock), "\n", k);
    ContainsSelf(inst);
    ContainsRight(CritiquePromptIntro, inst, inst);
    ContainsLeft(CritiquePromptIntro + inst, "\n<examples>\n", inst);
    var pre := CritiquePromptIntro + inst + "\n<examples>\n";
    ContainsLeft(pre, ex, inst);
    ContainsRight(pre, ex, block);
    ContainsLeft(pre + ex, CritiquePromptTail, inst);
    ContainsLeft(pre + ex, CritiquePromptTail, block);
  }
}
