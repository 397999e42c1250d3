/**
 * The summarization experiments' meta-prompts: the OPRO form with `<input>` /
 * `<summary>` examples and its Mistral variant, and the CriSPO form whose new
 * instructions always carry the article placeholder and the `<summary>` tag,
 * with its Mistral variant.
 */
module SummarizationMeta {
  import opened Wrappers
  import opened Text
  import opened Formatting
  import opened Render
  import opened Task
  import opened PromptUtil
  import Optimizer
  import SummarizationTask

  // ---------------------------------------------------------------------
  // experiments/summarization/meta_prompt.py: SummarizationOproMetaPrompt

  const SummOproDefaultPrompt := "Your task is to generate the instruction <instruction> for a summarization task."

  const ExamplesHeader := "Below are some examples:\n"

  const SummOproClosing :=
    "\n\nGenerate an instruction that"
    + " is different from all the instructions <instruction> above,"
    + " and has a higher score than all the instructions <instruction> above."
    + " The instruction should begin with <instruction> and end with </instruction>."
    + " The instruction should be concise, effective,"
    + " and generally applicable to all examples above."

  /** One few-shot example: the article and its reference summary, with the instruction slot marked `?`. */
  function SummExample(e: Example): string
  {
    "\n<example>\n<instruction>?</instruction>\n<input>\n" + e.x + "\n</input>\n"
    + "<summary>\n" + e.y + "\n</summary>\n</example>\n"
  }

  /** One rated instruction; a float score is shown as `round(score * 100)`, an int or string as it is. */
  function SummRating(pair: (string, Rating)): string
  {
    "\n<rated_instruction>\n" + Tagged("instruction", pair.0) + "\n"
    + Tagged("score", RoundOrVerbatim(pair.1)) + "\n</rated_instruction>\n"
  }

  /**
   * The summarization OPRO meta-prompt: the instruction, the examples
   * section only when there are examples, the rated instructions in order,
   * and the closing request.
   */
  function SummOproText(prompt: string, pairs: seq<(string, Rating)>, fewShot: seq<Example>): string
  {
    prompt + "\n"
    + (if fewShot != [] then ExamplesHeader + ConcatMap(fewShot, SummExample) else "")
    + Optimizer.OproScoresHeader + ConcatMap(pairs, SummRating) + SummOproClosing
  }

  /** `SummarizationOproMetaPrompt.fill`. */
  method SummOproFill(prompt: string, pairs: seq<(string, Rating)>, fewShot: seq<Example>) returns (r: string)
    ensures r == SummOproText(prompt, pairs, fewShot)
  {
    var metaPrompt := Optimizer.Snoc([], prompt);
    assert Concat(metaPrompt) == prompt by {
      assert metaPrompt[..0] == [];
    }
    metaPrompt := Optimizer.Snoc(metaPrompt, "\n");
    ghost var head := Concat(metaPrompt);
    ghost var examples := if fewShot != [] then ExamplesHeader + ConcatMap(fewShot, SummExample) else "";
    if fewShot != [] {
      metaPrompt := Optimizer.Snoc(metaPrompt, ExamplesHeader);
      metaPrompt := AppendEach(metaPrompt, fewShot, SummExample);
      AppendAssoc(head, ExamplesHeader, ConcatMap(fewShot, SummExample));
    } else {
      assert head + examples == head;
    }
    assert Concat(metaPrompt) == head + examples;
    metaPrompt := Optimizer.Snoc(metaPrompt, Optimizer.OproScoresHeader);
    metaPrompt := AppendEach(metaPrompt, pairs, SummRating);
    metaPrompt := Optimizer.Snoc(metaPrompt, SummOproClosing);
    r := Concat(metaPrompt);
  }

  /** The meta-prompt starts with the instruction and ends with the closing request. */
  lemma SummOproTextEnds(prompt: string, pairs: seq<(string, Rating)>, fewShot: seq<Example>)
    ensures var t := SummOproText(prompt, pairs, fewShot);
      prompt + "\n" <= t && EndsWith(t, SummOproClosing)
  {
    var t := SummOproText(prompt, pairs, fewShot);
    var head := prompt + "\n";
    var examples := if fewShot != [] then ExamplesHeader + ConcatMap(fewShot, SummExample) else "";
    var body := head + examples + Optimizer.OproScoresHeader + ConcatMap(pairs, SummRating);
    assert t == body + SummOproClosing;
    assert t[|t| - |SummOproClosing|..] == SummOproClosing;
    AppendAssoc(head, examples, Optimizer.OproScoresHeader);
    AppendAssoc(head, examples + Optimizer.OproScoresHeader, ConcatMap(pairs, SummRating));
    AppendAssoc(head, examples + Optimizer.OproScoresHeader + ConcatMap(pairs, SummRating), SummOproClosing);
  }

  /** Every rated instruction appears with its score. */
  lemma SummOproTextShowsRatings(prompt: string, pairs: seq<(string, Rating)>, fewShot: seq<Example>, k: nat)
    requires k < |pairs|
    ensures Contains(SummOproText(prompt, pairs, fewShot), SummRating(pairs[k]))
  {
    var examples := if fewShot != [] then ExamplesHeader + ConcatMap(fewShot, SummExample) else "";
    ConcatMapContains(pairs, SummRating, k);
    ContainsInfix(prompt + "\n" + examples + Optimizer.OproScoresHeader, ConcatMap(pairs, SummRating), SummOproClosing, SummRating(pairs[k]));
  }

  /** Every few-shot example appears with its article and its reference summary. */
  lemma SummOproTextShowsExamples(prompt: string, pairs: seq<(string, Rating)>, fewShot: seq<Example>, k: nat)
    requires k < |fewShot|
    ensures Contains(SummOproText(prompt, pairs, fewShot), SummExample(fewShot[k]))
  {
    var head := prompt + "\n";
    var examples := ExamplesHeader + ConcatMap(fewShot, SummExample);
    var block := SummExample(fewShot[k]);
    ConcatMapContains(fewShot, SummExample, k);
    ContainsRight(ExamplesHeader, ConcatMap(fewShot, SummExample), block);
    ContainsRight(head, examples, block);
    ContainsLeft(head + examples, Optimizer.OproScoresHeader, block);
    ContainsLeft(head + examples + Optimizer.OproScoresHeader, ConcatMap(pairs, SummRating), block);
    ContainsLeft(head + examples + Optimizer.OproScoresHeader + ConcatMap(pairs, SummRating), SummOproClosing, block);
  }

  /** A rated instruction shows a float score as a whole number and any other score exactly as given. */
  lemma SummRatingScore(p: string, score: Rating)
    ensures Contains(SummRating((p, score)), Tagged("score", RoundOrVerbatim(score)))
    ensures Contains(SummRating((p, score)), Tagged("instruction", p))
    ensures score.FloatScore? ==> IsIntegerText(RoundOrVerbatim(score))
    ensures !score.FloatScore? ==> RoundOrVerbatim(score) == (if score.IntScore? then IntToString(score.n) else score.s)
  {
    var a := "\n<rated_instruction>\n";
    var i := Tagged("instruction", p);
    var b := Tagged("score", RoundOrVerbatim(score));
    ContainsSelf(b);
    ContainsSelf(i);
    ContainsRight(a, i, i);
    ContainsLeft(a + i, "\n", i);
    ContainsLeft(a + i + "\n", b, i);
    ContainsLeft(a + i + "\n" + b, "\n</rated_instruction>\n", i);
    ContainsRight(a + i + "\n", b, b);
    ContainsLeft(a + i + "\n" + b, "\n</rated_instruction>\n", b);
  }

  /**
   * `parse` of both OPRO summarization meta-prompts: the non-empty content of
   * the last `<instruction>` tag, as the text of a prompt that appends the
   * article (`SummarizationTaskPromptNoPlaceholder`).
   */
  function SummOproParse(generation: string): (r: Option<string>)
    ensures r.Some? ==> r.value != [] && IsStripped(r.value)
  {
    NonEmptyTagMeaning(generation, "instruction");
    NonEmptyTag(generation, "instruction")
  }

  // ---------------------------------------------------------------------
  // experiments/summarization/meta_prompt.py: CnnMetaPromptForMistral

  /** One numbered few-shot example (numbering from 1) with the target summary. */
  function MistralOproExample(item: (nat, Example)): string
  {
    ExampleNumber(item.0) + "INSTRUCTION:\nthe instruction you generated will be inserted here.\n"
    + "INPUT:\n" + item.1.x + "\n"
    + "TARGET SUMMARY:\n" + item.1.y + "\n"
  }

  /** A numbered example opens with its heading. */
  lemma MistralOproExampleNumbered(item: (nat, Example))
    ensures ExampleNumber(item.0) <= MistralOproExample(item)
  {
    var n := ExampleNumber(item.0);
    var a, b, c := "INSTRUCTION:\nthe instruction you generated will be inserted here.\n", "INPUT:\n", "TARGET SUMMARY:\n";
    PrefixAppend(n, a);
    PrefixExtend(n, n + a, b);
    PrefixExtend(n, n + a + b, item.1.x);
    PrefixExtend(n, n + a + b + item.1.x, "\n");
    PrefixExtend(n, n + a + b + item.1.x + "\n", c);
    PrefixExtend(n, n + a + b + item.1.x + "\n" + c, item.1.y);
    PrefixExtend(n, n + a + b + item.1.x + "\n" + c + item.1.y, "\n");
  }

  /** The heading of example `i`, which is numbered `i + 1`. */
  function ExampleNumber(i: nat): string
  {
    "\nEXAMPLE " + NatToString(i + 1) + "\n"
  }

  /** `"%.2f" % (score * 100)` for a float, `str(score)` for an int or string. */
  function ScaledFixed2OrVerbatim(r: Rating): (t: string)
    ensures r.StrScore? ==> t == r.s
  {
    match r
    case FloatScore(x) => Fixed2(x * 100.0)
    case IntScore(n) => IntToString(n)
    case StrScore(s) => s
  }

  /** One rated instruction of the Mistral OPRO meta-prompt. */
  function MistralOproRating(pair: (string, Rating)): string
  {
    "\nINSTRUCTION:\n" + pair.0 + "\n" + "SCORE:\n" + ScaledFixed2OrVerbatim(pair.1) + "\n"
  }

  const MistralOproClosing :=
    "\n\nGenerate an instruction that"
    + " is different from all the instructions above and has a higher score."
    + " The instruction should begin with <instruction> and end with </instruction>."
    + " The instruction should be concise, effective,"
    + " and generally applicable to all examples above."

  /** The Mistral OPRO meta-prompt: numbered examples (when any), a blank line, the rated instructions, the closing. */
  function MistralOproText(prompt: string, pairs: seq<(string, Rating)>, fewShot: seq<Example>): string
  {
    prompt + "\n"
    + (if fewShot != [] then ExamplesHeader + ConcatMap(Enumerate(fewShot), MistralOproExample) else "")
    + "\n" + Optimizer.OproScoresHeader + ConcatMap(pairs, MistralOproRating) + MistralOproClosing
  }

  /** `CnnMetaPromptForMistral.fill` (of experiments/summarization/meta_prompt.py), given the instance's prompt. */
  method MistralOproFill(prompt: string, pairs: seq<(string, Rating)>, fewShot: seq<Example>) returns (r: string)
    ensures r == MistralOproText(prompt, pairs, fewShot)
  {
    var metaPrompt := Optimizer.Snoc([], prompt);
    assert Concat(metaPrompt) == prompt by {
      assert metaPrompt[..0] == [];
    }
    metaPrompt := Optimizer.Snoc(metaPrompt, "\n");
    ghost var head := Concat(metaPrompt);
    ghost var examples := if fewShot != [] then ExamplesHeader + ConcatMap(Enumerate(fewShot), MistralOproExample) else "";
    if fewShot != [] {
      metaPrompt := Optimizer.Snoc(metaPrompt, ExamplesHeader);
      metaPrompt := AppendEach(metaPrompt, Enumerate(fewShot), MistralOproExample);
      AppendAssoc(head, ExamplesHeader, ConcatMap(Enumerate(fewShot), MistralOproExample));
    } else {
      assert head + examples == head;
    }
    assert Concat(metaPrompt) == head + examples;
    metaPrompt := Optimizer.Snoc(metaPrompt, "\n" + Optimizer.OproScoresHeader);
    AppendAssoc(head + examples, "\n", Optimizer.OproScoresHeader);
    metaPrompt := AppendEach(metaPrompt, pairs, MistralOproRating);
    metaPrompt := Optimizer.Snoc(metaPrompt, MistralOproClosing);
    r := Concat(metaPrompt);
  }

  /** Example `k` appears under the number `k + 1`, so the numbers shown are 1, 2, ... in order. */
  lemma MistralOproTextShowsExamples(prompt: string, pairs: seq<(string, Rating)>, fewShot: seq<Example>, k: nat)
    requires k < |fewShot|
    ensures Contains(MistralOproText(prompt, pairs, fewShot), MistralOproExample((k, fewShot[k])))
    ensures ExampleNumber(k) <= MistralOproExample((k, fewShot[k]))
  {
    var head := prompt + "\n";
    var all := ConcatMap(Enumerate(fewShot), MistralOproExample);
    var examples := ExamplesHeader + all;
    var block := MistralOproExample((k, fewShot[k]));
    assert Enumerate(fewShot)[k] == (k, fewShot[k]);
    ConcatMapContains(Enumerate(fewShot), MistralOproExample, k);
    ContainsRight(ExamplesHeader, all, block);
    ContainsRight(head, examples, block);
    ContainsLeft(head + examples, "\n", block);
    ContainsLeft(head + examples + "\n", Optimizer.OproScoresHeader, block);
    ContainsLeft(head + examples + "\n" + Optimizer.OproScoresHeader, ConcatMap(pairs, MistralOproRating), block);
    ContainsLeft(head + examples + "\n" + Optimizer.OproScoresHeader + ConcatMap(pairs, MistralOproRating), MistralOproClosing, block);
    MistralOproExampleNumbered((k, fewShot[k]));
  }

  /** Every rated instruction appears with its score. */
  lemma MistralOproTextShowsRatings(prompt: string, pairs: seq<(string, Rating)>, fewShot: seq<Example>, k: nat)
    requires k < |pairs|
    ensures Contains(MistralOproText(prompt, pairs, fewShot), MistralOproRating(pairs[k]))
  {
    var examples := if fewShot != [] then ExamplesHeader + ConcatMap(Enumerate(fewShot), MistralOproExample) else "";
    ConcatMapContains(pairs, MistralOproRating, k);
    ContainsInfix(prompt + "\n" + examples + "\n" + Optimizer.OproScoresHeader, ConcatMap(pairs, MistralOproRating), MistralOproClosing, MistralOproRating(pairs[k]));
  }

  /** A float score is shown scaled to a percentage with two decimals. */
  lemma MistralOproRatingScore(p: string, x: real)
    ensures var t := ScaledFixed2OrVerbatim(FloatScore(x));
      Contains(MistralOproRating((p, FloatScore(x))), "SCORE:\n" + t + "\n")
      && |t| >= 4 && t[|t| - 3] == '.'
      && x * 10000.0 - 0.5 <= RoundHalfEven(x * 100.0 * 100.0) as real <= x * 10000.0 + 0.5
  {
    var t := ScaledFixed2OrVerbatim(FloatScore(x));
    var a := "\nINSTRUCTION:\n" + p + "\n";
    assert MistralOproRating((p, FloatScore(x))) == a + ("SCORE:\n" + t + "\n");
    ContainsSelf("SCORE:\n" + t + "\n");
    ContainsRight(a, "SCORE:\n" + t + "\n", "SCORE:\n" + t + "\n");
    Fixed2Meaning(x * 100.0);
  }

  /** The prompt the class declares for itself. */
  const MistralOproIntendedPrompt := "Your task is to generate the instruction for a summarization task."

  /**
   * The class is not itself a dataclass, so the `__init__` inherited from
   * `OproMetaPrompt` stores that class's default in the instance, which
   * hides the class attribute: the instance's prompt as written.
   */
  const MistralOproPromptAsWritten := Optimizer.OproDefaultPrompt

  /**
   * As written, the meta-prompt the Mistral optimizer sees opens with the
   * generic OPRO instruction, which asks for an `<INS>` instruction and never
   * says the task is summarization, instead of the summarization instruction
   * the class declares.
   */
  lemma MistralOproPromptShadowed(pairs: seq<(string, Rating)>, fewShot: seq<Example>)
    ensures var t := MistralOproText(MistralOproPromptAsWritten, pairs, fewShot);
      Optimizer.OproDefaultPrompt <= t && !(MistralOproIntendedPrompt <= t)
  {
    var t := MistralOproText(MistralOproPromptAsWritten, pairs, fewShot);
    MistralOproTextEnds(MistralOproPromptAsWritten, pairs, fewShot);
    PrefixOfLongerPrefix(Optimizer.OproDefaultPrompt, "\n", t);
    PromptsDifferAt41();
    PrefixesDiffer(Optimizer.OproDefaultPrompt, MistralOproIntendedPrompt, t, 41);
  }

  /** The generic prompt has the `<INS>` placeholder where the declared one says "for". */
  lemma PromptsDifferAt41()
    ensures 41 < |Optimizer.OproDefaultPrompt| && 41 < |MistralOproIntendedPrompt|
    ensures Optimizer.OproDefaultPrompt[41] == '<' && MistralOproIntendedPrompt[41] == 'f'
  {
  }

  /** The Mistral OPRO meta-prompt starts with the instance's prompt and ends with the closing request. */
  lemma MistralOproTextEnds(prompt: string, pairs: seq<(string, Rating)>, fewShot: seq<Example>)
    ensures var t := MistralOproText(prompt, pairs, fewShot);
      prompt + "\n" <= t && EndsWith(t, MistralOproClosing)
  {
    var head := prompt + "\n";
    var examples := if fewShot != [] then ExamplesHeader + ConcatMap(Enumerate(fewShot), MistralOproExample) else "";
    var rated := ConcatMap(pairs, MistralOproRating);
    var body := head + examples + "\n" + Optimizer.OproScoresHeader + rated;
    EndsWithAppend(body, MistralOproClosing);
    PrefixAppend(head, examples);
    PrefixExtend(head, head + examples, "\n");
    PrefixExtend(head, head + examples + "\n", Optimizer.OproScoresHeader);
    PrefixExtend(head, head + examples + "\n" + Optimizer.OproScoresHeader, rated);
    PrefixExtend(head, body, MistralOproClosing);
  }

  /**
   * The Mistral OPRO meta-prompt with the prompt the class declares: it
   * opens with the summarization task statement.
   */
  function MistralOproCorrected(pairs: seq<(string, Rating)>, fewShot: seq<Example>): (r: string)
    ensures MistralOproIntendedPrompt + "\n" <= r && EndsWith(r, MistralOproClosing)
  {
    MistralOproTextEnds(MistralOproIntendedPrompt, pairs, fewShot);
    MistralOproText(MistralOproIntendedPrompt, pairs, fewShot)
  }

  // ---------------------------------------------------------------------
  // experiments/summarization/crispo/meta_prompt.py

  const CrispoSummaryIntro :=
    "Your task is to optimize the instruction for a summarization task, where a writer is given an input text to write its summary following your instruction.\n\n"
    + "Below are some examples:\n"

  const CrispoSummaryMiddle := "\n\nBelow are some previous instructions with their scores and critiques.\n"

  /** The closing steps up to the placeholder's mention in step 3. */
  const CrispoSummaryDraft :=
    "\n\nGenerate an instruction that is different from all the instructions above, and has a higher score than all the instructions above.\n"
    + "It should be concise, effective, and generally applicable to all examples above.\n\n"
    + "Draft your new instruction step by step:\n\n"
    + "1. Compare high-score instructions to low-score ones, identify what suggestions could have improved them. List them in <suggestion> tags.\n"
    + "2. Apply the suggestions and draft a new instruction aiming for a higher score.\n"
    + "3. Be creative and vary the wording, paraphrase, position of "

  const CrispoSummaryStep3Rest := ", phrase order, grammar, sentence order, which specific example summaries to give, etc.\n"

  const CrispoSummaryStep4 := "4. Write your final new instruction in <instruction> tags."

  /**
   * `SummarizationCriSPOMetaPrompt.prompt`: the f-string has already put the
   * placeholder into step 3 and left `{examples}` and `{instructions}` as
   * fields.
   */
  const SummCrispoTemplate: seq<Segment> := [
    Lit(CrispoSummaryIntro),
    Slot("examples"),
    Lit(CrispoSummaryMiddle),
    Slot("instructions"),
    Lit(CrispoSummaryLast)
  ]

  /** The template's closing text, which ends with step 4. */
  const CrispoSummaryLast := CrispoSummaryDraft + SummarizationTask.ArticlePlaceholder + CrispoSummaryStep3Rest + CrispoSummaryStep4

  /** The fifth step the Mistral template adds. */
  const MistralStep5Rest := " only once in new instruction."

  const MistralStep5 := "5. You must use " + SummarizationTask.ArticlePlaceholder + MistralStep5Rest

  /** `CnnMetaPromptForMistral.prompt` (of experiments/summarization/crispo/meta_prompt.py). */
  const MistralCrispoTemplate: seq<Segment> := [
    Lit(CrispoSummaryIntro),
    Slot("examples"),
    Lit(CrispoSummaryMiddle),
    Slot("instructions"),
    Lit(CrispoSummaryLast + " \n" + MistralStep5)
  ]

  /** Both templates name exactly the two fields the fill provides. */
  lemma SummCrispoSlots(t: seq<Segment>)
    requires t == SummCrispoTemplate || t == MistralCrispoTemplate
    ensures Slots(t) == ["examples", "instructions"]
  {
    assert t[..1][..0] == [];
    assert Slots(t[..1]) == [];
    assert t[..2][..1] == t[..1];
    assert Slots(t[..2]) == ["examples"];
    assert t[..3][..2] == t[..2];
    assert Slots(t[..3]) == ["examples"];
    assert t[..4][..3] == t[..3];
    assert Slots(t[..4]) == ["examples", "instructions"];
    assert t[..5][..4] == t[..4];
    assert t[..5] == t;
  }

  /**
   * The summarization CriSPO meta-prompt (the inherited `fill`, examples
   * rendered by `to_xml`) always renders and shows every example and every
   * rated instruction with its critique.
   */
  lemma SummCrispoTextContents(pairs: seq<(string, Rating)>, fewShot: seq<Example>, critiques: seq<Option<string>>)
    ensures var r := Optimizer.CrispoText(SummCrispoTemplate, pairs, fewShot, critiques, SummarizationTask.SummaryXml);
      r.Some?
      && (forall k :: 0 <= k < |fewShot| ==> Contains(r.value, Optimizer.CrispoExample(SummarizationTask.SummaryXml(fewShot[k]))))
      && (forall k :: 0 <= k < |pairs| && k < |critiques| ==>
            Contains(r.value, Optimizer.FormatInstruction(pairs[k].0, pairs[k].1, critiques[k])))
  {
    SummCrispoSlots(SummCrispoTemplate);
    Optimizer.CrispoTextContents(SummCrispoTemplate, pairs, fewShot, critiques, SummarizationTask.SummaryXml);
  }

  const GivenTheInput := "Given the input:\n\n" + SummarizationTask.ArticlePlaceholder + "\n\n"

  const WriteWithinSummary := " Write your summary within " + "<summary>" + " tags."

  /**
   * `SummarizationCriSPOMetaPrompt.parse`: the non-empty new instruction,
   * preceded by the placeholder's introduction when it lacks the
   * placeholder and followed by the request for `<summary>` tags when it
   * lacks them.
   */
  function SummCrispoParse(generation: string): Option<string>
  {
    match NonEmptyTag(generation, "instruction")
    case None => None
    case Some(v) =>
      Some(AppendIfMissing(PrependIfMissing(v, SummarizationTask.ArticlePlaceholder, GivenTheInput), "<summary>", WriteWithinSummary))
  }

  /**
   * A new instruction is parsed exactly when the tag has content; the parsed
   * prompt keeps that content, always has the placeholder and the summary
   * tag, is the content itself when it had both, and so always fills with
   * the article in it.
   */
  lemma SummCrispoParseMeaning(generation: string, x: string)
    ensures var r := SummCrispoParse(generation);
      var v := NonEmptyTag(generation, "instruction");
      (r.Some? <==> v.Some?)
      && (r.Some? ==>
            Contains(r.value, v.value)
            && Contains(r.value, SummarizationTask.ArticlePlaceholder)
            && Contains(r.value, "<summary>")
            && (Contains(v.value, SummarizationTask.ArticlePlaceholder) && Contains(v.value, "<summary>") ==> r.value == v.value)
            && SummarizationTask.WithPlaceholderFill(r.value, x).Some?
            && Contains(SummarizationTask.WithPlaceholderFill(r.value, x).value, x))
  {
    var v := NonEmptyTag(generation, "instruction");
    if v.Some? {
      var ph := SummarizationTask.ArticlePlaceholder;
      var s := PrependIfMissing(v.value, ph, GivenTheInput);
      var r := AppendIfMissing(s, "<summary>", WriteWithinSummary);
      ContainsSelf(ph);
      ContainsRight("Given the input:\n\n", ph, ph);
      ContainsLeft("Given the input:\n\n" + ph, "\n\n", ph);
      PrependIfMissingMeaning(v.value, ph, GivenTheInput);
      ContainsSelf("<summary>");
      ContainsInfix(" Write your summary within ", "<summary>", " tags.", "<summary>");
      AppendIfMissingMeaning(s, "<summary>", WriteWithinSummary);
      ContainsPrefix(r, s, ph);
      ContainsSelf(v.value);
      if !Contains(v.value, ph) {
        assert s == GivenTheInput + v.value;
        ContainsRight(GivenTheInput, v.value, v.value);
      }
      ContainsPrefix(r, s, v.value);
    }
  }

  /** `_E_MISTRAL` filled for example `i` (numbered from 1). */
  function MistralCrispoExample(item: (nat, Example)): string
  {
    "EXAMPLE " + NatToString(item.0 + 1) + "\nINPUT:\n" + item.1.x + "\nTARGET_SUMMARY:\n" + item.1.y
  }

  /** `_I_MISTRAL` filled for a rated instruction and its critique; the score as `f"{score:.2%}"`. */
  function MistralCrispoInstruction(item: ((string, Rating), Option<string>)): string
  {
    "INSTRUCTION:\n" + item.0.0 + "\nSCORE:\n" + PercentUnlessStr(item.0.1) + "\nCRITIQUE:\n" + Optimizer.CritiqueText(item.1)
  }

  /** Some zipped rated instruction has a string score, which `.2%` cannot format (`ValueError`). */
  predicate HasStrScore(zipped: seq<((string, Rating), Option<string>)>)
  {
    exists k :: 0 <= k < |zipped| && zipped[k].0.1.StrScore?
  }

  /** A zipped pair has a text score exactly when one of the pairs that has a critique slot has one. */
  lemma HasStrScoreIff(pairs: seq<(string, Rating)>, critiques: seq<Option<string>>)
    ensures HasStrScore(Zip(pairs, critiques)) <==> exists k :: 0 <= k < |pairs| && k < |critiques| && pairs[k].1.StrScore?
  {
    var zipped := Zip(pairs, critiques);
    if HasStrScore(zipped) {
      var k :| 0 <= k < |zipped| && zipped[k].0.1.StrScore?;
      assert zipped[k] == (pairs[k], critiques[k]);
    }
    if exists k :: 0 <= k < |pairs| && k < |critiques| && pairs[k].1.StrScore? {
      var k :| 0 <= k < |pairs| && k < |critiques| && pairs[k].1.StrScore?;
      assert zipped[k] == (pairs[k], critiques[k]);
    }
  }

  /**
   * The Mistral CriSPO meta-prompt: the template formatted with the numbered
   * examples and the rated instructions zipped with their critiques, each
   * group separated by blank lines. None when a string score is reached.
   */
  function MistralCrispoText(template: seq<Segment>, pairs: seq<(string, Rating)>, fewShot: seq<Example>,
                             critiques: seq<Option<string>>): Option<string>
  {
    var zipped := Zip(pairs, critiques);
    if HasStrScore(zipped) then None
    else
      Format(template, Optimizer.CrispoArgs(
        Join(Map(Enumerate(fewShot), MistralCrispoExample), "\n\n"),
        Join(Map(zipped, MistralCrispoInstruction), "\n\n")))
  }

  /** `CnnMetaPromptForMistral.fill` (of experiments/summarization/crispo/meta_prompt.py), given the instance's template. */
  method MistralCrispoFill(template: seq<Segment>, pairs: seq<(string, Rating)>, fewShot: seq<Example>,
                           critiques: seq<Option<string>>) returns (r: Option<string>)
    ensures r == MistralCrispoText(template, pairs, fewShot, critiques)
  {
    var examples := MapEach(Enumerate(fewShot), MistralCrispoExample);
    var instructions := MistralCrispoInstructions(Zip(pairs, critiques));
    if instructions.None? {
      return None;
    }
    r := Format(template, Optimizer.CrispoArgs(Join(examples, "\n\n"), Join(instructions.value, "\n\n")));
  }

  /** The loop over the zipped rated instructions; a string score stops it with `ValueError` (None). */
  method MistralCrispoInstructions(zipped: seq<((string, Rating), Option<string>)>) returns (r: Option<seq<string>>)
    ensures r.None? <==> HasStrScore(zipped)
    ensures r.Some? ==> r.value == Map(zipped, MistralCrispoInstruction)
  {
    var instructions := [];
    var k := 0;
    while k < |zipped|
      invariant k <= |zipped|
      invariant instructions == Map(zipped[..k], MistralCrispoInstruction)
      invariant !HasStrScore(zipped[..k])
    {
      var item := zipped[k];
      HasStrScoreStep(zipped, k);
      if item.0.1.StrScore? {
        return None;
      }
      MapSnoc(zipped, k, MistralCrispoInstruction);
      instructions := instructions + [MistralCrispoInstruction(item)];
      k := k + 1;
    }
    assert zipped[..k] == zipped;
    r := Some(instructions);
  }

  /** One more rated instruction has a string score exactly when the longer prefix has one. */
  lemma HasStrScoreStep(zipped: seq<((string, Rating), Option<string>)>, k: nat)
    requires k < |zipped| && !HasStrScore(zipped[..k])
    ensures HasStrScore(zipped[..k + 1]) <==> zipped[k].0.1.StrScore?
    ensures zipped[k].0.1.StrScore? ==> HasStrScore(zipped)
  {
    assert zipped[..k + 1][k] == zipped[k];
    assert forall j :: 0 <= j < k ==> zipped[..k + 1][j] == zipped[..k][j];
  }

  /**
   * With either template, the Mistral CriSPO meta-prompt renders exactly
   * when no zipped score is a string, and then shows every numbered example
   * and every rated instruction with its critique.
   */
  lemma MistralCrispoTextContents(template: seq<Segment>, pairs: seq<(string, Rating)>, fewShot: seq<Example>,
                                  critiques: seq<Option<string>>)
    requires template == SummCrispoTemplate || template == MistralCrispoTemplate
    ensures var r := MistralCrispoText(template, pairs, fewShot, critiques);
      (r.Some? <==> forall k :: 0 <= k < |pairs| && k < |critiques| ==> !pairs[k].1.StrScore?)
      && (r.Some? ==>
            (forall k :: 0 <= k < |fewShot| ==> Contains(r.value, MistralCrispoExample((k, fewShot[k]))))
            && (forall k :: 0 <= k < |pairs| && k < |critiques| ==>
                  Contains(r.value, MistralCrispoInstruction((pairs[k], critiques[k])))))
  {
    var zipped := Zip(pairs, critiques);
    HasStrScoreIff(pairs, critiques);
    if !HasStrScore(zipped) {
      var examples := Join(Map(Enumerate(fewShot), MistralCrispoExample), "\n\n");
      var instructions := Join(Map(zipped, MistralCrispoInstruction), "\n\n");
      SummCrispoSlots(template);
      Optimizer.CrispoTextArgs(template, examples, instructions);
      var r := Format(template, Optimizer.CrispoArgs(examples, instructions)).value;
      forall k | 0 <= k < |fewShot|
        ensures Contains(r, MistralCrispoExample((k, fewShot[k])))
      {
        assert Enumerate(fewShot)[k] == (k, fewShot[k]);
        JoinContains(Map(Enumerate(fewShot), MistralCrispoExample), "\n\n", k);
        ContainsTrans(r, examples, MistralCrispoExample((k, fewShot[k])));
      }
      forall k | 0 <= k < |pairs| && k < |critiques|
        ensures Contains(r, MistralCrispoInstruction((pairs[k], critiques[k])))
      {
        assert zipped[k] == (pairs[k], critiques[k]);
        JoinContains(Map(zipped, MistralCrispoInstruction), "\n\n", k);
        ContainsTrans(r, instructions, MistralCrispoInstruction((pairs[k], critiques[k])));
      }
    }
  }

  /**
   * The class is not itself a dataclass, so the `__init__` inherited from
   * `SummarizationCriSPOMetaPrompt` stores that class's template in the
   * instance, hiding the class attribute: the template in use as written.
   */
  const MistralCrispoTemplateAsWritten := SummCrispoTemplate

  /**
   * As written, the Mistral CriSPO meta-prompt ends with step 4 and never
   * gets the fifth step (use the placeholder only once) that its class
   * declares.
   */
  lemma MistralCrispoStep5Dropped(pairs: seq<(string, Rating)>, fewShot: seq<Example>, critiques: seq<Option<string>>)
    requires MistralCrispoText(MistralCrispoTemplateAsWritten, pairs, fewShot, critiques).Some?
    ensures var t := MistralCrispoText(MistralCrispoTemplateAsWritten, pairs, fewShot, critiques).value;
      EndsWith(t, CrispoSummaryStep4) && !EndsWith(t, MistralStep5)
  {
    var t := MistralCrispoText(MistralCrispoTemplateAsWritten, pairs, fewShot, critiques).value;
    var args := Optimizer.CrispoArgs(
      Join(Map(Enumerate(fewShot), MistralCrispoExample), "\n\n"),
      Join(Map(Zip(pairs, critiques), MistralCrispoInstruction), "\n\n"));
    FormatEndsWithLit(SummCrispoTemplate, args);
    EndsWithAppend(CrispoSummaryDraft + SummarizationTask.ArticlePlaceholder + CrispoSummaryStep3Rest, CrispoSummaryStep4);
    EndsWithTrans(t, CrispoSummaryLast, CrispoSummaryStep4);
    assert t[|t| - 2] == CrispoSummaryStep4[|CrispoSummaryStep4| - 2] == 's';
    EndsWithAppend("5. You must use " + SummarizationTask.ArticlePlaceholder, MistralStep5Rest);
    assert MistralStep5[|MistralStep5| - 2] == MistralStep5Rest[|MistralStep5Rest| - 2] == 'n';
  }

  /**
   * The Mistral CriSPO meta-prompt with the template its class declares:
   * it renders exactly when no zipped score is a string, and then ends with
   * the fifth step, which names the placeholder.
   */
  function MistralCrispoCorrected(pairs: seq<(string, Rating)>, fewShot: seq<Example>, critiques: seq<Option<string>>): (r: Option<string>)
    ensures r.Some? <==> forall k :: 0 <= k < |pairs| && k < |critiques| ==> !pairs[k].1.StrScore?
    ensures r.Some? ==> EndsWith(r.value, MistralStep5)
  {
    MistralCrispoTextContents(MistralCrispoTemplate, pairs, fewShot, critiques);
    var r := MistralCrispoText(MistralCrispoTemplate, pairs, fewShot, critiques);
    if r.Some? then
      MistralCrispoEnds(Optimizer.CrispoArgs(
        Join(Map(Enumerate(fewShot), MistralCrispoExample), "\n\n"),
        Join(Map(Zip(pairs, critiques), MistralCrispoInstruction), "\n\n")));
      r
    else r
  }

  /** Whatever the arguments, the declared template, rendered, ends with the fifth step. */
  lemma MistralCrispoEnds(args: seq<(string, string)>)
    requires Format(MistralCrispoTemplate, args).Some?
    ensures EndsWith(Format(MistralCrispoTemplate, args).value, MistralStep5)
  {
    FormatEndsWithLit(MistralCrispoTemplate, args);
    EndsWithAppend(CrispoSummaryLast + " \n", MistralStep5);
    EndsWithTrans(Format(MistralCrispoTemplate, args).value, MistralCrispoTemplate[4].text, MistralStep5);
  }
}
