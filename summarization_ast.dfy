/**
 * The summarization experiments' postscript ("AST") variant: the OPRO and
 * CriSPO meta-prompts that ask for a postscript to a fixed main instruction,
 * their shared parse into a postscript prompt, and the critique prompt that
 * judges a postscript by the faithfulness of its summaries.
 */
module SummarizationAst {
  import opened Wrappers
  import opened Text
  import opened Formatting
  import opened Render
  import opened Task
  import opened PromptUtil
  import Optimizer
  import OptimizerAst
  import SummarizationTask

  // ---------------------------------------------------------------------
  // experiments/summarization/ast/opro_meta_prompt.py

  const SuffixOproDefaultPrompt := "Your task is to append postscript instruction to the main instruction for a summarization task."

  /** One few-shot example: the document and its summary, with the postscript slot marked `?`. */
  function SuffixExample(e: Example): string
  {
    "\n<example>\n<instruction>?</instruction>\n<document>\n" + e.x + "\n</document>\n"
    + "<summary>\n" + e.y + "\n</summary>\n</example>\n"
  }

  /**
   * `SuffixMetaPrompt`'s meta-prompt: the instruction, the main instruction,
   * the examples section only when there are examples, the rated postscripts
   * in order, and the closing request (the last two as in `OproASTMetaPrompt`).
   */
  function SuffixOproText(prompt: string, mainPrompt: string, pairs: seq<(string, Rating)>, fewShot: seq<Example>): string
  {
    prompt + "\n" + OptimizerAst.MainInstruction(mainPrompt)
    + (if fewShot != [] then OptimizerAst.AstExamplesHeader + ConcatMap(fewShot, SuffixExample) else "")
    + Optimizer.OproScoresHeader + ConcatMap(pairs, OptimizerAst.AstRating) + OptimizerAst.AstOproClosing
  }

  /** `SuffixMetaPrompt.fill`. */
  method SuffixOproFill(prompt: string, mainPrompt: string, pairs: seq<(string, Rating)>, fewShot: seq<Example>)
    returns (r: string)
    ensures r == SuffixOproText(prompt, mainPrompt, pairs, fewShot)
  {
    var metaPrompt := Optimizer.Snoc([], prompt);
    assert Concat(metaPrompt) == prompt by {
      assert metaPrompt[..0] == [];
    }
    metaPrompt := Optimizer.Snoc(Optimizer.Snoc(metaPrompt, "\n"), OptimizerAst.MainInstruction(mainPrompt));
    ghost var head := Concat(metaPrompt);
    ghost var examples := if fewShot != [] then OptimizerAst.AstExamplesHeader + ConcatMap(fewShot, SuffixExample) else "";
    if fewShot != [] {
      metaPrompt := Optimizer.Snoc(metaPrompt, OptimizerAst.AstExamplesHeader);
      metaPrompt := AppendEach(metaPrompt, fewShot, SuffixExample);
      AppendAssoc(head, OptimizerAst.AstExamplesHeader, ConcatMap(fewShot, SuffixExample));
    } else {
      assert head + examples == head;
    }
    assert Concat(metaPrompt) == head + examples;
    metaPrompt := Optimizer.Snoc(metaPrompt, Optimizer.OproScoresHeader);
    metaPrompt := AppendEach(metaPrompt, pairs, OptimizerAst.AstRating);
    metaPrompt := Optimizer.Snoc(metaPrompt, OptimizerAst.AstOproClosing);
    r := Concat(metaPrompt);
  }

  /**
   * The meta-prompt starts with the instruction and the main instruction in
   * its tag, shows every example and every rated postscript, and ends with
   * the closing request.
   */
  lemma SuffixOproTextShows(prompt: string, mainPrompt: string, pairs: seq<(string, Rating)>, fewShot: seq<Example>)
    ensures var t := SuffixOproText(prompt, mainPrompt, pairs, fewShot);
      prompt + "\n" + OptimizerAst.MainInstruction(mainPrompt) <= t
      && EndsWith(t, OptimizerAst.AstOproClosing)
      && (forall k :: 0 <= k < |fewShot| ==> Contains(t, SuffixExample(fewShot[k])))
      && (forall k :: 0 <= k < |pairs| ==> Contains(t, OptimizerAst.AstRating(pairs[k])))
  {
    var t := SuffixOproText(prompt, mainPrompt, pairs, fewShot);
    var head := prompt + "\n" + OptimizerAst.MainInstruction(mainPrompt);
    var examples := if fewShot != [] then OptimizerAst.AstExamplesHeader + ConcatMap(fewShot, SuffixExample) else "";
    var rated := ConcatMap(pairs, OptimizerAst.AstRating);
    FiveParts(head, examples, Optimizer.OproScoresHeader, rated, OptimizerAst.AstOproClosing);
    forall k | 0 <= k < |fewShot|
      ensures Contains(examples, SuffixExample(fewShot[k]))
    {
      ConcatMapContains(fewShot, SuffixExample, k);
      ContainsRight(OptimizerAst.AstExamplesHeader, ConcatMap(fewShot, SuffixExample), SuffixExample(fewShot[k]));
    }
    forall k | 0 <= k < |pairs|
      ensures Contains(rated, OptimizerAst.AstRating(pairs[k]))
    {
      ConcatMapContains(pairs, OptimizerAst.AstRating, k);
    }
  }

  /** Five pieces in a row: the text starts with the first, ends with the last and shows the second and fourth whole. */
  lemma FiveParts(head: string, a: string, b: string, c: string, tail: string)
    ensures var t := head + a + b + c + tail;
      head <= t && EndsWith(t, tail)
      && (forall x :: Contains(a, x) ==> Contains(t, x))
      && (forall x :: Contains(c, x) ==> Contains(t, x))
  {
    var t := head + a + b + c + tail;
    EndsWithAppend(head + a + b + c, tail);
    assert t[..|head|] == head;
    forall x | Contains(a, x)
      ensures Contains(t, x)
    {
      ContainsRight(head, a, x);
      ContainsLeft(head + a, b, x);
      ContainsLeft(head + a + b, c, x);
      ContainsLeft(head + a + b + c, tail, x);
    }
    forall x | Contains(c, x)
      ensures Contains(t, x)
    {
      ContainsInfix(head + a + b, c, tail, x);
    }
  }

  /**
   * `parse` of both postscript meta-prompts (`SuffixMetaPrompt` and
   * `SuffixCritiqueMetaPrompt`): the non-empty content of the last
   * `<postscript>` tag, as a postscript prompt over the meta-prompt's main
   * instruction.
   */
  function SuffixParse(mainPrompt: string, generation: string): (r: Option<SummarizationTask.SuffixPrompt>)
  {
    match NonEmptyTag(generation, "postscript")
    case None => None
    case Some(v) => Some(SummarizationTask.SuffixPrompt(v, mainPrompt))
  }

  /**
   * A postscript is parsed exactly when the tag has content; the parsed
   * prompt keeps the meta-prompt's main instruction, and its filled text
   * ends with the new postscript and shows the article when the main
   * instruction has the placeholder.
   */
  lemma SuffixParseMeaning(mainPrompt: string, generation: string, x: string)
    ensures var r := SuffixParse(mainPrompt, generation);
      (r.Some? <==> NonEmptyTag(generation, "postscript").Some?)
      && (r.Some? ==>
            r.value.mainPrompt == mainPrompt
            && r.value.prompt == NonEmptyTag(generation, "postscript").value
            && r.value.prompt != []
            && EndsWith(r.value.Fill(x), "\n\n" + r.value.prompt)
            && (Contains(mainPrompt, SummarizationTask.ArticlePlaceholder) ==> Contains(r.value.Fill(x), x)))
  {
    NonEmptyTagMeaning(generation, "postscript");
    var r := SuffixParse(mainPrompt, generation);
    if r.Some? {
      SummarizationTask.SuffixFillMeaning(r.value, x, x);
    }
  }

  /** A postscript wrapped in its tag (and not followed by another) is what the parse returns, stripped. */
  lemma SuffixParseWrapped(mainPrompt: string, pre: string, content: string, post: string)
    requires Strip(content) != []
    requires !Contains(content + CloseTag("postscript") + post, OpenTag("postscript"))
    requires !Contains(post, CloseTag("postscript"))
    ensures SuffixParse(mainPrompt, pre + OpenTag("postscript") + content + CloseTag("postscript") + post)
            == Some(SummarizationTask.SuffixPrompt(Strip(content), mainPrompt))
  {
    NonEmptyTagWrapped(pre, "postscript", content, post);
  }

  // ---------------------------------------------------------------------
  // experiments/summarization/ast/critique/crispo_meta_prompt.py

  /** `SuffixCritiqueMetaPrompt.prompt`, with the `{main_prompt}`, `{examples}` and `{postscripts}` fields. */
  const SuffixCrispoTemplate: seq<Segment> := [
    Lit("Your task is to append postscript instruction to the main instruction for a summarization task, where a writer is given an input text to write its summary following your instruction.\n\n"
        + "The main instruction is:\n\n<instruction>"),
    Slot("main_prompt"),
    Lit("</instruction>\n\nBelow are some examples:\n"),
    Slot("examples"),
    Lit("\n\nBelow are some previous postscripts with their scores and critiques.\n"),
    Slot("postscripts"),
    Lit("\n\nGenerate a short postscript that is different from all the postscripts above, and has a higher score than all the postscripts above.\n"
        + "It should be concise, effective, and generally applicable to all examples above.\n\n"
        + "Draft your new postscript step by step:\n\n"
        + "1. Compare high-score postscripts to low-score ones, identify what suggestions could have improved them. List them in <suggestion> tags.\n"
        + "2. Apply the suggestions and draft a new postscript aiming for a higher score.\n"
        + "3. Be creative and vary the wording, paraphrase, phrase order, grammar, sentence order, etc.\n"
        + "4. Write your final new short postscript in <postscript> tags.")
  ]

  lemma SuffixCrispoSlots()
    ensures Slots(SuffixCrispoTemplate) == ["main_prompt", "examples", "postscripts"]
  {
    var t := SuffixCrispoTemplate;
    assert t[..1][..0] == [];
    assert Slots(t[..1]) == [];
    assert t[..2][..1] == t[..1];
    assert Slots(t[..2]) == ["main_prompt"];
    assert t[..3][..2] == t[..2];
    assert Slots(t[..3]) == ["main_prompt"];
    assert t[..4][..3] == t[..3];
    assert Slots(t[..4]) == ["main_prompt", "examples"];
    assert t[..5][..4] == t[..4];
    assert Slots(t[..5]) == ["main_prompt", "examples"];
    assert t[..6][..5] == t[..5];
    assert Slots(t[..6]) == ["main_prompt", "examples", "postscripts"];
    assert t[..7][..6] == t[..6];
    assert t[..7] == t;
  }

  /**
   * The summarization CriSPO postscript meta-prompt (the inherited `fill`,
   * examples rendered by `to_xml`) always renders and shows the main
   * instruction, every example and every rated postscript with its critique.
   */
  lemma SuffixCrispoTextContents(mainPrompt: string, pairs: seq<(string, Rating)>, fewShot: seq<Example>,
                                 critiques: seq<Option<string>>)
    ensures var r := OptimizerAst.AstCrispoText(SuffixCrispoTemplate, mainPrompt, pairs, fewShot, critiques, SummarizationTask.SummaryXml);
      r.Some?
      && Contains(r.value, mainPrompt)
      && (forall k :: 0 <= k < |fewShot| ==> Contains(r.value, SummarizationTask.SummaryXml(fewShot[k])))
      && (forall k :: 0 <= k < |pairs| && k < |critiques| ==>
            Contains(r.value, OptimizerAst.RatedPostscript((pairs[k], critiques[k]))))
  {
    SuffixCrispoSlots();
    OptimizerAst.AstCrispoTextContents(SuffixCrispoTemplate, mainPrompt, pairs, fewShot, critiques, SummarizationTask.SummaryXml);
  }

  // ---------------------------------------------------------------------
  // experiments/summarization/ast/critique/critique_prompt.py

  const SuffixCritiqueIntro := "In a summarization task, a writer is given an input text to write a summary following an instruction and a postscript.\n\n"

  const SuffixCritiqueTail :=
    "\n</examples>\n\n"
    + "Write a general and helpful critique in <critique> XML tags to improve the postscript such that the predicted summaries are as close to references as possible.\n\n"
    + "1. Compare predicted summaries and the input text regarding their faithfulness.\n"
    + "2. Identify specific phrases in the postscript that could have gotten these predicted summaries unfaithful.\n"
    + "3. Suggest specific action items that are general to all examples and helpful to improve the postscript."

  /** One `_E` block: the article and the predicted summary, never the reference. */
  function SuffixCritiqueBlock(item: (string, Example)): string
  {
    "<example>\n<input>\n" + item.1.x + "\n</input>\n<predicted_summary>\n" + item.0 + "\n</predicted_summary>\n</example>"
  }

  /** `SuffixCritiquePrompt(main_prompt).fill(prompt, predictions, few_shot_examples)`. */
  function SuffixCritiqueFill(mainPrompt: string, prompt: string, predictions: seq<string>, examples: seq<Example>): string
  {
    SuffixCritiqueIntro + Tagged("instruction", mainPrompt) + "\n" + Tagged("postscript", prompt) + "\n<examples>\n"
    + Join(Map(Zip(predictions, examples), SuffixCritiqueBlock), "\n") + SuffixCritiqueTail
  }

  /**
   * The critique prompt shows the main instruction and the postscript in
   * their tags and every zipped block.
   */
  lemma SuffixCritiqueFillShows(mainPrompt: string, prompt: string, predictions: seq<string>, examples: seq<Example>, k: nat)
    requires k < |predictions| && k < |examples|
    ensures var r := SuffixCritiqueFill(mainPrompt, prompt, predictions, examples);
      Contains(r, Tagged("instruction", mainPrompt))
      && Contains(r, Tagged("postscript", prompt))
      && Contains(r, SuffixCritiqueBlock((predictions[k], examples[k])))
  {
    var ex := Join(Map(Zip(predictions, examples), SuffixCritiqueBlock), "\n");
    var inst := Tagged("instruction", mainPrompt);
    var post := Tagged("postscript", prompt);
    var block := SuffixCritiqueBlock((predictions[k], examples[k]));
    assert Zip(predictions, examples)[k] == (predictions[k], examples[k]);
    JoinContains(Map(Zip(predictions, examples), SuffixCritiqueBlock), "\n", k);
    ContainsSelf(inst);
    ContainsSelf(post);
    ContainsRight(SuffixCritiqueIntro, inst, inst);
    ContainsLeft(SuffixCritiqueIntro + inst, "\n", inst);
    ContainsLeft(SuffixCritiqueIntro + inst + "\n", post, inst);
    ContainsRight(SuffixCritiqueIntro + inst + "\n", post, post);
    ContainsLeft(SuffixCritiqueIntro + inst + "\n" + post, "\n<examples>\n", inst);
    ContainsLeft(SuffixCritiqueIntro + inst + "\n" + post, "\n<examples>\n", post);
    var pre := SuffixCritiqueIntro + inst + "\n" + post + "\n<examples>\n";
    ContainsLeft(pre, ex, inst);
    ContainsLeft(pre, ex, post);
    ContainsRight(pre, ex, block);
    ContainsLeft(pre + ex, SuffixCritiqueTail, inst);
    ContainsLeft(pre + ex, SuffixCritiqueTail, post);
    ContainsLeft(pre + ex, SuffixCritiqueTail, block);
  }

  /**
   * The critic never sees reference summaries: examples that differ only in
   * their references give the same critique prompt.
   */
  lemma SuffixCritiqueIgnoresReferences(mainPrompt: string, prompt: string, predictions: seq<string>,
                                        examples: seq<Example>, examples': seq<Example>)
    requires |examples| == |examples'|
    requires forall i :: 0 <= i < |examples| ==> examples[i].x == examples'[i].x
    ensures SuffixCritiqueFill(mainPrompt, prompt, predictions, examples) == SuffixCritiqueFill(mainPrompt, prompt, predictions, examples')
  {
    var a := Map(Zip(predictions, examples), SuffixCritiqueBlock);
    var b := Map(Zip(predictions, examples'), SuffixCritiqueBlock);
    assert |a| == |b|;
    forall i | 0 <= i < |a|
      ensures a[i] == b[i]
    {
      assert Zip(predictions, examples)[i] == (predictions[i], examples[i]);
      assert Zip(predictions, examples')[i] == (predictions[i], examples'[i]);
    }
    assert a == b;
  }
}
