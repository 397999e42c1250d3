/**
 * crispo/optimizer/ast: the meta-prompts of the postscript ("AST") variant,
 * which keeps a main instruction fixed and optimises only a postscript
 * appended to it. The OPRO form rates earlier postscripts; the CriSPO form
 * adds a critique to each and fills a template that also names the main
 * instruction.
 */
module OptimizerAst {
  import opened Wrappers
  import opened Text
  import opened Formatting
  import opened Render
  import opened Task
  import Optimizer

  // ---------------------------------------------------------------------
  // crispo/optimizer/ast/opro_meta_prompt.py

  const AstOproDefaultPrompt := "Your task is to append postscript instruction to the main instruction for a summarization task."

  const AstExamplesHeader := "Below are some examples:\n"

  const AstOproClosing :=
    "\n\nGenerate a short postscript instruction that"
    + " is different from all the postscript instructions <postscript> above,"
    + " and has a higher score than all the postscript instructions <postscript> above."
    + " The postscript instruction should begin with <postscript> and end with </postscript>."
    + " The postscript instruction should be concise, effective,"
    + " and generally applicable to all examples above."

  /** The fixed main instruction, in `<instruction>` tags. */
  function MainInstruction(mainPrompt: string): string
  {
    "The main instruction is:\n\n<instruction>" + mainPrompt + "</instruction>\n\n"
  }

  /** One few-shot example: the input and the output, with the postscript slot marked `?`. */
  function AstExample(e: Example): string
  {
    "\n<example>\n<instruction>?</instruction>\n<input>\n" + e.x + "\n</input>\n"
    + "<output>\n" + e.y + "\n</output>\n</example>\n"
  }

  /** One rated postscript; a float score is shown as `round(score * 100)`, an int or string as it is. */
  function AstRating(pair: (string, Rating)): string
  {
    "\n<rating>\n<postscript>" + pair.0 + "</postscript>\n"
    + "<score>" + RoundOrVerbatim(pair.1) + "</score>" + "\n</rating>\n"
  }

  /**
   * The OPRO postscript meta-prompt: the instruction, the main instruction,
   * the examples section only when there are examples, the rated postscripts
   * in order, and the closing request.
   */
  function AstOproText(prompt: string, mainPrompt: string, pairs: seq<(string, Rating)>, fewShot: seq<Example>): string
  {
    prompt + "\n" + MainInstruction(mainPrompt)
    + (if fewShot != [] then AstExamplesHeader + ConcatMap(fewShot, AstExample) else "")
    + Optimizer.OproScoresHeader + ConcatMap(pairs, AstRating) + AstOproClosing
  }

  /** `OproASTMetaPrompt.fill`. */
  method AstOproFill(prompt: string, mainPrompt: string, pairs: seq<(string, Rating)>, fewShot: seq<Example>)
    returns (r: string)
    ensures r == AstOproText(prompt, mainPrompt, pairs, fewShot)
  {
    var metaPrompt := Optimizer.Snoc([], prompt);
    assert Concat(metaPrompt) == prompt by {
      assert metaPrompt[..0] == [];
    }
    metaPrompt := Optimizer.Snoc(Optimizer.Snoc(metaPrompt, "\n"), MainInstruction(mainPrompt));
    ghost var head := Concat(metaPrompt);
    assert head == prompt + "\n" + MainInstruction(mainPrompt);
    ghost var examples := if fewShot != [] then AstExamplesHeader + ConcatMap(fewShot, AstExample) else "";
    if fewShot != [] {
      metaPrompt := Optimizer.Snoc(metaPrompt, AstExamplesHeader);
      metaPrompt := AppendEach(metaPrompt, fewShot, AstExample);
      AppendAssoc(head, AstExamplesHeader, ConcatMap(fewShot, AstExample));
    } else {
      assert head + examples == head;
    }
    assert Concat(metaPrompt) == head + examples;
    metaPrompt := Optimizer.Snoc(metaPrompt, Optimizer.OproScoresHeader);
    metaPrompt := AppendEach(metaPrompt, pairs, AstRating);
    metaPrompt := Optimizer.Snoc(metaPrompt, AstOproClosing);
    r := Concat(metaPrompt);
  }

  /** The postscript meta-prompt starts with the instruction and the main instruction and ends with the closing request. */
  lemma AstOproTextEnds(prompt: string, mainPrompt: string, pairs: seq<(string, Rating)>, fewShot: seq<Example>)
    ensures var t := AstOproText(prompt, mainPrompt, pairs, fewShot);
      prompt + "\n" + MainInstruction(mainPrompt) <= t && EndsWith(t, AstOproClosing)
  {
    var t := AstOproText(prompt, mainPrompt, pairs, fewShot);
    var head := prompt + "\n" + MainInstruction(mainPrompt);
    var examples := if fewShot != [] then AstExamplesHeader + ConcatMap(fewShot, AstExample) else "";
    var body := head + examples + Optimizer.OproScoresHeader + ConcatMap(pairs, AstRating);
    assert t == body + AstOproClosing;
    assert t[|t| - |AstOproClosing|..] == AstOproClosing;
    AppendAssoc(head, examples, Optimizer.OproScoresHeader);
    AppendAssoc(head, examples + Optimizer.OproScoresHeader, ConcatMap(pairs, AstRating));
    AppendAssoc(head, examples + Optimizer.OproScoresHeader + ConcatMap(pairs, AstRating), AstOproClosing);
  }

  /** Every rated postscript appears with its score. */
  lemma AstOproTextShowsRatings(prompt: string, mainPrompt: string, pairs: seq<(string, Rating)>, fewShot: seq<Example>, k: nat)
    requires k < |pairs|
    ensures Contains(AstOproText(prompt, mainPrompt, pairs, fewShot), AstRating(pairs[k]))
  {
    var head := prompt + "\n" + MainInstruction(mainPrompt);
    var examples := if fewShot != [] then AstExamplesHeader + ConcatMap(fewShot, AstExample) else "";
    ConcatMapContains(pairs, AstRating, k);
    ContainsInfix(head + examples + Optimizer.OproScoresHeader, ConcatMap(pairs, AstRating), AstOproClosing, AstRating(pairs[k]));
  }

  /** Every few-shot example appears. */
  lemma AstOproTextShowsExamples(prompt: string, mainPrompt: string, pairs: seq<(string, Rating)>, fewShot: seq<Example>, k: nat)
    requires k < |fewShot|
    ensures Contains(AstOproText(prompt, mainPrompt, pairs, fewShot), AstExample(fewShot[k]))
  {
    var head := prompt + "\n" + MainInstruction(mainPrompt);
    var examples := AstExamplesHeader + ConcatMap(fewShot, AstExample);
    var tail := Optimizer.OproScoresHeader + ConcatMap(pairs, AstRating) + AstOproClosing;
    ConcatMapContains(fewShot, AstExample, k);
    ContainsRight(AstExamplesHeader, ConcatMap(fewShot, AstExample), AstExample(fewShot[k]));
    ContainsInfix(head, examples, tail, AstExample(fewShot[k]));
    AppendAssoc(head + examples, Optimizer.OproScoresHeader, ConcatMap(pairs, AstRating));
    AppendAssoc(head + examples, Optimizer.OproScoresHeader + ConcatMap(pairs, AstRating), AstOproClosing);
  }

  /** A rated postscript shows a float score as a whole number and any other score exactly as given. */
  lemma AstRatingScore(p: string, score: Rating)
    ensures Contains(AstRating((p, score)), "<score>" + RoundOrVerbatim(score) + "</score>")
    ensures score.FloatScore? ==> IsIntegerText(RoundOrVerbatim(score))
    ensures !score.FloatScore? ==> RoundOrVerbatim(score) == (if score.IntScore? then IntToString(score.n) else score.s)
  {
    var a := "\n<rating>\n<postscript>" + p + "</postscript>\n";
    var open, r, close := "<score>", RoundOrVerbatim(score), "</score>";
    AppendAssoc(a, open, r);
    AppendAssoc(a, open + r, close);
    ContainsSelf(open + r + close);
    ContainsInfix(a, open + r + close, "\n</rating>\n", open + r + close);
  }

  // ---------------------------------------------------------------------
  // crispo/optimizer/ast/crispo_meta_prompt.py

  /** The default template, with the `{main_prompt}`, `{examples}` and `{postscripts}` fields. */
  const AstCrispoDefaultTemplate: seq<Segment> := [
    Lit("Your task is to append postscript instruction to the main instruction for a task.\n\n"
        + "The main instruction is:\n\n<instruction>"),
    Slot("main_prompt"),
    Lit("</instruction>\n\nBelow are some examples:\n"),
    Slot("examples"),
    Lit("\n\nBelow are some previous postscripts with their scores and critiques.\n"),
    Slot("postscripts"),
    Lit("\n\nGenerate a short postscript that is different from all the postscripts above, and has a higher score than all the postscripts above.\n"
        + "It should be concise, effective, and generally applicable to all examples above.\n\n"
        + "Draft your new postscript step by step:\n\n"
        + "1. Compare high-score postscripts to low-score ones, identify what suggestions could have improved them. List them in <suggestion> tags.\n"
        + "2. Apply the suggestions and draft a new postscript aiming for a higher score.\n"
        + "3. Be creative and vary the wording, paraphrase, phrase order, grammar, sentence order, etc.\n"
        + "4. Write your final new short postscript in <postscript> tags.")
  ]

  /** One rated postscript with its score (verbatim or as a percentage) and its critique. */
  function RatedPostscript(item: ((string, Rating), Option<string>)): string
  {
    "<rated_postscript>\n<postscript>" + item.0.0 + "</postscript>\n<score>" + PercentUnlessStr(item.0.1)
    + "</score>\n<critique>\n" + Optimizer.CritiqueText(item.1) + "\n</critique>\n</rated_postscript>"
  }

  function AstCrispoArgs(mainPrompt: string, examples: string, postscripts: string): seq<(string, string)>
  {
    [("main_prompt", mainPrompt), ("examples", examples), ("postscripts", postscripts)]
  }

  /**
   * The CriSPO postscript meta-prompt: the template formatted with the main
   * instruction, the formatted examples and the rated postscripts zipped
   * with their critiques, each group joined by newlines.
   */
  function AstCrispoText<E>(template: seq<Segment>, mainPrompt: string, pairs: seq<(string, Rating)>, fewShot: seq<E>,
                            critiques: seq<Option<string>>, formatExample: E -> string): Option<string>
  {
    Format(template, AstCrispoArgs(mainPrompt,
      Join(Map(fewShot, formatExample), "\n"),
      Join(Map(Zip(pairs, critiques), RatedPostscript), "\n")))
  }

  /** `CriSPOASTMetaPrompt.fill`. */
  method AstCrispoFill<E>(template: seq<Segment>, mainPrompt: string, pairs: seq<(string, Rating)>, fewShot: seq<E>,
                          critiques: seq<Option<string>>, formatExample: E -> string) returns (r: Option<string>)
    ensures r == AstCrispoText(template, mainPrompt, pairs, fewShot, critiques, formatExample)
  {
    var examples := MapEach(fewShot, formatExample);
    var instructions := MapEach(Zip(pairs, critiques), RatedPostscript);
    r := Format(template, AstCrispoArgs(mainPrompt, Join(examples, "\n"), Join(instructions, "\n")));
  }

  lemma AstCrispoDefaultSlots()
    ensures Slots(AstCrispoDefaultTemplate) == ["main_prompt", "examples", "postscripts"]
  {
    var t := AstCrispoDefaultTemplate;
    assert t[..1][..0] == [];
    assert Slots(t[..1]) == [];
    assert t[..2][..1] == t[..1];
    assert Slots(t[..2]) == ["main_prompt"];
    assert t[..3][..2] == t[..2];
    assert Slots(t[..3]) == ["main_prompt"];
    assert t[..4][..3] == t[..3];
    assert Slots(t[..4]) == ["main_prompt", "examples"];
    assert t[..5][..4] == t[..4];
    assert Slots(t[..5]) == ["main_prompt", "examples"];
    assert t[..6][..5] == t[..5];
    assert Slots(t[..6]) == ["main_prompt", "examples", "postscripts"];
    assert t[..7][..6] == t[..6];
    assert t[..7] == t;
  }

  /**
   * With a template that has the three fields (the default one has,
   * `AstCrispoDefaultSlots`) the meta-prompt always renders, and it shows
   * the main instruction, the joined examples and the joined postscripts.
   */
  lemma AstCrispoTextArgs(template: seq<Segment>, mainPrompt: string, examples: string, postscripts: string)
    requires Slots(template) == ["main_prompt", "examples", "postscripts"]
    ensures var r := Format(template, AstCrispoArgs(mainPrompt, examples, postscripts));
      r.Some? && Contains(r.value, mainPrompt) && Contains(r.value, examples) && Contains(r.value, postscripts)
  {
    var args := AstCrispoArgs(mainPrompt, examples, postscripts);
    assert Assoc.Get(args, "main_prompt") == Some(mainPrompt);
    assert Assoc.Get(args, "examples") == Some(examples);
    assert "main_prompt"[0] != "postscripts"[0];
    assert args[1..][1..] == [("postscripts", postscripts)];
    assert Assoc.Get(args[1..][1..], "postscripts") == Some(postscripts);
    assert Assoc.Get(args[1..], "postscripts") == Some(postscripts);
    assert Assoc.Get(args, "postscripts") == Some(postscripts);
    FormatDefinedIff(template, args);
    FormatContainsArg(template, args, "main_prompt");
    FormatContainsArg(template, args, "examples");
    FormatContainsArg(template, args, "postscripts");
  }

  /**
   * So the CriSPO postscript meta-prompt renders, shows the main
   * instruction, every formatted example and every rated postscript with its
   * critique.
   */
  lemma AstCrispoTextContents<E>(template: seq<Segment>, mainPrompt: string, pairs: seq<(string, Rating)>, fewShot: seq<E>,
                                 critiques: seq<Option<string>>, formatExample: E -> string)
    requires Slots(template) == ["main_prompt", "examples", "postscripts"]
    ensures var r := AstCrispoText(template, mainPrompt, pairs, fewShot, critiques, formatExample);
      r.Some?
      && Contains(r.value, mainPrompt)
      && (forall k :: 0 <= k < |fewShot| ==> Contains(r.value, formatExample(fewShot[k])))
      && (forall k :: 0 <= k < |pairs| && k < |critiques| ==>
            Contains(r.value, RatedPostscript((pairs[k], critiques[k]))))
  {
    var examples := Join(Map(fewShot, formatExample), "\n");
    var postscripts := Join(Map(Zip(pairs, critiques), RatedPostscript), "\n");
    AstCrispoTextArgs(template, mainPrompt, examples, postscripts);
    var r := Format(template, AstCrispoArgs(mainPrompt, examples, postscripts)).value;
    forall k | 0 <= k < |fewShot|
      ensures Contains(r, formatExample(fewShot[k]))
    {
      JoinContains(Map(fewShot, formatExample), "\n", k);
      ContainsTrans(r, examples, formatExample(fewShot[k]));
    }
    forall k | 0 <= k < |pairs| && k < |critiques|
      ensures Contains(r, RatedPostscript((pairs[k], critiques[k])))
    {
      JoinContains(Map(Zip(pairs, critiques), RatedPostscript), "\n", k);
      ContainsTrans(r, postscripts, RatedPostscript((pairs[k], critiques[k])));
    }
  }
}
