/**
 * crispo/optimizer: the two meta-prompts that ask the optimizer LLM for a new
 * instruction. OPRO lists earlier instructions with their scores (and a few
 * problems); CriSPO adds a critique to each rated instruction and fills a
 * template. A rated instruction is given as its prompt text and its score.
 */
module Optimizer {
  import opened Wrappers
  import opened Text
  import opened Formatting
  import opened Render
  import opened Task

  // ---------------------------------------------------------------------
  // crispo/optimizer/opro_meta_prompt.py

  const OproDefaultPrompt := "Your task is to generate the instruction <INS>."

  const OproScoresHeader := "Below are some previous instructions with their scores. The score ranges from 0 to 100.\n"

  const OproProblemsHeader := "Below are some problems.\n"

  const OproClosing :=
    "\n\nGenerate an instruction that is different from all the instructions <INS> above,"
    + " and has a higher score than all the instructions <INS> above."
    + " The instruction should begin with <INS> and end with </INS>."
    + " The instruction should be concise, effective,"
    + " and generally applicable to all problems above."

  /**
   * `round(score * 100)`: a float score is scaled and rounded half to even,
   * an int is scaled; a string score raises `TypeError` (None).
   */
  function ScaledRound(r: Rating): (t: Option<string>)
    ensures t.None? <==> r.StrScore?
    ensures t.Some? ==> IsIntegerText(t.value)
  {
    match r
    case FloatScore(x) => Some(IntToString(RoundHalfEven(x * 100.0)))
    case IntScore(n) => Some(IntToString(n * 100))
    case StrScore(_) => None
  }

  /** A score in [0, 1] is shown as a whole number in [0, 100], as the header promises. */
  lemma ScaledRoundRange(x: real)
    requires 0.0 <= x <= 1.0
    ensures 0 <= RoundHalfEven(x * 100.0) <= 100
  {
  }

  /** One rated instruction of the OPRO meta-prompt, with its score already shown as text. */
  function OproRated(prompt: string, shown: string): string
  {
    "\ntext:\n" + prompt + "\nscore:\n" + shown + "\n"
  }

  /** The rated instructions in order; None as soon as one score cannot be rounded. */
  function OproRatedBlocks(pairs: seq<(string, Rating)>): Option<string>
  {
    if pairs == [] then Some("")
    else
      match OproRatedBlocks(pairs[..|pairs| - 1])
      case None => None
      case Some(front) =>
        match ScaledRound(pairs[|pairs| - 1].1)
        case None => None
        case Some(shown) => Some(front + OproRated(pairs[|pairs| - 1].0, shown))
  }

  /** One few-shot problem: the input after the `<INS>` slot, then its answer. */
  function OproProblem(e: Example): string
  {
    "\nProblem:\n<INS>\n" + e.x + "\n" + "\nGround truth answer:\n" + e.y + "\n"
  }

  /**
   * The OPRO meta-prompt: the instruction, the rated instructions in the
   * given order, the problems section only when there are problems, and the
   * closing request. None when a score is a string.
   */
  function OproText(prompt: string, pairs: seq<(string, Rating)>, fewShot: seq<Example>): Option<string>
  {
    match OproRatedBlocks(pairs)
    case None => None
    case Some(blocks) =>
      Some(prompt + "\n" + OproScoresHeader + blocks
           + (if fewShot != [] then OproProblemsHeader + ConcatMap(fewShot, OproProblem) else "")
           + OproClosing)
  }

  /** `OproMetaPrompt.fill`: the meta-prompt is built as a list of parts and joined. */
  method OproFill(prompt: string, pairs: seq<(string, Rating)>, fewShot: seq<Example>) returns (r: Option<string>)
    ensures r == OproText(prompt, pairs, fewShot)
  {
    var metaPrompt := Snoc(Snoc([], prompt), "\n");
    metaPrompt := Snoc(metaPrompt, OproScoresHeader);
    var head := Concat(metaPrompt);
    assert head == prompt + "\n" + OproScoresHeader;
    var rated := AppendOproRated(metaPrompt, pairs);
    if rated.None? {
      return None;
    }
    metaPrompt := rated.value;
    var scored := Concat(metaPrompt);
    var problems := if fewShot != [] then OproProblemsHeader + ConcatMap(fewShot, OproProblem) else "";
    if fewShot != [] {
      metaPrompt := Snoc(metaPrompt, OproProblemsHeader);
      metaPrompt := AppendOproProblems(metaPrompt, fewShot);
    }
    assert Concat(metaPrompt) == scored + problems;
    metaPrompt := Snoc(metaPrompt, OproClosing);
    r := Some(Concat(metaPrompt));
  }

  /** The loop over the rated instructions; a string score stops it with `TypeError` (None). */
  method AppendOproRated(parts: seq<string>, pairs: seq<(string, Rating)>) returns (r: Option<seq<string>>)
    ensures r.None? <==> OproRatedBlocks(pairs).None?
    ensures r.Some? ==> Concat(r.value) == Concat(parts) + OproRatedBlocks(pairs).value
  {
    var metaPrompt := parts;
    var i := 0;
    while i < |pairs|
      invariant i <= |pairs|
      invariant OproRatedBlocks(pairs[..i]).Some?
      invariant Concat(metaPrompt) == Concat(parts) + OproRatedBlocks(pairs[..i]).value
    {
      var p, score := pairs[i].0, pairs[i].1;
      OproRatedBlocksStep(pairs, i);
      if score.StrScore? {
        OproRatedBlocksPrefix(pairs, i + 1);
        return None;
      }
      var shown := ScaledRound(score).value;
      ghost var done := OproRatedBlocks(pairs[..i]).value;
      metaPrompt := Snoc(metaPrompt, OproRated(p, shown));
      Render.AppendAssoc(Concat(parts), done, OproRated(p, shown));
      i := i + 1;
    }
    assert pairs[..i] == pairs;
    r := Some(metaPrompt);
  }

  /** One more pair extends the rated blocks by its own block, or fails on a string score. */
  lemma OproRatedBlocksStep(pairs: seq<(string, Rating)>, i: nat)
    requires i < |pairs| && OproRatedBlocks(pairs[..i]).Some?
    ensures pairs[i].1.StrScore? ==> OproRatedBlocks(pairs[..i + 1]).None?
    ensures !pairs[i].1.StrScore? ==>
      OproRatedBlocks(pairs[..i + 1]) == Some(OproRatedBlocks(pairs[..i]).value + OproRated(pairs[i].0, ScaledRound(pairs[i].1).value))
  {
    assert pairs[..i + 1][..i] == pairs[..i];
  }

  /** Once a prefix fails, the whole list fails. */
  lemma {:induction false} OproRatedBlocksPrefix(pairs: seq<(string, Rating)>, n: nat)
    requires n <= |pairs| && OproRatedBlocks(pairs[..n]).None?
    ensures OproRatedBlocks(pairs).None?
    decreases |pairs| - n
  {
    if n < |pairs| {
      assert pairs[..n + 1][..n] == pairs[..n];
      OproRatedBlocksPrefix(pairs, n + 1);
    } else {
      assert pairs[..n] == pairs;
    }
  }

  /** The loop over the few-shot problems. */
  method AppendOproProblems(parts: seq<string>, fewShot: seq<Example>) returns (r: seq<string>)
    ensures Concat(r) == Concat(parts) + ConcatMap(fewShot, OproProblem)
  {
    r := parts;
    var k := 0;
    while k < |fewShot|
      invariant k <= |fewShot|
      invariant Concat(r) == Concat(parts) + ConcatMap(fewShot[..k], OproProblem)
    {
      var example := fewShot[k];
      ConcatMapSnoc(fewShot, k, OproProblem);
      var problem, answer := "\nProblem:\n<INS>\n" + example.x + "\n", "\nGround truth answer:\n" + example.y + "\n";
      OproProblemParts(example);
      AppendAssoc4(Concat(parts), ConcatMap(fewShot[..k], OproProblem), problem, answer);
      r := Snoc(r, problem);
      r := Snoc(r, answer);
      k := k + 1;
    }
    assert fewShot[..k] == fewShot;
  }

  /** A problem's text is the two parts the loop appends. */
  lemma OproProblemParts(e: Example)
    ensures OproProblem(e) == ("\nProblem:\n<INS>\n" + e.x + "\n") + ("\nGround truth answer:\n" + e.y + "\n")
  {
    var problem, heading := "\nProblem:\n<INS>\n" + e.x + "\n", "\nGround truth answer:\n";
    AppendAssoc(problem, heading, e.y);
    AppendAssoc(problem, heading + e.y, "\n");
  }

  /** Appending a part to the list, with what it does to the joined text. */
  function Snoc(parts: seq<string>, x: string): (r: seq<string>)
    ensures r == parts + [x] && Concat(r) == Concat(parts) + x
  {
    assert (parts + [x])[..|parts|] == parts;
    parts + [x]
  }

  /** A string score is the only thing that makes the OPRO meta-prompt fail. */
  lemma {:induction false} OproRatedBlocksDefinedIff(pairs: seq<(string, Rating)>)
    ensures OproRatedBlocks(pairs).Some? <==> forall j :: 0 <= j < |pairs| ==> !pairs[j].1.StrScore?
  {
    if pairs != [] {
      var front, last := pairs[..|pairs| - 1], pairs[|pairs| - 1];
      OproRatedBlocksDefinedIff(front);
      if OproRatedBlocks(pairs).Some? {
        forall j | 0 <= j < |pairs|
          ensures !pairs[j].1.StrScore?
        {
          if j < |front| {
            assert front[j] == pairs[j];
          }
        }
      } else if OproRatedBlocks(front).None? {
        var j :| 0 <= j < |front| && front[j].1.StrScore?;
        assert pairs[j] == front[j];
      } else {
        assert last.1.StrScore?;
      }
    }
  }

  /** Each rated instruction appears with its text and its rounded score. */
  lemma {:induction false} OproRatedBlocksShow(pairs: seq<(string, Rating)>, k: nat)
    requires OproRatedBlocks(pairs).Some? && k < |pairs|
    ensures ScaledRound(pairs[k].1).Some?
    ensures Contains(OproRatedBlocks(pairs).value, OproRated(pairs[k].0, ScaledRound(pairs[k].1).value))
  {
    var front := pairs[..|pairs| - 1];
    var t := OproRatedBlocks(pairs).value;
    var f := OproRatedBlocks(front).value;
    if k < |pairs| - 1 {
      assert front[k] == pairs[k];
      OproRatedBlocksShow(front, k);
      ContainsLeft(f, t[|f|..], OproRated(pairs[k].0, ScaledRound(pairs[k].1).value));
      assert t == f + t[|f|..];
    } else {
      var b := OproRated(pairs[k].0, ScaledRound(pairs[k].1).value);
      ContainsSelf(b);
      ContainsRight(f, b, b);
    }
  }

  /** The meta-prompt opens with the instruction and the score header and ends with the closing request. */
  lemma OproTextEnds(prompt: string, pairs: seq<(string, Rating)>, fewShot: seq<Example>)
    requires OproText(prompt, pairs, fewShot).Some?
    ensures var t := OproText(prompt, pairs, fewShot).value;
      prompt + "\n" + OproScoresHeader <= t && EndsWith(t, OproClosing)
  {
    var head := prompt + "\n" + OproScoresHeader;
    var blocks := OproRatedBlocks(pairs).value;
    var problems := if fewShot != [] then OproProblemsHeader + ConcatMap(fewShot, OproProblem) else "";
    OproTextParts(prompt, pairs, fewShot);
    EndsWithAppend(head + blocks + problems, OproClosing);
    PrefixAppend(head, blocks + problems + OproClosing);
    AppendAssoc(head + blocks, problems, OproClosing);
    AppendAssoc(head, blocks, problems + OproClosing);
    AppendAssoc(blocks, problems, OproClosing);
  }

  /** The meta-prompt's text, with the instruction and score header as one part. */
  lemma OproTextParts(prompt: string, pairs: seq<(string, Rating)>, fewShot: seq<Example>)
    requires OproText(prompt, pairs, fewShot).Some?
    ensures var problems := if fewShot != [] then OproProblemsHeader + ConcatMap(fewShot, OproProblem) else "";
      OproText(prompt, pairs, fewShot).value == (prompt + "\n" + OproScoresHeader) + OproRatedBlocks(pairs).value + problems + OproClosing
  {
  }

  /** Each rated instruction appears in the meta-prompt with its text and its rounded score. */
  lemma OproTextShowsPairs(prompt: string, pairs: seq<(string, Rating)>, fewShot: seq<Example>, k: nat)
    requires OproText(prompt, pairs, fewShot).Some? && k < |pairs|
    ensures ScaledRound(pairs[k].1).Some?
    ensures Contains(OproText(prompt, pairs, fewShot).value, OproRated(pairs[k].0, ScaledRound(pairs[k].1).value))
  {
    var head := prompt + "\n" + OproScoresHeader;
    var blocks := OproRatedBlocks(pairs).value;
    var problems := if fewShot != [] then OproProblemsHeader + ConcatMap(fewShot, OproProblem) else "";
    OproRatedBlocksShow(pairs, k);
    ContainsInfix(head, blocks, problems + OproClosing, OproRated(pairs[k].0, ScaledRound(pairs[k].1).value));
    OproTextParts(prompt, pairs, fewShot);
    AppendAssoc(head + blocks, problems, OproClosing);
  }

  /** Each few-shot problem appears with its input and its answer. */
  lemma OproTextShowsProblems(prompt: string, pairs: seq<(string, Rating)>, fewShot: seq<Example>, k: nat)
    requires OproText(prompt, pairs, fewShot).Some? && k < |fewShot|
    ensures Contains(OproText(prompt, pairs, fewShot).value, OproProblem(fewShot[k]))
  {
    var head := prompt + "\n" + OproScoresHeader + OproRatedBlocks(pairs).value;
    var problems := OproProblemsHeader + ConcatMap(fewShot, OproProblem);
    ConcatMapContains(fewShot, OproProblem, k);
    ContainsRight(OproProblemsHeader, ConcatMap(fewShot, OproProblem), OproProblem(fewShot[k]));
    ContainsInfix(head, problems, OproClosing, OproProblem(fewShot[k]));
  }

  /**
   * Few-shot problems only add a section: the meta-prompt without them is
   * the one with them minus the problems section.
   */
  lemma OproTextWithoutProblems(prompt: string, pairs: seq<(string, Rating)>, fewShot: seq<Example>)
    requires OproText(prompt, pairs, fewShot).Some? && fewShot != []
    ensures var with := OproText(prompt, pairs, fewShot).value;
      var without := OproText(prompt, pairs, []).value;
      |with| > |without| + |OproProblemsHeader|
      && without[..|without| - |OproClosing|] <= with
      && EndsWith(with, OproClosing)
  {
    var scored := prompt + "\n" + OproScoresHeader + OproRatedBlocks(pairs).value;
    var problems := OproProblemsHeader + ConcatMap(fewShot, OproProblem);
    OproTextParts(prompt, pairs, fewShot);
    OproTextParts(prompt, pairs, []);
    assert scored + "" == scored;
    DropEnd(scored, OproClosing);
    PrefixAppend(scored, problems + OproClosing);
    AppendAssoc(scored, problems, OproClosing);
    ConcatMapContains(fewShot, OproProblem, 0);
    ContainsLength(ConcatMap(fewShot, OproProblem), OproProblem(fewShot[0]));
    OproTextEnds(prompt, pairs, fewShot);
  }

  // ---------------------------------------------------------------------
  // crispo/optimizer/crispo_meta_prompt.py

  /** The default CriSPO template, with the `{examples}` and `{instructions}` fields. */
  const CrispoDefaultTemplate: seq<Segment> := [
    Lit("Your task is to optimize the instruction for a task.\n\nBelow are some examples:\n"),
    Slot("examples"),
    Lit("\n\nBelow are some previous instructions with their scores and critiques.\n"),
    Slot("instructions"),
    Lit("\n\nGenerate an instruction that is different from all the instructions above, and has a higher score than all the instructions above.\n"
        + "It should be concise, effective, and generally applicable to all examples above.\n\n"
        + "Draft your new instruction step by step:\n\n"
        + "1. Compare high-score instructions to low-score ones, identify what suggestions could have improved them. List them in <suggestion> tags.\n"
        + "2. Apply the suggestions and draft a new instruction aiming for a higher score.\n"
        + "3. Be creative and vary the wording, paraphrase, position of placeholders, phrase order, grammar, sentence order, which specific example summaries to give, etc.\n"
        + "4. Write your final new instruction in <instruction> tags.")
  ]

  /** `str(critique)`: a missing critique (`critiques.get(p, None)`) reads "None". */
  function CritiqueText(c: Option<string>): string
  {
    match c
    case Some(s) => s
    case None => "None"
  }

  /** `format_instruction`: the instruction, its score (verbatim or as a percentage) and its critique. */
  function FormatInstruction(prompt: string, score: Rating, critique: Option<string>): string
  {
    "<rated_instruction>\n<instruction>" + prompt + "</instruction>\n<score>" + PercentUnlessStr(score)
    + "</score>\n<critique>\n" + CritiqueText(critique) + "\n</critique>\n</rated_instruction>"
  }

  /** One few-shot example of the CriSPO meta-prompt, around the rendering `format_example` gives. */
  function CrispoExample(formatted: string): string
  {
    "<example>\n<instruction>?</instruction>\n" + formatted + "\n</example>"
  }

  function RatedWithCritique(item: ((string, Rating), Option<string>)): string
  {
    FormatInstruction(item.0.0, item.0.1, item.1)
  }

  /** The two fields a CriSPO template is formatted with. */
  function CrispoArgs(examples: string, instructions: string): seq<(string, string)>
  {
    [("examples", examples), ("instructions", instructions)]
  }

  /**
   * The CriSPO meta-prompt: the template formatted with the few-shot
   * examples and with each rated instruction zipped with its critique, each
   * group joined by newlines. `formatExample` is the subclass's
   * `format_example` (`to_xml` by default).
   */
  function CrispoText<E>(template: seq<Segment>, pairs: seq<(string, Rating)>, fewShot: seq<E>,
                         critiques: seq<Option<string>>, formatExample: E -> string): Option<string>
  {
    Format(template, CrispoArgs(
      Join(Map(Map(fewShot, formatExample), CrispoExample), "\n"),
      Join(Map(Zip(pairs, critiques), RatedWithCritique), "\n")))
  }

  /** `CriSPOMetaPrompt.fill`. */
  method CrispoFill<E>(template: seq<Segment>, pairs: seq<(string, Rating)>, fewShot: seq<E>,
                       critiques: seq<Option<string>>, formatExample: E -> string) returns (r: Option<string>)
    ensures r == CrispoText(template, pairs, fewShot, critiques, formatExample)
  {
    var examples := [];
    var i := 0;
    while i < |fewShot|
      invariant i <= |fewShot|
      invariant examples == Map(Map(fewShot[..i], formatExample), CrispoExample)
    {
      assert fewShot[..i + 1][..i] == fewShot[..i];
      examples := examples + ["<example>\n<instruction>?</instruction>\n" + formatExample(fewShot[i]) + "\n</example>"];
      i := i + 1;
    }
    assert fewShot[..i] == fewShot;
    var zipped := Zip(pairs, critiques);
    var instructions := [];
    var k := 0;
    while k < |zipped|
      invariant k <= |zipped|
      invariant instructions == Map(zipped[..k], RatedWithCritique)
    {
      var (pair, critique) := zipped[k];
      assert zipped[..k + 1][..k] == zipped[..k];
      instructions := instructions + [FormatInstruction(pair.0, pair.1, critique)];
      k := k + 1;
    }
    assert zipped[..k] == zipped;
    r := Format(template, CrispoArgs(Join(examples, "\n"), Join(instructions, "\n")));
  }

  /** The default template names exactly the two fields the fill provides. */
  lemma CrispoDefaultSlots()
    ensures Slots(CrispoDefaultTemplate) == ["examples", "instructions"]
  {
    var t := CrispoDefaultTemplate;
    assert t[..1][..0] == [];
    assert Slots(t[..1]) == [];
    assert t[..2][..1] == t[..1];
    assert Slots(t[..2]) == ["examples"];
    assert t[..3][..2] == t[..2];
    assert Slots(t[..3]) == ["examples"];
    assert t[..4][..3] == t[..3];
    assert Slots(t[..4]) == ["examples", "instructions"];
    assert t[..5][..4] == t[..4];
    assert t[..5] == t;
  }

  /**
   * A template with the two fields (the default one has, `CrispoDefaultSlots`)
   * always renders, and shows both arguments.
   */
  lemma CrispoTextArgs(template: seq<Segment>, examples: string, instructions: string)
    requires Slots(template) == ["examples", "instructions"]
    ensures var r := Format(template, CrispoArgs(examples, instructions));
      r.Some? && Contains(r.value, examples) && Contains(r.value, instructions)
  {
    var args := CrispoArgs(examples, instructions);
    assert Assoc.Get(args, "examples") == Some(examples);
    assert "examples"[0] != "instructions"[0];
    assert Assoc.Get(args, "instructions") == Some(instructions);
    FormatDefinedIff(template, args);
    FormatContainsArg(template, args, "examples");
    FormatContainsArg(template, args, "instructions");
  }

  /**
   * So the CriSPO meta-prompt renders, and it shows every few-shot example
   * and every rated instruction with its score and critique.
   */
  lemma CrispoTextContents<E>(template: seq<Segment>, pairs: seq<(string, Rating)>, fewShot: seq<E>,
                              critiques: seq<Option<string>>, formatExample: E -> string)
    requires Slots(template) == ["examples", "instructions"]
    ensures var r := CrispoText(template, pairs, fewShot, critiques, formatExample);
      r.Some?
      && (forall k :: 0 <= k < |fewShot| ==> Contains(r.value, CrispoExample(formatExample(fewShot[k]))))
      && (forall k :: 0 <= k < |pairs| && k < |critiques| ==>
            Contains(r.value, FormatInstruction(pairs[k].0, pairs[k].1, critiques[k])))
  {
    var examples := Join(Map(Map(fewShot, formatExample), CrispoExample), "\n");
    var instructions := Join(Map(Zip(pairs, critiques), RatedWithCritique), "\n");
    CrispoTextArgs(template, examples, instructions);
    var r := Format(template, CrispoArgs(examples, instructions)).value;
    forall k | 0 <= k < |fewShot|
      ensures Contains(r, CrispoExample(formatExample(fewShot[k])))
    {
      JoinContains(Map(Map(fewShot, formatExample), CrispoExample), "\n", k);
      ContainsTrans(r, examples, CrispoExample(formatExample(fewShot[k])));
    }
    forall k | 0 <= k < |pairs| && k < |critiques|
      ensures Contains(r, FormatInstruction(pairs[k].0, pairs[k].1, critiques[k]))
    {
      JoinContains(Map(Zip(pairs, critiques), RatedWithCritique), "\n", k);
      ContainsTrans(r, instructions, FormatInstruction(pairs[k].0, pairs[k].1, critiques[k]));
    }
  }

  /** `format_example` by default: the example's `to_xml`. */
  function FormatExample(e: Example): string
  {
    e.ToXml()
  }
}
