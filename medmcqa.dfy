/**
 * The MedMCQA experiments: multiple-choice medical questions whose answer
 * is an option letter. The task prompt reads the letter out of the answer
 * by trying option spellings in a fixed order; the meta-prompts reuse the
 * GSM8K pieces; the critic sees only the wrongly answered questions; the
 * loader turns each record's four options into a lettered list.
 */
module MedMcqa {
  import opened Wrappers
  import opened Text
  import opened Formatting
  import opened Render
  import opened Task
  import opened PromptUtil
  import opened GsmExample
  import Assoc
  import Gsm
  import NarrativeQa

  // ---------------------------------------------------------------------
  // experiments/medmcqa/task_prompt.py

  const SolveHead := "\nLet's solve the multiple-choice problem. Chose an option and write it in <answer> XML tags.\n\n"

  /** The default task prompt `_P`; `fill` is the GSM8K one, with the same placeholder. */
  const DefaultPrompt := SolveHead + Gsm.QuestionPlaceholder + "\n"

  lemma DefaultPromptHasPlaceholder()
    ensures Contains(DefaultPrompt, Gsm.QuestionPlaceholder)
  {
    ContainsSelf(Gsm.QuestionPlaceholder);
    ContainsInfix(SolveHead, Gsm.QuestionPlaceholder, "\n", Gsm.QuestionPlaceholder);
  }

  /** The option spellings `extract_choice` tries, in order, as the text around the letter. */
  const Templates: seq<(string, string)> := [
    ("", "."), ("(", ")."), ("", ")."), ("", ")"), ("(", ")"), ("", ":"),
    ("Option ", ""), ("option ", ""), (" ", " "), ("", " "), ("", "")
  ]

  /** The letters tried within each spelling, in order. */
  const Choices := "ABCDEFGH"

  /** `template.format(choice)`. */
  function Filled(t: (string, string), c: char): string
  {
    t.0 + [c] + t.1
  }

  /** The `k`-th spelling of the `i`-th letter occurs in the text. */
  predicate Hit(text: string, k: nat, i: nat)
    requires k < |Templates| && i < |Choices|
  {
    Contains(text, Filled(Templates[k], Choices[i]))
  }

  /** The inner loop: the first letter from the `i`-th on whose `k`-th spelling occurs. */
  function FirstLetter(text: string, k: nat, i: nat): (r: Option<nat>)
    requires k < |Templates| && i <= |Choices|
    ensures r.Some? ==> i <= r.value < |Choices| && Hit(text, k, r.value)
                        && forall j :: i <= j < r.value ==> !Hit(text, k, j)
    ensures r.None? ==> forall j :: i <= j < |Choices| ==> !Hit(text, k, j)
    decreases |Choices| - i
  {
    if i == |Choices| then None
    else if Hit(text, k, i) then Some(i)
    else FirstLetter(text, k, i + 1)
  }

  /**
   * The two loops: the first spelling from the `k`-th on that occurs with
   * any letter, and the first such letter. No earlier spelling occurs with
   * any letter and no earlier letter with the chosen spelling.
   */
  function FirstHit(text: string, k: nat): (r: Option<(nat, nat)>)
    requires k <= |Templates|
    ensures r.Some? ==> k <= r.value.0 < |Templates| && r.value.1 < |Choices| && Hit(text, r.value.0, r.value.1)
                        && (forall k2, j :: k <= k2 < r.value.0 && 0 <= j < |Choices| ==> !Hit(text, k2, j))
                        && (forall j :: 0 <= j < r.value.1 ==> !Hit(text, r.value.0, j))
    ensures r.None? ==> forall k2, j :: k <= k2 < |Templates| && 0 <= j < |Choices| ==> !Hit(text, k2, j)
    decreases |Templates| - k
  {
    if k == |Templates| then None
    else match FirstLetter(text, k, 0)
      case Some(i) => Some((k, i))
      case None =>
        var r := FirstHit(text, k + 1);
        NoHitBefore(text, k, if r.Some? then r.value.0 else |Templates|);
        r
  }

  /** A spelling with no letter, followed by spellings with none up to `last`, extends the miss down to it. */
  lemma NoHitBefore(text: string, k: nat, last: nat)
    requires k < last <= |Templates| && FirstLetter(text, k, 0).None?
    requires forall k2, j :: k + 1 <= k2 < last && 0 <= j < |Choices| ==> !Hit(text, k2, j)
    ensures forall k2, j :: k <= k2 < last && 0 <= j < |Choices| ==> !Hit(text, k2, j)
  {
  }

  /** `extract_choice`: the letter of the first hit, `None` when nothing hits. */
  function ExtractChoice(text: string): (r: Option<char>)
    ensures r.Some? ==> r.value in Choices && r.value in text
  {
    match FirstHit(text, 0)
    case None => None
    case Some(hit) =>
      var t := Templates[hit.0];
      var c := Choices[hit.1];
      assert Filled(t, c)[|t.0|] == c;
      ContainsChar(text, Filled(t, c), |t.0|);
      ContainsCharIff(text, c);
      Some(c)
  }

  /** Because the last spelling is the bare letter, there is no choice exactly when no letter A to H occurs. */
  lemma ExtractChoiceNoneIff(text: string)
    ensures ExtractChoice(text).None? <==> forall i :: 0 <= i < |Choices| ==> Choices[i] !in text
  {
    if ExtractChoice(text).None? {
      forall i | 0 <= i < |Choices|
        ensures Choices[i] !in text
      {
        assert !Hit(text, 10, i);
        assert Filled(Templates[10], Choices[i]) == [Choices[i]];
        ContainsCharIff(text, Choices[i]);
      }
    }
  }

  /** A text that is one letter A to H is read as that letter: every other spelling is longer. */
  lemma ExtractChoiceLetter(c: char)
    requires c in Choices
    ensures ExtractChoice([c]) == Some(c)
  {
    ExtractChoiceNoneIff([c]);
    var hit := FirstHit([c], 0).value;
    var t := Templates[hit.0];
    var d := Choices[hit.1];
    assert Contains([c], Filled(t, d));
    ContainsLength([c], Filled(t, d));
    TemplatesSpellOut(hit.0);
    assert Filled(t, d) == [d];
    ContainsCharIff([c], d);
  }

  /** Every spelling but the last adds text around the letter. */
  lemma TemplatesSpellOut(k: nat)
    requires k < |Templates| && |Templates[k].0| + |Templates[k].1| == 0
    ensures k == 10
  {
  }

  /** `parse_label`: the option letter in the answer tag's content when present and non-empty, else in the whole generation. */
  function ParseLabel(generation: string): (r: Option<string>)
    ensures r.Some? ==> |r.value| == 1 && r.value[0] in Choices
  {
    match ExtractChoice(TagOrRaw(generation, "answer"))
    case None => None
    case Some(c) => Some([c])
  }

  /** `MedMcqaTaskPrompt.parse`: the letter, with the whole generation kept as the reasoning. */
  function Parse(generation: string): (r: Output)
    ensures r.reasoning == generation && r.labelText == ParseLabel(generation)
  {
    Output(ParseLabel(generation), generation)
  }

  /** A generation that ends in an answer tag around a letter is read as that letter. */
  lemma ParseLabelOfAnswer(pre: string, c: char)
    requires c in Choices
    ensures ParseLabel(pre + OpenTag("answer") + [c] + CloseTag("answer")) == Some([c])
  {
    var g := pre + OpenTag("answer") + [c] + CloseTag("answer");
    assert g == pre + OpenTag("answer") + [c] + CloseTag("answer") + "";
    LacksOpenTag([c], "answer");
    assert [c] + CloseTag("answer") + "" == [c] + CloseTag("answer");
    if Contains("", CloseTag("answer")) {
      ContainsLength("", CloseTag("answer"));
    }
    assert IsStripped([c]);
    StripNoop([c]);
    TagOrRawWrapped(pre, "answer", [c], "");
    ExtractChoiceLetter(c);
  }

  // ---------------------------------------------------------------------
  // experiments/medmcqa/meta_prompt_opro.py

  /**
   * The OPRO meta-prompt: its `_P` is the NarrativeQA one, `_E` the GSM8K
   * example block (the question and the gold label) and `_I` the NarrativeQA
   * rated instruction.
   */
  function OproText(pairs: seq<(string, Rating)>, fewShot: seq<LabelledExample>): string
  {
    NarrativeQa.OproIntro + Join(Map(fewShot, Gsm.ExampleBlock), "\n") + NarrativeQa.OproMiddle
    + Join(Map(pairs, NarrativeQa.OproRating), "\n") + NarrativeQa.OproClosing
  }

  /** `MedMcqaOproMetaPrompt.fill`. */
  method OproFill(pairs: seq<(string, Rating)>, fewShot: seq<LabelledExample>) returns (r: string)
    ensures r == OproText(pairs, fewShot)
  {
    var examples := MapEach(fewShot, Gsm.ExampleBlock);
    var instructions := MapEach(pairs, NarrativeQa.OproRating);
    r := NarrativeQa.OproIntro + Join(examples, "\n") + NarrativeQa.OproMiddle + Join(instructions, "\n") + NarrativeQa.OproClosing;
  }

  /** The OPRO meta-prompt shows every example with its gold label and every instruction with its score. */
  lemma OproTextShows(pairs: seq<(string, Rating)>, fewShot: seq<LabelledExample>, k: nat)
    ensures var t := OproText(pairs, fewShot);
      (k < |fewShot| ==> Contains(t, Gsm.ExampleBlock(fewShot[k])))
      && (k < |pairs| ==> Contains(t, NarrativeQa.OproRating(pairs[k])))
  {
    var intro := NarrativeQa.OproIntro;
    var middle := NarrativeQa.OproMiddle;
    var closing := NarrativeQa.OproClosing;
    var ex := Join(Map(fewShot, Gsm.ExampleBlock), "\n");
    var ins := Join(Map(pairs, NarrativeQa.OproRating), "\n");
    if k < |fewShot| {
      var block := Gsm.ExampleBlock(fewShot[k]);
      JoinContains(Map(fewShot, Gsm.ExampleBlock), "\n", k);
      ContainsRight(intro, ex, block);
      ContainsLeft(intro + ex, middle, block);
      ContainsLeft(intro + ex + middle, ins, block);
      ContainsLeft(intro + ex + middle + ins, closing, block);
    }
    if k < |pairs| {
      JoinContains(Map(pairs, NarrativeQa.OproRating), "\n", k);
      ContainsInfix(intro + ex + middle, ins, closing, NarrativeQa.OproRating(pairs[k]));
    }
  }

  const AnswerTag := "<answer>"

  /** The request appended to an instruction without the answer tag. */
  const AnswerRequest := "\n\nChose an option and write it in " + AnswerTag + " XML tags"

  /** The instruction `parse` keeps: the placeholder appended when missing, then the answer request. */
  function Completed(instruction: string): string
  {
    var withQuestion := AppendIfMissing(instruction, Gsm.QuestionPlaceholder, "\n\n" + Gsm.QuestionPlaceholder);
    AppendIfMissing(withQuestion, AnswerTag, AnswerRequest)
  }

  /**
   * The completed instruction begins with the instruction, carries the
   * placeholder and the answer tag, and an instruction that has both is
   * kept as it is.
   */
  lemma CompletedMeaning(instruction: string)
    ensures var r := Completed(instruction);
      instruction <= r && Contains(r, Gsm.QuestionPlaceholder) && Contains(r, AnswerTag)
      && (Contains(instruction, Gsm.QuestionPlaceholder) && Contains(instruction, AnswerTag) ==> r == instruction)
  {
    var qp := Gsm.QuestionPlaceholder;
    ContainsSelf(qp);
    ContainsRight("\n\n", qp, qp);
    AppendIfMissingMeaning(instruction, qp, "\n\n" + qp);
    var withQuestion := AppendIfMissing(instruction, qp, "\n\n" + qp);
    ContainsSelf(AnswerTag);
    ContainsInfix("\n\nChose an option and write it in ", AnswerTag, " XML tags", AnswerTag);
    AppendIfMissingMeaning(withQuestion, AnswerTag, AnswerRequest);
    if !Contains(withQuestion, AnswerTag) {
      ContainsLeft(withQuestion, AnswerRequest, qp);
    }
  }

  /**
   * `MedMcqaOproMetaPrompt.parse`, which the critique meta-prompt also
   * uses: no prompt when the instruction is missing or empty, otherwise the
   * completed instruction.
   */
  function OproParse(generation: string): (r: Option<string>)
    ensures r.None? <==> NonEmptyTag(generation, "instruction").None?
    ensures r.Some? ==> NonEmptyTag(generation, "instruction").value <= r.value
                        && Contains(r.value, Gsm.QuestionPlaceholder) && Contains(r.value, AnswerTag)
  {
    match NonEmptyTag(generation, "instruction")
    case None => None
    case Some(instruction) =>
      CompletedMeaning(instruction);
      Some(Completed(instruction))
  }

  // ---------------------------------------------------------------------
  // experiments/medmcqa/meta_prompt_critique.py

  /** The class attribute `task`; `fill` is the GSM8K critique meta-prompt's. */
  const MedMcqaTask := "medical entrance exam multiple-choice questions"

  /** The CriSPO meta-prompt names the medical task and the placeholder. */
  lemma CritiqueMetaNamesTask(pairs: seq<(string, Rating)>, fewShot: seq<LabelledExample>, critiques: seq<Option<string>>)
    ensures var t := Gsm.CritiqueMetaText(MedMcqaTask, pairs, fewShot, critiques);
      Gsm.CritiqueHead + MedMcqaTask <= t && Contains(t, Gsm.QuestionPlaceholder)
  {
    Gsm.CritiqueMetaNamesTask(MedMcqaTask, pairs, fewShot, critiques);
    var t := Gsm.CritiqueMetaText(MedMcqaTask, pairs, fewShot, critiques);
    PrefixOfLongerPrefix(Gsm.CritiqueHead + MedMcqaTask, Gsm.ExamplesHeader, t);
  }

  // ---------------------------------------------------------------------
  // experiments/medmcqa/critique_prompt.py

  const CriticIntro :=
    "For a medical entrance exam multiple-choice question, a student is expected to to select the correct answer following an instruction.\n\n"

  const CriticTail :=
    "\n</examples>\n\nWrite a general and helpful critique in <critique> XML tags to improve the instruction such that the solved answers are as accurate as possible.\n\n"
    + "1. Come up with several dimensions to compare the wrong reasoning traits and the correct reasoning, e.g., number of reasoning steps, logic, strategy, flow, etc.\n"
    + "2. List the difference of the wrong reasoning and the correct reasoning on each dimension.\n"
    + "3. Identify specific phrases in the instruction that could have gotten these reasoning different with references on each dimension.\n"
    + "4. Suggest specific action items that are general to all examples and helpful to improve the instruction."

  /** A prediction whose label differs from the gold label (a missing label reads as `None`). */
  predicate Wrong(item: (Output, LabelledExample))
  {
    item.0.labelText != item.1.y.labelText
  }

  /** One field of `_ERROR`: the value on its own line inside the tag. */
  function Field(tag: string, value: string): (r: string)
    ensures Contains(r, value)
  {
    var a := OpenTag(tag) + "\n";
    var b := "\n" + CloseTag(tag);
    ContainsSelf(value);
    ContainsRight(a, value, value);
    ContainsLeft(a + value, b, value);
    a + value + b
  }

  /** The fields of `_ERROR` in order: the question, both reasonings and both answers. */
  function ErrorFields(item: (Output, LabelledExample)): seq<string>
  {
    var (wrong, right) := item;
    [Field("question", right.x), Field("wrong_reasoning", wrong.reasoning), Field("correct_reasoning", right.y.reasoning),
     Field("wrong_answer", LabelText(wrong.labelText)), Field("correct_answer", LabelText(right.y.labelText))]
  }

  /** `_ERROR` filled for a prediction and its example. */
  function ErrorBlock(item: (Output, LabelledExample)): string
  {
    Join(ErrorFields(item), "\n")
  }

  /** An error block shows the question, both reasonings and both labels. */
  lemma ErrorBlockShows(wrong: Output, right: LabelledExample)
    ensures var b := ErrorBlock((wrong, right));
      Contains(b, right.x) && Contains(b, wrong.reasoning) && Contains(b, right.y.reasoning)
      && Contains(b, LabelText(wrong.labelText)) && Contains(b, LabelText(right.y.labelText))
  {
    var fs := ErrorFields((wrong, right));
    forall k | 0 <= k < 5
      ensures Contains(ErrorBlock((wrong, right)), fs[k])
    {
      JoinContains(fs, "\n", k);
    }
    ContainsTrans(ErrorBlock((wrong, right)), fs[0], right.x);
    ContainsTrans(ErrorBlock((wrong, right)), fs[1], wrong.reasoning);
    ContainsTrans(ErrorBlock((wrong, right)), fs[2], right.y.reasoning);
    ContainsTrans(ErrorBlock((wrong, right)), fs[3], LabelText(wrong.labelText));
    ContainsTrans(ErrorBlock((wrong, right)), fs[4], LabelText(right.y.labelText));
  }

  /** The blocks of the wrong predictions, in order. */
  function Errors(zipped: seq<(Output, LabelledExample)>): seq<string>
  {
    if zipped == [] then []
    else Errors(zipped[..|zipped| - 1]) + (if Wrong(zipped[|zipped| - 1]) then [ErrorBlock(zipped[|zipped| - 1])] else [])
  }

  /** `_P` filled with the instruction and the error blocks separated by blank lines. */
  function CriticText(prompt: string, errors: seq<string>): string
  {
    CriticIntro + Tagged("instruction", prompt) + "\n<examples>\n" + Join(errors, "\n\n") + CriticTail
  }

  /** `MedMcqaCritiquePrompt.fill`: the loop keeps only the wrong predictions. */
  method CritiqueFill(prompt: string, predictions: seq<Output>, examples: seq<LabelledExample>) returns (r: string)
    ensures r == CriticText(prompt, Errors(Zip(predictions, examples)))
  {
    var zipped := Zip(predictions, examples);
    var errors := [];
    var i := 0;
    while i < |zipped|
      invariant i <= |zipped|
      invariant errors == Errors(zipped[..i])
    {
      ErrorsStep(zipped, i);
      if Wrong(zipped[i]) {
        errors := errors + [ErrorBlock(zipped[i])];
      }
      i := i + 1;
    }
    assert zipped[..i] == zipped;
    r := CriticText(prompt, errors);
  }

  /** The blocks of a list of predictions extend those of its front. */
  lemma ErrorsSnoc(zipped: seq<(Output, LabelledExample)>)
    requires zipped != []
    ensures var last := zipped[|zipped| - 1];
      Errors(zipped) == Errors(zipped[..|zipped| - 1]) + (if Wrong(last) then [ErrorBlock(last)] else [])
  {
  }

  /** One more prediction adds its block when it is wrong. */
  lemma ErrorsStep(zipped: seq<(Output, LabelledExample)>, i: nat)
    requires i < |zipped|
    ensures Errors(zipped[..i + 1]) == Errors(zipped[..i]) + (if Wrong(zipped[i]) then [ErrorBlock(zipped[i])] else [])
  {
    ErrorsSnoc(zipped[..i + 1]);
    assert zipped[..i + 1][..i] == zipped[..i];
  }

  /** Every wrong prediction has its block among the critic's errors. */
  lemma {:induction false} ErrorsComplete(zipped: seq<(Output, LabelledExample)>, k: nat)
    requires k < |zipped| && Wrong(zipped[k])
    ensures ErrorBlock(zipped[k]) in Errors(zipped)
  {
    var front := zipped[..|zipped| - 1];
    ErrorsSnoc(zipped);
    if k < |front| {
      assert front[k] == zipped[k];
      ErrorsComplete(front, k);
    }
  }

  /** Every error block stands for a wrong prediction. */
  lemma {:induction false} ErrorsSound(zipped: seq<(Output, LabelledExample)>, b: string)
    requires b in Errors(zipped)
    ensures exists k :: 0 <= k < |zipped| && Wrong(zipped[k]) && b == ErrorBlock(zipped[k])
  {
    var front := zipped[..|zipped| - 1];
    ErrorsSnoc(zipped);
    if b in Errors(front) {
      ErrorsSound(front, b);
      var k :| 0 <= k < |front| && Wrong(front[k]) && b == ErrorBlock(front[k]);
      assert front[k] == zipped[k];
    } else {
      assert Wrong(zipped[|zipped| - 1]) && b == ErrorBlock(zipped[|zipped| - 1]);
    }
  }

  /** When every label is right the examples section is empty. */
  lemma {:induction false} ErrorsNoneWhenAllRight(zipped: seq<(Output, LabelledExample)>)
    requires forall k :: 0 <= k < |zipped| ==> !Wrong(zipped[k])
    ensures Errors(zipped) == []
  {
    if zipped != [] {
      var front := zipped[..|zipped| - 1];
      assert forall k :: 0 <= k < |front| ==> front[k] == zipped[k];
      ErrorsNoneWhenAllRight(front);
      assert !Wrong(zipped[|zipped| - 1]);
    }
  }

  /** The critique prompt shows the instruction in its tag and every error block. */
  lemma CriticTextShows(prompt: string, errors: seq<string>, k: nat)
    ensures var r := CriticText(prompt, errors);
      Contains(r, Tagged("instruction", prompt)) && (k < |errors| ==> Contains(r, errors[k]))
  {
    var ex := Join(errors, "\n\n");
    var inst := Tagged("instruction", prompt);
    ContainsSelf(inst);
    ContainsRight(CriticIntro, inst, inst);
    ContainsLeft(CriticIntro + inst, "\n<examples>\n", inst);
    var pre := CriticIntro + inst + "\n<examples>\n";
    ContainsLeft(pre, ex, inst);
    ContainsLeft(pre + ex, CriticTail, inst);
    if k < |errors| {
      JoinContains(errors, "\n\n", k);
      ContainsRight(pre, ex, errors[k]);
      ContainsLeft(pre + ex, CriticTail, errors[k]);
    }
  }

  // ---------------------------------------------------------------------
  // experiments/medmcqa/dataset.py

  /** The `cop` field: an integer option index, or anything else. */
  datatype Cop = CopInt(i: int) | CopOther

  /** One row of the MedMCQA dataset; `exp` may be missing. */
  datatype Row = Row(question: string, opa: string, opb: string, opc: string, opd: string, cop: Cop, exp: Option<string>)

  /** The options dictionary `process_to_mcqa` builds, keys A to D in order. */
  function OptionsDict(row: Row): seq<(string, string)>
  {
    [("A", row.opa), ("B", row.opb), ("C", row.opc), ("D", row.opd)]
  }

  /** The dictionary has the keys A to D, in order, holding opa to opd. */
  lemma OptionsDictMeaning(row: Row)
    ensures var d := OptionsDict(row);
      Assoc.Keys(d) == ["A", "B", "C", "D"]
      && Assoc.Get(d, "A") == Some(row.opa) && Assoc.Get(d, "B") == Some(row.opb)
      && Assoc.Get(d, "C") == Some(row.opc) && Assoc.Get(d, "D") == Some(row.opd)
  {
    var d := OptionsDict(row);
    assert d[1..][1..][1..][1..] == [];
    Assoc.GetCons("A", row.opa, d[1..], "B");
    Assoc.GetCons("A", row.opa, d[1..], "C");
    Assoc.GetCons("A", row.opa, d[1..], "D");
    Assoc.GetCons("B", row.opb, d[2..], "C");
    Assoc.GetCons("B", row.opb, d[2..], "D");
    Assoc.GetCons("C", row.opc, d[3..], "D");
    assert [d[0]] + d[1..] == d;
    assert [d[1]] + d[2..] == d[1..];
    assert [d[2]] + d[3..] == d[2..];
  }

  /** The letter for an integer `cop` in 0..3; nothing for any other value. */
  function CorrectOption(cop: Cop): (r: Option<string>)
    ensures r.Some? <==> cop.CopInt? && 0 <= cop.i <= 3
    ensures r.Some? ==> |r.value| == 1 && r.value[0] in Choices && r.value[0] == "ABCD"[cop.i]
  {
    if cop.CopInt? && 0 <= cop.i <= 3 then Some(["ABCD"[cop.i]]) else None
  }

  /** Distinct option indices give distinct letters, so the letter names the index. */
  lemma CorrectOptionInjective(i: int, j: int)
    requires CorrectOption(CopInt(i)).Some? && CorrectOption(CopInt(i)) == CorrectOption(CopInt(j))
    ensures i == j
  {
    assert "ABCD"[i] == "ABCD"[j];
  }

  /** One line of `_format_options`: "(K) V". */
  function OptionLine(entry: (string, string)): string
  {
    "(" + entry.0 + ") " + entry.1
  }

  /** `_format_options`: one line per option in dictionary order. */
  function OptionLines(d: seq<(string, string)>): string
  {
    Join(Map(d, OptionLine), "\n")
  }

  /** Every option appears on its line, after its key in parentheses. */
  lemma OptionLinesShow(d: seq<(string, string)>, k: nat)
    requires k < |d|
    ensures Contains(OptionLines(d), "(" + d[k].0 + ") " + d[k].1)
  {
    JoinContains(Map(d, OptionLine), "\n", k);
  }

  /** `_format_prompt`: the question, a line break and the options. */
  function PromptText(question: string, options: string): (r: string)
    ensures question <= r && EndsWith(r, options) && |r| == |question| + 1 + |options|
  {
    EndsWithAppend(question + "\n", options);
    question + "\n" + options
  }

  /** The loader's filter: an explanation that is present, non-empty and contains a comma. */
  predicate Keep(row: Row)
  {
    row.exp.Some? && row.exp.value != [] && Contains(row.exp.value, ",")
  }

  /** The non-empty test is implied by the comma test. */
  lemma KeepIff(row: Row)
    ensures Keep(row) <==> row.exp.Some? && Contains(row.exp.value, ",")
  {
    if row.exp.Some? && Contains(row.exp.value, ",") {
      ContainsLength(row.exp.value, ",");
    }
  }

  /** `ds.filter(...)`: the kept rows, in order. */
  function Kept(rows: seq<Row>): (r: seq<Row>)
    ensures |r| <= |rows|
    ensures forall i :: 0 <= i < |r| ==> Keep(r[i]) && r[i] in rows
  {
    if rows == [] then []
    else Kept(rows[..|rows| - 1]) + (if Keep(rows[|rows| - 1]) then [rows[|rows| - 1]] else [])
  }

  /** Every row the filter accepts survives it. */
  lemma {:induction false} KeptComplete(rows: seq<Row>, k: nat)
    requires k < |rows| && Keep(rows[k])
    ensures rows[k] in Kept(rows)
  {
    var front := rows[..|rows| - 1];
    if k < |front| {
      assert front[k] == rows[k];
      KeptComplete(front, k);
    }
  }

  /** The split read and the sample count: "test" reads the tail of "validation". */
  function SplitPlan(split: string, n: int): (r: (string, int))
    ensures split == "test" ==> r == ("validation", -n)
    ensures split != "test" ==> r == (split, n)
  {
    if split == "test" then ("validation", -n) else (split, n)
  }

  /**
   * A MedMCQA record as the loader's `map` steps see it: the dataset's
   * fields and the keys the steps add to the same dictionary, an unset key
   * being `None` or empty.
   */
  class McqaRecord {
    var question: string
    var opa: string
    var opb: string
    var opc: string
    var opd: string
    var cop: Cop
    var exp: Option<string>
    var optionsDict: seq<(string, string)>
    var correctOption: Option<string>
    var explanation: Option<string>
    var options: string
    var prompt: string

    constructor (row: Row)
      ensures question == row.question && opa == row.opa && opb == row.opb && opc == row.opc && opd == row.opd
      ensures cop == row.cop && exp == row.exp
      ensures optionsDict == [] && correctOption == None && explanation == None && options == [] && prompt == []
    {
      question, opa, opb, opc, opd := row.question, row.opa, row.opb, row.opc, row.opd;
      cop, exp := row.cop, row.exp;
      optionsDict, correctOption, explanation, options, prompt := [], None, None, [], [];
    }

    /** The dataset's own fields. */
    function AsRow(): Row
      reads this
    {
      Row(question, opa, opb, opc, opd, cop, exp)
    }

    /**
     * `process_to_mcqa`: the options dictionary and the explanation are set;
     * the correct option is set only for an integer `cop` in 0..3 and is
     * otherwise left as it was.
     */
    method ProcessToMcqa()
      modifies this
      ensures AsRow() == old(AsRow()) && options == old(options) && prompt == old(prompt)
      ensures optionsDict == OptionsDict(AsRow())
      ensures correctOption == if CorrectOption(cop).Some? then CorrectOption(cop) else old(correctOption)
      ensures explanation == exp
    {
      optionsDict := [("A", opa), ("B", opb), ("C", opc), ("D", opd)];
      if cop.CopInt? && 0 <= cop.i <= 3 {
        correctOption := Some(["ABCD"[cop.i]]);
      }
      explanation := exp;
    }

    /** `_format_options`: only `options` changes. */
    method FormatOptions()
      modifies this
      ensures AsRow() == old(AsRow()) && optionsDict == old(optionsDict) && correctOption == old(correctOption)
      ensures explanation == old(explanation) && prompt == old(prompt)
      ensures options == OptionLines(optionsDict)
    {
      options := OptionLines(optionsDict);
    }

    /** `_format_prompt`: only `prompt` changes. */
    method FormatPrompt()
      modifies this
      ensures AsRow() == old(AsRow()) && optionsDict == old(optionsDict) && correctOption == old(correctOption)
      ensures explanation == old(explanation) && options == old(options)
      ensures prompt == PromptText(question, options)
    {
      prompt := question + "\n" + options;
    }
  }

  /**
   * What the loader makes of one selected row: the question with its
   * lettered options as the input, the correct letter as the label and the
   * stripped explanation as the reasoning; a row without an explanation
   * fails (`None.strip()`).
   */
  function RowExample(row: Row): (r: Option<LabelledExample>)
    ensures r.None? <==> row.exp.None?
  {
    match row.exp
    case None => None
    case Some(e) =>
      Some(LabelledExample(PromptText(row.question, OptionLines(OptionsDict(row))),
                           Output(CorrectOption(row.cop), Strip(e))))
  }

  /** An example shows its question first and every option, lettered. */
  lemma RowExampleShows(row: Row, k: nat)
    requires row.exp.Some? && k < 4
    ensures var e := RowExample(row).value;
      row.question <= e.x && Contains(e.x, OptionLine(OptionsDict(row)[k]))
      && e.y.labelText == CorrectOption(row.cop)
  {
    var lines := OptionLines(OptionsDict(row));
    OptionLinesShow(OptionsDict(row), k);
    ContainsRight(row.question + "\n", lines, OptionLine(OptionsDict(row)[k]));
  }

  /** One selected row put through `process_to_mcqa`, `_format_options` and `_format_prompt`, then read into an example. */
  method LoadRow(row: Row) returns (r: Option<LabelledExample>)
    ensures r == RowExample(row)
  {
    var record := new McqaRecord(row);
    record.ProcessToMcqa();
    record.FormatOptions();
    record.FormatPrompt();
    if record.explanation.None? {
      return None;
    }
    r := Some(LabelledExample(record.prompt, Output(record.correctOption, Strip(record.explanation.value))));
  }

  /**
   * `load_medmcqa` after the dataset is read, filtered and shuffled: the
   * rows at the indices the sample size selects, each loaded in turn.
   */
  method LoadMedMcqa(rows: seq<Row>, n: int) returns (r: Option<seq<LabelledExample>>)
    ensures r == Gsm.LoadAll(rows, Gsm.SampleIndices(n, |rows|), RowExample)
  {
    var indices := Gsm.SampleIndices(n, |rows|);
    var examples := [];
    var i := 0;
    while i < |indices|
      invariant i <= |indices|
      invariant Gsm.LoadAll(rows, indices[..i], RowExample) == Some(examples)
    {
      Gsm.LoadAllStep(rows, indices, RowExample, i, examples);
      var at := indices[i];
      if !Gsm.Loads(rows, RowExample, at) {
        Gsm.LoadAllPrefixNone(rows, indices, RowExample, i + 1);
        return None;
      }
      var e := LoadRow(rows[at]);
      examples := examples + [e.value];
      i := i + 1;
    }
    assert indices[..i] == indices;
    r := Some(examples);
  }

  // ---------------------------------------------------------------------
  // experiments/medmcqa/experiments/manual/__init__.py

  /** `_output_of_example`: the reasoning, then the label in answer tags. */
  function OutputOfExample(e: LabelledExample): string
  {
    e.y.reasoning + "\n" + OpenTag("answer") + LabelText(e.y.labelText) + CloseTag("answer")
  }

  /** `example_template_func`: question, reasoning and answer in their tags, one per line. */
  function ExampleTemplate(e: LabelledExample): string
  {
    Tagged("question", e.x) + "\n" + Tagged("reasoning", e.y.reasoning) + "\n" + OpenTag("answer") + LabelText(e.y.labelText) + CloseTag("answer")
  }

  /** The task prompt's parse reads the label of a written-out output back. */
  lemma OutputOfExampleParses(e: LabelledExample)
    requires e.y.labelText.Some? && |e.y.labelText.value| == 1 && e.y.labelText.value[0] in Choices
    ensures ParseLabel(OutputOfExample(e)) == e.y.labelText
  {
    var c := e.y.labelText.value[0];
    assert e.y.labelText.value == [c];
    ParseLabelOfAnswer(e.y.reasoning + "\n", c);
  }

  /** The same holds for a templated example. */
  lemma ExampleTemplateParses(e: LabelledExample)
    requires e.y.labelText.Some? && |e.y.labelText.value| == 1 && e.y.labelText.value[0] in Choices
    ensures ParseLabel(ExampleTemplate(e)) == e.y.labelText
  {
    var c := e.y.labelText.value[0];
    assert e.y.labelText.value == [c];
    ParseLabelOfAnswer(Tagged("question", e.x) + "\n" + Tagged("reasoning", e.y.reasoning) + "\n", c);
  }

  /** `_score_of`: the "score" entry of a stored prompt record; a record without one raises (`None`). */
  function ScoreOf<V>(record: seq<(string, V)>): (r: Option<V>)
    ensures r.Some? <==> "score" in Assoc.Keys(record)
  {
    Assoc.Get(record, "score")
  }
}
