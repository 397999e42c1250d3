/**
 * The grade-school maths experiments (GSM8K): the task prompt puts the
 * question in place of a placeholder and reads the final number back from
 * the answer; the CriSPO meta-prompt shows each example's question and gold
 * number; the dataset splits the reference solution into its reasoning and
 * its final number.
 */
module Gsm {
  import opened Wrappers
  import opened Text
  import opened Formatting
  import opened Render
  import opened Task
  import opened PromptUtil
  import opened GsmExample
  import Optimizer

  // ---------------------------------------------------------------------
  // experiments/gsm/task_prompt.py

  const QuestionPlaceholder := "QUESTION_PLACEHOLDER"

  const SolveHead := "\nLet's solve the problem. Write your final numerical answer within <answer> XML tags.\n\n"

  /** The default task prompt `_P`. */
  const DefaultPrompt := SolveHead + QuestionPlaceholder + "\n"

  lemma DefaultPromptHasPlaceholder()
    ensures Contains(DefaultPrompt, QuestionPlaceholder)
  {
    ContainsSelf(QuestionPlaceholder);
    ContainsInfix(SolveHead, QuestionPlaceholder, "\n", QuestionPlaceholder);
  }

  /** `GsmTaskPrompt.fill`: every question placeholder becomes the question. */
  function Fill(prompt: string, x: string): string
  {
    ReplaceAll(prompt, QuestionPlaceholder, x)
  }

  /** A prompt with the placeholder shows the question; one without it is sent as it is. */
  lemma FillMeaning(prompt: string, x: string)
    ensures Contains(prompt, QuestionPlaceholder) ==> Contains(Fill(prompt, x), x)
    ensures !Contains(prompt, QuestionPlaceholder) ==> Fill(prompt, x) == prompt
  {
    if Contains(prompt, QuestionPlaceholder) {
      ReplacePresent(prompt, QuestionPlaceholder, x);
    } else {
      ReplaceAbsent(prompt, QuestionPlaceholder, x);
    }
  }

  /** The length of the run of digits that starts at `i`. */
  function DigitRun(s: string, i: nat): (n: nat)
    requires i <= |s|
    ensures i + n <= |s|
    ensures forall k :: i <= k < i + n ==> IsDigit(s[k])
    ensures i + n < |s| ==> !IsDigit(s[i + n])
    decreases |s| - i
  {
    if i < |s| && IsDigit(s[i]) then 1 + DigitRun(s, i + 1) else 0
  }

  /** A comma followed by a digit starts at `j`. */
  predicate CommaGroupAt(s: string, j: nat)
  {
    j + 1 < |s| && s[j] == ',' && IsDigit(s[j + 1])
  }

  /** A number: digits and commas, starting with a digit. */
  predicate NumberShaped(m: string)
  {
    |m| > 0 && IsDigit(m[0]) && forall k :: 0 <= k < |m| ==> IsDigit(m[k]) || m[k] == ','
  }

  /**
   * Where the match that starts at the digit `i` ends. With `repeated`
   * false this is the pattern `\d+(?:,\d+)?`: a run of digits and at most
   * one further comma group; with `repeated` true it is `\d+(?:,\d+)*`,
   * which takes every comma group. Both are greedy, and the match always
   * stops before a digit.
   */
  function NumberEnd(s: string, i: nat, repeated: bool): (e: nat)
    requires i < |s| && IsDigit(s[i])
    ensures i < e <= |s|
    ensures e < |s| ==> !IsDigit(s[e])
    ensures forall k :: i <= k < e ==> IsDigit(s[k]) || s[k] == ','
    decreases |s| - i
  {
    var j := i + DigitRun(s, i);
    if !CommaGroupAt(s, j) then j
    else if repeated then NumberEnd(s, j + 1, true)
    else j + 1 + DigitRun(s, j + 1)
  }

  /** `re.findall` of that pattern over `s[i:]`: the matches, left to right, without overlap. */
  function Numbers(s: string, i: nat, repeated: bool): (ms: seq<string>)
    requires i <= |s|
    ensures forall k :: 0 <= k < |ms| ==> NumberShaped(ms[k])
    decreases |s| - i
  {
    if i == |s| then []
    else if IsDigit(s[i]) then
      var e := NumberEnd(s, i, repeated);
      [s[i..e]] + Numbers(s, e, repeated)
    else Numbers(s, i + 1, repeated)
  }

  /** There are no matches exactly when no digit occurs. */
  lemma {:induction false} NumbersEmptyIff(s: string, i: nat, repeated: bool)
    requires i <= |s|
    ensures Numbers(s, i, repeated) == [] <==> forall k :: i <= k < |s| ==> !IsDigit(s[k])
    decreases |s| - i
  {
    if i < |s| && !IsDigit(s[i]) {
      NumbersEmptyIff(s, i + 1, repeated);
    }
  }

  /** `s.replace(",", "")`. */
  function WithoutCommas(s: string): string
  {
    ReplaceAll(s, ",", "")
  }

  /** Dropping the commas of a text drops its first character when that is a comma and keeps it otherwise. */
  lemma WithoutCommasCons(m: string)
    requires |m| > 0
    ensures WithoutCommas(m) == (if m[0] == ',' then "" else [m[0]]) + WithoutCommas(m[1..])
  {
    if m[0] == ',' {
      assert "," <= m;
    } else {
      assert !("," <= m);
    }
  }

  /** Dropping the commas of a number leaves its digits, starting with its first. */
  lemma {:induction false} WithoutCommasDigits(m: string)
    requires forall k :: 0 <= k < |m| ==> IsDigit(m[k]) || m[k] == ','
    ensures var r := WithoutCommas(m);
      (forall k :: 0 <= k < |r| ==> IsDigit(r[k]))
      && (|m| > 0 && m[0] != ',' ==> |r| > 0 && r[0] == m[0])
    decreases |m|
  {
    if |m| > 0 {
      var rest := m[1..];
      assert forall k :: 0 <= k < |rest| ==> rest[k] == m[k + 1];
      WithoutCommasDigits(rest);
      WithoutCommasCons(m);
      var front: string := if m[0] == ',' then "" else [m[0]];
      var r := front + WithoutCommas(rest);
      forall k | 0 <= k < |r|
        ensures IsDigit(r[k])
      {
        if k >= |front| {
          assert r[k] == WithoutCommas(rest)[k - |front|];
        }
      }
    }
  }

  /** A text that is all digits has no comma to drop. */
  lemma WithoutCommasNoop(m: string)
    requires forall k :: 0 <= k < |m| ==> IsDigit(m[k])
    ensures WithoutCommas(m) == m
  {
    forall i | 0 <= i < |m|
      ensures !OccursAt(m, ",", i)
    {
      assert m[i] != ',';
    }
    ReplaceAbsent(m, ",", "");
  }

  /** The label read from a text: the last number in it, without commas; `None` when there is no digit. */
  function LabelFrom(found: string, repeated: bool): (r: Option<string>)
    ensures r.None? <==> forall k :: 0 <= k < |found| ==> !IsDigit(found[k])
    ensures r.Some? ==> r.value != [] && forall k :: 0 <= k < |r.value| ==> IsDigit(r.value[k])
  {
    NumbersEmptyIff(found, 0, repeated);
    var ms := Numbers(found, 0, repeated);
    if ms == [] then None
    else
      WithoutCommasDigits(ms[|ms| - 1]);
      Some(WithoutCommas(ms[|ms| - 1]))
  }

  /**
   * `parse_label`: the answer tag's content when it is present and non-empty,
   * else the whole generation; then the last match of `\d+(?:,\d+)?` in it,
   * without commas. There is a label exactly when a digit occurs, and it is
   * all digits.
   */
  function ParseLabel(generation: string): (r: Option<string>)
    ensures r.None? <==> forall k :: 0 <= k < |TagOrRaw(generation, "answer")| ==> !IsDigit(TagOrRaw(generation, "answer")[k])
    ensures r.Some? ==> r.value != [] && forall k :: 0 <= k < |r.value| ==> IsDigit(r.value[k])
  {
    LabelFrom(TagOrRaw(generation, "answer"), false)
  }

  /**
   * `parse_label` with the pattern `\d+(?:,\d+)*`, which matches every
   * thousands group of a numeral: the same label condition, but a numeral
   * is read whole (`NumeralLabel`).
   */
  function ParseLabelCorrected(generation: string): (r: Option<string>)
    ensures r.None? <==> forall k :: 0 <= k < |TagOrRaw(generation, "answer")| ==> !IsDigit(TagOrRaw(generation, "answer")[k])
    ensures r.Some? ==> r.value != [] && forall k :: 0 <= k < |r.value| ==> IsDigit(r.value[k])
  {
    LabelFrom(TagOrRaw(generation, "answer"), true)
  }

  /** `GsmTaskPrompt.parse`: the label, with the whole generation kept as the reasoning. */
  function Parse(generation: string): (r: Output)
    ensures r.reasoning == generation && r.labelText == ParseLabel(generation)
  {
    Output(ParseLabel(generation), generation)
  }

  /** A number written with thousands separators: digit groups joined by single commas. */
  predicate Numeral(s: string)
  {
    NumberShaped(s) && IsDigit(s[|s| - 1])
    && forall k :: 0 <= k < |s| - 1 ==> s[k] == ',' ==> IsDigit(s[k + 1])
  }

  /** Inside a numeral, the repeated pattern runs to its end. */
  lemma {:induction false} NumeralEnd(s: string, i: nat)
    requires Numeral(s) && i < |s| && IsDigit(s[i])
    ensures NumberEnd(s, i, true) == |s|
    decreases |s| - i
  {
    var j := i + DigitRun(s, i);
    if j < |s| {
      assert s[j] == ',';
      assert CommaGroupAt(s, j);
      NumeralEnd(s, j + 1);
    }
  }

  /** A text that is one numeral is read as that number without its separators. */
  lemma NumeralLabel(s: string)
    requires Numeral(s)
    ensures LabelFrom(s, true) == Some(WithoutCommas(s))
  {
    NumeralEnd(s, 0);
    assert s[0..|s|] == s;
    assert Numbers(s, 0, true) == [s];
  }

  /** Without commas both patterns find the same matches. */
  lemma {:induction false} NumbersAgreeWithoutCommas(s: string, i: nat)
    requires i <= |s| && ',' !in s
    ensures Numbers(s, i, false) == Numbers(s, i, true)
    decreases |s| - i
  {
    assert forall k :: 0 <= k < |s| ==> s[k] != ',';
    if i < |s| {
      if IsDigit(s[i]) {
        NumbersAgreeWithoutCommas(s, NumberEnd(s, i, false));
      } else {
        NumbersAgreeWithoutCommas(s, i + 1);
      }
    }
  }

  /** The program's reading and the corrected one differ only on answers with a comma. */
  lemma ReadingsAgreeWithoutCommas(generation: string)
    requires ',' !in TagOrRaw(generation, "answer")
    ensures ParseLabel(generation) == ParseLabelCorrected(generation)
  {
    NumbersAgreeWithoutCommas(TagOrRaw(generation, "answer"), 0);
  }

  /** A final answer with two thousands separators. */
  const Millions := "1,234,567"

  lemma MillionsIsRaw()
    ensures TagOrRaw(Millions, "answer") == Millions
  {
    assert '<' !in Millions;
    if Contains(Millions, OpenTag("answer")) {
      ContainsChar(Millions, OpenTag("answer"), 0);
      ContainsCharIff(Millions, '<');
    }
  }

  /** As written, the pattern finds "1,234" and then "567". */
  lemma MillionsMatchedAsWritten()
    ensures Numbers(Millions, 0, false) == [Millions[0..5], Millions[6..9]]
  {
    var s := Millions;
    assert DigitRun(s, 9) == 0;
    assert DigitRun(s, 6) == 3;
    assert NumberEnd(s, 6, false) == 9;
    assert Numbers(s, 9, false) == [];
    assert Numbers(s, 5, false) == [s[6..9]];
    assert DigitRun(s, 5) == 0;
    assert DigitRun(s, 2) == 3;
    assert DigitRun(s, 1) == 0;
    assert DigitRun(s, 0) == 1;
    assert NumberEnd(s, 0, false) == 5;
  }

  /** Dropping commas works piece by piece. */
  lemma {:induction false} WithoutCommasAppend(a: string, b: string)
    ensures WithoutCommas(a + b) == WithoutCommas(a) + WithoutCommas(b)
    decreases |a|
  {
    if a == [] {
      assert [] + b == b;
    } else {
      WithoutCommasAppend(a[1..], b);
      assert (a + b)[1..] == a[1..] + b;
      WithoutCommasCons(a);
      WithoutCommasCons(a + b);
      var front: string := if a[0] == ',' then "" else [a[0]];
      AppendAssoc(front, WithoutCommas(a[1..]), WithoutCommas(b));
    }
  }

  /** Three comma-separated groups of digits lose their two commas. */
  lemma WithoutCommasGroups(a: string, b: string, c: string)
    requires forall k :: 0 <= k < |a| ==> IsDigit(a[k])
    requires forall k :: 0 <= k < |b| ==> IsDigit(b[k])
    requires forall k :: 0 <= k < |c| ==> IsDigit(c[k])
    ensures WithoutCommas(a + "," + b + "," + c) == a + b + c
  {
    WithoutCommasAppend(a + "," + b + ",", c);
    WithoutCommasAppend(a + "," + b, ",");
    WithoutCommasAppend(a + ",", b);
    WithoutCommasAppend(a, ",");
    WithoutCommasNoop(a);
    WithoutCommasNoop(b);
    WithoutCommasNoop(c);
    WithoutCommasCons(",");
    assert ","[1..] == [];
  }

  lemma MillionsWithoutCommas()
    ensures WithoutCommas(Millions) == "1234567"
  {
    var one, two, three := "1", "234", "567";
    assert Millions == one + "," + two + "," + three;
    WithoutCommasGroups(one, two, three);
    assert one + two + three == "1234567";
  }

  lemma MillionsNumeral()
    ensures Numeral(Millions)
  {
    var s := Millions;
    assert IsDigit(s[0]) && IsDigit(s[2]) && IsDigit(s[6]) && IsDigit(s[8]);
    assert forall k :: 0 <= k < |s| ==> IsDigit(s[k]) || s[k] == ',';
  }

  lemma MillionsAsWritten()
    ensures ParseLabel(Millions) == Some("567")
  {
    MillionsIsRaw();
    MillionsMatchedAsWritten();
    MillionsLastGroup();
  }

  lemma MillionsLastGroup()
    ensures Millions[6..9] == "567" && WithoutCommas("567") == "567"
  {
    WithoutCommasNoop("567");
  }

  lemma MillionsWithEveryGroup()
    ensures ParseLabelCorrected(Millions) == Some("1234567")
  {
    MillionsIsRaw();
    MillionsNumeral();
    NumeralLabel(Millions);
    MillionsWithoutCommas();
  }

  /** As written, "1,234,567" is read as "567"; with every group it is read as 1234567. */
  lemma ParseLabelAsWrittenDropsMillions()
    ensures ParseLabel(Millions) == Some("567")
    ensures ParseLabelCorrected(Millions) == Some("1234567")
  {
    MillionsAsWritten();
    MillionsWithEveryGroup();
  }

  // ---------------------------------------------------------------------
  // experiments/gsm/meta_prompt_critique.py

  const CritiqueHead := "Your task is to generate the instruction <instruction> for "

  const ExamplesHeader := ".\n\nBelow are some examples:\n"

  const CritiqueMiddle := "\n\nBelow are some previous instructions with their scores and critiques.\n"

  const CritiqueSteps :=
    "\n\nGenerate an instruction that is different from all the instructions above, and has a higher score than all the instructions above.\n"
    + "It should be concise, effective, and generally applicable to all examples above.\n\n"
    + "Draft your new instruction step by step:\n\n"
    + "1. Compare high-score instructions to low-score ones, identify what suggestions could have improved them. List them in <suggestion> tags.\n"
    + "2. Apply the suggestions and draft a new instruction aiming for a higher score.\n"
    + "3. Be creative and vary the wording, paraphrase, position of "

  const CritiqueEnd :=
    ", phrase order, grammar, sentence order, which specific examples to give, etc.\n"
    + "4. Write your final new instruction in <instruction> tags."

  /** The class attribute `task`. */
  const GsmTask := "grade school math word problems"

  /** `_E`: the question and the gold label; the reasoning is not shown. */
  function ExampleBlock(e: LabelledExample): (r: string)
    ensures Contains(r, e.x) && Contains(r, LabelText(e.y.labelText))
  {
    var a := "<example>\n<instruction>?</instruction>\n<input>\n";
    var b := "\n</input>\n<output>\n";
    var c := "\n</output>\n</example>";
    var l := LabelText(e.y.labelText);
    ContainsSelf(e.x);
    ContainsSelf(l);
    ContainsRight(a, e.x, e.x);
    ContainsLeft(a + e.x, b, e.x);
    ContainsLeft(a + e.x + b, l, e.x);
    ContainsRight(a + e.x + b, l, l);
    ContainsLeft(a + e.x + b + l, c, e.x);
    ContainsLeft(a + e.x + b + l, c, l);
    a + e.x + b + l + c
  }

  /** Changing an example's reasoning does not change its block. */
  lemma ExampleBlockIgnoresReasoning(e: LabelledExample, why: string)
    ensures ExampleBlock(e) == ExampleBlock(e.(y := e.y.(reasoning := why)))
  {
  }

  /**
   * The CriSPO meta-prompt `_P` formatted with the task, the example blocks
   * and the zipped rated instructions with their critiques (each group
   * joined by newlines) and the placeholder's name.
   */
  function CritiqueMetaText(task: string, pairs: seq<(string, Rating)>, fewShot: seq<LabelledExample>,
                            critiques: seq<Option<string>>): string
  {
    CritiqueHead + task + ExamplesHeader + Join(Map(fewShot, ExampleBlock), "\n") + CritiqueMiddle
    + Join(Map(Zip(pairs, critiques), Optimizer.RatedWithCritique), "\n") + CritiqueSteps + QuestionPlaceholder + CritiqueEnd
  }

  /** `GsmCritiqueMetaPrompt.fill`, for the instance's `task`. */
  method CritiqueMetaFill(task: string, pairs: seq<(string, Rating)>, fewShot: seq<LabelledExample>,
                          critiques: seq<Option<string>>) returns (r: string)
    ensures r == CritiqueMetaText(task, pairs, fewShot, critiques)
  {
    var examples := MapEach(fewShot, ExampleBlock);
    var instructions := MapEach(Zip(pairs, critiques), Optimizer.RatedWithCritique);
    r := CritiqueHead + task + ExamplesHeader + Join(examples, "\n") + CritiqueMiddle
      + Join(instructions, "\n") + CritiqueSteps + QuestionPlaceholder + CritiqueEnd;
  }

  /** The meta-prompt states the task and names the placeholder. */
  lemma CritiqueMetaNamesTask(task: string, pairs: seq<(string, Rating)>, fewShot: seq<LabelledExample>,
                              critiques: seq<Option<string>>)
    ensures var t := CritiqueMetaText(task, pairs, fewShot, critiques);
      CritiqueHead + task + ExamplesHeader <= t && Contains(t, QuestionPlaceholder)
  {
    var ex := Join(Map(fewShot, ExampleBlock), "\n");
    var ins := Join(Map(Zip(pairs, critiques), Optimizer.RatedWithCritique), "\n");
    var pre := CritiqueHead + task + ExamplesHeader + ex + CritiqueMiddle + ins + CritiqueSteps;
    ContainsSelf(QuestionPlaceholder);
    ContainsInfix(pre, QuestionPlaceholder, CritiqueEnd, QuestionPlaceholder);
    PrefixOfLonger(CritiqueHead + task + ExamplesHeader, ex, CritiqueMiddle, ins, CritiqueSteps, QuestionPlaceholder, CritiqueEnd);
  }

  lemma PrefixOfLonger(h: string, a: string, b: string, c: string, d: string, e: string, f: string)
    ensures h <= h + a + b + c + d + e + f
  {
    assert (h + a + b + c + d + e + f)[..|h|] == h;
  }

  /** The meta-prompt shows every example's block. */
  lemma CritiqueMetaShowsExamples(task: string, pairs: seq<(string, Rating)>, fewShot: seq<LabelledExample>,
                                  critiques: seq<Option<string>>, k: nat)
    requires k < |fewShot|
    ensures Contains(CritiqueMetaText(task, pairs, fewShot, critiques), ExampleBlock(fewShot[k]))
  {
    var ex := Join(Map(fewShot, ExampleBlock), "\n");
    var ins := Join(Map(Zip(pairs, critiques), Optimizer.RatedWithCritique), "\n");
    var b := ExampleBlock(fewShot[k]);
    var head := CritiqueHead + task + ExamplesHeader;
    JoinContains(Map(fewShot, ExampleBlock), "\n", k);
    ContainsRight(head, ex, b);
    ContainsLeft(head + ex, CritiqueMiddle, b);
    ContainsLeft(head + ex + CritiqueMiddle, ins, b);
    ContainsLeft(head + ex + CritiqueMiddle + ins, CritiqueSteps, b);
    ContainsLeft(head + ex + CritiqueMiddle + ins + CritiqueSteps, QuestionPlaceholder, b);
    ContainsLeft(head + ex + CritiqueMiddle + ins + CritiqueSteps + QuestionPlaceholder, CritiqueEnd, b);
  }

  /** The meta-prompt shows every zipped instruction with its score and critique. */
  lemma CritiqueMetaShowsRatings(task: string, pairs: seq<(string, Rating)>, fewShot: seq<LabelledExample>,
                                 critiques: seq<Option<string>>, k: nat)
    requires k < |pairs| && k < |critiques|
    ensures Contains(CritiqueMetaText(task, pairs, fewShot, critiques),
                     Optimizer.FormatInstruction(pairs[k].0, pairs[k].1, critiques[k]))
  {
    var ex := Join(Map(fewShot, ExampleBlock), "\n");
    var zipped := Zip(pairs, critiques);
    var ins := Join(Map(zipped, Optimizer.RatedWithCritique), "\n");
    var b := Optimizer.FormatInstruction(pairs[k].0, pairs[k].1, critiques[k]);
    var pre := CritiqueHead + task + ExamplesHeader + ex + CritiqueMiddle;
    assert zipped[k] == (pairs[k], critiques[k]);
    JoinContains(Map(zipped, Optimizer.RatedWithCritique), "\n", k);
    ContainsRight(pre, ins, b);
    ContainsLeft(pre + ins, CritiqueSteps, b);
    ContainsLeft(pre + ins + CritiqueSteps, QuestionPlaceholder, b);
    ContainsLeft(pre + ins + CritiqueSteps + QuestionPlaceholder, CritiqueEnd, b);
  }

  /**
   * `GsmCritiqueMetaPrompt.parse`: no prompt when the instruction is missing
   * or empty; otherwise the instruction, with a blank line and the
   * placeholder appended when it lacks the placeholder.
   */
  function CritiqueMetaParse(generation: string): (r: Option<string>)
    ensures r.None? <==> NonEmptyTag(generation, "instruction").None?
    ensures r.Some? ==> var inst := NonEmptyTag(generation, "instruction").value;
      inst <= r.value && Contains(r.value, QuestionPlaceholder)
      && (Contains(inst, QuestionPlaceholder) ==> r.value == inst)
  {
    match NonEmptyTag(generation, "instruction")
    case None => None
    case Some(inst) =>
      ContainsSelf(QuestionPlaceholder);
      ContainsRight("\n\n", QuestionPlaceholder, QuestionPlaceholder);
      AppendIfMissingMeaning(inst, QuestionPlaceholder, "\n\n" + QuestionPlaceholder);
      Some(AppendIfMissing(inst, QuestionPlaceholder, "\n\n" + QuestionPlaceholder))
  }

  // ---------------------------------------------------------------------
  // experiments/gsm/dataset.py

  /** The split actually read and the sample count: "validation" reads the tail of "train". */
  function SplitPlan(split: string, n: int): (r: (string, int))
    ensures split == "validation" ==> r == ("train", -n)
    ensures split != "validation" ==> r == (split, n)
  {
    if split == "validation" then ("train", -n) else (split, n)
  }

  /**
   * The indices selected: `range(n)` when `n > 0`, else
   * `range(len + n, len)`, the last `-n` positions.
   */
  function SampleIndices(n: int, len: nat): (r: seq<int>)
    ensures |r| == Abs(n)
    ensures n > 0 ==> forall i :: 0 <= i < |r| ==> r[i] == i
    ensures n <= 0 ==> forall i :: 0 <= i < |r| ==> r[i] == len + n + i
  {
    if n > 0 then seq(n, i => i) else seq(-n, i => len + n + i)
  }

  /** For a dataset at least as long as the sample, the indices are in range and distinct. */
  lemma SampleIndicesInRange(n: int, len: nat)
    requires Abs(n) <= len
    ensures var r := SampleIndices(n, len);
      (forall i :: 0 <= i < |r| ==> 0 <= r[i] < len)
      && (forall i, j :: 0 <= i < j < |r| ==> r[i] < r[j])
  {
  }

  const AnswerSeparator := "####"

  /** Where a calculator annotation that opens before `k` closes: the first `>>` from `k` on this line. */
  function CalcClose(s: string, k: nat): (r: Option<nat>)
    requires k <= |s|
    ensures r.Some? ==> k <= r.value && r.value + 2 <= |s| && s[r.value] == '>' && s[r.value + 1] == '>'
    decreases |s| - k
  {
    if k + 2 > |s| then None
    else if s[k] == '>' && s[k + 1] == '>' then Some(k)
    else if s[k] == '\n' then None
    else CalcClose(s, k + 1)
  }

  /**
   * `re.sub("<<.*?>>", "", s)`: every `<<`, together with the shortest text
   * up to the next `>>` on the same line, is removed; a `<<` without a
   * closing `>>` on its line stays.
   */
  function RemoveCalc(s: string): (r: string)
    ensures |r| <= |s|
    decreases |s|
  {
    if s == [] then []
    else if |s| >= 2 && s[0] == '<' && s[1] == '<' && CalcClose(s, 2).Some? then
      RemoveCalc(s[CalcClose(s, 2).value + 2..])
    else [s[0]] + RemoveCalc(s[1..])
  }

  /** A closing `>>` right after text without `>` or a line break is the one found. */
  lemma {:induction false} CalcCloseAfter(s: string, k: nat, e: string)
    requires k + |e| + 2 <= |s| && s[k..k + |e|] == e && s[k + |e|] == '>' && s[k + |e| + 1] == '>'
    requires '>' !in e && '\n' !in e
    ensures CalcClose(s, k) == Some(k + |e|)
    decreases |e|
  {
    if |e| > 0 {
      assert s[k] == e[0];
      assert s[k + 1..k + 1 + |e[1..]|] == e[1..];
      CalcCloseAfter(s, k + 1, e[1..]);
    }
  }

  /**
   * Text without `<` is kept, and an annotation `<<e>>` whose expression
   * has no `>` and no line break is removed.
   */
  lemma {:induction false} RemoveCalcAnnotation(p: string, e: string, q: string)
    requires '<' !in p && '>' !in e && '\n' !in e
    ensures RemoveCalc(p + ("<<" + e + ">>" + q)) == p + RemoveCalc(q)
    decreases |p|
  {
    var rest := "<<" + e + ">>" + q;
    if p == [] {
      assert p + rest == rest;
      assert rest[2..2 + |e|] == e;
      CalcCloseAfter(rest, 2, e);
      assert rest[|e| + 4..] == q;
    } else {
      RemoveCalcAnnotation(p[1..], e, q);
      assert (p + rest)[1..] == p[1..] + rest;
      assert (p + rest)[0] == p[0];
      AppendAssoc([p[0]], p[1..], RemoveCalc(q));
      assert [p[0]] + p[1..] == p;
    }
  }

  /**
   * One record of the dataset: the answer is split at the first "####"
   * (none fails the unpacking, here `None`); the label is the stripped text
   * after it without commas, the reasoning the stripped text before it
   * without calculator annotations.
   */
  function ParseRecord(question: string, answer: string): (r: Option<LabelledExample>)
    ensures r.None? <==> !Contains(answer, AnswerSeparator)
    ensures r.Some? ==> (r.value.x == question && r.value.y.labelText.Some?
                         && !Contains(r.value.y.labelText.value, ","))
  {
    var at := Find(answer, AnswerSeparator);
    FindIffContains(answer, AnswerSeparator);
    if at < 0 then None
    else
      var reasoning := answer[..at];
      var answerText := answer[at + |AnswerSeparator|..];
      WithoutCommasHasNone(Strip(answerText));
      Some(LabelledExample(question, Output(Some(WithoutCommas(Strip(answerText))), RemoveCalc(Strip(reasoning)))))
  }

  /** After dropping commas none is left. */
  lemma {:induction false} WithoutCommasHasNone(m: string)
    ensures !Contains(WithoutCommas(m), ",")
    decreases |m|
  {
    var r := WithoutCommas(m);
    if |m| > 0 {
      WithoutCommasHasNone(m[1..]);
      var rest := WithoutCommas(m[1..]);
      if "," <= m {
        assert r == rest;
      } else {
        assert m[0] != ',';
        assert r == [m[0]] + rest;
        if Contains(r, ",") {
          var i :| 0 <= i <= |r| && OccursAt(r, ",", i);
          assert i > 0;
          assert rest[i - 1..] == r[i..];
          assert OccursAt(rest, ",", i - 1);
        }
      }
    }
  }

  /** A solution "reasoning#### label" with a clean reasoning yields that reasoning and label. */
  lemma ParseRecordShape(question: string, reasoning: string, answerText: string)
    requires '#' !in reasoning && '<' !in reasoning && IsStripped(reasoning)
    requires IsStripped(answerText) && forall k :: 0 <= k < |answerText| ==> IsDigit(answerText[k])
    ensures ParseRecord(question, reasoning + AnswerSeparator + " " + answerText)
      == Some(LabelledExample(question, Output(Some(answerText), reasoning)))
  {
    var rest := " " + answerText;
    var answer := reasoning + AnswerSeparator + rest;
    AppendAssoc(reasoning + AnswerSeparator, " ", answerText);
    SeparatorFirst(reasoning, rest);
    StripNoop(reasoning);
    StripOneSpace(answerText);
    WithoutCommasNoop(answerText);
    RemoveCalcPlain(reasoning);
  }

  /** Reasoning without `#` ends at the first separator: the split gives it back, and the rest after it. */
  lemma SeparatorFirst(reasoning: string, rest: string)
    requires '#' !in reasoning
    ensures var answer := reasoning + AnswerSeparator + rest;
      Find(answer, AnswerSeparator) == |reasoning|
      && answer[..|reasoning|] == reasoning && answer[|reasoning| + |AnswerSeparator|..] == rest
  {
    var answer := reasoning + AnswerSeparator + rest;
    assert OccursAt(answer, AnswerSeparator, |reasoning|) by {
      assert answer[|reasoning|..] == AnswerSeparator + rest;
    }
    forall j | 0 <= j < |reasoning|
      ensures !OccursAt(answer, AnswerSeparator, j)
    {
      assert answer[j] == reasoning[j] != '#';
    }
    assert answer[..|reasoning|] == reasoning;
  }

  /** One leading space before a stripped text is stripped away. */
  lemma StripOneSpace(text: string)
    requires IsStripped(text)
    ensures Strip(" " + text) == text
  {
    assert LeadingSpaces(" " + text) == 1 + LeadingSpaces(text);
    assert LeadingSpaces(text) == 0;
    assert (" " + text)[1..] == text;
    StripNoop(text);
  }

  /** Text without `<` has no annotation to remove. */
  lemma {:induction false} RemoveCalcPlain(s: string)
    requires '<' !in s
    ensures RemoveCalc(s) == s
    decreases |s|
  {
    if s != [] {
      RemoveCalcPlain(s[1..]);
      assert s == [s[0]] + s[1..];
    }
  }

  /**
   * The records at the given indices, each read by `parse`, in order: an
   * index outside the dataset fails the `select`, a record `parse` rejects
   * fails the load.
   */
  function LoadAll<R, T>(records: seq<R>, indices: seq<int>, parse: R -> Option<T>): (r: Option<seq<T>>)
    ensures r.Some? ==> |r.value| == |indices|
  {
    if indices == [] then Some([])
    else
      match LoadAll(records, indices[..|indices| - 1], parse)
      case None => None
      case Some(prev) =>
        var at := indices[|indices| - 1];
        if !(0 <= at < |records|) then None
        else
          match parse(records[at])
          case None => None
          case Some(e) => Some(prev + [e])
  }

  /** The record at `at` exists and `parse` accepts it. */
  predicate Loads<R, T>(records: seq<R>, parse: R -> Option<T>, at: int)
  {
    0 <= at < |records| && parse(records[at]).Some?
  }

  /** The load fails exactly when some selected record is missing or rejected. */
  lemma {:induction false} LoadAllNoneIff<R, T>(records: seq<R>, indices: seq<int>, parse: R -> Option<T>)
    ensures LoadAll(records, indices, parse).None? <==> exists i :: 0 <= i < |indices| && !Loads(records, parse, indices[i])
    decreases |indices|
  {
    if indices != [] {
      var last := |indices| - 1;
      var front := indices[..last];
      LoadAllNoneIff(records, front, parse);
      if LoadAll(records, front, parse).None? {
        var i :| 0 <= i < |front| && !Loads(records, parse, front[i]);
        assert indices[i] == front[i];
      } else if LoadAll(records, indices, parse).Some? {
        forall i | 0 <= i < |indices|
          ensures Loads(records, parse, indices[i])
        {
          if i < last {
            assert indices[i] == front[i];
          }
        }
      }
    }
  }

  /** A successful load holds, at each position, the parse of the selected record. */
  lemma {:induction false} LoadAllElements<R, T>(records: seq<R>, indices: seq<int>, parse: R -> Option<T>)
    requires LoadAll(records, indices, parse).Some?
    ensures forall i :: 0 <= i < |indices| ==>
      0 <= indices[i] < |records| && Some(LoadAll(records, indices, parse).value[i]) == parse(records[indices[i]])
    decreases |indices|
  {
    if indices != [] {
      var last := |indices| - 1;
      var front := indices[..last];
      LoadAllElements(records, front, parse);
      var prev := LoadAll(records, front, parse).value;
      var r := LoadAll(records, indices, parse).value;
      assert r[..last] == prev;
      forall i | 0 <= i < last
        ensures 0 <= indices[i] < |records| && Some(r[i]) == parse(records[indices[i]])
      {
        assert indices[i] == front[i] && r[i] == prev[i];
      }
    }
  }

  /** One more selected index: its record, when it exists and `parse` accepts it, joins the examples. */
  lemma LoadAllStep<R, T>(records: seq<R>, indices: seq<int>, parse: R -> Option<T>, i: nat, prev: seq<T>)
    requires i < |indices| && LoadAll(records, indices[..i], parse) == Some(prev)
    ensures LoadAll(records, indices[..i + 1], parse)
            == if Loads(records, parse, indices[i]) then Some(prev + [parse(records[indices[i]]).value]) else None
  {
    assert indices[..i + 1][..i] == indices[..i];
  }

  /** Once a prefix of the selection fails to load, the whole selection fails. */
  lemma {:induction false} LoadAllPrefixNone<R, T>(records: seq<R>, indices: seq<int>, parse: R -> Option<T>, k: nat)
    requires k <= |indices| && LoadAll(records, indices[..k], parse).None?
    ensures LoadAll(records, indices, parse).None?
    decreases |indices| - k
  {
    if k == |indices| {
      assert indices[..k] == indices;
    } else {
      assert indices[..k + 1][..k] == indices[..k];
      LoadAllPrefixNone(records, indices, parse, k + 1);
    }
  }

  /** One record of the GSM8K dataset, a question and its worked solution. */
  function ParseGsmRecord(record: (string, string)): Option<LabelledExample>
  {
    ParseRecord(record.0, record.1)
  }

  /** The GSM8K record at `at` exists and has a final answer. */
  predicate RecordLoads(records: seq<(string, string)>, at: int)
  {
    0 <= at < |records| && Contains(records[at].1, AnswerSeparator)
  }

  /**
   * Loading GSM8K fails exactly when a selected record is missing or lacks
   * "####"; otherwise every example is the parsed record at its index.
   */
  lemma GsmLoadMeaning(records: seq<(string, string)>, indices: seq<int>)
    ensures LoadAll(records, indices, ParseGsmRecord).None? <==> exists i :: 0 <= i < |indices| && !RecordLoads(records, indices[i])
    ensures LoadAll(records, indices, ParseGsmRecord).Some? ==>
      forall i :: 0 <= i < |indices| ==>
        Some(LoadAll(records, indices, ParseGsmRecord).value[i]) == ParseRecord(records[indices[i]].0, records[indices[i]].1)
  {
    LoadAllNoneIff(records, indices, ParseGsmRecord);
    forall at: int
      ensures Loads(records, ParseGsmRecord, at) <==> RecordLoads(records, at)
    {
    }
    if LoadAll(records, indices, ParseGsmRecord).Some? {
      LoadAllElements(records, indices, ParseGsmRecord);
    }
  }

  /**
   * `load_gsm8k` after the dataset is read and shuffled: the records at the
   * indices the sample size selects, parsed one by one.
   */
  method LoadGsm(records: seq<(string, string)>, n: int) returns (r: Option<seq<LabelledExample>>)
    ensures r == LoadAll(records, SampleIndices(n, |records|), ParseGsmRecord)
  {
    var indices := SampleIndices(n, |records|);
    var examples := [];
    var i := 0;
    while i < |indices|
      invariant i <= |indices|
      invariant LoadAll(records, indices[..i], ParseGsmRecord) == Some(examples)
    {
      LoadAllStep(records, indices, ParseGsmRecord, i, examples);
      var at := indices[i];
      if !Loads(records, ParseGsmRecord, at) {
        LoadAllPrefixNone(records, indices, ParseGsmRecord, i + 1);
        return None;
      }
      examples := examples + [ParseGsmRecord(records[at]).value];
      i := i + 1;
    }
    assert indices[..i] == indices;
    r := Some(examples);
  }
}
