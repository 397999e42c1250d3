/**
 * The reading comprehension experiments (NarrativeQA): a question about a
 * context document with two reference answers. The task prompt is a
 * template with a context and a question placeholder; the OPRO meta-prompt
 * shows examples with both references; the critique meta-prompt adds the
 * critiques; the critic only sees the examples the prediction got wrong.
 */
module NarrativeQa {
  import opened Wrappers
  import opened Text
  import opened Formatting
  import opened Render
  import opened Task
  import opened PromptUtil
  import Optimizer
  import Assoc

  // ---------------------------------------------------------------------
  // experiments/narrativeqa/example.py and task_prompt.py

  /** `Input`: the context document and the question. */
  datatype Input = Input(context: string, question: string)

  /** `NarrativeQaExample`: the input and its reference answers. */
  datatype QaExample = QaExample(x: Input, y: seq<string>)

  const QuestionPlaceholder := "QUESTION_PLACEHOLDER"

  const ContextPlaceholder := "CONTEXT_PLACEHOLDER"

  const ReadHead := "\nRead the following context and question then write your answer in <answer> XML tags.\n\nContext: "

  /** The default task prompt `_P` (not stripped): the context line, then the question line. */
  const DefaultPrompt := ReadHead + ContextPlaceholder + "\nQuestion: " + QuestionPlaceholder + "\n"

  /** The default prompt has both placeholders, the context one first. */
  lemma DefaultPromptPlaceholders()
    ensures Contains(DefaultPrompt, ContextPlaceholder) && Contains(DefaultPrompt, QuestionPlaceholder)
  {
    ContainsSelf(ContextPlaceholder);
    ContainsSelf(QuestionPlaceholder);
    ContainsRight(ReadHead, ContextPlaceholder, ContextPlaceholder);
    ContainsLeft(ReadHead + ContextPlaceholder, "\nQuestion: ", ContextPlaceholder);
    ContainsLeft(ReadHead + ContextPlaceholder + "\nQuestion: ", QuestionPlaceholder, ContextPlaceholder);
    ContainsRight(ReadHead + ContextPlaceholder + "\nQuestion: ", QuestionPlaceholder, QuestionPlaceholder);
    ContainsLeft(ReadHead + ContextPlaceholder + "\nQuestion: " + QuestionPlaceholder, "\n", ContextPlaceholder);
    ContainsLeft(ReadHead + ContextPlaceholder + "\nQuestion: " + QuestionPlaceholder, "\n", QuestionPlaceholder);
  }

  /** `NarrativeQaTaskPrompt.fill`: every question placeholder is replaced, then every context placeholder. */
  function Fill(prompt: string, x: Input): string
  {
    ReplaceAll(ReplaceAll(prompt, QuestionPlaceholder, x.question), ContextPlaceholder, x.context)
  }

  /**
   * A prompt without placeholders is unchanged; a context placeholder that
   * survives the question step is replaced by the context; and because the
   * question goes in first, a context placeholder inside the question text
   * is replaced by the context as well.
   */
  lemma FillMeaning(prompt: string, x: Input)
    ensures var r := Fill(prompt, x);
      (!Contains(prompt, QuestionPlaceholder) && !Contains(prompt, ContextPlaceholder) ==> r == prompt)
      && (Contains(ReplaceAll(prompt, QuestionPlaceholder, x.question), ContextPlaceholder) ==> Contains(r, x.context))
      && (Contains(prompt, QuestionPlaceholder) && Contains(x.question, ContextPlaceholder) ==> Contains(r, x.context))
  {
    var afterQuestion := ReplaceAll(prompt, QuestionPlaceholder, x.question);
    if !Contains(prompt, QuestionPlaceholder) {
      ReplaceAbsent(prompt, QuestionPlaceholder, x.question);
      if !Contains(prompt, ContextPlaceholder) {
        ReplaceAbsent(prompt, ContextPlaceholder, x.context);
      }
    }
    if Contains(prompt, QuestionPlaceholder) && Contains(x.question, ContextPlaceholder) {
      ReplacePresent(prompt, QuestionPlaceholder, x.question);
      ContainsTrans(afterQuestion, x.question, ContextPlaceholder);
    }
    if Contains(afterQuestion, ContextPlaceholder) {
      ReplacePresent(afterQuestion, ContextPlaceholder, x.context);
    }
  }

  /**
   * The substitution order made visible: a prompt that is just the question
   * placeholder, filled with a question that is the context placeholder,
   * shows the context and not the question.
   */
  lemma FillQuestionFirst(context: string)
    ensures Fill(QuestionPlaceholder, Input(context, ContextPlaceholder)) == context
  {
    ReplaceWhole(QuestionPlaceholder, ContextPlaceholder);
    ReplaceWhole(ContextPlaceholder, context);
  }

  // ---------------------------------------------------------------------
  // experiments/narrativeqa/meta_prompt_opro.py

  /** The opening both meta-prompts share; the critique one goes on to name the task. */
  const InstructionRequest := "Your task is to generate the instruction <instruction>"

  const OproIntro := InstructionRequest + ".\n\nBelow are some examples:\n"

  const OproMiddle := "\n\nBelow are some previous instructions with their scores. The score ranges from 0 to 100.\n"

  const OproClosing :=
    "\n\nGenerate an instruction that is different from all the instructions above, and has a higher score than all the instructions above.\n"
    + "It should be concise, effective, and generally applicable to all examples above.\n\n"
    + "Write your final new instruction in <instruction> tags."

  /** The OPRO template `_P`, which is also the default of the meta-prompt's `prompt` field. */
  const OproTemplate: seq<Segment> := [Lit(OproIntro), Slot("examples"), Lit(OproMiddle), Slot("instructions"), Lit(OproClosing)]

  /** Reference answer `i`, when the example has one. */
  function Reference(e: QaExample, i: nat): string
  {
    if i < |e.y| then e.y[i] else ""
  }

  /** Every example has the two reference answers the blocks show (fewer raise `IndexError`). */
  predicate TwoReferences(examples: seq<QaExample>)
  {
    forall i :: 0 <= i < |examples| ==> |examples[i].y| >= 2
  }

  /** `_E`: the context, the question and the first two reference answers. */
  function ExampleBlock(e: QaExample): string
  {
    "<example>\n<instruction>?</instruction>\n<context>\n" + e.x.context + "\n</context>\n<question>\n" + e.x.question
    + "\n</question>\n<reference_answer_1>\n" + Reference(e, 0) + "\n</reference_answer_1>\n<reference_answer_2>\n"
    + Reference(e, 1) + "\n</reference_answer_2>\n</example>"
  }

  /** `format_examples`: one block per example, in order; an example with fewer than two references fails it. */
  method FormatExamples(fewShot: seq<QaExample>) returns (r: Option<seq<string>>)
    ensures r.None? <==> !TwoReferences(fewShot)
    ensures r.Some? ==> r.value == Map(fewShot, ExampleBlock)
  {
    var examples := [];
    var i := 0;
    while i < |fewShot|
      invariant i <= |fewShot|
      invariant TwoReferences(fewShot[..i])
      invariant examples == Map(fewShot[..i], ExampleBlock)
    {
      if |fewShot[i].y| < 2 {
        return None;
      }
      MapSnoc(fewShot, i, ExampleBlock);
      TwoReferencesStep(fewShot, i);
      examples := examples + [ExampleBlock(fewShot[i])];
      i := i + 1;
    }
    assert fewShot[..i] == fewShot;
    r := Some(examples);
  }

  lemma TwoReferencesStep(examples: seq<QaExample>, i: nat)
    requires i < |examples| && TwoReferences(examples[..i]) && |examples[i].y| >= 2
    ensures TwoReferences(examples[..i + 1])
  {
    var p := examples[..i + 1];
    forall j | 0 <= j < |p|
      ensures |p[j].y| >= 2
    {
      if j < i {
        assert examples[..i][j] == p[j];
      }
    }
  }

  /** An example block shows the context, the question and, given two references, both of them. */
  lemma ExampleBlockShows(e: QaExample)
    requires |e.y| >= 2
    ensures var b := ExampleBlock(e);
      Contains(b, e.x.context) && Contains(b, e.x.question) && Contains(b, e.y[0]) && Contains(b, e.y[1])
  {
    var a := "<example>\n<instruction>?</instruction>\n<context>\n";
    var c := "\n</context>\n<question>\n";
    var d := "\n</question>\n<reference_answer_1>\n";
    var f := "\n</reference_answer_1>\n<reference_answer_2>\n";
    var g := "\n</reference_answer_2>\n</example>";
    var ctx := e.x.context;
    var q := e.x.question;
    var r0 := e.y[0];
    var r1 := e.y[1];
    ContainsSelf(ctx);
    ContainsSelf(q);
    ContainsSelf(r0);
    ContainsSelf(r1);
    ContainsRight(a, ctx, ctx);
    ContainsLeft(a + ctx, c, ctx);
    ContainsLeft(a + ctx + c, q, ctx);
    ContainsRight(a + ctx + c, q, q);
    var s1 := a + ctx + c + q;
    ContainsLeft(s1, d, ctx);
    ContainsLeft(s1, d, q);
    ContainsLeft(s1 + d, r0, ctx);
    ContainsLeft(s1 + d, r0, q);
    ContainsRight(s1 + d, r0, r0);
    var s2 := s1 + d + r0;
    ContainsLeft(s2, f, ctx);
    ContainsLeft(s2, f, q);
    ContainsLeft(s2, f, r0);
    ContainsLeft(s2 + f, r1, ctx);
    ContainsLeft(s2 + f, r1, q);
    ContainsLeft(s2 + f, r1, r0);
    ContainsRight(s2 + f, r1, r1);
    var s3 := s2 + f + r1;
    ContainsLeft(s3, g, ctx);
    ContainsLeft(s3, g, q);
    ContainsLeft(s3, g, r0);
    ContainsLeft(s3, g, r1);
  }

  /** `_I`: the instruction and its score, a string score as it is and any other as a percentage. */
  function OproRating(pair: (string, Rating)): string
  {
    "<rated_instruction>\n" + Tagged("instruction", pair.0) + "\n" + Tagged("score", PercentUnlessStr(pair.1)) + "\n</rated_instruction>"
  }

  /** The OPRO meta-prompt: the examples and the rated instructions, each joined by newlines, in `_P`. */
  function OproText(pairs: seq<(string, Rating)>, fewShot: seq<QaExample>): string
  {
    OproIntro + Join(Map(fewShot, ExampleBlock), "\n") + OproMiddle + Join(Map(pairs, OproRating), "\n") + OproClosing
  }

  /** `NarrativeQaOproMetaPrompt.fill`: fails exactly when an example lacks a second reference. */
  method OproFill(pairs: seq<(string, Rating)>, fewShot: seq<QaExample>) returns (r: Option<string>)
    ensures r.None? <==> !TwoReferences(fewShot)
    ensures r.Some? ==> r.value == OproText(pairs, fewShot)
  {
    var examples := FormatExamples(fewShot);
    if examples.None? {
      return None;
    }
    var instructions := MapEach(pairs, OproRating);
    r := Some(OproIntro + Join(examples.value, "\n") + OproMiddle + Join(instructions, "\n") + OproClosing);
  }

  /** The OPRO meta-prompt shows every example block and every rated instruction. */
  lemma OproTextShows(pairs: seq<(string, Rating)>, fewShot: seq<QaExample>, k: nat)
    ensures var t := OproText(pairs, fewShot);
      (k < |fewShot| ==> Contains(t, ExampleBlock(fewShot[k])))
      && (k < |pairs| ==> Contains(t, OproRating(pairs[k])))
  {
    var ex := Join(Map(fewShot, ExampleBlock), "\n");
    var ins := Join(Map(pairs, OproRating), "\n");
    if k < |fewShot| {
      var block := ExampleBlock(fewShot[k]);
      JoinContains(Map(fewShot, ExampleBlock), "\n", k);
      ContainsRight(OproIntro, ex, block);
      ContainsLeft(OproIntro + ex, OproMiddle, block);
      ContainsLeft(OproIntro + ex + OproMiddle, ins, block);
      ContainsLeft(OproIntro + ex + OproMiddle + ins, OproClosing, block);
    }
    if k < |pairs| {
      JoinContains(Map(pairs, OproRating), "\n", k);
      ContainsInfix(OproIntro + ex + OproMiddle, ins, OproClosing, OproRating(pairs[k]));
    }
  }

  /** A rated instruction shows a string score exactly and any other score as a percentage. */
  lemma OproRatingScore(p: string, score: Rating)
    ensures Contains(OproRating((p, score)), Tagged("instruction", p))
    ensures Contains(OproRating((p, score)), Tagged("score", PercentUnlessStr(score)))
    ensures score.StrScore? ==> PercentUnlessStr(score) == score.s
    ensures !score.StrScore? ==> EndsWith(PercentUnlessStr(score), "%")
  {
    var a := "<rated_instruction>\n";
    var i := Tagged("instruction", p);
    var b := Tagged("score", PercentUnlessStr(score));
    ContainsSelf(i);
    ContainsSelf(b);
    ContainsRight(a, i, i);
    ContainsLeft(a + i, "\n", i);
    ContainsLeft(a + i + "\n", b, i);
    ContainsLeft(a + i + "\n" + b, "\n</rated_instruction>", i);
    ContainsRight(a + i + "\n", b, b);
    ContainsLeft(a + i + "\n" + b, "\n</rated_instruction>", b);
  }

  const AnswerTag := "<answer>"

  /** The request appended to an instruction without the answer tag. */
  const AnswerRequest := "\n\nWrite your answer in " + AnswerTag + " XML tags."

  /**
   * The instruction `parse` keeps: the context placeholder appended when
   * missing, then the question placeholder, then the answer request, each
   * after a blank line.
   */
  function Completed(instruction: string): string
  {
    var withContext := AppendIfMissing(instruction, ContextPlaceholder, "\n\n" + ContextPlaceholder);
    var withQuestion := AppendIfMissing(withContext, QuestionPlaceholder, "\n\n" + QuestionPlaceholder);
    AppendIfMissing(withQuestion, AnswerTag, AnswerRequest)
  }

  /** `NarrativeQaOproMetaPrompt.parse` (also the critique meta-prompt's). */
  function OproParse(generation: string): (r: Option<string>)
    ensures r.None? <==> NonEmptyTag(generation, "instruction").None?
    ensures r.Some? ==> Contains(r.value, ContextPlaceholder) && Contains(r.value, QuestionPlaceholder) && Contains(r.value, AnswerTag)
  {
    match NonEmptyTag(generation, "instruction")
    case None => None
    case Some(instruction) =>
      CompletedMeaning(instruction);
      Some(Completed(instruction))
  }

  /** `parse` step by step: extract, reject a missing or empty instruction, then complete it. */
  method ParseSteps(generation: string) returns (r: Option<string>)
    ensures r == OproParse(generation)
  {
    var found := ExtractXmlTag(generation, "instruction");
    if found.None? || found.value == [] {
      return None;
    }
    var newInst := found.value;
    ghost var instruction := newInst;
    if !Contains(newInst, ContextPlaceholder) {
      AppendAssoc(newInst, "\n\n", ContextPlaceholder);
      newInst := newInst + "\n\n" + ContextPlaceholder;
    }
    assert newInst == AppendIfMissing(instruction, ContextPlaceholder, "\n\n" + ContextPlaceholder);
    ghost var withContext := newInst;
    if !Contains(newInst, QuestionPlaceholder) {
      AppendAssoc(newInst, "\n\n", QuestionPlaceholder);
      newInst := newInst + "\n\n" + QuestionPlaceholder;
    }
    assert newInst == AppendIfMissing(withContext, QuestionPlaceholder, "\n\n" + QuestionPlaceholder);
    if !Contains(newInst, AnswerTag) {
      newInst := newInst + AnswerRequest;
    }
    assert newInst == Completed(instruction);
    r := Some(newInst);
  }

  /** A blank line followed by a marker contains the marker. */
  lemma TailHasMarker(m: string)
    ensures Contains("\n\n" + m, m)
  {
    ContainsSelf(m);
    ContainsRight("\n\n", m, m);
  }

  /**
   * A completed instruction starts with the instruction and has both
   * placeholders and the answer tag; a complete instruction is kept
   * exactly; and missing pieces come in the order context, question,
   * answer request.
   */
  lemma CompletedMeaning(instruction: string)
    ensures var r := Completed(instruction);
      instruction <= r
      && Contains(r, ContextPlaceholder) && Contains(r, QuestionPlaceholder) && Contains(r, AnswerTag)
      && ((Contains(instruction, ContextPlaceholder) && Contains(instruction, QuestionPlaceholder)
           && Contains(instruction, AnswerTag)) ==> r == instruction)
      && ((!Contains(instruction, ContextPlaceholder) && !Contains(instruction + "\n\n" + ContextPlaceholder, QuestionPlaceholder)
           && !Contains(instruction + "\n\n" + ContextPlaceholder + "\n\n" + QuestionPlaceholder, AnswerTag))
          ==> r == instruction + "\n\n" + ContextPlaceholder + "\n\n" + QuestionPlaceholder + AnswerRequest)
  {
    var withContext := AppendIfMissing(instruction, ContextPlaceholder, "\n\n" + ContextPlaceholder);
    var withQuestion := AppendIfMissing(withContext, QuestionPlaceholder, "\n\n" + QuestionPlaceholder);
    TailHasMarker(ContextPlaceholder);
    TailHasMarker(QuestionPlaceholder);
    ContainsSelf(AnswerTag);
    ContainsInfix("\n\nWrite your answer in ", AnswerTag, " XML tags.", AnswerTag);
    AppendIfMissingMeaning(instruction, ContextPlaceholder, "\n\n" + ContextPlaceholder);
    AppendIfMissingMeaning(withContext, QuestionPlaceholder, "\n\n" + QuestionPlaceholder);
    AppendIfMissingMeaning(withQuestion, AnswerTag, AnswerRequest);
    if !Contains(withContext, QuestionPlaceholder) {
      ContainsLeft(withContext, "\n\n" + QuestionPlaceholder, ContextPlaceholder);
    }
    if !Contains(withQuestion, AnswerTag) {
      ContainsLeft(withQuestion, AnswerRequest, ContextPlaceholder);
      ContainsLeft(withQuestion, AnswerRequest, QuestionPlaceholder);
    }
    AppendAssoc(instruction, "\n\n", ContextPlaceholder);
    AppendAssoc(withContext, "\n\n", QuestionPlaceholder);
  }

  // ---------------------------------------------------------------------
  // experiments/narrativeqa/meta_prompt_critique.py

  const TaskText := "a reading comprehension task where a reader answers a question by integrating information and reasoning across a context document"

  const CritiqueHead := InstructionRequest + " for "

  const CritiqueMiddle := "\n\nBelow are some previous instructions with their scores and critiques.\n"

  const CritiqueSteps :=
    "\n\nGenerate an instruction that is different from all the instructions above, and has a higher score than all the instructions above.\n"
    + "It should be concise, effective, and generally applicable to all examples above.\n\n"
    + "Draft your new instruction step by step:\n\n"
    + "1. Compare high-score instructions to low-score ones, identify what suggestions could have improved them. List them in <suggestion> tags.\n"
    + "2. Apply the suggestions and draft a new instruction aiming for a higher score.\n"
    + "3. Be creative and vary the wording, paraphrase, position of "

  const CritiqueEnd :=
    ", phrase order, grammar, sentence order, which specific examples to give, etc.\n"
    + "4. Write your final new instruction in <instruction> tags."

  /** The critique template `_P` the class declares, with its five fields. */
  const CritiqueTemplate: seq<Segment> := [
    Lit(CritiqueHead), Slot("task"), Lit(".\n\nBelow are some examples:\n"), Slot("examples"),
    Lit(CritiqueMiddle), Slot("instructions"), Lit(CritiqueSteps), Slot("CONTEXT_PLACEHOLDER"),
    Lit(" and "), Slot("QUESTION_PLACEHOLDER"), Lit(CritiqueEnd)
  ]

  /**
   * The template an instance actually holds: `prompt = _P` in the subclass
   * has no annotation, so it is not a dataclass field, and the generated
   * constructor stores the inherited field's default, the OPRO `_P`.
   */
  const CritiquePromptAsWritten := OproTemplate

  /** The keyword arguments `fill` formats the template with. */
  function CritiqueArgs(examples: string, instructions: string): seq<(string, string)>
  {
    [("examples", examples), ("instructions", instructions), ("task", TaskText),
     ("CONTEXT_PLACEHOLDER", ContextPlaceholder), ("QUESTION_PLACEHOLDER", QuestionPlaceholder)]
  }

  /** Each of the five names reads back its argument. */
  lemma CritiqueArgsGet(examples: string, instructions: string)
    ensures var d := CritiqueArgs(examples, instructions);
      Assoc.Get(d, "examples") == Some(examples) && Assoc.Get(d, "instructions") == Some(instructions)
      && Assoc.Get(d, "task") == Some(TaskText) && Assoc.Get(d, "CONTEXT_PLACEHOLDER") == Some(ContextPlaceholder)
      && Assoc.Get(d, "QUESTION_PLACEHOLDER") == Some(QuestionPlaceholder)
  {
    var e: seq<(string, string)> := [("QUESTION_PLACEHOLDER", QuestionPlaceholder)];
    var c := [("CONTEXT_PLACEHOLDER", ContextPlaceholder)] + e;
    var b := [("task", TaskText)] + c;
    var a := [("instructions", instructions)] + b;
    assert CritiqueArgs(examples, instructions) == [("examples", examples)] + a;
    forall key: string
      ensures Assoc.Get([("examples", examples)] + a, key) == if "examples" == key then Some(examples) else Assoc.Get(a, key)
      ensures Assoc.Get(a, key) == if "instructions" == key then Some(instructions) else Assoc.Get(b, key)
      ensures Assoc.Get(b, key) == if "task" == key then Some(TaskText) else Assoc.Get(c, key)
      ensures Assoc.Get(c, key) == if "CONTEXT_PLACEHOLDER" == key then Some(ContextPlaceholder) else Assoc.Get(e, key)
    {
      Assoc.GetCons("examples", examples, a, key);
      Assoc.GetCons("instructions", instructions, b, key);
      Assoc.GetCons("task", TaskText, c, key);
      Assoc.GetCons("CONTEXT_PLACEHOLDER", ContextPlaceholder, e, key);
    }
  }

  /** The declared template renders: `fill` provides every field it names. */
  lemma CritiqueTemplateDefined(examples: string, instructions: string)
    ensures Format(CritiqueTemplate, CritiqueArgs(examples, instructions)).Some?
  {
    var args := CritiqueArgs(examples, instructions);
    CritiqueArgsGet(examples, instructions);
    CritiqueTemplateSlots();
    FormatDefinedIff(CritiqueTemplate, args);
  }

  /** The critique meta-prompt for a given template: examples, then the critiqued instructions, joined by newlines. */
  function CritiqueMetaText(template: seq<Segment>, pairs: seq<(string, Rating)>, fewShot: seq<QaExample>,
                            critiques: seq<Option<string>>): Option<string>
  {
    if !TwoReferences(fewShot) then None
    else
      Format(template, CritiqueArgs(Join(Map(fewShot, ExampleBlock), "\n"),
                                    Join(Map(Zip(pairs, critiques), Optimizer.RatedWithCritique), "\n")))
  }

  /** `NarrativeQaCritiqueMetaPrompt.fill`, given the instance's template. */
  method CritiqueMetaFill(template: seq<Segment>, pairs: seq<(string, Rating)>, fewShot: seq<QaExample>,
                          critiques: seq<Option<string>>) returns (r: Option<string>)
    ensures r == CritiqueMetaText(template, pairs, fewShot, critiques)
  {
    var examples := FormatExamples(fewShot);
    if examples.None? {
      return None;
    }
    var instructions := [];
    var zipped := Zip(pairs, critiques);
    var k := 0;
    while k < |zipped|
      invariant k <= |zipped|
      invariant instructions == Map(zipped[..k], Optimizer.RatedWithCritique)
    {
      MapSnoc(zipped, k, Optimizer.RatedWithCritique);
      instructions := instructions + [Optimizer.RatedWithCritique(zipped[k])];
      k := k + 1;
    }
    assert zipped[..k] == zipped;
    r := Format(template, CritiqueArgs(Join(examples.value, "\n"), Join(instructions, "\n")));
  }

  /** The OPRO template renders as the OPRO meta-prompt's concatenation. */
  lemma OproTemplateRenders(args: seq<(string, string)>, examples: string, instructions: string)
    requires Assoc.Get(args, "examples") == Some(examples) && Assoc.Get(args, "instructions") == Some(instructions)
    ensures Format(OproTemplate, args) == Some(OproIntro + examples + OproMiddle + instructions + OproClosing)
  {
    var t1 := [Lit(OproIntro)];
    FormatSingleLit(OproIntro, args);
    FormatSnocSlot(t1, "examples", examples, args);
    var t2 := t1 + [Slot("examples")];
    FormatSnocLit(t2, OproMiddle, args);
    var t3 := t2 + [Lit(OproMiddle)];
    FormatSnocSlot(t3, "instructions", instructions, args);
    var t4 := t3 + [Slot("instructions")];
    FormatSnocLit(t4, OproClosing, args);
    assert t4 + [Lit(OproClosing)] == OproTemplate;
  }

  /**
   * As written, the critique meta-prompt is the OPRO meta-prompt's text
   * with critiqued instructions under the OPRO heading: it never states the
   * task (the text after the instruction tag is a full stop, not " for "),
   * and the placeholder names and the drafting steps are dropped.
   */
  lemma CritiqueMetaTaskDropped(pairs: seq<(string, Rating)>, fewShot: seq<QaExample>, critiques: seq<Option<string>>)
    requires TwoReferences(fewShot)
    ensures var ex := Join(Map(fewShot, ExampleBlock), "\n");
      var ins := Join(Map(Zip(pairs, critiques), Optimizer.RatedWithCritique), "\n");
      var t := CritiqueMetaText(CritiquePromptAsWritten, pairs, fewShot, critiques);
      t == Some(OproIntro + ex + OproMiddle + ins + OproClosing) && !(CritiqueHead <= t.value)
  {
    var ex := Join(Map(fewShot, ExampleBlock), "\n");
    var ins := Join(Map(Zip(pairs, critiques), Optimizer.RatedWithCritique), "\n");
    CritiqueArgsGet(ex, ins);
    OproTemplateRenders(CritiqueArgs(ex, ins), ex, ins);
    IntrosDiffer();
    FrontIndex(OproIntro, ex, OproMiddle, ins, OproClosing, |InstructionRequest|);
    NotPrefixAt(CritiqueHead, OproIntro + ex + OproMiddle + ins + OproClosing, |InstructionRequest|);
  }

  /** A character of the first part of a concatenation. */
  lemma FrontIndex(a: string, b: string, c: string, d: string, e: string, i: nat)
    requires i < |a|
    ensures i < |a + b + c + d + e| && (a + b + c + d + e)[i] == a[i]
  {
  }

  /** A text that differs from `p` at an index both have does not start with `p`. */
  lemma NotPrefixAt(p: string, s: string, i: nat)
    requires i < |p| && i < |s| && p[i] != s[i]
    ensures !(p <= s)
  {
  }

  /** The OPRO opening has a full stop where the critique opening goes on with " for ". */
  lemma IntrosDiffer()
    ensures |InstructionRequest| < |OproIntro| && OproIntro[|InstructionRequest|] == '.'
    ensures |InstructionRequest| < |CritiqueHead| && CritiqueHead[|InstructionRequest|] == ' '
  {
  }

  /** The declared template names exactly the five fields `fill` provides. */
  lemma CritiqueTemplateSlots()
    ensures Slots(CritiqueTemplate) == ["task", "examples", "instructions", "CONTEXT_PLACEHOLDER", "QUESTION_PLACEHOLDER"]
  {
    CritiqueShapeSlots(CritiqueHead, ".\n\nBelow are some examples:\n", CritiqueMiddle, CritiqueSteps, " and ", CritiqueEnd);
  }

  /** The fields of a template shaped like the critique template, whatever its literal text. */
  lemma CritiqueShapeSlots(h: string, a: string, m: string, s: string, j: string, e: string)
    ensures Slots([Lit(h), Slot("task"), Lit(a), Slot("examples"), Lit(m), Slot("instructions"), Lit(s),
                   Slot("CONTEXT_PLACEHOLDER"), Lit(j), Slot("QUESTION_PLACEHOLDER"), Lit(e)])
            == ["task", "examples", "instructions", "CONTEXT_PLACEHOLDER", "QUESTION_PLACEHOLDER"]
  {
    var t1 := [Lit(h)];
    SlotsSnoc([], Lit(h));
    assert [] + [Lit(h)] == t1;
    var t2 := t1 + [Slot("task")];
    SlotsSnoc(t1, Slot("task"));
    var t3 := t2 + [Lit(a)];
    SlotsSnoc(t2, Lit(a));
    var t4 := t3 + [Slot("examples")];
    SlotsSnoc(t3, Slot("examples"));
    var t5 := t4 + [Lit(m)];
    SlotsSnoc(t4, Lit(m));
    var t6 := t5 + [Slot("instructions")];
    SlotsSnoc(t5, Slot("instructions"));
    var t7 := t6 + [Lit(s)];
    SlotsSnoc(t6, Lit(s));
    var t8 := t7 + [Slot("CONTEXT_PLACEHOLDER")];
    SlotsSnoc(t7, Slot("CONTEXT_PLACEHOLDER"));
    var t9 := t8 + [Lit(j)];
    SlotsSnoc(t8, Lit(j));
    var t10 := t9 + [Slot("QUESTION_PLACEHOLDER")];
    SlotsSnoc(t9, Slot("QUESTION_PLACEHOLDER"));
    SlotsSnoc(t10, Lit(e));
    assert t10 + [Lit(e)] == [Lit(h), Slot("task"), Lit(a), Slot("examples"), Lit(m), Slot("instructions"), Lit(s),
                              Slot("CONTEXT_PLACEHOLDER"), Lit(j), Slot("QUESTION_PLACEHOLDER"), Lit(e)];
  }

  /** The declared template renders as its pieces with the five arguments in place. */
  lemma CritiqueTemplateRenders(examples: string, instructions: string)
    ensures Format(CritiqueTemplate, CritiqueArgs(examples, instructions))
      == Some(CritiqueHead + TaskText + ".\n\nBelow are some examples:\n" + examples + CritiqueMiddle + instructions
              + CritiqueSteps + ContextPlaceholder + " and " + QuestionPlaceholder + CritiqueEnd)
  {
    CritiqueArgsGet(examples, instructions);
    CritiqueShapeRenders(CritiqueHead, ".\n\nBelow are some examples:\n", CritiqueMiddle, CritiqueSteps, " and ", CritiqueEnd,
                         CritiqueArgs(examples, instructions), TaskText, examples, instructions, ContextPlaceholder, QuestionPlaceholder);
  }

  /** A template shaped like the critique template renders as its pieces with the five arguments in place. */
  lemma CritiqueShapeRenders(h: string, a: string, m: string, s: string, j: string, e: string, args: seq<(string, string)>,
                             task: string, examples: string, instructions: string, context: string, question: string)
    requires Assoc.Get(args, "task") == Some(task) && Assoc.Get(args, "examples") == Some(examples)
    requires Assoc.Get(args, "instructions") == Some(instructions)
    requires Assoc.Get(args, "CONTEXT_PLACEHOLDER") == Some(context) && Assoc.Get(args, "QUESTION_PLACEHOLDER") == Some(question)
    ensures Format([Lit(h), Slot("task"), Lit(a), Slot("examples"), Lit(m), Slot("instructions"), Lit(s),
                    Slot("CONTEXT_PLACEHOLDER"), Lit(j), Slot("QUESTION_PLACEHOLDER"), Lit(e)], args)
            == Some(h + task + a + examples + m + instructions + s + context + j + question + e)
  {
    var t5 := [Lit(h), Slot("task"), Lit(a), Slot("examples"), Lit(m)];
    CritiqueShapeFront(h, a, m, args, task, examples);
    FormatSnocSlot(t5, "instructions", instructions, args);
    var t6 := t5 + [Slot("instructions")];
    FormatSnocLit(t6, s, args);
    var t7 := t6 + [Lit(s)];
    FormatSnocSlot(t7, "CONTEXT_PLACEHOLDER", context, args);
    var t8 := t7 + [Slot("CONTEXT_PLACEHOLDER")];
    FormatSnocLit(t8, j, args);
    var t9 := t8 + [Lit(j)];
    FormatSnocSlot(t9, "QUESTION_PLACEHOLDER", question, args);
    var t10 := t9 + [Slot("QUESTION_PLACEHOLDER")];
    FormatSnocLit(t10, e, args);
    assert t10 + [Lit(e)] == [Lit(h), Slot("task"), Lit(a), Slot("examples"), Lit(m), Slot("instructions"), Lit(s),
                              Slot("CONTEXT_PLACEHOLDER"), Lit(j), Slot("QUESTION_PLACEHOLDER"), Lit(e)];
  }

  /** The first five segments of the critique shape: the head, the task, the examples and the text after them. */
  lemma CritiqueShapeFront(h: string, a: string, m: string, args: seq<(string, string)>, task: string, examples: string)
    requires Assoc.Get(args, "task") == Some(task) && Assoc.Get(args, "examples") == Some(examples)
    ensures Format([Lit(h), Slot("task"), Lit(a), Slot("examples"), Lit(m)], args) == Some(h + task + a + examples + m)
  {
    var t1 := [Lit(h)];
    FormatSingleLit(h, args);
    FormatSnocSlot(t1, "task", task, args);
    var t2 := t1 + [Slot("task")];
    FormatSnocLit(t2, a, args);
    var t3 := t2 + [Lit(a)];
    FormatSnocSlot(t3, "examples", examples, args);
    var t4 := t3 + [Slot("examples")];
    FormatSnocLit(t4, m, args);
    assert t4 + [Lit(m)] == [Lit(h), Slot("task"), Lit(a), Slot("examples"), Lit(m)];
  }

  /**
   * The critique meta-prompt with the template the class declares: it
   * renders exactly when every example has two references, states the task,
   * names both placeholders and shows every example and every critiqued
   * instruction.
   */
  function CritiqueMetaCorrected(pairs: seq<(string, Rating)>, fewShot: seq<QaExample>, critiques: seq<Option<string>>): (r: Option<string>)
    ensures r.Some? <==> TwoReferences(fewShot)
    ensures r.Some? ==>
      CritiqueHead <= r.value && Contains(r.value, TaskText)
      && Contains(r.value, ContextPlaceholder) && Contains(r.value, QuestionPlaceholder)
  {
    if TwoReferences(fewShot) then
      CritiqueTemplateShows(Join(Map(fewShot, ExampleBlock), "\n"),
                            Join(Map(Zip(pairs, critiques), Optimizer.RatedWithCritique), "\n"));
      CritiqueMetaText(CritiqueTemplate, pairs, fewShot, critiques)
    else None
  }

  /** The declared template, rendered, opens with the request and names the task and both placeholders. */
  lemma CritiqueTemplateShows(examples: string, instructions: string)
    ensures var r := Format(CritiqueTemplate, CritiqueArgs(examples, instructions));
      r.Some? && CritiqueHead <= r.value && Contains(r.value, TaskText)
      && Contains(r.value, ContextPlaceholder) && Contains(r.value, QuestionPlaceholder)
  {
    var args := CritiqueArgs(examples, instructions);
    CritiqueTemplateSlots();
    CritiqueArgsGet(examples, instructions);
    CritiqueTemplateDefined(examples, instructions);
    FormatStartsWithLit(CritiqueTemplate, args);
    FormatContainsArg(CritiqueTemplate, args, "task");
    FormatContainsArg(CritiqueTemplate, args, "CONTEXT_PLACEHOLDER");
    FormatContainsArg(CritiqueTemplate, args, "QUESTION_PLACEHOLDER");
  }

  /** With the declared template, every example appears. */
  lemma CritiqueMetaCorrectedShowsExamples(pairs: seq<(string, Rating)>, fewShot: seq<QaExample>,
                                           critiques: seq<Option<string>>, k: nat)
    requires TwoReferences(fewShot) && k < |fewShot|
    ensures Contains(CritiqueMetaCorrected(pairs, fewShot, critiques).value, ExampleBlock(fewShot[k]))
  {
    var ex := Join(Map(fewShot, ExampleBlock), "\n");
    var ins := Join(Map(Zip(pairs, critiques), Optimizer.RatedWithCritique), "\n");
    var args := CritiqueArgs(ex, ins);
    CritiqueTemplateDefined(ex, ins);
    CritiqueArgsGet(ex, ins);
    CritiqueTemplateSlots();
    var r := Format(CritiqueTemplate, args).value;
    FormatContainsArg(CritiqueTemplate, args, "examples");
    assert Assoc.Get(args, "examples") == Some(ex);
    JoinContains(Map(fewShot, ExampleBlock), "\n", k);
    ContainsTrans(r, ex, ExampleBlock(fewShot[k]));
  }

  /** With the declared template, every zipped instruction appears with its score and critique. */
  lemma CritiqueMetaCorrectedShowsRatings(pairs: seq<(string, Rating)>, fewShot: seq<QaExample>,
                                          critiques: seq<Option<string>>, k: nat)
    requires TwoReferences(fewShot) && k < |pairs| && k < |critiques|
    ensures Contains(CritiqueMetaCorrected(pairs, fewShot, critiques).value,
                     Optimizer.FormatInstruction(pairs[k].0, pairs[k].1, critiques[k]))
  {
    var ex := Join(Map(fewShot, ExampleBlock), "\n");
    var zipped := Zip(pairs, critiques);
    var ins := Join(Map(zipped, Optimizer.RatedWithCritique), "\n");
    var args := CritiqueArgs(ex, ins);
    CritiqueTemplateDefined(ex, ins);
    CritiqueArgsGet(ex, ins);
    CritiqueTemplateSlots();
    var r := Format(CritiqueTemplate, args).value;
    FormatContainsArg(CritiqueTemplate, args, "instructions");
    assert Assoc.Get(args, "instructions") == Some(ins);
    assert zipped[k] == (pairs[k], critiques[k]);
    JoinContains(Map(zipped, Optimizer.RatedWithCritique), "\n", k);
    ContainsTrans(r, ins, Optimizer.FormatInstruction(pairs[k].0, pairs[k].1, critiques[k]));
  }

  // ---------------------------------------------------------------------
  // experiments/narrativeqa/critique_prompt.py

  const CriticIntro :=
    "For a reading comprehension task, a reader answers a question by integrating information and reasoning across a context document following the instruction below:\n\n"

  const CriticTail :=
    "\n</examples>\n\n"
    + "Write a general and helpful critique in <critique> XML tags to improve the instruction such that the predicted answers are as close to the reference answers as possible.\n\n"
    + "1. Come up with several dimensions to compare its predicted answers and reference answers, e.g., number of words, style, precision, recall, etc.\n"
    + "2. List the difference between predicted answers and references on each dimension.\n"
    + "3. Identify specific phrases in the instruction that could have gotten these predicted answers different with references on each dimension.\n"
    + "4. Suggest specific action items that are general to all examples and helpful to improve the instruction."

  /** A prediction is wrong when it is not exactly one of the example's references. */
  predicate Wrong(item: (string, QaExample))
  {
    item.0 !in item.1.y
  }

  /** `_ERROR`: the context, the question, the prediction and the first two references. */
  function ErrorBlock(item: (string, QaExample)): string
  {
    "<example>\n<context>\n" + item.1.x.context + "\n</context>\n<question>\n" + item.1.x.question
    + "\n</question>\n\n<predicted_answer>\n" + item.0 + "\n</predicted_answer>\n\n<reference_answer_1>\n"
    + Reference(item.1, 0) + "\n</reference_answer_1>\n<reference_answer_2>\n" + Reference(item.1, 1)
    + "\n</reference_answer_2>\n</example>"
  }

  /** The blocks of the wrong predictions, in order. */
  function Errors(zipped: seq<(string, QaExample)>): seq<string>
  {
    if zipped == [] then []
    else Errors(zipped[..|zipped| - 1]) + (if Wrong(zipped[|zipped| - 1]) then [ErrorBlock(zipped[|zipped| - 1])] else [])
  }

  /** A wrong prediction whose example has fewer than two references (formatting it raises `IndexError`). */
  predicate MissingReference(zipped: seq<(string, QaExample)>)
  {
    exists k :: 0 <= k < |zipped| && Wrong(zipped[k]) && |zipped[k].1.y| < 2
  }

  /** `_P` filled with the instruction and the error blocks separated by blank lines. */
  function CriticText(prompt: string, errors: seq<string>): string
  {
    CriticIntro + Tagged("instruction", prompt) + "\n<examples>\n" + Join(errors, "\n\n") + CriticTail
  }

  /** `NarrativeQaCritiquePrompt.fill`: the loop keeps only the wrong predictions. */
  method CritiqueFill(prompt: string, predictions: seq<string>, examples: seq<QaExample>) returns (r: Option<string>)
    ensures r.None? <==> MissingReference(Zip(predictions, examples))
    ensures r.Some? ==> r.value == CriticText(prompt, Errors(Zip(predictions, examples)))
  {
    var zipped := Zip(predictions, examples);
    var errors := [];
    var i := 0;
    while i < |zipped|
      invariant i <= |zipped|
      invariant errors == Errors(zipped[..i])
      invariant !MissingReference(zipped[..i])
    {
      ErrorsStep(zipped, i);
      MissingReferenceStep(zipped, i);
      if Wrong(zipped[i]) {
        if |zipped[i].1.y| < 2 {
          MissingReferenceAt(zipped, i);
          return None;
        }
        errors := errors + [ErrorBlock(zipped[i])];
      }
      i := i + 1;
    }
    assert zipped[..i] == zipped;
    r := Some(CriticText(prompt, errors));
  }

  /** The blocks of a list of predictions extend those of its front. */
  lemma ErrorsSnoc(zipped: seq<(string, QaExample)>)
    requires zipped != []
    ensures var last := zipped[|zipped| - 1];
      Errors(zipped) == Errors(zipped[..|zipped| - 1]) + (if Wrong(last) then [ErrorBlock(last)] else [])
  {
  }

  /** One more prediction adds its block when it is wrong. */
  lemma ErrorsStep(zipped: seq<(string, QaExample)>, i: nat)
    requires i < |zipped|
    ensures Errors(zipped[..i + 1]) == Errors(zipped[..i]) + (if Wrong(zipped[i]) then [ErrorBlock(zipped[i])] else [])
  {
    ErrorsSnoc(zipped[..i + 1]);
    assert zipped[..i + 1][..i] == zipped[..i];
  }

  /** One more prediction misses a reference exactly when it is wrong and its example has fewer than two. */
  lemma MissingReferenceStep(zipped: seq<(string, QaExample)>, i: nat)
    requires i < |zipped| && !MissingReference(zipped[..i])
    ensures MissingReference(zipped[..i + 1]) <==> Wrong(zipped[i]) && |zipped[i].1.y| < 2
  {
    var p := zipped[..i + 1];
    if MissingReference(p) {
      var k :| 0 <= k < |p| && Wrong(p[k]) && |p[k].1.y| < 2;
      assert p[k] == zipped[k];
    }
    if Wrong(zipped[i]) && |zipped[i].1.y| < 2 {
      assert p[i] == zipped[i];
    }
  }

  lemma MissingReferenceAt(zipped: seq<(string, QaExample)>, i: nat)
    requires i < |zipped| && Wrong(zipped[i]) && |zipped[i].1.y| < 2
    ensures MissingReference(zipped)
  {
  }

  /** Every wrong prediction has its block among the critic's errors. */
  lemma {:induction false} ErrorsComplete(zipped: seq<(string, QaExample)>, k: nat)
    requires k < |zipped| && Wrong(zipped[k])
    ensures ErrorBlock(zipped[k]) in Errors(zipped)
  {
    var front := zipped[..|zipped| - 1];
    ErrorsSnoc(zipped);
    if k < |front| {
      assert front[k] == zipped[k];
      ErrorsComplete(front, k);
    }
  }

  /** Every error block stands for a wrong prediction. */
  lemma {:induction false} ErrorsSound(zipped: seq<(string, QaExample)>, b: string)
    requires b in Errors(zipped)
    ensures exists k :: 0 <= k < |zipped| && Wrong(zipped[k]) && b == ErrorBlock(zipped[k])
  {
    var front := zipped[..|zipped| - 1];
    ErrorsSnoc(zipped);
    if b in Errors(front) {
      ErrorsSound(front, b);
      var k :| 0 <= k < |front| && Wrong(front[k]) && b == ErrorBlock(front[k]);
      assert front[k] == zipped[k];
    } else {
      assert Wrong(zipped[|zipped| - 1]) && b == ErrorBlock(zipped[|zipped| - 1]);
    }
  }

  /** When every prediction is right the critic gets no blocks. */
  lemma {:induction false} ErrorsNoneWhenAllRight(zipped: seq<(string, QaExample)>)
    requires forall k :: 0 <= k < |zipped| ==> !Wrong(zipped[k])
    ensures Errors(zipped) == []
  {
    if zipped != [] {
      var front := zipped[..|zipped| - 1];
      assert forall k :: 0 <= k < |front| ==> front[k] == zipped[k];
      ErrorsNoneWhenAllRight(front);
      assert !Wrong(zipped[|zipped| - 1]);
    }
  }

  /** An error block shows the context, the question, the prediction and, given two references, both of them. */
  lemma ErrorBlockShows(p: string, e: QaExample)
    requires |e.y| >= 2
    ensures var b := ErrorBlock((p, e));
      Contains(b, e.x.context) && Contains(b, e.x.question) && Contains(b, p) && Contains(b, e.y[0]) && Contains(b, e.y[1])
  {
    var a := "<example>\n<context>\n";
    var c := "\n</context>\n<question>\n";
    var d := "\n</question>\n\n<predicted_answer>\n";
    var f := "\n</predicted_answer>\n\n<reference_answer_1>\n";
    var g := "\n</reference_answer_1>\n<reference_answer_2>\n";
    var h := "\n</reference_answer_2>\n</example>";
    var ctx := e.x.context;
    var q := e.x.question;
    var r0 := e.y[0];
    var r1 := e.y[1];
    ContainsSelf(ctx);
    ContainsSelf(q);
    ContainsSelf(p);
    ContainsSelf(r0);
    ContainsSelf(r1);
    ContainsRight(a, ctx, ctx);
    ContainsLeft(a + ctx, c, ctx);
    ContainsLeft(a + ctx + c, q, ctx);
    ContainsRight(a + ctx + c, q, q);
    var s1 := a + ctx + c + q;
    ContainsLeft(s1, d, ctx);
    ContainsLeft(s1, d, q);
    ContainsLeft(s1 + d, p, ctx);
    ContainsLeft(s1 + d, p, q);
    ContainsRight(s1 + d, p, p);
    var s2 := s1 + d + p;
    ContainsLeft(s2, f, ctx);
    ContainsLeft(s2, f, q);
    ContainsLeft(s2, f, p);
    ContainsLeft(s2 + f, r0, ctx);
    ContainsLeft(s2 + f, r0, q);
    ContainsLeft(s2 + f, r0, p);
    ContainsRight(s2 + f, r0, r0);
    var s3 := s2 + f + r0;
    ContainsLeft(s3, g, ctx);
    ContainsLeft(s3, g, q);
    ContainsLeft(s3, g, p);
    ContainsLeft(s3, g, r0);
    ContainsLeft(s3 + g, r1, ctx);
    ContainsLeft(s3 + g, r1, q);
    ContainsLeft(s3 + g, r1, p);
    ContainsLeft(s3 + g, r1, r0);
    ContainsRight(s3 + g, r1, r1);
    var s4 := s3 + g + r1;
    ContainsLeft(s4, h, ctx);
    ContainsLeft(s4, h, q);
    ContainsLeft(s4, h, p);
    ContainsLeft(s4, h, r0);
    ContainsLeft(s4, h, r1);
  }

  /** The critique prompt shows the instruction in its tag and every error block. */
  lemma CriticTextShows(prompt: string, errors: seq<string>, k: nat)
    ensures var r := CriticText(prompt, errors);
      Contains(r, Tagged("instruction", prompt)) && (k < |errors| ==> Contains(r, errors[k]))
  {
    var ex := Join(errors, "\n\n");
    var inst := Tagged("instruction", prompt);
    ContainsSelf(inst);
    ContainsRight(CriticIntro, inst, inst);
    ContainsLeft(CriticIntro + inst, "\n<examples>\n", inst);
    var pre := CriticIntro + inst + "\n<examples>\n";
    ContainsLeft(pre, ex, inst);
    ContainsLeft(pre + ex, CriticTail, inst);
    if k < |errors| {
      JoinContains(errors, "\n\n", k);
      ContainsRight(pre, ex, errors[k]);
      ContainsLeft(pre + ex, CriticTail, errors[k]);
    }
  }

  /** With no errors the examples section is empty. */
  lemma CriticTextNoErrors(prompt: string)
    ensures CriticText(prompt, []) == CriticIntro + Tagged("instruction", prompt) + "\n<examples>\n" + CriticTail
  {
    assert Join([], "\n\n") == "";
    AppendEmpty(CriticIntro + Tagged("instruction", prompt) + "\n<examples>\n", CriticTail);
  }

  lemma AppendEmpty(a: string, b: string)
    ensures a + "" + b == a + b
  {
  }
}
