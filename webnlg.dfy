/**
 * The WebNLG data-to-text experiments: the task prompt puts the RDF triples
 * in place of a placeholder; the meta-prompts show each example's triples and
 * numbered reference texts; the critique prompt shows every prediction next
 * to its triples and references.
 */
module WebNlg {
  import opened Wrappers
  import opened Text
  import opened Formatting
  import opened Render
  import opened Task
  import opened PromptUtil
  import Assoc
  import Optimizer
  import NarrativeQa

  // ---------------------------------------------------------------------
  // experiments/webnlg/example.py

  /** An example: its triples `x` and its reference texts `y`. */
  datatype WebNlgExample = WebNlgExample(x: seq<string>, y: seq<string>)

  // ---------------------------------------------------------------------
  // experiments/webnlg/task_prompt.py

  const TriplesPlaceholder := "TRIPLES_PLACEHOLDER"

  const DataIntro :=
    "You are provided with structured data in the form of RDF triples. Each triple contains a subject, predicate, and object, "
    + "which together describe an attribute or relationship for an entity. Your task is to generate a coherent, "
    + "natural-language sentence or short paragraph that conveys the information in the data accurately and fluently. "
    + "Aim to integrate all details from the data in a way that reads smoothly to a human."

  /** The part of the default prompt before the placeholder. */
  const TriplesHead := DataIntro + "\n\nTriples:\n\n"

  const TextMarker := "<text/>"

  const TextLead := "Write down your natural-language text in "

  const TextLine := TextLead + TextMarker + "."

  /** The part of the default prompt after the placeholder. */
  const TriplesTail := "\n\n" + TextLine

  /** The default task prompt `_P`. */
  const DefaultPrompt := TriplesHead + TriplesPlaceholder + TriplesTail

  /** `WebNLGTaskPrompt.fill`: every triples placeholder becomes the triples, one per line. */
  function Fill(prompt: string, x: seq<string>): string
  {
    ReplaceAll(prompt, TriplesPlaceholder, Join(x, "\n"))
  }

  /** A prompt with the placeholder shows every triple; one without it is left as it is. */
  lemma FillMeaning(prompt: string, x: seq<string>, k: nat)
    ensures Contains(prompt, TriplesPlaceholder) && k < |x| ==> Contains(Fill(prompt, x), x[k])
    ensures !Contains(prompt, TriplesPlaceholder) ==> Fill(prompt, x) == prompt
  {
    if Contains(prompt, TriplesPlaceholder) {
      ReplacePresent(prompt, TriplesPlaceholder, Join(x, "\n"));
      if k < |x| {
        JoinContains(x, "\n", k);
        ContainsTrans(Fill(prompt, x), Join(x, "\n"), x[k]);
      }
    } else {
      ReplaceAbsent(prompt, TriplesPlaceholder, Join(x, "\n"));
    }
  }

  /** The placeholder's underscore, a character plain text lacks. */
  lemma PlaceholderUnderscore()
    ensures TriplesPlaceholder[7] == '_'
  {
  }

  /** The default prompt holds the placeholder, so filling it shows every triple. */
  lemma DefaultPromptShowsTriples(x: seq<string>, k: nat)
    requires k < |x|
    ensures Contains(DefaultPrompt, TriplesPlaceholder)
    ensures Contains(Fill(DefaultPrompt, x), x[k])
  {
    ContainsSelf(TriplesPlaceholder);
    ContainsInfix(TriplesHead, TriplesPlaceholder, TriplesTail, TriplesPlaceholder);
    FillMeaning(DefaultPrompt, x, k);
  }

  // ---------------------------------------------------------------------
  // experiments/webnlg/meta_prompt_opro.py: format_examples

  /** The tag of reference `j`, counted from 1. */
  function ReferenceTag(j: nat): string
  {
    "reference_text_" + NatToString(j + 1)
  }

  /** One reference of an example, in its numbered tag. */
  function ReferenceLine(item: (nat, string)): string
  {
    Tagged(ReferenceTag(item.0), item.1)
  }

  /** The references of an example, one per line, numbered from 1. */
  function References(y: seq<string>): string
  {
    Join(Map(Enumerate(y), ReferenceLine), "\n")
  }

  /** Reference `j` is shown in the tag numbered `j + 1`: its number reads back as `j + 1`. */
  lemma ReferencesNumbered(y: seq<string>, j: nat)
    requires j < |y|
    ensures Contains(References(y), Tagged(ReferenceTag(j), y[j]))
    ensures DigitsValue(NatToString(j + 1)) == j + 1
  {
    JoinContains(Map(Enumerate(y), ReferenceLine), "\n", j);
    NatToStringRoundTrip(j + 1);
  }

  /** The first reference is numbered 1. */
  lemma FirstReferenceTag()
    ensures ReferenceTag(0) == "reference_text_1"
  {
    assert NatToString(1) == [DigitChar(1)];
  }

  const ExampleOpen := "<example>\n<instruction>?</instruction>\n<triples>\n"

  const ExampleMiddle := "\n</triples>\n<reference_text>\n"

  const ExampleClose := "\n</reference_text>\n</example>"

  /** `_E`: the example's triples, one per line, and its numbered references. */
  function ExampleBlock(e: WebNlgExample): string
  {
    ExampleOpen + Join(e.x, "\n") + ExampleMiddle + References(e.y) + ExampleClose
  }

  /** An example block shows every triple and every numbered reference of the example. */
  lemma ExampleBlockShows(e: WebNlgExample, k: nat)
    ensures k < |e.x| ==> Contains(ExampleBlock(e), e.x[k])
    ensures k < |e.y| ==> Contains(ExampleBlock(e), Tagged(ReferenceTag(k), e.y[k]))
  {
    var tr, refs := Join(e.x, "\n"), References(e.y);
    if k < |e.x| {
      JoinContains(e.x, "\n", k);
      ContainsRight(ExampleOpen, tr, e.x[k]);
      ContainsLeft(ExampleOpen + tr, ExampleMiddle, e.x[k]);
      ContainsLeft(ExampleOpen + tr + ExampleMiddle, refs, e.x[k]);
      ContainsLeft(ExampleOpen + tr + ExampleMiddle + refs, ExampleClose, e.x[k]);
    }
    if k < |e.y| {
      ReferencesNumbered(e.y, k);
      ContainsInfix(ExampleOpen + tr + ExampleMiddle, refs, ExampleClose, Tagged(ReferenceTag(k), e.y[k]));
    }
  }

  /** `format_examples`: one block per example, in order; none for no examples. */
  method FormatExamples(fewShot: seq<WebNlgExample>) returns (r: seq<string>)
    ensures r == Map(fewShot, ExampleBlock)
  {
    r := [];
    var i := 0;
    while i < |fewShot|
      invariant i <= |fewShot| && r == Map(fewShot[..i], ExampleBlock)
    {
      MapSnoc(fewShot, i, ExampleBlock);
      r := r + [ExampleBlock(fewShot[i])];
      i := i + 1;
    }
    assert fewShot[..i] == fewShot;
  }

  // ---------------------------------------------------------------------
  // experiments/webnlg/meta_prompt_opro.py: fill

  /** The tag form the meta-prompts ask for. */
  const SelfClosingInstruction := "<instruction/>"

  const OproIntro :=
    "Your task is to generate the instruction " + SelfClosingInstruction
    + " for a data-to-text Natural Language Generation task.\n\nBelow are some examples:\n"

  const OproClosing :=
    "\n\nGenerate an instruction that is different from all the instructions above, and has a higher score than all the instructions above.\n"
    + "It should be concise, effective, and generally applicable to all examples above.\n\n"
    + "Write your final new instruction in " + SelfClosingInstruction + " tags."

  /** `_I`: the instruction and its score, a string score as it is and any other as `"{:.2f}%"`. */
  function OproRating(pair: (string, Rating)): string
  {
    "<rated_instruction>\n" + Tagged("instruction", pair.0) + "\n" + Tagged("score", Fixed2PercentUnlessStr(pair.1)) + "\n</rated_instruction>"
  }

  /** The OPRO meta-prompt: the example blocks and the rated instructions, each joined by newlines, in `_P`. */
  function OproText(pairs: seq<(string, Rating)>, fewShot: seq<WebNlgExample>): string
  {
    OproIntro + Join(Map(fewShot, ExampleBlock), "\n") + NarrativeQa.OproMiddle + Join(Map(pairs, OproRating), "\n") + OproClosing
  }

  /** `WebNLGOproMetaPrompt.fill`: the rated instructions are appended in a loop. */
  method OproFill(pairs: seq<(string, Rating)>, fewShot: seq<WebNlgExample>) returns (r: string)
    ensures r == OproText(pairs, fewShot)
  {
    var examples := FormatExamples(fewShot);
    var instructions := [];
    var k := 0;
    while k < |pairs|
      invariant k <= |pairs| && instructions == Map(pairs[..k], OproRating)
    {
      MapSnoc(pairs, k, OproRating);
      instructions := instructions + [OproRating(pairs[k])];
      k := k + 1;
    }
    assert pairs[..k] == pairs;
    r := OproIntro + Join(examples, "\n") + NarrativeQa.OproMiddle + Join(instructions, "\n") + OproClosing;
  }

  /** The closing request ends by naming the self-closing tag. */
  lemma OproClosingEnds()
    ensures EndsWith(OproClosing, SelfClosingInstruction + " tags.")
  {
    var lead := "\n\nGenerate an instruction that is different from all the instructions above, and has a higher score than all the instructions above.\n"
      + "It should be concise, effective, and generally applicable to all examples above.\n\n"
      + "Write your final new instruction in ";
    AppendAssoc(lead, SelfClosingInstruction, " tags.");
    EndsWithAppend(lead, SelfClosingInstruction + " tags.");
  }

  /** The OPRO meta-prompt shows every example block and every rated instruction, and asks for `<instruction/>`. */
  lemma OproTextShows(pairs: seq<(string, Rating)>, fewShot: seq<WebNlgExample>, k: nat)
    ensures var t := OproText(pairs, fewShot);
      (k < |fewShot| ==> Contains(t, ExampleBlock(fewShot[k])))
      && (k < |pairs| ==> Contains(t, OproRating(pairs[k])))
      && EndsWith(t, SelfClosingInstruction + " tags.")
  {
    var ex := Join(Map(fewShot, ExampleBlock), "\n");
    var ins := Join(Map(pairs, OproRating), "\n");
    var mid := NarrativeQa.OproMiddle;
    if k < |fewShot| {
      var block := ExampleBlock(fewShot[k]);
      JoinContains(Map(fewShot, ExampleBlock), "\n", k);
      ContainsRight(OproIntro, ex, block);
      ContainsLeft(OproIntro + ex, mid, block);
      ContainsLeft(OproIntro + ex + mid, ins, block);
      ContainsLeft(OproIntro + ex + mid + ins, OproClosing, block);
    }
    if k < |pairs| {
      JoinContains(Map(pairs, OproRating), "\n", k);
      ContainsInfix(OproIntro + ex + mid, ins, OproClosing, OproRating(pairs[k]));
    }
    OproClosingEnds();
    EndsWithAppend(OproIntro + ex + mid + ins, OproClosing);
    EndsWithTrans(OproText(pairs, fewShot), OproClosing, SelfClosingInstruction + " tags.");
  }

  /**
   * A rated instruction shows a string score exactly and any other score
   * `x` as `"{:.2f}%"` of `x` itself, which reads as a hundredth of what
   * `f"{x:.2%}"` would show.
   */
  lemma OproRatingScore(p: string, score: Rating)
    ensures Contains(OproRating((p, score)), Tagged("instruction", p))
    ensures Contains(OproRating((p, score)), Tagged("score", Fixed2PercentUnlessStr(score)))
    ensures score.StrScore? ==> Fixed2PercentUnlessStr(score) == score.s
    ensures !score.StrScore? ==> Fixed2PercentUnlessStr(score) == Percent2(score.Number() / 100.0)
  {
    var a := "<rated_instruction>\n";
    var i := Tagged("instruction", p);
    var b := Tagged("score", Fixed2PercentUnlessStr(score));
    ContainsSelf(i);
    ContainsSelf(b);
    ContainsRight(a, i, i);
    ContainsLeft(a + i, "\n", i);
    ContainsLeft(a + i + "\n", b, i);
    ContainsLeft(a + i + "\n" + b, "\n</rated_instruction>", i);
    ContainsRight(a + i + "\n", b, b);
    ContainsLeft(a + i + "\n" + b, "\n</rated_instruction>", b);
    if !score.StrScore? {
      Fixed2PercentIsUnscaled(score.Number());
    }
  }

  // ---------------------------------------------------------------------
  // experiments/webnlg/meta_prompt_opro.py: parse

  /** The request `parse` appends, on a line of its own. */
  const TextRequest := "\n" + TextLine

  /** The instruction already mentions the text tag in one of its three forms. */
  predicate HasTextMarker(s: string)
  {
    Contains(s, "<text>") || Contains(s, "</text>") || Contains(s, TextMarker)
  }

  /** The text request names the text tag and has no underscore. */
  lemma TextRequestShape()
    ensures Contains(TextRequest, TextMarker)
    ensures '_' !in TextRequest
  {
    ContainsSelf(TextMarker);
    ContainsInfix(TextLead, TextMarker, ".", TextMarker);
    ContainsRight("\n", TextLine, TextMarker);
    TextLineNoUnderscore();
    CharNotInAppend('_', "\n", TextLine);
  }

  lemma TextLineNoUnderscore()
    ensures '_' !in TextLine
  {
    CharNotInAppend('_', TextLead, TextMarker);
    CharNotInAppend('_', TextLead + TextMarker, ".");
  }

  /** The request is appended unless the text tag is already mentioned. */
  function WithTextRequest(s: string): (r: string)
    ensures s <= r && HasTextMarker(r)
    ensures HasTextMarker(s) ==> r == s
  {
    if HasTextMarker(s) then s
    else
      TextRequestShape();
      ContainsRight(s, TextRequest, TextMarker);
      s + TextRequest
  }

  /**
   * `WebNLGOproMetaPrompt.parse` as written (also the critique
   * meta-prompt's): only a missing tag is rejected, so an empty instruction
   * is accepted, and the triples placeholder is never added.
   */
  function OproParseAsWritten(generation: string): (r: Option<string>)
    ensures r.None? <==> ExtractXmlTag(generation, "instruction").None?
    ensures !Contains(generation, OpenTag("instruction")) ==> r.None?
    ensures r.Some? ==> var inst := ExtractXmlTag(generation, "instruction").value;
      inst <= r.value && HasTextMarker(r.value) && (HasTextMarker(inst) ==> r.value == inst)
  {
    match ExtractXmlTag(generation, "instruction")
    case None => None
    case Some(inst) => Some(WithTextRequest(inst))
  }

  /** The self-closing form the meta-prompts request is not the opening tag `parse` looks for. */
  lemma SelfClosingIsNotOpenTag()
    ensures !Contains(SelfClosingInstruction, OpenTag("instruction"))
    ensures Contains(OproClosing, SelfClosingInstruction)
  {
    var s, o := SelfClosingInstruction, OpenTag("instruction");
    assert o == "<instruction>";
    forall i | 0 <= i <= |s|
      ensures !OccursAt(s, o, i)
    {
      if i == 0 {
        assert s[i..][12] == '/';
      } else if i == 1 {
        assert s[i..][0] == 'i';
      }
    }
    var lead := "\n\nGenerate an instruction that is different from all the instructions above, and has a higher score than all the instructions above.\n"
      + "It should be concise, effective, and generally applicable to all examples above.\n\n"
      + "Write your final new instruction in ";
    ContainsSelf(s);
    ContainsInfix(lead, s, " tags.", s);
  }

  /** An instruction tag with nothing in it still yields a prompt: the bare text request. */
  lemma OproParseAcceptsEmpty()
    ensures OproParseAsWritten(Tagged("instruction", "")) == Some(TextRequest)
  {
    ExtractTagged("instruction", "");
    StripNoop("");
    assert !HasTextMarker("") by {
      if Contains("", "<text>") { ContainsLength("", "<text>"); }
      if Contains("", "</text>") { ContainsLength("", "</text>"); }
      if Contains("", TextMarker) { ContainsLength("", TextMarker); }
    }
    assert "" + TextRequest == TextRequest;
  }

  /**
   * A plain instruction (no `<`, no `_`, no surrounding blanks) comes back
   * with the text request appended and without the triples placeholder, so
   * filling the prompt leaves it unchanged: the model never sees the triples.
   */
  lemma OproParseAsWrittenDropsTriples(instruction: string, x: seq<string>)
    requires '<' !in instruction && '_' !in instruction && IsStripped(instruction)
    ensures var p := OproParseAsWritten(Tagged("instruction", instruction));
      p == Some(instruction + TextRequest)
      && !Contains(p.value, TriplesPlaceholder) && Fill(p.value, x) == p.value
  {
    ExtractTagged("instruction", instruction);
    StripNoop(instruction);
    MissingCharNotContained(instruction, "<text>", 0);
    MissingCharNotContained(instruction, "</text>", 0);
    MissingCharNotContained(instruction, TextMarker, 0);
    var p := instruction + TextRequest;
    TextRequestShape();
    PlaceholderUnderscore();
    MissingCharNotContained(p, TriplesPlaceholder, 7);
    FillMeaning(p, x, 0);
  }

  /** A plain instruction a model may well propose. */
  const PlainInstruction := "Describe the data."

  /** The instruction of the finding: a prompt without the triples. */
  lemma OproParseAsWrittenPlain(x: seq<string>)
    ensures OproParseAsWritten(Tagged("instruction", PlainInstruction)) == Some(PlainInstruction + TextRequest)
    ensures Fill(PlainInstruction + TextRequest, x) == PlainInstruction + TextRequest
  {
    assert '<' !in PlainInstruction && '_' !in PlainInstruction;
    assert IsStripped(PlainInstruction);
    OproParseAsWrittenDropsTriples(PlainInstruction, x);
  }

  /**
   * The instruction `parse` should keep: the placeholder appended after a
   * blank line when missing (as the GSM8K and MedMCQA parses do), then the
   * text request when the text tag is not mentioned.
   */
  function Completed(instruction: string): string
  {
    WithTextRequest(AppendIfMissing(instruction, TriplesPlaceholder, "\n\n" + TriplesPlaceholder))
  }

  lemma CompletedMeaning(instruction: string)
    ensures var r := Completed(instruction);
      instruction <= r && Contains(r, TriplesPlaceholder) && HasTextMarker(r)
      && (Contains(instruction, TriplesPlaceholder) && HasTextMarker(instruction) ==> r == instruction)
  {
    ContainsSelf(TriplesPlaceholder);
    ContainsRight("\n\n", TriplesPlaceholder, TriplesPlaceholder);
    var withTriples := AppendIfMissing(instruction, TriplesPlaceholder, "\n\n" + TriplesPlaceholder);
    AppendIfMissingMeaning(instruction, TriplesPlaceholder, "\n\n" + TriplesPlaceholder);
    ContainsPrefix(Completed(instruction), withTriples, TriplesPlaceholder);
  }

  /** The parse with the placeholder guaranteed: every prompt it yields holds the triples slot and the text request. */
  function OproParse(generation: string): (r: Option<string>)
    ensures r.None? <==> ExtractXmlTag(generation, "instruction").None?
    ensures r.Some? ==> var inst := ExtractXmlTag(generation, "instruction").value;
      inst <= r.value && Contains(r.value, TriplesPlaceholder) && HasTextMarker(r.value)
      && (Contains(inst, TriplesPlaceholder) && HasTextMarker(inst) ==> r.value == inst)
  {
    match ExtractXmlTag(generation, "instruction")
    case None => None
    case Some(inst) =>
      CompletedMeaning(inst);
      Some(Completed(inst))
  }

  /** Every prompt the corrected parse yields shows every triple once filled. */
  lemma OproParseKeepsTriples(generation: string, x: seq<string>, k: nat)
    requires OproParse(generation).Some? && k < |x|
    ensures Contains(Fill(OproParse(generation).value, x), x[k])
  {
    FillMeaning(OproParse(generation).value, x, k);
  }

  // ---------------------------------------------------------------------
  // experiments/webnlg/meta_prompt_critique.py

  const TaskText := "a data-to-text task where a writer converts a list of \"subject | predicate | object\" triples into natural language text"

  const CritiqueHead := "Your task is to generate the instruction " + SelfClosingInstruction + " for "

  const ExamplesHeader := ".\n\nBelow are some examples:\n"

  const CritiqueEnd :=
    ", phrase order, grammar, sentence order, which specific examples to give, etc.\n"
    + "4. Write your final new instruction in " + SelfClosingInstruction + " tags."

  /** The critique template `_P`, the default of the class's `prompt` field. */
  const CritiqueTemplate: seq<Segment> := [
    Lit(CritiqueHead), Slot("task"), Lit(ExamplesHeader), Slot("examples"),
    Lit(NarrativeQa.CritiqueMiddle), Slot("instructions"), Lit(NarrativeQa.CritiqueSteps),
    Slot("TRIPLES_PLACEHOLDER"), Lit(CritiqueEnd)
  ]

  /** The keyword arguments `fill` formats the template with. */
  function CritiqueArgs(examples: string, instructions: string, task: string): seq<(string, string)>
  {
    [("examples", examples), ("instructions", instructions), ("task", task), ("TRIPLES_PLACEHOLDER", TriplesPlaceholder)]
  }

  /** Each of the four names reads back its argument. */
  lemma CritiqueArgsGet(examples: string, instructions: string, task: string)
    ensures var d := CritiqueArgs(examples, instructions, task);
      Assoc.Get(d, "examples") == Some(examples) && Assoc.Get(d, "instructions") == Some(instructions)
      && Assoc.Get(d, "task") == Some(task) && Assoc.Get(d, "TRIPLES_PLACEHOLDER") == Some(TriplesPlaceholder)
  {
    var c: seq<(string, string)> := [("TRIPLES_PLACEHOLDER", TriplesPlaceholder)];
    var b := [("task", task)] + c;
    var a := [("instructions", instructions)] + b;
    assert CritiqueArgs(examples, instructions, task) == [("examples", examples)] + a;
    forall key: string
      ensures Assoc.Get([("examples", examples)] + a, key) == if "examples" == key then Some(examples) else Assoc.Get(a, key)
      ensures Assoc.Get(a, key) == if "instructions" == key then Some(instructions) else Assoc.Get(b, key)
      ensures Assoc.Get(b, key) == if "task" == key then Some(task) else Assoc.Get(c, key)
    {
      Assoc.GetCons("examples", examples, a, key);
      Assoc.GetCons("instructions", instructions, b, key);
      Assoc.GetCons("task", task, c, key);
    }
    Assoc.GetCons("TRIPLES_PLACEHOLDER", TriplesPlaceholder, [], "TRIPLES_PLACEHOLDER");
  }

  /** `_I`: the instruction, its score and its critique (a missing one reads "None"). */
  function CritiquedRating(item: ((string, Rating), Option<string>)): string
  {
    "<rated_instruction>\n" + Tagged("instruction", item.0.0) + "\n" + Tagged("score", Fixed2PercentUnlessStr(item.0.1))
    + "\n<critique>\n" + Optimizer.CritiqueText(item.1) + "\n</critique>\n</rated_instruction>"
  }

  /** The critique meta-prompt for an instance's template and task text. */
  function CritiqueMetaText(template: seq<Segment>, task: string, pairs: seq<(string, Rating)>,
                            fewShot: seq<WebNlgExample>, critiques: seq<Option<string>>): Option<string>
  {
    Format(template, CritiqueArgs(Join(Map(fewShot, ExampleBlock), "\n"),
                                  Join(Map(Zip(pairs, critiques), CritiquedRating), "\n"), task))
  }

  /** `WebNLGCritiqueMetaPrompt.fill`: one critiqued instruction per zipped pair, appended in a loop. */
  method CritiqueMetaFill(template: seq<Segment>, task: string, pairs: seq<(string, Rating)>,
                          fewShot: seq<WebNlgExample>, critiques: seq<Option<string>>) returns (r: Option<string>)
    ensures r == CritiqueMetaText(template, task, pairs, fewShot, critiques)
  {
    var examples := FormatExamples(fewShot);
    var instructions := [];
    var zipped := Zip(pairs, critiques);
    var k := 0;
    while k < |zipped|
      invariant k <= |zipped| && instructions == Map(zipped[..k], CritiquedRating)
    {
      MapSnoc(zipped, k, CritiquedRating);
      instructions := instructions + [CritiquedRating(zipped[k])];
      k := k + 1;
    }
    assert zipped[..k] == zipped;
    r := Format(template, CritiqueArgs(Join(examples, "\n"), Join(instructions, "\n"), task));
  }

  /** The default template renders as its pieces with the four arguments in place. */
  lemma CritiqueTemplateRenders(examples: string, instructions: string, task: string)
    ensures Format(CritiqueTemplate, CritiqueArgs(examples, instructions, task))
      == Some(CritiqueHead + task + ExamplesHeader + examples + NarrativeQa.CritiqueMiddle + instructions
              + NarrativeQa.CritiqueSteps + TriplesPlaceholder + CritiqueEnd)
  {
    CritiqueArgsGet(examples, instructions, task);
    CritiqueShapeRenders(CritiqueHead, ExamplesHeader, NarrativeQa.CritiqueMiddle, NarrativeQa.CritiqueSteps, CritiqueEnd,
                         CritiqueArgs(examples, instructions, task), task, examples, instructions, TriplesPlaceholder);
  }

  /** A template shaped like the critique template renders as its pieces with the four arguments in place, whatever its literal text. */
  lemma CritiqueShapeRenders(h: string, a: string, m: string, s: string, e: string, args: seq<(string, string)>,
                             task: string, examples: string, instructions: string, triples: string)
    requires Assoc.Get(args, "task") == Some(task) && Assoc.Get(args, "examples") == Some(examples)
    requires Assoc.Get(args, "instructions") == Some(instructions) && Assoc.Get(args, "TRIPLES_PLACEHOLDER") == Some(triples)
    ensures Format([Lit(h), Slot("task"), Lit(a), Slot("examples"), Lit(m), Slot("instructions"), Lit(s),
                    Slot("TRIPLES_PLACEHOLDER"), Lit(e)], args)
            == Some(h + task + a + examples + m + instructions + s + triples + e)
  {
    var t1 := [Lit(h)];
    FormatSingleLit(h, args);
    FormatSnocSlot(t1, "task", task, args);
    var t2 := t1 + [Slot("task")];
    FormatSnocLit(t2, a, args);
    var t3 := t2 + [Lit(a)];
    FormatSnocSlot(t3, "examples", examples, args);
    var t4 := t3 + [Slot("examples")];
    FormatSnocLit(t4, m, args);
    var t5 := t4 + [Lit(m)];
    FormatSnocSlot(t5, "instructions", instructions, args);
    var t6 := t5 + [Slot("instructions")];
    FormatSnocLit(t6, s, args);
    var t7 := t6 + [Lit(s)];
    FormatSnocSlot(t7, "TRIPLES_PLACEHOLDER", triples, args);
    var t8 := t7 + [Slot("TRIPLES_PLACEHOLDER")];
    FormatSnocLit(t8, e, args);
    assert t8 + [Lit(e)] == [Lit(h), Slot("task"), Lit(a), Slot("examples"), Lit(m), Slot("instructions"), Lit(s),
                             Slot("TRIPLES_PLACEHOLDER"), Lit(e)];
  }

  /** The default template names exactly the four fields `fill` provides. */
  lemma CritiqueTemplateSlots()
    ensures Slots(CritiqueTemplate) == ["task", "examples", "instructions", "TRIPLES_PLACEHOLDER"]
  {
    CritiqueShapeSlots(CritiqueHead, ExamplesHeader, NarrativeQa.CritiqueMiddle, NarrativeQa.CritiqueSteps, CritiqueEnd);
  }

  /** The fields of a template shaped like the critique template, whatever its literal text. */
  lemma CritiqueShapeSlots(h: string, a: string, m: string, s: string, e: string)
    ensures Slots([Lit(h), Slot("task"), Lit(a), Slot("examples"), Lit(m), Slot("instructions"), Lit(s),
                   Slot("TRIPLES_PLACEHOLDER"), Lit(e)])
            == ["task", "examples", "instructions", "TRIPLES_PLACEHOLDER"]
  {
    var t1 := [Lit(h)];
    SlotsSnoc([], Lit(h));
    assert [] + [Lit(h)] == t1;
    var t2 := t1 + [Slot("task")];
    SlotsSnoc(t1, Slot("task"));
    var t3 := t2 + [Lit(a)];
    SlotsSnoc(t2, Lit(a));
    var t4 := t3 + [Slot("examples")];
    SlotsSnoc(t3, Slot("examples"));
    var t5 := t4 + [Lit(m)];
    SlotsSnoc(t4, Lit(m));
    var t6 := t5 + [Slot("instructions")];
    SlotsSnoc(t5, Slot("instructions"));
    var t7 := t6 + [Lit(s)];
    SlotsSnoc(t6, Lit(s));
    var t8 := t7 + [Slot("TRIPLES_PLACEHOLDER")];
    SlotsSnoc(t7, Slot("TRIPLES_PLACEHOLDER"));
    SlotsSnoc(t8, Lit(e));
    assert t8 + [Lit(e)] == [Lit(h), Slot("task"), Lit(a), Slot("examples"), Lit(m), Slot("instructions"), Lit(s),
                             Slot("TRIPLES_PLACEHOLDER"), Lit(e)];
  }

  /** The default template renders whatever the examples, instructions and task. */
  lemma CritiqueTemplateDefined(examples: string, instructions: string, task: string)
    ensures Format(CritiqueTemplate, CritiqueArgs(examples, instructions, task)).Some?
  {
    CritiqueTemplateRenders(examples, instructions, task);
  }

  /**
   * With the default template the critique meta-prompt always renders: it
   * opens with the request, states the task, names the triples placeholder
   * and shows every example block and every critiqued instruction.
   */
  lemma CritiqueMetaShows(task: string, pairs: seq<(string, Rating)>, fewShot: seq<WebNlgExample>,
                          critiques: seq<Option<string>>, k: nat)
    ensures var r := CritiqueMetaText(CritiqueTemplate, task, pairs, fewShot, critiques);
      r.Some? && CritiqueHead <= r.value && Contains(r.value, task) && Contains(r.value, TriplesPlaceholder)
      && (k < |fewShot| ==> Contains(r.value, ExampleBlock(fewShot[k])))
      && (k < |pairs| && k < |critiques| ==> Contains(r.value, CritiquedRating(((pairs[k].0, pairs[k].1), critiques[k]))))
  {
    var ex := Join(Map(fewShot, ExampleBlock), "\n");
    var zipped := Zip(pairs, critiques);
    var ins := Join(Map(zipped, CritiquedRating), "\n");
    CritiqueTemplateShows(ex, ins, task);
    if k < |fewShot| {
      JoinContains(Map(fewShot, ExampleBlock), "\n", k);
    }
    if k < |pairs| && k < |critiques| {
      assert zipped[k] == ((pairs[k].0, pairs[k].1), critiques[k]);
      JoinContains(Map(zipped, CritiquedRating), "\n", k);
    }
  }

  /**
   * The default template, rendered, opens with the request and shows the
   * task, both arguments whole and the triples placeholder.
   */
  lemma CritiqueTemplateShows(examples: string, instructions: string, task: string)
    ensures var r := Format(CritiqueTemplate, CritiqueArgs(examples, instructions, task));
      r.Some? && CritiqueHead <= r.value && Contains(r.value, task) && Contains(r.value, TriplesPlaceholder)
      && (forall x :: Contains(examples, x) ==> Contains(r.value, x))
      && (forall x :: Contains(instructions, x) ==> Contains(r.value, x))
  {
    var args := CritiqueArgs(examples, instructions, task);
    CritiqueTemplateDefined(examples, instructions, task);
    CritiqueArgsGet(examples, instructions, task);
    CritiqueTemplateSlots();
    var r := Format(CritiqueTemplate, args).value;
    FormatStartsWithLit(CritiqueTemplate, args);
    FormatContainsArg(CritiqueTemplate, args, "task");
    FormatContainsArg(CritiqueTemplate, args, "TRIPLES_PLACEHOLDER");
    FormatContainsArg(CritiqueTemplate, args, "examples");
    FormatContainsArg(CritiqueTemplate, args, "instructions");
    forall x | Contains(examples, x) ensures Contains(r, x) {
      ContainsTrans(r, examples, x);
    }
    forall x | Contains(instructions, x) ensures Contains(r, x) {
      ContainsTrans(r, instructions, x);
    }
  }

  /** A critiqued instruction shows the instruction, its score and its critique text. */
  lemma CritiquedRatingShows(p: string, score: Rating, critique: Option<string>)
    ensures var t := CritiquedRating(((p, score), critique));
      Contains(t, Tagged("instruction", p)) && Contains(t, Tagged("score", Fixed2PercentUnlessStr(score)))
      && Contains(t, Optimizer.CritiqueText(critique))
      && (critique.None? ==> Contains(t, "None"))
  {
    var a := "<rated_instruction>\n";
    var i := Tagged("instruction", p);
    var b := Tagged("score", Fixed2PercentUnlessStr(score));
    var c := Optimizer.CritiqueText(critique);
    var z := "\n</critique>\n</rated_instruction>";
    ContainsSelf(i);
    ContainsSelf(b);
    ContainsSelf(c);
    ContainsRight(a, i, i);
    ContainsLeft(a + i, "\n", i);
    ContainsLeft(a + i + "\n", b, i);
    ContainsLeft(a + i + "\n" + b, "\n<critique>\n", i);
    ContainsLeft(a + i + "\n" + b + "\n<critique>\n", c, i);
    ContainsLeft(a + i + "\n" + b + "\n<critique>\n" + c, z, i);
    ContainsRight(a + i + "\n", b, b);
    ContainsLeft(a + i + "\n" + b, "\n<critique>\n", b);
    ContainsLeft(a + i + "\n" + b + "\n<critique>\n", c, b);
    ContainsLeft(a + i + "\n" + b + "\n<critique>\n" + c, z, b);
    ContainsInfix(a + i + "\n" + b + "\n<critique>\n", c, z, c);
  }

  // ---------------------------------------------------------------------
  // experiments/webnlg/critique_prompt.py

  const CriticIntro :=
    "For a data-to-text task, a writer converts a list of \"subject | predicate | object\" triples into natural language text following the instruction below:\n\n"

  const CriticMiddle := "\n<examples>\n"

  const CriticTail :=
    "\n</examples>\n\n"
    + "Write a general and helpful critique in <critique/> XML tags to improve the instruction such that the predicted text are as close to the reference text as possible.\n\n"
    + "1. Come up with several dimensions to compare its predicted text and reference text, e.g., number of words, style, precision, recall, etc.\n"
    + "2. List the difference between predicted text and references on each dimension.\n"
    + "3. Identify specific phrases in the instruction that could have gotten these predicted text different with references on each dimension.\n"
    + "4. Suggest specific action items that are general to all examples and helpful to improve the instruction."

  const ErrorOpen := "<example>\n<triples>\n"

  const ErrorPredicted := "\n</triples>\n\n<predicted_text>\n"

  const ErrorReference := "\n</predicted_text>\n\n<reference_text>\n"

  const ErrorClose := "\n</reference_text>\n</example>"

  /** `_ERROR`: the example's triples, the prediction and the numbered references. */
  function ErrorBlock(item: (string, WebNlgExample)): string
  {
    ErrorOpen + Join(item.1.x, "\n") + ErrorPredicted + item.0 + ErrorReference + References(item.1.y) + ErrorClose
  }

  /** The critique prompt: the instruction in its tag, then the blocks separated by blank lines. */
  function CriticText(prompt: string, blocks: seq<string>): string
  {
    CriticIntro + Tagged("instruction", prompt) + CriticMiddle + Join(blocks, "\n\n") + CriticTail
  }

  /** `WebNLGCritiquePrompt.fill`: one block per zipped prediction and example, appended in a loop. */
  method CritiqueFill(prompt: string, predictions: seq<string>, fewShot: seq<WebNlgExample>) returns (r: string)
    ensures r == CriticText(prompt, Map(Zip(predictions, fewShot), ErrorBlock))
  {
    var errors := [];
    var zipped := Zip(predictions, fewShot);
    var k := 0;
    while k < |zipped|
      invariant k <= |zipped| && errors == Map(zipped[..k], ErrorBlock)
    {
      MapSnoc(zipped, k, ErrorBlock);
      errors := errors + [ErrorBlock(zipped[k])];
      k := k + 1;
    }
    assert zipped[..k] == zipped;
    r := CriticIntro + Tagged("instruction", prompt) + CriticMiddle + Join(errors, "\n\n") + CriticTail;
  }

  /** An error block shows the prediction, every triple and every numbered reference. */
  lemma ErrorBlockShows(pred: string, e: WebNlgExample, k: nat)
    ensures var b := ErrorBlock((pred, e));
      Contains(b, pred)
      && (k < |e.x| ==> Contains(b, e.x[k]))
      && (k < |e.y| ==> Contains(b, Tagged(ReferenceTag(k), e.y[k])))
  {
    var tr, refs := Join(e.x, "\n"), References(e.y);
    var a := ErrorOpen + tr + ErrorPredicted;
    ContainsSelf(pred);
    ContainsRight(a, pred, pred);
    ContainsLeft(a + pred, ErrorReference, pred);
    ContainsLeft(a + pred + ErrorReference, refs, pred);
    ContainsLeft(a + pred + ErrorReference + refs, ErrorClose, pred);
    if k < |e.x| {
      JoinContains(e.x, "\n", k);
      ContainsRight(ErrorOpen, tr, e.x[k]);
      ContainsLeft(ErrorOpen + tr, ErrorPredicted, e.x[k]);
      ContainsLeft(a, pred, e.x[k]);
      ContainsLeft(a + pred, ErrorReference, e.x[k]);
      ContainsLeft(a + pred + ErrorReference, refs, e.x[k]);
      ContainsLeft(a + pred + ErrorReference + refs, ErrorClose, e.x[k]);
    }
    if k < |e.y| {
      ReferencesNumbered(e.y, k);
      ContainsInfix(a + pred + ErrorReference, refs, ErrorClose, Tagged(ReferenceTag(k), e.y[k]));
    }
  }

  /**
   * The critique prompt shows the instruction and, with no correctness
   * filter, one block for every zipped prediction and example.
   */
  lemma CriticTextShows(prompt: string, predictions: seq<string>, fewShot: seq<WebNlgExample>, k: nat)
    ensures var blocks := Map(Zip(predictions, fewShot), ErrorBlock);
      var t := CriticText(prompt, blocks);
      Contains(t, Tagged("instruction", prompt))
      && |blocks| == (if |predictions| < |fewShot| then |predictions| else |fewShot|)
      && (k < |predictions| && k < |fewShot| ==> Contains(t, ErrorBlock((predictions[k], fewShot[k]))))
  {
    var blocks := Map(Zip(predictions, fewShot), ErrorBlock);
    var j := Join(blocks, "\n\n");
    var tagged := Tagged("instruction", prompt);
    ContainsSelf(tagged);
    ContainsRight(CriticIntro, tagged, tagged);
    ContainsLeft(CriticIntro + tagged, CriticMiddle, tagged);
    ContainsLeft(CriticIntro + tagged + CriticMiddle, j, tagged);
    ContainsLeft(CriticIntro + tagged + CriticMiddle + j, CriticTail, tagged);
    if k < |predictions| && k < |fewShot| {
      JoinContains(blocks, "\n\n", k);
      ContainsInfix(CriticIntro + tagged + CriticMiddle, j, CriticTail, ErrorBlock((predictions[k], fewShot[k])));
    }
  }
}
