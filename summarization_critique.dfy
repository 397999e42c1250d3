/**
 * experiments/summarization/crispo/critique_prompt.py: the critique prompts of
 * the summarization experiments. The critic sees the instruction and, for
 * each example, the article, the predicted summary and the reference
 * summary (the Mistral "no input" form leaves the article out), and answers
 * with a critique of the instruction.
 */
module SummarizationCritique {
  import opened Text
  import opened Formatting
  import opened Render
  import opened Task
  import opened PromptUtil

  const CritiqueIntro := "In a summarization task, a writer is given an input text to write a summary following an instruction.\n\n"

  const CritiqueTail :=
    "\n</examples>\n\n"
    + "Write a general and helpful critique in <critique> XML tags to improve the instruction such that the predicted summaries are as close to references as possible.\n\n"
    + CritiqueSteps

  /** The four steps both critique templates end with (the trailing blank line is stripped). */
  const CritiqueSteps :=
    "1. Come up with several dimensions to compare its predicted summaries and reference summaries, e.g., number of words, number of sentences, style, precision, recall, etc.\n"
    + "2. List the difference predicted summaries and references on each dimension.\n"
    + "3. Identify specific phrases in the instruction that could have gotten these predicted summaries different with references on each dimension.\n"
    + "4. Suggest specific action items that are general to all examples and helpful to improve the instruction."

  /** `_E` filled with an example's article, the prediction and the reference summary. */
  function CritiqueBlock(item: (string, Example)): string
  {
    "<example>\n<input>\n" + item.1.x + "\n</input>\n<predicted_summary>\n" + item.0
    + "\n</predicted_summary>\n<reference_summary>\n" + item.1.y + "\n</reference_summary>\n</example>"
  }

  /** `"\n".join` of one block per zipped (prediction, example). */
  function CritiqueExamples(predictions: seq<string>, examples: seq<Example>): string
  {
    Join(Map(Zip(predictions, examples), CritiqueBlock), "\n")
  }

  /** `SummarizationCritiquePrompt.fill(prompt, predictions, few_shot_examples)`. */
  function CritiqueFill(prompt: string, predictions: seq<string>, examples: seq<Example>): string
  {
    CritiqueIntro + Tagged("instruction", prompt) + "\n<examples>\n" + CritiqueExamples(predictions, examples) + CritiqueTail
  }

  /** A block shows the article, the prediction and the reference. */
  lemma CritiqueBlockShows(p: string, e: Example)
    ensures var b := CritiqueBlock((p, e));
      Contains(b, e.x) && Contains(b, p) && Contains(b, e.y)
  {
    var a := "<example>\n<input>\n";
    var c := "\n</input>\n<predicted_summary>\n";
    var d := "\n</predicted_summary>\n<reference_summary>\n";
    var f := "\n</reference_summary>\n</example>";
    ContainsSelf(e.x);
    ContainsSelf(p);
    ContainsSelf(e.y);
    ContainsRight(a, e.x, e.x);
    ContainsLeft(a + e.x, c, e.x);
    ContainsLeft(a + e.x + c, p, e.x);
    ContainsRight(a + e.x + c, p, p);
    ContainsLeft(a + e.x + c + p, d, e.x);
    ContainsLeft(a + e.x + c + p, d, p);
    ContainsLeft(a + e.x + c + p + d, e.y, e.x);
    ContainsLeft(a + e.x + c + p + d, e.y, p);
    ContainsRight(a + e.x + c + p + d, e.y, e.y);
    ContainsLeft(a + e.x + c + p + d + e.y, f, e.x);
    ContainsLeft(a + e.x + c + p + d + e.y, f, p);
    ContainsLeft(a + e.x + c + p + d + e.y, f, e.y);
  }

  /**
   * The critique prompt shows the instruction in its tag and, for every
   * example that has a prediction, the block with the article, the
   * prediction and the reference.
   */
  lemma CritiqueFillShows(prompt: string, predictions: seq<string>, examples: seq<Example>, k: nat)
    requires k < |predictions| && k < |examples|
    ensures var r := CritiqueFill(prompt, predictions, examples);
      Contains(r, Tagged("instruction", prompt)) && Contains(r, CritiqueBlock((predictions[k], examples[k])))
  {
    var ex := CritiqueExamples(predictions, examples);
    var inst := Tagged("instruction", prompt);
    var block := CritiqueBlock((predictions[k], examples[k]));
    assert Zip(predictions, examples)[k] == (predictions[k], examples[k]);
    JoinContains(Map(Zip(predictions, examples), CritiqueBlock), "\n", k);
    ContainsSelf(inst);
    ContainsRight(CritiqueIntro, inst, inst);
    ContainsLeft(CritiqueIntro + inst, "\n<examples>\n", inst);
    var pre := CritiqueIntro + inst + "\n<examples>\n";
    ContainsLeft(pre, ex, inst);
    ContainsRight(pre, ex, block);
    ContainsLeft(pre + ex, CritiqueTail, inst);
    ContainsLeft(pre + ex, CritiqueTail, block);
  }

  // ---------------------------------------------------------------------
  // The Mistral forms

  const MistralIntro := "In a summarization task, a writer is given an input text to write a summary following an instruction.\n\nINSTRUCTION: \n"

  const MistralMiddle := "\n\nHere are a few examples using the instruction. \n"

  const MistralTail :=
    "\n\nWrite a general and helpful critique to improve the instruction such that the predicted summaries are as close to references as possible.\n\n"
    + CritiqueSteps

  /** The heading of the zipped pair at index `i`, numbered `i + 1`. */
  function ExampleHeading(i: nat): string
  {
    "EXAMPLE " + NatToString(i + 1) + "\n"
  }

  /** `_E_MISTRAL` for the zipped pair at index `i`. */
  function MistralBlock(item: (nat, (string, Example))): string
  {
    ExampleHeading(item.0) + ("INPUT:\n" + item.1.1.x + "\n" + MistralSummaries(item.1))
  }

  /** The predicted and the reference summary, as both Mistral blocks end. */
  function MistralSummaries(pair: (string, Example)): string
  {
    "PREDICTED_SUMMARY:\n" + pair.0 + "\nREFERENCE_SUMMARY:\n" + pair.1.y
  }

  /** `_E_MISTRAL_NO_INPUT` for the zipped pair at index `i`: no article. */
  function MistralNoInputBlock(item: (nat, (string, Example))): string
  {
    ExampleHeading(item.0) + MistralSummaries(item.1)
  }

  /** `_P_MISTRAL` filled with the instruction and the blocks separated by blank lines. */
  function MistralText(prompt: string, blocks: seq<string>): string
  {
    MistralIntro + prompt + MistralMiddle + Join(blocks, "\n\n") + MistralTail
  }

  /** `SummarizationCritiquePromptForMistral.fill`. */
  function MistralCritiqueFill(prompt: string, predictions: seq<string>, examples: seq<Example>): string
  {
    MistralText(prompt, Map(Enumerate(Zip(predictions, examples)), MistralBlock))
  }

  /** `SummarizationCritiquePromptForMistralNoInput.fill`. */
  function MistralNoInputCritiqueFill(prompt: string, predictions: seq<string>, examples: seq<Example>): string
  {
    MistralText(prompt, Map(Enumerate(Zip(predictions, examples)), MistralNoInputBlock))
  }

  /** The Mistral critique prompt shows the instruction and every block in the given order of blocks. */
  lemma MistralTextShows(prompt: string, blocks: seq<string>, k: nat)
    requires k < |blocks|
    ensures Contains(MistralText(prompt, blocks), prompt) && Contains(MistralText(prompt, blocks), blocks[k])
  {
    var j := Join(blocks, "\n\n");
    JoinContains(blocks, "\n\n", k);
    ContainsSelf(prompt);
    ContainsRight(MistralIntro, prompt, prompt);
    ContainsLeft(MistralIntro + prompt, MistralMiddle, prompt);
    ContainsLeft(MistralIntro + prompt + MistralMiddle, j, prompt);
    ContainsRight(MistralIntro + prompt + MistralMiddle, j, blocks[k]);
    ContainsLeft(MistralIntro + prompt + MistralMiddle + j, MistralTail, prompt);
    ContainsLeft(MistralIntro + prompt + MistralMiddle + j, MistralTail, blocks[k]);
  }

  /**
   * Both Mistral critique prompts show the instruction and, under the number
   * `k + 1`, the block of the `k`-th example that has a prediction.
   */
  lemma MistralCritiqueFillShows(prompt: string, predictions: seq<string>, examples: seq<Example>, k: nat)
    requires k < |predictions| && k < |examples|
    ensures var item := (k, (predictions[k], examples[k]));
      Contains(MistralCritiqueFill(prompt, predictions, examples), MistralBlock(item))
      && Contains(MistralNoInputCritiqueFill(prompt, predictions, examples), MistralNoInputBlock(item))
      && Contains(MistralCritiqueFill(prompt, predictions, examples), prompt)
      && ExampleHeading(k) <= MistralBlock(item) && ExampleHeading(k) <= MistralNoInputBlock(item)
  {
    var zipped := Zip(predictions, examples);
    assert zipped[k] == (predictions[k], examples[k]);
    assert Enumerate(zipped)[k] == (k, zipped[k]);
    MistralTextShows(prompt, Map(Enumerate(zipped), MistralBlock), k);
    MistralTextShows(prompt, Map(Enumerate(zipped), MistralNoInputBlock), k);
    var item := (k, (predictions[k], examples[k]));
    assert MistralBlock(item)[..|ExampleHeading(k)|] == ExampleHeading(k);
    assert MistralNoInputBlock(item)[..|ExampleHeading(k)|] == ExampleHeading(k);
  }

  /**
   * The "no input" critique prompt never shows the articles: examples that
   * differ only in their inputs give the same prompt.
   */
  lemma MistralNoInputIgnoresArticles(prompt: string, predictions: seq<string>, examples: seq<Example>, examples': seq<Example>)
    requires |examples| == |examples'|
    requires forall i :: 0 <= i < |examples| ==> examples[i].y == examples'[i].y
    ensures MistralNoInputCritiqueFill(prompt, predictions, examples) == MistralNoInputCritiqueFill(prompt, predictions, examples')
  {
    NoInputBlocksAgree(predictions, examples, examples');
  }

  lemma NoInputBlocksAgree(predictions: seq<string>, examples: seq<Example>, examples': seq<Example>)
    requires |examples| == |examples'|
    requires forall i :: 0 <= i < |examples| ==> examples[i].y == examples'[i].y
    ensures Map(Enumerate(Zip(predictions, examples)), MistralNoInputBlock)
            == Map(Enumerate(Zip(predictions, examples')), MistralNoInputBlock)
  {
    var a := Map(Enumerate(Zip(predictions, examples)), MistralNoInputBlock);
    var b := Map(Enumerate(Zip(predictions, examples')), MistralNoInputBlock);
    assert |a| == |b|;
    forall i | 0 <= i < |a|
      ensures a[i] == b[i]
    {
      assert Zip(predictions, examples)[i] == (predictions[i], examples[i]);
      assert Zip(predictions, examples')[i] == (predictions[i], examples'[i]);
    }
    assert a == b;
  }
}
