/**
 * crispo/task/ast/critique_suffix.py: the critique prompt of the postscript
 * variant. The critic sees the fixed main instruction, the postscript under
 * critique, and for each example its input and the prediction made with
 * that postscript (never the reference), and answers in `<critique>` tags.
 */
module CritiqueSuffix {
  import opened Text
  import opened Render
  import opened Task
  import opened PromptUtil

  /** One `_E` block: the example's input and the predicted text. */
  function SuffixBlock(item: (string, Example)): string
  {
    "<example>\n<input>\n" + item.1.x + "\n</input>\n<predicted_text>\n" + item.0 + "\n</predicted_text>\n</example>"
  }

  const SuffixIntro := "In a task, an AI is given an input text to write a text following an instruction and a postscript.\n\n"

  const SuffixTail :=
    "\n</examples>\n\n"
    + "Write a general and helpful critique in <critique> XML tags to improve the postscript such that the predicted text are as close to references as possible.\n\n"
    + "1. Compare predicted text and the input text regarding their faithfulness.\n"
    + "2. Identify specific phrases in the postscript that could have gotten these predicted text unfaithful.\n"
    + "3. Suggest specific action items that are general to all examples and helpful to improve the postscript."

  /** `"\n".join` of one block per zipped (prediction, example). */
  function SuffixExamples(predictions: seq<string>, examples: seq<Example>): string
  {
    Join(Map(Zip(predictions, examples), SuffixBlock), "\n")
  }

  /** `SuffixCritiquePrompt(main_prompt).fill(prompt, predictions, few_shot_examples)`. */
  function SuffixCritiqueFill(mainPrompt: string, prompt: string, predictions: seq<string>, examples: seq<Example>): string
  {
    SuffixIntro + Tagged("instruction", mainPrompt) + "\n" + Tagged("postscript", prompt) + "\n<examples>\n"
    + SuffixExamples(predictions, examples) + SuffixTail
  }

  /**
   * A block shows the input and the prediction and is the same whatever the
   * reference is.
   */
  lemma SuffixBlockShows(p: string, x: string, y: string, y': string)
    ensures Contains(SuffixBlock((p, Example(x, y))), x) && Contains(SuffixBlock((p, Example(x, y))), p)
    ensures SuffixBlock((p, Example(x, y))) == SuffixBlock((p, Example(x, y')))
  {
    var a := "<example>\n<input>\n";
    var b := "\n</input>\n<predicted_text>\n";
    var c := "\n</predicted_text>\n</example>";
    ContainsSelf(x);
    ContainsSelf(p);
    ContainsRight(a, x, x);
    ContainsLeft(a + x, b, x);
    ContainsLeft(a + x + b, p, x);
    ContainsLeft(a + x + b + p, c, x);
    ContainsRight(a + x + b, p, p);
    ContainsLeft(a + x + b + p, c, p);
  }

  /** Every zipped pair's block is in the joined examples; there are as many blocks as the shorter list. */
  lemma SuffixExamplesShow(predictions: seq<string>, examples: seq<Example>, k: nat)
    requires k < |predictions| && k < |examples|
    ensures |Zip(predictions, examples)| == if |predictions| < |examples| then |predictions| else |examples|
    ensures Contains(SuffixExamples(predictions, examples), SuffixBlock((predictions[k], examples[k])))
  {
    JoinContains(Map(Zip(predictions, examples), SuffixBlock), "\n", k);
  }

  /**
   * The instruction slot holds the main instruction, the postscript slot the
   * postscript under critique, and every zipped block appears.
   */
  lemma SuffixCritiqueFillShows(mainPrompt: string, prompt: string, predictions: seq<string>, examples: seq<Example>, k: nat)
    requires k < |predictions| && k < |examples|
    ensures var r := SuffixCritiqueFill(mainPrompt, prompt, predictions, examples);
      Contains(r, Tagged("instruction", mainPrompt))
      && Contains(r, Tagged("postscript", prompt))
      && Contains(r, SuffixBlock((predictions[k], examples[k])))
  {
    var ex := SuffixExamples(predictions, examples);
    var inst := Tagged("instruction", mainPrompt);
    var post := Tagged("postscript", prompt);
    var block := SuffixBlock((predictions[k], examples[k]));
    SuffixExamplesShow(predictions, examples, k);
    ContainsSelf(inst);
    ContainsSelf(post);
    ContainsRight(SuffixIntro, inst, inst);
    ContainsLeft(SuffixIntro + inst, "\n", inst);
    ContainsLeft(SuffixIntro + inst + "\n", post, inst);
    ContainsRight(SuffixIntro + inst + "\n", post, post);
    ContainsLeft(SuffixIntro + inst + "\n" + post, "\n<examples>\n", inst);
    ContainsLeft(SuffixIntro + inst + "\n" + post, "\n<examples>\n", post);
    var pre := SuffixIntro + inst + "\n" + post + "\n<examples>\n";
    ContainsLeft(pre, ex, inst);
    ContainsLeft(pre, ex, post);
    ContainsRight(pre, ex, block);
    ContainsLeft(pre + ex, SuffixTail, inst);
    ContainsLeft(pre + ex, SuffixTail, post);
    ContainsLeft(pre + ex, SuffixTail, block);
  }
}
