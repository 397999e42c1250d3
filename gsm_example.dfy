/**
 * experiments/gsm/example.py: a grade-school maths answer is the final
 * number as text together with the worked reasoning that led to it. The
 * MedMCQA examples (experiments/medmcqa/example.py) reuse the same `Output`.
 */
module GsmExample {
  import opened Wrappers

  /**
   * `Output(label, reasoning)` (`label` is a reserved word here, hence
   * `labelText`). A gold label is always present; a predicted one is `None`
   * when no label could be parsed from the generation. Equality is on both
   * fields.
   */
  datatype Output = Output(labelText: Option<string>, reasoning: string)

  /** `GsmExample` / `MedMcqaExample`: the question and its gold output. */
  datatype LabelledExample = LabelledExample(x: string, y: Output)

  /** `str(label)` inside a prompt: a missing label reads "None". */
  function LabelText(l: Option<string>): string
  {
    match l
    case Some(s) => s
    case None => "None"
  }
}
