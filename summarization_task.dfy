/**
 * The summarization experiments' task side: the two task prompts (one that
 * appends the article, one that puts it where a placeholder stands), the
 * postscript prompt that extends a fixed main instruction, the example's
 * XML rendering, and word truncation of the datasets.
 *
 * experiments/summarization/constants.py is not part of this model: its
 * ARTICLE_PLACEHOLDER is a non-empty text whose value is left open.
 */
module SummarizationTask {
  import opened Wrappers
  import opened Text
  import opened PromptUtil
  import opened Render
  import opened Task

  const ArticlePlaceholder: NonEmptyString

  const EncloseSummary := "Enclose your summary within " + "<summary>" + " tags."

  // ---------------------------------------------------------------------
  // experiments/summarization/task_prompt.py

  /**
   * `SummarizationTaskPromptNoPlaceholder.fill`: the prompt and the input on
   * separate lines, followed by a request for `<summary>` tags unless the
   * prompt already mentions them.
   */
  method NoPlaceholderFill(prompt: string, x: string) returns (r: string)
    ensures Contains(prompt, "<summary>") ==> r == prompt + "\n" + x
    ensures !Contains(prompt, "<summary>") ==> r == prompt + "\n" + x + "\n" + EncloseSummary
    ensures prompt + "\n" + x <= r && Contains(r, "<summary>")
  {
    var buffer := [prompt, x];
    if !Contains(prompt, "<summary>") {
      buffer := buffer + [EncloseSummary];
    }
    r := Join(buffer, "\n");
    if !Contains(prompt, "<summary>") {
      assert buffer == [prompt, x, EncloseSummary];
      JoinThree(prompt, x, EncloseSummary, "\n");
      EncloseSummaryShowsTag();
      ContainsRight(prompt + "\n" + x + "\n", EncloseSummary, "<summary>");
    } else {
      JoinTwo(prompt, x, "\n");
      ContainsLeft(prompt, "\n", "<summary>");
      ContainsLeft(prompt + "\n", x, "<summary>");
    }
  }

  lemma EncloseSummaryShowsTag()
    ensures Contains(EncloseSummary, "<summary>")
  {
    ContainsSelf("<summary>");
    ContainsInfix("Enclose your summary within ", "<summary>", " tags.", "<summary>");
  }

  /** What `fill` puts in place of the placeholder: the input wrapped in `<input>` tags unless the prompt has them. */
  function ArticleText(prompt: string, x: string): string
  {
    if Contains(prompt, "<input>") then x else "<input>\n" + x + "\n</input>"
  }

  /**
   * `SummarizationTaskPromptWithPlaceholder.fill`: every placeholder replaced
   * by the (wrapped) input; the `assert` fails, here `None`, when the prompt
   * has no placeholder.
   */
  function WithPlaceholderFill(prompt: string, x: string): (r: Option<string>)
    ensures r.None? <==> !Contains(prompt, ArticlePlaceholder)
    ensures r.Some? ==> Contains(r.value, x)
  {
    if !Contains(prompt, ArticlePlaceholder) then None
    else
      ReplacePresent(prompt, ArticlePlaceholder, ArticleText(prompt, x));
      ArticleShowsInput(prompt, x);
      ContainsTrans(ReplaceAll(prompt, ArticlePlaceholder, ArticleText(prompt, x)), ArticleText(prompt, x), x);
      Some(ReplaceAll(prompt, ArticlePlaceholder, ArticleText(prompt, x)))
  }

  lemma ArticleShowsInput(prompt: string, x: string)
    ensures Contains(ArticleText(prompt, x), x)
  {
    ContainsSelf(x);
    if !Contains(prompt, "<input>") {
      ContainsRight("<input>\n", x, x);
      ContainsLeft("<input>\n" + x, "\n</input>", x);
    }
  }

  // ---------------------------------------------------------------------
  // experiments/summarization/ast/suffix_prompt.py

  /** `SummarizationTaskPromptSuffix`: a postscript and the main instruction it extends; equality is on both. */
  datatype SuffixPrompt = SuffixPrompt(prompt: string, mainPrompt: string)
  {
    /**
     * `fill`: the main instruction with the placeholder replaced, a blank
     * line, then the postscript. Whether the input is wrapped is decided by
     * the postscript, not the main instruction.
     */
    function Fill(x: string): string
    {
      ReplaceAll(mainPrompt, ArticlePlaceholder, ArticleText(prompt, x)) + "\n\n" + prompt
    }
  }

  /**
   * The filled prompt ends with the postscript; it shows the input when the
   * main instruction has the placeholder, and otherwise is the same text
   * whatever the input, which is then silently absent.
   */
  lemma SuffixFillMeaning(p: SuffixPrompt, x: string, x': string)
    ensures EndsWith(p.Fill(x), "\n\n" + p.prompt)
    ensures Contains(p.mainPrompt, ArticlePlaceholder) ==> Contains(p.Fill(x), x)
    ensures !Contains(p.mainPrompt, ArticlePlaceholder) ==> p.Fill(x) == p.mainPrompt + "\n\n" + p.prompt == p.Fill(x')
  {
    var body := ReplaceAll(p.mainPrompt, ArticlePlaceholder, ArticleText(p.prompt, x));
    assert p.Fill(x) == body + ("\n\n" + p.prompt);
    assert p.Fill(x)[|p.Fill(x)| - |"\n\n" + p.prompt|..] == "\n\n" + p.prompt;
    if Contains(p.mainPrompt, ArticlePlaceholder) {
      ReplacePresent(p.mainPrompt, ArticlePlaceholder, ArticleText(p.prompt, x));
      ArticleShowsInput(p.prompt, x);
      ContainsTrans(body, ArticleText(p.prompt, x), x);
      ContainsLeft(body, "\n\n", x);
      ContainsLeft(body + "\n\n", p.prompt, x);
    } else {
      ReplaceAbsent(p.mainPrompt, ArticlePlaceholder, ArticleText(p.prompt, x));
      ReplaceAbsent(p.mainPrompt, ArticlePlaceholder, ArticleText(p.prompt, x'));
    }
  }

  // ---------------------------------------------------------------------
  // experiments/summarization/example.py

  /** `SummarizationExample.to_xml`: the article in `<input>` tags, the summary in `<summary>` tags, no trailing newline. */
  function SummaryXml(e: Example): string
  {
    "<input>\n" + e.x + "\n</input>\n<summary>\n" + e.y + "\n</summary>"
  }

  /** The rendering starts with the input tag and ends with the summary tag. */
  lemma SummaryXmlEnds(e: Example)
    ensures "<input>\n" <= SummaryXml(e) && EndsWith(SummaryXml(e), "</summary>")
  {
    var t := SummaryXml(e);
    assert t == "<input>\n" + e.x + "\n</input>\n<summary>\n" + e.y + "\n" + "</summary>";
    assert t[|t| - |"</summary>"|..] == "</summary>";
  }

  /**
   * Reading the `summary` tag back gives the reference summary (stripped)
   * when it does not itself contain `<summary>`.
   */
  lemma SummaryXmlRoundTrip(e: Example)
    requires !Contains(e.y, "<summary>")
    ensures ExtractXmlTag(SummaryXml(e), "summary") == Some(Strip(e.y))
  {
    var pre := "<input>\n" + e.x + "\n</input>\n";
    var t := pre + OpenTag("summary") + "\n" + e.y + "\n" + CloseTag("summary");
    assert OpenTag("summary") == "<summary>";
    assert SummaryXml(e) == t;
    assert t + "" == t;
    ExtractNewlineWrapped(pre, "summary", e.y, "");
  }

  // ---------------------------------------------------------------------
  // experiments/summarization/utilities/dataset_util.py

  /** `truncate_text(text, max_length)`: -1 keeps the text; otherwise the first words (a Python slice), single-spaced. */
  function TruncateText(text: string, maxLength: int): string
  {
    if maxLength == -1 then text else Join(Take(Words(text), maxLength), " ")
  }

  /**
   * Below the -1 sentinel a truncated text is its words sliced as Python
   * slices them, single-spaced with nothing around them: at most
   * `max_length` words for a non-negative bound, all but the last
   * `|max_length|` for any other negative one.
   */
  lemma TruncateTextWords(text: string, maxLength: int)
    requires maxLength != -1
    ensures var r := TruncateText(text, maxLength);
      Words(r) == Take(Words(text), maxLength) && IsStripped(r)
      && (maxLength >= 0 ==> |Words(r)| <= maxLength)
      && (maxLength < 0 && |Words(text)| + maxLength >= 0 ==> Words(r) == Words(text)[..|Words(text)| + maxLength])
  {
    var ws := Take(Words(text), maxLength);
    assert forall k :: 0 <= k < |ws| ==> IsWord(ws[k]);
    WordsOfJoin(ws);
    JoinWordsEnds(ws);
  }

  /** Truncating to a non-negative bound twice is truncating once. */
  lemma TruncateTextIdempotent(text: string, maxLength: nat)
    ensures TruncateText(TruncateText(text, maxLength), maxLength) == TruncateText(text, maxLength)
  {
    TruncateTextWords(text, maxLength);
  }

  /** One example with both sides truncated. */
  function TruncateExample(e: Example, maxInput: int, maxOutput: int): Example
  {
    Example(TruncateText(e.x, maxInput), TruncateText(e.y, maxOutput))
  }

  /**
   * `truncated_dataset_loader`, given the splits the loader returned: as many
   * splits, each as long as before and in the same order, each example
   * truncated on both sides.
   */
  method TruncatedDatasetLoader(splits: seq<seq<Example>>, maxInput: int, maxOutput: int) returns (r: seq<seq<Example>>)
    ensures |r| == |splits|
    ensures forall i :: 0 <= i < |splits| ==> |r[i]| == |splits[i]|
    ensures forall i, j :: 0 <= i < |splits| && 0 <= j < |splits[i]| ==> r[i][j] == TruncateExample(splits[i][j], maxInput, maxOutput)
  {
    r := [];
    var i := 0;
    while i < |splits|
      invariant i <= |splits| && |r| == i
      invariant forall k :: 0 <= k < i ==> r[k] == Map(splits[k], e => TruncateExample(e, maxInput, maxOutput))
    {
      r := r + [Map(splits[i], e => TruncateExample(e, maxInput, maxOutput))];
      i := i + 1;
    }
  }
}
