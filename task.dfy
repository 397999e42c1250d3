/**
 * crispo/task: a task prompt is its instruction text together with a way to
 * fill an input into it and a way to parse a generation back; an example is
 * an input and its gold output. The shapes every experiment's prompts share
 * (take the tag content or else the raw generation, append a sentence when a
 * marker is missing) are defined once here.
 */
module Task {
  import opened Wrappers
  import opened Text
  import opened PromptUtil

  /** `TaskPrompt.short_str(max_length)`: newlines become spaces, then the text is cut to `max_length`. */
  function ShortStr(prompt: string, maxLength: int): (r: string)
  {
    Take(ReplaceAll(prompt, "\n", " "), maxLength)
  }

  /**
   * The short form has no newline, is `min(max_length, len)` long for a
   * non-negative bound, and agrees with the prompt everywhere except that
   * newlines read as spaces.
   */
  lemma ShortStrShape(prompt: string, maxLength: nat)
    ensures var r := ShortStr(prompt, maxLength);
      |r| == (if maxLength < |prompt| then maxLength else |prompt|)
      && '\n' !in r
      && forall i :: 0 <= i < |r| ==> r[i] == if prompt[i] == '\n' then ' ' else prompt[i]
  {
    ReplaceChar(prompt, '\n', ' ');
  }

  /** The default short form keeps at most 50 characters. */
  lemma ShortStrDefault(prompt: string)
    ensures |ShortStr(prompt, 50)| <= 50
  {
    ShortStrShape(prompt, 50);
  }

  /** crispo/task/example.py: an input and its gold output, both as text. */
  datatype Example = Example(x: string, y: string)
  {
    /** `Example.to_xml`: the input in `<input>` tags, then the output in `<output>` tags. */
    function ToXml(): string
    {
      "<input>\n" + x + "\n</input>\n<output>\n" + y + "\n</output>\n"
    }
  }

  /**
   * Reading the `output` tag back out of `to_xml` gives the gold output
   * (stripped), as long as the output does not itself contain `<output>`.
   */
  lemma ToXmlOutputRoundTrip(e: Example)
    requires !Contains(e.y, "<output>")
    ensures ExtractXmlTag(e.ToXml(), "output") == Some(Strip(e.y))
  {
    var pre := "<input>\n" + e.x + "\n</input>\n";
    assert OpenTag("output") == "<output>";
    assert e.ToXml() == pre + OpenTag("output") + "\n" + e.y + "\n" + CloseTag("output") + "\n";
    ExtractNewlineWrapped(pre, "output", e.y, "\n");
  }

  /**
   * `extract_xml_tag(generation, tag) or generation`, the parse most task
   * prompts use: the tag's content when it is present and non-empty,
   * otherwise the whole generation.
   */
  function TagOrRaw(generation: string, tag: string): (r: string)
    ensures !Contains(generation, OpenTag(tag)) ==> r == generation
    ensures r != generation ==> ExtractXmlTag(generation, tag) == Some(r) && r != []
  {
    match ExtractXmlTag(generation, tag)
    case Some(v) => if v != [] then v else generation
    case None => generation
  }

  /** Non-blank content wrapped in the tag is what comes back, stripped. */
  lemma TagOrRawWrapped(pre: string, tag: string, content: string, post: string)
    requires '<' !in tag && Strip(content) != []
    requires !Contains(content + CloseTag(tag) + post, OpenTag(tag))
    requires !Contains(post, CloseTag(tag))
    ensures TagOrRaw(pre + OpenTag(tag) + content + CloseTag(tag) + post, tag) == Strip(content)
  {
    ExtractWrapped(pre, tag, content, post);
  }

  /**
   * `extract_xml_tag(generation, tag)` followed by `if not value: return None`,
   * the parse every meta-prompt uses for a new instruction.
   */
  function NonEmptyTag(generation: string, tag: string): (r: Option<string>)
  {
    match ExtractXmlTag(generation, tag)
    case Some(v) => if v != [] then Some(v) else None
    case None => None
  }

  /** A new instruction is never blank, never padded, and present exactly when the tag content is non-empty. */
  lemma NonEmptyTagMeaning(generation: string, tag: string)
    ensures var r := NonEmptyTag(generation, tag);
      (r.Some? <==> ExtractXmlTag(generation, tag).Some? && ExtractXmlTag(generation, tag).value != [])
      && (r.Some? ==> r.value != [] && IsStripped(r.value) && r == ExtractXmlTag(generation, tag))
  {
  }

  /** Non-blank content wrapped in the tag is read back as the new instruction, stripped. */
  lemma NonEmptyTagWrapped(pre: string, tag: string, content: string, post: string)
    requires '<' !in tag && Strip(content) != []
    requires !Contains(content + CloseTag(tag) + post, OpenTag(tag))
    requires !Contains(post, CloseTag(tag))
    ensures NonEmptyTag(pre + OpenTag(tag) + content + CloseTag(tag) + post, tag) == Some(Strip(content))
  {
    ExtractWrapped(pre, tag, content, post);
  }

  /** `if marker not in s: s += suffix`. */
  function AppendIfMissing(s: string, marker: string, suffix: string): string
  {
    if Contains(s, marker) then s else s + suffix
  }

  /** `if marker not in s: s = prefix + s`. */
  function PrependIfMissing(s: string, marker: string, prefix: string): string
  {
    if Contains(s, marker) then s else prefix + s
  }

  /**
   * When the suffix carries the marker, the result always carries it, keeps
   * the text as its beginning, and a text that already had it is untouched.
   */
  lemma AppendIfMissingMeaning(s: string, marker: string, suffix: string)
    requires Contains(suffix, marker)
    ensures var r := AppendIfMissing(s, marker, suffix);
      Contains(r, marker) && s <= r && (Contains(s, marker) ==> r == s)
  {
    if !Contains(s, marker) {
      ContainsRight(s, suffix, marker);
    }
  }

  /** The mirror image for a prefix. */
  lemma PrependIfMissingMeaning(s: string, marker: string, prefix: string)
    requires Contains(prefix, marker)
    ensures var r := PrependIfMissing(s, marker, prefix);
      Contains(r, marker) && EndsWith(r, s) && (Contains(s, marker) ==> r == s)
  {
    if !Contains(s, marker) {
      ContainsLeft(prefix, s, marker);
      assert (prefix + s)[|prefix + s| - |s|..] == s;
    }
  }
}
