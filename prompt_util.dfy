/**
 * crispo/utilities/prompt_util.py: pulling the content of an XML-like tag out
 * of a generation, and normalising blanks in a text.
 */
module PromptUtil {
  import opened Wrappers
  import opened Text

  function OpenTag(tag: string): string { "<" + tag + ">" }

  function CloseTag(tag: string): string { "</" + tag + ">" }

  /** `<tag>value</tag>`, as the prompts write a tagged value on one line. */
  function Tagged(tag: string, value: string): string
  {
    "<" + tag + ">" + value + "</" + tag + ">"
  }

  /**
   * `extract_xml_tag`: the stripped text between the last `<tag>` and the last
   * `</tag>` that follows it; `None` when either is missing.
   */
  function ExtractXmlTag(generation: string, tag: string): (r: Option<string>)
    ensures !Contains(generation, OpenTag(tag)) ==> r.None?
    ensures r.Some? ==> IsStripped(r.value)
  {
    var b := RFind(generation, OpenTag(tag));
    if b == -1 then None
    else
      var begin := b + |OpenTag(tag)|;
      var end := RFindFrom(generation, CloseTag(tag), begin);
      if end == -1 then None
      else Some(Strip(generation[begin..end]))
  }

  /** An occurrence inside a piece of `s` is an occurrence in `s` at a shifted index. */
  lemma PieceOccurrence(s: string, lo: nat, x: string, t: string, i: int)
    requires lo + |x| <= |s| && s[lo..lo + |x|] == x
    ensures OccursAt(x, t, i) ==> OccursAt(s, t, lo + i)
  {
    if OccursAt(x, t, i) {
      assert x[i..] <= s[lo + i..];
    }
  }

  /** Where the stripped text sits inside the original text. */
  lemma StripOffset(s: string) returns (o: nat)
    ensures o + |Strip(s)| <= |s| && s[o..o + |Strip(s)|] == Strip(s)
  {
    o := LeadingSpaces(s);
    assert s[o..][..|Strip(s)|] == Strip(s);
  }

  /**
   * The extraction starts after the last `<tag>`, so the content never
   * contains `<tag>` itself.
   */
  lemma ExtractHasNoOpenTag(generation: string, tag: string)
    requires ExtractXmlTag(generation, tag).Some?
    ensures !Contains(ExtractXmlTag(generation, tag).value, OpenTag(tag))
  {
    var b := RFind(generation, OpenTag(tag));
    var begin := b + |OpenTag(tag)|;
    var e := RFindFrom(generation, CloseTag(tag), begin);
    var slice := generation[begin..e];
    ExtractBetween(generation, tag, b, e, slice);
    AfterLastLacks(generation, OpenTag(tag), b, e);
    StrippedLacks(slice, OpenTag(tag));
  }

  /** The text between the end of the last occurrence of `t` and any later index lacks `t`. */
  lemma AfterLastLacks(g: string, t: string, b: nat, e: nat)
    requires |t| > 0 && RFind(g, t) == b && b + |t| <= e <= |g|
    ensures !Contains(g[b + |t|..e], t)
  {
    assert RFindFrom(g, t, 0) == b;
    NoOccurrenceInPiece(g, t, b + |t|, g[b + |t|..e]);
  }

  /** Stripping cannot introduce an occurrence. */
  lemma StrippedLacks(s: string, t: string)
    requires !Contains(s, t)
    ensures !Contains(Strip(s), t)
  {
    StripInfix(s);
    ContainsTransImp(s, Strip(s), t);
  }

  /** What contains a piece contains everything the piece contains. */
  lemma ContainsTransImp(x: string, y: string, t: string)
    requires Contains(x, y)
    ensures Contains(y, t) ==> Contains(x, t)
  {
    if Contains(y, t) {
      ContainsTrans(x, y, t);
    }
  }

  /** A piece lying after the last occurrence of `t` does not contain `t`. */
  lemma NoOccurrenceInPiece(g: string, t: string, lo: nat, r: string)
    requires lo + |r| <= |g| && g[lo..lo + |r|] == r
    requires forall j :: lo <= j <= |g| ==> !OccursAt(g, t, j)
    ensures !Contains(r, t)
  {
    forall i | 0 <= i <= |r|
      ensures !OccursAt(r, t, i)
    {
      PieceOccurrence(g, lo, r, t, i);
    }
  }

  /**
   * The extraction fails exactly when `<tag>` is absent or no `</tag>` follows
   * the last `<tag>`.
   */
  lemma ExtractSomeIff(generation: string, tag: string)
    ensures var b := RFind(generation, OpenTag(tag));
      ExtractXmlTag(generation, tag).Some?
      <==> b >= 0 && Contains(generation[b + |OpenTag(tag)|..], CloseTag(tag))
  {
    var open, close := OpenTag(tag), CloseTag(tag);
    var b := RFind(generation, open);
    if b >= 0 {
      var begin := b + |open|;
      var rest := generation[begin..];
      if Contains(rest, close) {
        var k :| 0 <= k <= |rest| && OccursAt(rest, close, k);
        assert rest[k..] == generation[begin + k..];
        assert OccursAt(generation, close, begin + k);
      }
      var end := RFindFrom(generation, close, begin);
      if end >= 0 {
        assert generation[end..] == rest[end - begin..];
        assert OccursAt(rest, close, end - begin);
      }
    }
  }

  /**
   * Wrapping content in the tag and reading it back: the content comes back
   * stripped, whatever precedes the tag, provided no later `<tag>` and no
   * later `</tag>` follow.
   */
  lemma ExtractWrapped(pre: string, tag: string, content: string, post: string)
    requires '<' !in tag
    requires !Contains(content + CloseTag(tag) + post, OpenTag(tag))
    requires !Contains(post, CloseTag(tag))
    ensures ExtractXmlTag(pre + OpenTag(tag) + content + CloseTag(tag) + post, tag) == Some(Strip(content))
  {
    WrappedTagPositions(pre, tag, content, post);
    ExtractBetween(pre + OpenTag(tag) + content + CloseTag(tag) + post, tag, |pre|, |pre| + |OpenTag(tag)| + |content|, content);
  }

  /** A value without `<`, tagged once, is extracted back, stripped. */
  lemma ExtractTagged(tag: string, content: string)
    requires '<' !in content && '<' !in tag && |tag| > 0 && tag[0] != '/'
    ensures ExtractXmlTag(Tagged(tag, content), tag) == Some(Strip(content))
  {
    assert "" + OpenTag(tag) + content + CloseTag(tag) + "" == Tagged(tag, content);
    LacksOpenTag(content, tag);
    assert content + CloseTag(tag) + "" == content + CloseTag(tag);
    if Contains("", CloseTag(tag)) {
      ContainsLength("", CloseTag(tag));
    }
    ExtractWrapped("", tag, content, "");
  }

  /** Text without `<`, followed by the closing tag, holds no opening tag. */
  lemma LacksOpenTag(content: string, tag: string)
    requires '<' !in content && '<' !in tag && |tag| > 0 && tag[0] != '/'
    ensures !Contains(content + CloseTag(tag), OpenTag(tag))
  {
    var s := content + CloseTag(tag);
    var o := OpenTag(tag);
    assert o[0] == '<' && o[1] == tag[0];
    forall i | 0 <= i <= |s|
      ensures !OccursAt(s, o, i)
    {
      if i + 1 < |s| {
        assert s[i..][0] == s[i] && s[i..][1] == s[i + 1];
        if i < |content| {
          assert s[i] == content[i];
        } else if i == |content| {
          assert s[i + 1] == '/';
        } else if i == |content| + 1 {
          assert s[i] == '/';
        } else {
          assert s[i] == tag[i - |content| - 2];
        }
      }
    }
  }

  /** Where the last `<tag>` and the last `</tag>` after it sit in a wrapped text. */
  lemma WrappedTagPositions(pre: string, tag: string, content: string, post: string)
    requires '<' !in tag
    requires !Contains(content + CloseTag(tag) + post, OpenTag(tag))
    requires !Contains(post, CloseTag(tag))
    ensures var g := pre + OpenTag(tag) + content + CloseTag(tag) + post;
      var begin := |pre| + |OpenTag(tag)|;
      RFind(g, OpenTag(tag)) == |pre|
      && RFindFrom(g, CloseTag(tag), begin) == begin + |content|
      && g[begin..begin + |content|] == content
  {
    var open, close := OpenTag(tag), CloseTag(tag);
    var head := pre + open + content;
    var g := head + close + post;
    assert g == pre + open + (content + close + post);
    OpenTagOccursLast(pre, tag, content + close + post);
    CloseTagOccursLast(head, tag, post, |pre| + |open|);
    assert g[|pre| + |open|..|head|] == content;
  }

  /** When the last `<tag>` is at `b` and the last `</tag>` after it at `e`, the extraction is the stripped text between. */
  lemma ExtractBetween(g: string, tag: string, b: nat, e: nat, v: string)
    requires RFind(g, OpenTag(tag)) == b
    requires b + |OpenTag(tag)| <= e <= |g| && RFindFrom(g, CloseTag(tag), b + |OpenTag(tag)|) == e
    requires g[b + |OpenTag(tag)|..e] == v
    ensures ExtractXmlTag(g, tag) == Some(Strip(v))
  {
  }

  lemma OpenTagOccursLast(a: string, tag: string, b: string)
    requires '<' !in tag && !Contains(b, OpenTag(tag))
    ensures RFind(a + OpenTag(tag) + b, OpenTag(tag)) == |a|
  {
    assert OpenTag(tag)[1..] == tag + ">";
    RFindLastOccurrence(a, OpenTag(tag), b, 0);
  }

  lemma CloseTagOccursLast(a: string, tag: string, b: string, start: nat)
    requires '<' !in tag && !Contains(b, CloseTag(tag)) && start <= |a|
    ensures RFindFrom(a + CloseTag(tag) + b, CloseTag(tag), start) == |a|
  {
    assert CloseTag(tag)[1..] == "/" + tag + ">";
    RFindLastOccurrence(a, CloseTag(tag), b, start);
  }

  /** A tag name that cannot run into its own closing tag or across a line. */
  predicate PlainTag(tag: string)
  {
    |tag| > 0 && tag[0] != '/' && '<' !in tag && '\n' !in tag
  }

  /** `</tag>` does not contain `<tag>`: its only `<` is followed by `/`. */
  lemma CloseLacksOpen(tag: string)
    requires PlainTag(tag)
    ensures !Contains(CloseTag(tag), OpenTag(tag))
  {
    var c, o := CloseTag(tag), OpenTag(tag);
    forall i | 0 <= i <= |c|
      ensures !OccursAt(c, o, i)
    {
      if i == 0 {
        assert c[1] == '/' && o[1] == tag[0];
      } else if i == 1 {
        assert c[1] == '/';
      }
    }
  }

  /**
   * Content written on its own lines between `<tag>` and `</tag>` is read
   * back stripped, whatever comes before, when nothing after it reopens the tag.
   */
  lemma ExtractNewlineWrapped(pre: string, tag: string, y: string, post: string)
    requires PlainTag(tag) && !Contains(y, OpenTag(tag))
    requires !Contains(post, OpenTag(tag)) && !Contains(post, CloseTag(tag))
    requires post == [] || post[0] == '\n'
    ensures ExtractXmlTag(pre + OpenTag(tag) + "\n" + y + "\n" + CloseTag(tag) + post, tag) == Some(Strip(y))
  {
    var o, c := OpenTag(tag), CloseTag(tag);
    var content := "\n" + y + "\n";
    assert !Contains("\n", o);
    NoOccurrenceAcross("\n", y, "\n", o);
    CloseLacksOpen(tag);
    NoOccurrenceAcross(content, c, post, o);
    assert pre + o + "\n" + y + "\n" + c + post == pre + o + content + c + post;
    ExtractWrapped(pre, tag, content, post);
    StripAround(y);
  }

  /** Stripping ignores one extra newline on each side. */
  lemma StripAround(y: string)
    ensures Strip("\n" + y + "\n") == Strip(y)
  {
    assert "\n" + y + "\n" == "\n" + (y + "\n");
    LStripNewlineFirst(y + "\n");
    if LeadingSpaces(y) == |y| {
      LeadingSpacesAllSnoc(y);
    } else {
      LeadingSpacesSnoc(y);
      var k := LeadingSpaces(y);
      assert (y + "\n")[k..] == y[k..] + "\n";
      RStripNewlineLast(LStrip(y));
    }
  }

  /** A leading newline is stripped from the left. */
  lemma LStripNewlineFirst(x: string)
    ensures LStrip("\n" + x) == LStrip(x)
  {
    assert ("\n" + x)[1..] == x;
  }

  /** A trailing newline is stripped from the right. */
  lemma RStripNewlineLast(u: string)
    ensures RStrip(u + "\n") == RStrip(u)
  {
    assert (u + "\n")[..|u|] == u;
    assert TrailingSpaces(u + "\n") == 1 + TrailingSpaces(u);
  }

  lemma LeadingSpacesAllSnoc(y: string)
    requires LeadingSpaces(y) == |y|
    ensures LeadingSpaces(y + "\n") == |y| + 1
    decreases |y|
  {
    if |y| > 0 {
      assert (y + "\n")[1..] == y[1..] + "\n";
      LeadingSpacesAllSnoc(y[1..]);
    }
  }

  lemma LeadingSpacesSnoc(y: string)
    requires LeadingSpaces(y) < |y|
    ensures LeadingSpaces(y + "\n") == LeadingSpaces(y)
    decreases |y|
  {
    if IsSpace(y[0]) {
      assert (y + "\n")[1..] == y[1..] + "\n";
      LeadingSpacesSnoc(y[1..]);
    }
  }

  // ---------------------------------------------------------------------
  // trim_space

  predicate IsBlank(c: char) { c == ' ' || c == '\t' }

  predicate NoTab(s: string) { forall i :: 0 <= i < |s| ==> s[i] != '\t' }

  predicate NoDoubleSpace(s: string) { forall i :: 0 <= i < |s| - 1 ==> !(s[i] == ' ' && s[i + 1] == ' ') }

  predicate NoIndent(s: string) { forall i :: 0 <= i < |s| - 1 ==> !(s[i] == '\n' && s[i + 1] == ' ') }

  /** The text with every blank (space or tab) deleted. */
  function NonBlanks(s: string): string
  {
    if s == [] then [] else (if IsBlank(s[0]) then [] else [s[0]]) + NonBlanks(s[1..])
  }

  /** Drops the run of blanks at the start of `s`. */
  function DropBlanks(s: string): (r: string)
    ensures |r| <= |s| && r == s[|s| - |r|..] && (r == [] || !IsBlank(r[0]))
    ensures NonBlanks(r) == NonBlanks(s)
  {
    if s != [] && IsBlank(s[0]) then DropBlanks(s[1..]) else s
  }

  /** `re.sub(r"[ \t]+", " ", s)`: every run of blanks becomes one space. */
  function CollapseBlanks(s: string): (r: string)
    decreases |s|
    ensures |r| <= |s|
    ensures NoTab(r) && NoDoubleSpace(r)
    ensures NonBlanks(r) == NonBlanks(s)
    ensures s != [] && !IsBlank(s[0]) ==> r != [] && r[0] == s[0]
  {
    if s == [] then []
    else if IsBlank(s[0]) then " " + CollapseBlanks(DropBlanks(s[1..]))
    else [s[0]] + CollapseBlanks(s[1..])
  }

  /** `re.sub(r"\n[ \t]+", "\n", s)`: blanks right after a newline are deleted. */
  function DropIndent(s: string): (r: string)
    decreases |s|
    ensures |r| <= |s|
    ensures s != [] ==> r != [] && r[0] == s[0]
    ensures NoIndent(r)
    ensures NoTab(s) ==> NoTab(r)
    ensures NonBlanks(r) == NonBlanks(s)
  {
    if s == [] then []
    else if s[0] == '\n' && |s| > 1 && IsBlank(s[1]) then "\n" + DropIndent(DropBlanks(s[1..]))
    else [s[0]] + DropIndent(s[1..])
  }

  /** Deleting indentation never puts two spaces side by side. */
  lemma {:induction false} DropIndentSpacing(s: string)
    requires NoTab(s) && NoDoubleSpace(s)
    ensures NoDoubleSpace(DropIndent(s))
    decreases |s|
  {
    if s == [] {
    } else if s[0] == '\n' && |s| > 1 && IsBlank(s[1]) {
      var t := DropBlanks(s[1..]);
      SuffixSpacing(s, t);
      DropIndentSpacing(t);
    } else {
      SuffixSpacing(s, s[1..]);
      DropIndentSpacing(s[1..]);
      ConsSpacing(s[0], DropIndent(s[1..]));
    }
  }

  /** A suffix of a text without tabs and double spaces has none either. */
  lemma SuffixSpacing(s: string, t: string)
    requires NoTab(s) && NoDoubleSpace(s) && |t| <= |s| && t == s[|s| - |t|..]
    ensures NoTab(t) && NoDoubleSpace(t)
  {
    var d := |s| - |t|;
    forall i | 0 <= i < |t|
      ensures t[i] != '\t'
    {
      assert t[i] == s[d + i];
    }
    forall i | 0 <= i < |t| - 1
      ensures !(t[i] == ' ' && t[i + 1] == ' ')
    {
      assert t[i] == s[d + i] && t[i + 1] == s[d + i + 1];
    }
  }

  /** A character before a text without double spaces makes none, unless both are spaces. */
  lemma ConsSpacing(c: char, t: string)
    requires NoDoubleSpace(t) && !(c == ' ' && t != [] && t[0] == ' ')
    ensures NoDoubleSpace([c] + t)
  {
    var r := [c] + t;
    forall i | 0 <= i < |r| - 1
      ensures !(r[i] == ' ' && r[i + 1] == ' ')
    {
      if i > 0 {
        assert r[i] == t[i - 1] && r[i + 1] == t[i];
      }
    }
  }

  /**
   * `trim_space`: no tab, no two spaces in a row and no space right after a
   * newline remain; nothing but blanks is removed, so every newline is kept.
   */
  function TrimSpace(text: string): (r: string)
    ensures NoTab(r) && NoDoubleSpace(r) && NoIndent(r)
    ensures |r| <= |text|
    ensures NonBlanks(r) == NonBlanks(text)
  {
    DropIndentSpacing(CollapseBlanks(text));
    DropIndent(CollapseBlanks(text))
  }

  function CountChar(s: string, c: char): nat
  {
    if s == [] then 0 else (if s[0] == c then 1 else 0) + CountChar(s[1..], c)
  }

  lemma {:induction false} NonBlanksKeepsNewlines(s: string)
    ensures CountChar(NonBlanks(s), '\n') == CountChar(s, '\n')
  {
    if s != [] {
      NonBlanksKeepsNewlines(s[1..]);
      var head := if IsBlank(s[0]) then [] else [s[0]];
      CountCharAppend(head, NonBlanks(s[1..]), '\n');
    }
  }

  lemma {:induction false} CountCharAppend(a: string, b: string, c: char)
    ensures CountChar(a + b, c) == CountChar(a, c) + CountChar(b, c)
  {
    if a == [] {
      assert a + b == b;
    } else {
      assert (a + b)[0] == a[0];
      assert (a + b)[1..] == a[1..] + b;
      CountCharAppend(a[1..], b, c);
    }
  }

  /** `trim_space` keeps exactly as many newlines as the input had. */
  lemma TrimSpaceKeepsNewlines(text: string)
    ensures CountChar(TrimSpace(text), '\n') == CountChar(text, '\n')
  {
    NonBlanksKeepsNewlines(text);
    NonBlanksKeepsNewlines(TrimSpace(text));
  }
}
