/**
 * crispo/utilities/log_util.py: colour markup in log lines. A message may
 * carry tags such as `[red]...[/red]`; `color_format` turns them into ANSI
 * escape codes, `remove_color_tag` deletes them, and `color_format_len`
 * formats while counting how many characters a terminal will display.
 *
 * The termcolor tables (COLORS, HIGHLIGHTS, ATTRIBUTES, each a mapping
 * from a name to an SGR code) belong to a library that is not part of this
 * model; they are a parameter here, in their own order.
 */
module LogUtil {
  import opened Text
  import opened Formatting

  /** One table entry: a colour or attribute name and its SGR code. */
  type Entry = (string, nat)

  /** `f"[{c}]"`. */
  function StartTag(c: string): (t: string)
    ensures |t| > 0
  {
    "[" + c + "]"
  }

  /** `f"[/{c}]"`. */
  function EndTag(c: string): (t: string)
    ensures |t| > 0
  {
    "[/" + c + "]"
  }

  /** `"\033[%dm" % v`. */
  function Code(v: nat): string
  {
    "\U{1B}[" + NatToString(v) + "m"
  }

  /** termcolor's `RESET`. */
  const Reset := "\U{1B}[0m"

  /** The three tables walked one after another, as the outer loops do. */
  function Flatten(tables: seq<seq<Entry>>): seq<Entry>
  {
    if tables == [] then [] else Flatten(tables[..|tables| - 1]) + tables[|tables| - 1]
  }

  /** A left fold over the table entries, the shape of all three loops. */
  function Fold<S>(s: S, es: seq<Entry>, step: (S, Entry) -> S): S
  {
    if es == [] then s else step(Fold(s, es[..|es| - 1], step), es[|es| - 1])
  }

  lemma FoldSnoc<S>(s: S, es: seq<Entry>, e: Entry, step: (S, Entry) -> S)
    ensures Fold(s, es + [e], step) == step(Fold(s, es, step), e)
  {
    assert (es + [e])[..|es|] == es;
  }

  /** The entries visited after `j` entries of table `i`. */
  lemma VisitedStep(tables: seq<seq<Entry>>, i: nat, j: nat)
    requires i < |tables| && j < |tables[i]|
    ensures Flatten(tables[..i]) + tables[i][..j + 1] == Flatten(tables[..i]) + tables[i][..j] + [tables[i][j]]
  {
    assert tables[i][..j + 1] == tables[i][..j] + [tables[i][j]];
  }

  lemma VisitedTable(tables: seq<seq<Entry>>, i: nat)
    requires i < |tables|
    ensures Flatten(tables[..i]) + tables[i][..|tables[i]|] == Flatten(tables[..i + 1])
  {
    assert tables[..i + 1][..i] == tables[..i];
    assert tables[i][..|tables[i]|] == tables[i];
  }

  // ---------------------------------------------------------------------
  // color_format

  /** One entry of `color_format`: its start tags become the code, then its end tags the reset code. */
  function FormatStep(msg: string, e: Entry): string
  {
    ReplaceAll(ReplaceAll(msg, StartTag(e.0), Code(e.1)), EndTag(e.0), Reset)
  }

  function ColorFormatted(msg: string, es: seq<Entry>): string
  {
    Fold(msg, es, FormatStep)
  }

  /** `color_format(msg)`. */
  method ColorFormat(msg: string, tables: seq<seq<Entry>>) returns (r: string)
    ensures r == ColorFormatted(msg, Flatten(tables))
  {
    r := msg;
    var i := 0;
    while i < |tables|
      invariant i <= |tables| && r == ColorFormatted(msg, Flatten(tables[..i]))
    {
      var j := 0;
      assert Flatten(tables[..i]) + tables[i][..0] == Flatten(tables[..i]);
      while j < |tables[i]|
        invariant j <= |tables[i]| && r == ColorFormatted(msg, Flatten(tables[..i]) + tables[i][..j])
      {
        VisitedStep(tables, i, j);
        FoldSnoc(msg, Flatten(tables[..i]) + tables[i][..j], tables[i][j], FormatStep);
        r := ReplaceAll(ReplaceAll(r, StartTag(tables[i][j].0), Code(tables[i][j].1)), EndTag(tables[i][j].0), Reset);
        j := j + 1;
      }
      VisitedTable(tables, i);
      i := i + 1;
    }
    assert tables[..i] == tables;
  }

  // ---------------------------------------------------------------------
  // remove_color_tag

  function RemoveStep(msg: string, e: Entry): string
  {
    ReplaceAll(ReplaceAll(msg, StartTag(e.0), ""), EndTag(e.0), "")
  }

  function ColorTagsRemoved(msg: string, es: seq<Entry>): string
  {
    Fold(msg, es, RemoveStep)
  }

  /** `remove_color_tag(msg)`. */
  method RemoveColorTag(msg: string, tables: seq<seq<Entry>>) returns (r: string)
    ensures r == ColorTagsRemoved(msg, Flatten(tables))
  {
    r := msg;
    var i := 0;
    while i < |tables|
      invariant i <= |tables| && r == ColorTagsRemoved(msg, Flatten(tables[..i]))
    {
      var j := 0;
      assert Flatten(tables[..i]) + tables[i][..0] == Flatten(tables[..i]);
      while j < |tables[i]|
        invariant j <= |tables[i]| && r == ColorTagsRemoved(msg, Flatten(tables[..i]) + tables[i][..j])
      {
        VisitedStep(tables, i, j);
        FoldSnoc(msg, Flatten(tables[..i]) + tables[i][..j], tables[i][j], RemoveStep);
        r := ReplaceAll(ReplaceAll(r, StartTag(tables[i][j].0), ""), EndTag(tables[i][j].0), "");
        j := j + 1;
      }
      VisitedTable(tables, i);
      i := i + 1;
    }
    assert tables[..i] == tables;
  }

  /** Removing tags never lengthens a message. */
  lemma {:induction false} RemoveColorTagShortens(msg: string, es: seq<Entry>)
    ensures |ColorTagsRemoved(msg, es)| <= |msg|
  {
    if es != [] {
      var e := es[|es| - 1];
      var m := ColorTagsRemoved(msg, es[..|es| - 1]);
      RemoveColorTagShortens(msg, es[..|es| - 1]);
      assert ColorTagsRemoved(msg, es) == RemoveStep(m, e);
      RemoveStepShortens(m, e);
    }
  }

  lemma RemoveStepShortens(m: string, e: Entry)
    ensures |RemoveStep(m, e)| <= |m|
  {
    DeleteShortens(m, StartTag(e.0));
    DeleteShortens(ReplaceAll(m, StartTag(e.0), ""), EndTag(e.0));
  }

  // ---------------------------------------------------------------------
  // _replace_color_offset and color_format_len

  /**
   * `_replace_color_offset(msg, color, ctrl)`: the message split at every
   * `color` and joined back with `ctrl`, and the number of characters the
   * removed `color`s took.
   */
  function ReplaceColorOffset(msg: string, color: string, ctrl: string): (string, int)
    requires |color| > 0
  {
    var chunks := Split(msg, color);
    (Join(chunks, ctrl), (|chunks| - 1) * |color|)
  }

  /** It is `msg.replace(color, ctrl)`, and the offset is the count of `color` times its length. */
  lemma ReplaceColorOffsetMeaning(msg: string, color: string, ctrl: string)
    requires |color| > 0
    ensures ReplaceColorOffset(msg, color, ctrl) == (ReplaceAll(msg, color, ctrl), Count(msg, color) * |color|)
  {
    JoinSplitIsReplace(msg, color, ctrl);
    SplitCount(msg, color);
  }

  /** One entry of `color_format_len`: both replacements, the running length lowered by both offsets. */
  function LenStep(state: (string, int), e: Entry): (string, int)
  {
    var (m1, d1) := ReplaceColorOffset(state.0, StartTag(e.0), Code(e.1));
    var (m2, d2) := ReplaceColorOffset(m1, EndTag(e.0), Reset);
    (m2, state.1 - d1 - d2)
  }

  function FormattedWithLength(msg: string, es: seq<Entry>): (string, int)
  {
    Fold((msg, |msg|), es, LenStep)
  }

  /** `color_format_len(msg)`. */
  method ColorFormatLen(msg: string, tables: seq<seq<Entry>>) returns (r: string, len: int)
    ensures (r, len) == FormattedWithLength(msg, Flatten(tables))
  {
    r := msg;
    len := |msg|;
    var i := 0;
    while i < |tables|
      invariant i <= |tables| && (r, len) == FormattedWithLength(msg, Flatten(tables[..i]))
    {
      var j := 0;
      assert Flatten(tables[..i]) + tables[i][..0] == Flatten(tables[..i]);
      while j < |tables[i]|
        invariant j <= |tables[i]| && (r, len) == FormattedWithLength(msg, Flatten(tables[..i]) + tables[i][..j])
      {
        VisitedStep(tables, i, j);
        FoldSnoc((msg, |msg|), Flatten(tables[..i]) + tables[i][..j], tables[i][j], LenStep);
        var c := tables[i][j].0;
        var (m1, d1) := ReplaceColorOffset(r, StartTag(c), Code(tables[i][j].1));
        var (m2, d2) := ReplaceColorOffset(m1, EndTag(c), Reset);
        r, len := m2, len - d1 - d2;
        j := j + 1;
      }
      VisitedTable(tables, i);
      i := i + 1;
    }
    assert tables[..i] == tables;
  }

  /**
   * The number of escape-code characters `color_format` inserts: for each
   * entry, the codes put in place of its start tags and the resets put in
   * place of its end tags.
   */
  function ControlChars(msg: string, es: seq<Entry>): int
  {
    if es == [] then 0
    else
      var e := es[|es| - 1];
      var m := ColorFormatted(msg, es[..|es| - 1]);
      ControlChars(msg, es[..|es| - 1])
      + Count(m, StartTag(e.0)) * |Code(e.1)|
      + Count(ReplaceAll(m, StartTag(e.0), Code(e.1)), EndTag(e.0)) * |Reset|
  }

  /** One step of `color_format_len` is one step of `color_format`, lowering the length by the tags it replaced. */
  lemma LenStepMeaning(m: string, len: int, e: Entry)
    ensures var m1 := ReplaceAll(m, StartTag(e.0), Code(e.1));
      LenStep((m, len), e) == (FormatStep(m, e), len - Count(m, StartTag(e.0)) * |StartTag(e.0)| - Count(m1, EndTag(e.0)) * |EndTag(e.0)|)
  {
    var m1 := ReplaceAll(m, StartTag(e.0), Code(e.1));
    ReplaceColorOffsetMeaning(m, StartTag(e.0), Code(e.1));
    ReplaceColorOffsetMeaning(m1, EndTag(e.0), Reset);
  }

  /** The length after one step of `color_format`: each replaced tag is traded for its code. */
  lemma FormatStepLength(m: string, e: Entry)
    ensures var m1 := ReplaceAll(m, StartTag(e.0), Code(e.1));
      |FormatStep(m, e)| == |m| + Count(m, StartTag(e.0)) * |Code(e.1)| - Count(m, StartTag(e.0)) * |StartTag(e.0)|
                            + Count(m1, EndTag(e.0)) * |Reset| - Count(m1, EndTag(e.0)) * |EndTag(e.0)|
  {
    var m1 := ReplaceAll(m, StartTag(e.0), Code(e.1));
    ReplaceLength(m, StartTag(e.0), Code(e.1));
    ReplaceLength(m1, EndTag(e.0), Reset);
    Distrib(Count(m, StartTag(e.0)), |Code(e.1)|, |StartTag(e.0)|);
    Distrib(Count(m1, EndTag(e.0)), |Reset|, |EndTag(e.0)|);
  }

  lemma Distrib(c: int, a: int, b: int)
    ensures c * (a - b) == c * a - c * b
  {
  }

  /**
   * `color_format_len` formats exactly as `color_format` does, and the length
   * it reports is what a terminal shows: the formatted text without its
   * escape codes.
   */
  lemma {:induction false} ColorFormatLenMeaning(msg: string, es: seq<Entry>)
    ensures FormattedWithLength(msg, es).0 == ColorFormatted(msg, es)
    ensures FormattedWithLength(msg, es).1 == |ColorFormatted(msg, es)| - ControlChars(msg, es)
  {
    if es != [] {
      var front := es[..|es| - 1];
      var e := es[|es| - 1];
      ColorFormatLenMeaning(msg, front);
      var m := ColorFormatted(msg, front);
      assert ColorFormatted(msg, es) == FormatStep(m, e);
      assert FormattedWithLength(msg, es) == LenStep(FormattedWithLength(msg, front), e);
      LenStepMeaning(m, FormattedWithLength(msg, front).1, e);
      FormatStepLength(m, e);
    }
  }

  /** Markup-free text: no start or end tag of any entry occurs. */
  predicate NoTags(msg: string, es: seq<Entry>)
  {
    forall k :: 0 <= k < |es| ==> !Contains(msg, StartTag(es[k].0)) && !Contains(msg, EndTag(es[k].0))
  }

  /** A message without tags comes out of all three functions unchanged, with its own length. */
  lemma {:induction false} NoTagsUnchanged(msg: string, es: seq<Entry>)
    requires NoTags(msg, es)
    ensures ColorFormatted(msg, es) == msg
    ensures ColorTagsRemoved(msg, es) == msg
    ensures FormattedWithLength(msg, es) == (msg, |msg|)
  {
    if es != [] {
      var front := es[..|es| - 1];
      var e := es[|es| - 1];
      assert NoTags(msg, front) by {
        forall k | 0 <= k < |front|
          ensures !Contains(msg, StartTag(front[k].0)) && !Contains(msg, EndTag(front[k].0))
        {
          assert front[k] == es[k];
        }
      }
      NoTagsUnchanged(msg, front);
      assert !Contains(msg, StartTag(e.0)) && !Contains(msg, EndTag(e.0));
      ReplaceAbsent(msg, StartTag(e.0), Code(e.1));
      ReplaceAbsent(msg, EndTag(e.0), Reset);
      ReplaceAbsent(msg, StartTag(e.0), "");
      ReplaceAbsent(msg, EndTag(e.0), "");
      ReplaceColorOffsetMeaning(msg, StartTag(e.0), Code(e.1));
      ReplaceColorOffsetMeaning(msg, EndTag(e.0), Reset);
    }
  }
}
