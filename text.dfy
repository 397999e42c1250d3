/**
 * The Python `str` operations the prompt protocol is built from, stated on
 * `seq<char>`: membership (`in`), `find`/`rfind`, `strip`, `replace`,
 * `split`/`join` and `startswith`/`endswith`.
 */
module Text {

  type NonEmptyString = s: string | |s| > 0 witness "_"

  /** Python's `str.isspace()` for a single character. */
  predicate IsSpace(c: char)
  {
    c == ' ' || c == '\t' || c == '\n' || c == '\r' || c == '\U{000B}' || c == '\U{000C}'
    || ('\U{001C}' <= c <= '\U{001F}') || c == '\U{0085}' || c == '\U{00A0}' || c == '\U{1680}'
    || ('\U{2000}' <= c <= '\U{200A}') || c == '\U{2028}' || c == '\U{2029}' || c == '\U{202F}'
    || c == '\U{205F}' || c == '\U{3000}'
  }

  predicate IsDigit(c: char) { '0' <= c <= '9' }

  /** `t` occurs in `s` starting at index `i`. */
  predicate OccursAt(s: string, t: string, i: int)
  {
    0 <= i <= |s| && t <= s[i..]
  }

  /** Python's `t in s`. */
  predicate Contains(s: string, t: string)
  {
    exists i :: 0 <= i <= |s| && OccursAt(s, t, i)
  }

  /** Python's `s.endswith(t)`. */
  predicate EndsWith(s: string, t: string)
  {
    |t| <= |s| && s[|s| - |t|..] == t
  }

  /** A text ends with what was appended to it. */
  lemma EndsWithAppend(a: string, b: string)
    ensures EndsWith(a + b, b)
  {
    assert (a + b)[|a + b| - |b|..] == b;
  }

  /** A text starts with what it was appended to. */
  lemma PrefixAppend(a: string, b: string)
    ensures a <= a + b
  {
    assert (a + b)[..|a|] == a;
  }

  /** A text that starts with `a + b` starts with `a`. */
  lemma PrefixOfLongerPrefix(a: string, b: string, t: string)
    requires a + b <= t
    ensures a <= t
  {
    assert (a + b)[..|a|] == a;
  }

  /** A prefix of a text stays a prefix when more is appended. */
  lemma PrefixExtend(a: string, b: string, c: string)
    requires a <= b
    ensures a <= b + c
  {
    assert (b + c)[..|a|] == b[..|a|];
  }

  /** Two texts that differ at an index both texts reach cannot both start a third. */
  lemma PrefixesDiffer(a: string, b: string, t: string, i: nat)
    requires a <= t && i < |a| && i < |b| && a[i] != b[i]
    ensures !(b <= t)
  {
    assert t[i] == a[i];
  }

  /** Cutting the appended text off again gives back the start. */
  lemma DropEnd(a: string, b: string)
    ensures (a + b)[..|a + b| - |b|] == a
  {
    assert (a + b)[..|a|] == a;
  }

  /** Ending with a text that ends with `u` is ending with `u`. */
  lemma EndsWithTrans(s: string, t: string, u: string)
    requires EndsWith(s, t) && EndsWith(t, u)
    ensures EndsWith(s, u)
  {
    assert s[|s| - |u|..] == t[|t| - |u|..];
  }

  lemma ContainsSelf(t: string)
    ensures Contains(t, t)
  {
    assert OccursAt(t, t, 0);
  }

  lemma ContainsEmpty(s: string)
    ensures Contains(s, "")
  {
    assert OccursAt(s, "", 0);
  }

  /** An occurrence inside `x` is an occurrence inside `a + x + b`. */
  lemma ContainsInfix(a: string, x: string, b: string, t: string)
    requires Contains(x, t)
    ensures Contains(a + x + b, t)
  {
    var i :| 0 <= i <= |x| && OccursAt(x, t, i);
    assert (a + x + b)[|a| + i..] == x[i..] + b;
    assert OccursAt(a + x + b, t, |a| + i);
  }

  lemma ContainsLeft(a: string, b: string, t: string)
    requires Contains(a, t)
    ensures Contains(a + b, t)
  {
    ContainsInfix("", a, b, t);
    assert "" + a + b == a + b;
  }

  lemma ContainsRight(a: string, b: string, t: string)
    requires Contains(b, t)
    ensures Contains(a + b, t)
  {
    ContainsInfix(a, b, "", t);
    assert a + b + "" == a + b;
  }

  /** A text in a prefix is in the whole. */
  lemma ContainsPrefix(s: string, p: string, t: string)
    requires p <= s && Contains(p, t)
    ensures Contains(s, t)
  {
    ContainsLeft(p, s[|p|..], t);
    assert p + s[|p|..] == s;
  }

  /** Containment is transitive. */
  lemma ContainsTrans(s: string, x: string, t: string)
    requires Contains(s, x) && Contains(x, t)
    ensures Contains(s, t)
  {
    var i :| 0 <= i <= |s| && OccursAt(s, x, i);
    var j :| 0 <= j <= |x| && OccursAt(x, t, j);
    assert s[i..] == x + s[i + |x|..];
    assert s[i..][j..] == x[j..] + s[i + |x|..];
    assert s[i + j..] == s[i..][j..];
    assert OccursAt(s, t, i + j);
  }

  /** A string can only contain strings that are no longer than itself. */
  lemma ContainsLength(s: string, t: string)
    requires Contains(s, t)
    ensures |t| <= |s|
  {
  }

  /** A string that contains `t` contains every character of `t`. */
  lemma ContainsChar(s: string, t: string, k: nat)
    requires Contains(s, t) && k < |t|
    ensures Contains(s, [t[k]])
  {
    assert OccursAt(t, [t[k]], k);
    ContainsTrans(s, t, [t[k]]);
  }

  /** One character is contained exactly when it occurs at some index. */
  lemma ContainsCharIff(s: string, c: char)
    ensures Contains(s, [c]) <==> c in s
  {
    if c in s {
      var i :| 0 <= i < |s| && s[i] == c;
      assert OccursAt(s, [c], i);
    }
    if Contains(s, [c]) {
      var i :| 0 <= i <= |s| && OccursAt(s, [c], i);
      assert s[i] == c;
    }
  }

  // ---------------------------------------------------------------------
  // find / rfind

  /** Python's `s.find(t, i)`: the lowest index `>= i` where `t` occurs, or -1. */
  function FindFrom(s: string, t: string, i: nat): (r: int)
    requires i <= |s|
    decreases |s| - i
    ensures r == -1 || (i <= r && OccursAt(s, t, r))
    ensures r == -1 ==> forall j :: i <= j <= |s| ==> !OccursAt(s, t, j)
    ensures r >= 0 ==> forall j :: i <= j < r ==> !OccursAt(s, t, j)
  {
    if t <= s[i..] then i
    else if i == |s| then -1
    else FindFrom(s, t, i + 1)
  }

  /** Python's `s.find(t)`. */
  function Find(s: string, t: string): int
  {
    FindFrom(s, t, 0)
  }

  lemma FindIffContains(s: string, t: string)
    ensures Find(s, t) >= 0 <==> Contains(s, t)
  {
  }

  /** The highest index in `[start, hi]` where `t` occurs, or -1. */
  function RFindDown(s: string, t: string, start: nat, hi: int): (r: int)
    requires start <= |s| && start - 1 <= hi <= |s|
    decreases hi - start + 1
    ensures r == -1 || (start <= r <= hi && OccursAt(s, t, r))
    ensures r == -1 ==> forall j :: start <= j <= hi ==> !OccursAt(s, t, j)
    ensures r >= 0 ==> forall j :: r < j <= hi ==> !OccursAt(s, t, j)
  {
    if hi < start then -1
    else if t <= s[hi..] then hi
    else RFindDown(s, t, start, hi - 1)
  }

  /** Python's `s.rfind(t, start)` for `start <= len(s)`: the highest index `>= start` where `t` occurs, or -1. */
  function RFindFrom(s: string, t: string, start: nat): (r: int)
    requires start <= |s|
    ensures r == -1 <==> forall j :: start <= j <= |s| ==> !OccursAt(s, t, j)
    ensures r >= 0 ==> start <= r && OccursAt(s, t, r) && forall j :: r < j <= |s| ==> !OccursAt(s, t, j)
  {
    RFindDown(s, t, start, |s|)
  }

  /** Python's `s.rfind(t)`. */
  function RFind(s: string, t: string): (r: int)
    ensures r == -1 <==> !Contains(s, t)
  {
    RFindFrom(s, t, 0)
  }

  /**
   * In `a + t + b`, where the first character of `t` does not occur again in `t`
   * and `b` does not contain `t`, the last occurrence of `t` is the one after `a`.
   */
  lemma RFindLastOccurrence(a: string, t: string, b: string, start: nat)
    requires |t| > 0 && t[0] !in t[1..] && !Contains(b, t) && start <= |a|
    ensures RFindFrom(a + t + b, t, start) == |a|
  {
    var s := a + t + b;
    assert s[|a|..] == t + b;
    assert OccursAt(s, t, |a|);
    forall j | |a| < j <= |s|
      ensures !OccursAt(s, t, j)
    {
      if j < |a| + |t| {
        assert s[j] == t[j - |a|] == t[1..][j - |a| - 1];
        assert s[j] != t[0];
      } else {
        assert s[j..] == b[j - |a| - |t|..];
        assert !OccursAt(b, t, j - |a| - |t|);
      }
    }
  }

  // ---------------------------------------------------------------------
  // strip

  /** The number of whitespace characters at the start of `s`. */
  function LeadingSpaces(s: string): (k: nat)
    ensures k <= |s|
    ensures forall i :: 0 <= i < k ==> IsSpace(s[i])
    ensures k < |s| ==> !IsSpace(s[k])
  {
    if |s| > 0 && IsSpace(s[0]) then 1 + LeadingSpaces(s[1..]) else 0
  }

  /** The number of whitespace characters at the end of `s`. */
  function TrailingSpaces(s: string): (k: nat)
    ensures k <= |s|
    ensures forall i :: |s| - k <= i < |s| ==> IsSpace(s[i])
    ensures k < |s| ==> !IsSpace(s[|s| - 1 - k])
  {
    if |s| > 0 && IsSpace(s[|s| - 1]) then 1 + TrailingSpaces(s[..|s| - 1]) else 0
  }

  /** Python's `s.lstrip()`. */
  function LStrip(s: string): string
  {
    s[LeadingSpaces(s)..]
  }

  /** Python's `s.rstrip()`. */
  function RStrip(s: string): string
  {
    s[..|s| - TrailingSpaces(s)]
  }

  /** No whitespace at either end. */
  predicate IsStripped(s: string)
  {
    s == [] || (!IsSpace(s[0]) && !IsSpace(s[|s| - 1]))
  }

  /** Python's `s.strip()`. */
  function Strip(s: string): (r: string)
    ensures IsStripped(r)
  {
    var t := LStrip(s);
    assert t != [] ==> !IsSpace(t[0]);
    RStrip(t)
  }

  /** The stripped text is a piece of the original text. */
  lemma StripInfix(s: string)
    ensures Contains(s, Strip(s))
  {
    var o := LeadingSpaces(s);
    var r := Strip(s);
    assert s[o..][..|r|] == r;
    assert OccursAt(s, r, o);
  }

  /** A text without surrounding whitespace is its own strip. */
  lemma StripNoop(s: string)
    requires IsStripped(s)
    ensures Strip(s) == s
  {
    assert LeadingSpaces(s) == 0;
    assert s[0..] == s;
    assert TrailingSpaces(s) == 0;
    assert s[..|s|] == s;
  }

  lemma StripIdempotent(s: string)
    ensures Strip(Strip(s)) == Strip(s)
  {
    StripNoop(Strip(s));
  }

  /** Python's `s.lstrip(chars)`: drops leading characters that belong to the set. */
  function LStripChars(s: string, chars: set<char>): (r: string)
    ensures |r| <= |s|
    ensures r == [] || r[0] !in chars
  {
    if |s| > 0 && s[0] in chars then LStripChars(s[1..], chars) else s
  }

  // ---------------------------------------------------------------------
  // replace, split, join

  /** Python's `s.replace(pat, rep)`: every non-overlapping occurrence, scanning left to right. */
  function ReplaceAll(s: string, pat: string, rep: string): string
    requires |pat| > 0
    decreases |s|
  {
    if |s| < |pat| then s
    else if pat <= s then rep + ReplaceAll(s[|pat|..], pat, rep)
    else [s[0]] + ReplaceAll(s[1..], pat, rep)
  }

  /** The number of non-overlapping occurrences Python's `s.count(pat)` reports. */
  function Count(s: string, pat: string): nat
    requires |pat| > 0
    decreases |s|
  {
    if |s| < |pat| then 0
    else if pat <= s then 1 + Count(s[|pat|..], pat)
    else Count(s[1..], pat)
  }

  /** A text without the pattern is left as it is. */
  lemma {:induction false} ReplaceAbsent(s: string, pat: string, rep: string)
    requires |pat| > 0 && !Contains(s, pat)
    ensures ReplaceAll(s, pat, rep) == s
    ensures Count(s, pat) == 0
    decreases |s|
  {
    if |s| >= |pat| {
      assert !OccursAt(s, pat, 0);
      assert !Contains(s[1..], pat) by {
        forall i | 0 <= i <= |s[1..]|
          ensures !OccursAt(s[1..], pat, i)
        {
          assert s[1..][i..] == s[i + 1..];
          assert !OccursAt(s, pat, i + 1);
        }
      }
      ReplaceAbsent(s[1..], pat, rep);
    }
  }

  /** A text that is exactly the pattern becomes exactly the replacement. */
  lemma ReplaceWhole(pat: string, rep: string)
    requires |pat| > 0
    ensures ReplaceAll(pat, pat, rep) == rep
  {
    assert pat[|pat|..] == [];
    assert ReplaceAll([], pat, rep) == [];
  }

  /** When the pattern occurs, the replacement occurs in the result. */
  lemma {:induction false} ReplacePresent(s: string, pat: string, rep: string)
    requires |pat| > 0 && Contains(s, pat)
    ensures Contains(ReplaceAll(s, pat, rep), rep)
    ensures Count(s, pat) > 0
    decreases |s|
  {
    var i :| 0 <= i <= |s| && OccursAt(s, pat, i);
    if pat <= s {
      ContainsLeft(rep, ReplaceAll(s[|pat|..], pat, rep), rep) by { ContainsSelf(rep); }
    } else {
      assert i > 0;
      assert s[1..][i - 1..] == s[i..];
      assert OccursAt(s[1..], pat, i - 1);
      ReplacePresent(s[1..], pat, rep);
      ContainsRight([s[0]], ReplaceAll(s[1..], pat, rep), rep);
    }
  }

  /** Replacing one character by another maps the text character by character. */
  lemma {:induction false} ReplaceChar(s: string, c: char, d: char)
    ensures |ReplaceAll(s, [c], [d])| == |s|
    ensures forall i :: 0 <= i < |s| ==> ReplaceAll(s, [c], [d])[i] == if s[i] == c then d else s[i]
    decreases |s|
  {
    if |s| > 0 {
      ReplaceChar(s[1..], c, d);
    }
  }

  /**
   * A text has no occurrence of `t` when neither of its three pieces has one
   * and the characters at the two seams cannot be part of one.
   */
  lemma NoOccurrenceAcross(p: string, y: string, q: string, t: string)
    requires |t| > 0 && !Contains(p, t) && !Contains(y, t) && !Contains(q, t)
    requires |p| > 0 ==> p[|p| - 1] !in t
    requires |q| > 0 ==> q[0] !in t
    ensures !Contains(p + y + q, t)
  {
    var s := p + y + q;
    forall i | 0 <= i <= |s|
      ensures !OccursAt(s, t, i)
    {
      if i + |t| <= |p| {
        assert p[i..] == s[i..|p|];
        assert !OccursAt(p, t, i);
      } else if i < |p| {
        if i + |t| <= |s| {
          assert s[|p| - 1] == p[|p| - 1] && s[|p| - 1] !in t;
          assert s[i..][|p| - 1 - i] == s[|p| - 1];
        }
      } else if i + |t| <= |p| + |y| {
        assert y[i - |p|..] == s[i..|p| + |y|];
        assert !OccursAt(y, t, i - |p|);
      } else if i <= |p| + |y| {
        if i + |t| <= |s| {
          assert s[|p| + |y|] == q[0] && s[|p| + |y|] !in t;
          assert s[i..][|p| + |y| - i] == s[|p| + |y|];
        }
      } else {
        assert q[i - |p| - |y|..] == s[i..];
        assert !OccursAt(q, t, i - |p| - |y|);
      }
    }
  }

  /** Python's `s[:stop]`, where a negative stop counts from the end. */
  function Take<T>(s: seq<T>, stop: int): (r: seq<T>)
    ensures |r| <= |s|
  {
    if stop >= |s| then s
    else if stop >= 0 then s[..stop]
    else if |s| + stop >= 0 then s[..|s| + stop]
    else []
  }

  /** A slice `s[:stop]` is always a prefix of `s`. */
  lemma TakePrefix<T>(s: seq<T>, stop: int)
    ensures Take(s, stop) == s[..|Take(s, stop)|]
    ensures stop >= 0 ==> |Take(s, stop)| == if stop < |s| then stop else |s|
  {
  }

  /** Python's `s[start:]`, where a negative start counts from the end. */
  function Drop<T>(s: seq<T>, start: int): (r: seq<T>)
    ensures |r| <= |s|
  {
    if start >= |s| then []
    else if start >= 0 then s[start..]
    else if |s| + start >= 0 then s[|s| + start..]
    else s
  }

  /** `c * d` as repeated addition, so that the length proof below stays linear. */
  function Times(c: nat, d: int): int
  {
    if c == 0 then 0 else d + Times(c - 1, d)
  }

  lemma {:induction false} TimesIsProduct(c: nat, d: int)
    ensures Times(c, d) == c * d
  {
    if c > 0 {
      TimesIsProduct(c - 1, d);
    }
  }

  /** A character in neither part is not in their concatenation. */
  lemma CharNotInAppend(c: char, a: string, b: string)
    requires c !in a && c !in b
    ensures c !in a + b
  {
  }

  /** Deleting every occurrence of a non-empty pattern never lengthens a text. */
  lemma DeleteShortens(s: string, pat: string)
    requires |pat| > 0
    ensures |ReplaceAll(s, pat, "")| <= |s|
  {
    ReplaceLength(s, pat, "");
    NonPositiveProduct(Count(s, pat), |pat|);
  }

  lemma NonPositiveProduct(c: nat, d: nat)
    ensures c * (0 - d) <= 0
  {
  }

  /** Every replaced occurrence changes the length by the difference of the two lengths. */
  lemma ReplaceLength(s: string, pat: string, rep: string)
    requires |pat| > 0
    ensures |ReplaceAll(s, pat, rep)| == |s| + Count(s, pat) * (|rep| - |pat|)
  {
    ReplaceLengthSum(s, pat, rep);
    TimesIsProduct(Count(s, pat), |rep| - |pat|);
  }

  /** A text lacks `t` when it lacks one of the characters of `t`. */
  lemma MissingCharNotContained(s: string, t: string, k: nat)
    requires k < |t| && t[k] !in s
    ensures !Contains(s, t)
  {
    if Contains(s, t) {
      ContainsChar(s, t, k);
      ContainsCharIff(s, t[k]);
    }
  }

  /** Replacing skips a beginning at which the pattern never starts. */
  lemma {:induction false} ReplaceSkipsFree(p: string, r: string, pat: string, rep: string)
    requires |pat| > 0
    requires forall i :: 0 <= i < |p| ==> !OccursAt(p + r, pat, i)
    ensures ReplaceAll(p + r, pat, rep) == p + ReplaceAll(r, pat, rep)
    ensures Count(p + r, pat) == Count(r, pat)
    decreases |p|
  {
    if |p| > 0 {
      var s := p + r;
      assert !OccursAt(s, pat, 0);
      assert s[1..] == p[1..] + r;
      forall i | 0 <= i < |p[1..]|
        ensures !OccursAt(p[1..] + r, pat, i)
      {
        assert s[i + 1..] == (p[1..] + r)[i..];
        assert !OccursAt(s, pat, i + 1);
      }
      ReplaceSkipsFree(p[1..], r, pat, rep);
      assert [p[0]] + (p[1..] + ReplaceAll(r, pat, rep)) == p + ReplaceAll(r, pat, rep);
    }
  }

  /**
   * A text with exactly one occurrence of the pattern, between a part where
   * it never starts and a part without it, has that one occurrence replaced.
   */
  lemma ReplaceSingle(p: string, pat: string, q: string, rep: string)
    requires |pat| > 0 && !Contains(q, pat)
    requires forall i :: 0 <= i < |p| ==> !OccursAt(p + pat + q, pat, i)
    ensures ReplaceAll(p + pat + q, pat, rep) == p + rep + q
    ensures Count(p + pat + q, pat) == 1
  {
    assert p + pat + q == p + (pat + q);
    ReplaceSkipsFree(p, pat + q, pat, rep);
    assert (pat + q)[|pat|..] == q;
    ReplaceAbsent(q, pat, rep);
  }

  lemma {:induction false} ReplaceLengthSum(s: string, pat: string, rep: string)
    requires |pat| > 0
    ensures |ReplaceAll(s, pat, rep)| == |s| + Times(Count(s, pat), |rep| - |pat|)
    decreases |s|
  {
    if |s| >= |pat| {
      if pat <= s {
        ReplaceLengthSum(s[|pat|..], pat, rep);
      } else {
        ReplaceLengthSum(s[1..], pat, rep);
      }
    }
  }

  /** Python's `sep.join(parts)`. */
  function Join(parts: seq<string>, sep: string): string
  {
    if |parts| == 0 then ""
    else if |parts| == 1 then parts[0]
    else parts[0] + sep + Join(parts[1..], sep)
  }

  lemma JoinTwo(a: string, b: string, sep: string)
    ensures Join([a, b], sep) == a + sep + b
  {
    assert [a, b][1..] == [b];
  }

  lemma JoinThree(a: string, b: string, c: string, sep: string)
    ensures Join([a, b, c], sep) == a + sep + b + sep + c
  {
    assert [a, b, c][1..] == [b, c];
    JoinTwo(b, c, sep);
  }

  /** Every joined part occurs in the joined text. */
  lemma {:induction false} JoinContains(parts: seq<string>, sep: string, k: nat)
    requires k < |parts|
    ensures Contains(Join(parts, sep), parts[k])
  {
    if |parts| == 1 {
      ContainsSelf(parts[0]);
    } else if k == 0 {
      ContainsSelf(parts[0]);
      ContainsLeft(parts[0], sep + Join(parts[1..], sep), parts[0]);
      assert parts[0] + sep + Join(parts[1..], sep) == parts[0] + (sep + Join(parts[1..], sep));
    } else {
      JoinContains(parts[1..], sep, k - 1);
      ContainsRight(parts[0] + sep, Join(parts[1..], sep), parts[k]);
    }
  }

  /** Joining one more part at the end appends the separator and that part. */
  lemma {:induction false} JoinSnoc(parts: seq<string>, sep: string, x: string)
    requires |parts| > 0
    ensures Join(parts + [x], sep) == Join(parts, sep) + sep + x
  {
    if |parts| == 1 {
      assert parts + [x] == [parts[0], x];
    } else {
      assert (parts + [x])[1..] == parts[1..] + [x];
      JoinSnoc(parts[1..], sep, x);
    }
  }

  /** Python's `s.split(sep)` for a non-empty separator. */
  function Split(s: string, sep: string): (r: seq<string>)
    requires |sep| > 0
    decreases |s|
    ensures |r| > 0
  {
    if |s| < |sep| then [s]
    else if sep <= s then [""] + Split(s[|sep|..], sep)
    else
      var rest := Split(s[1..], sep);
      [[s[0]] + rest[0]] + rest[1..]
  }

  /** `split` yields one more piece than there are occurrences. */
  lemma {:induction false} SplitCount(s: string, sep: string)
    requires |sep| > 0
    ensures |Split(s, sep)| == Count(s, sep) + 1
    decreases |s|
  {
    if |s| >= |sep| {
      if sep <= s {
        SplitCount(s[|sep|..], sep);
      } else {
        SplitCount(s[1..], sep);
      }
    }
  }

  lemma JoinConsFirst(c: char, first: string, rest: seq<string>, sep: string)
    ensures Join([[c] + first] + rest, sep) == [c] + Join([first] + rest, sep)
  {
    if |rest| > 0 {
      assert ([[c] + first] + rest)[1..] == rest;
      assert ([first] + rest)[1..] == rest;
    }
  }

  /** `ctrl.join(s.split(sep))` is `s.replace(sep, ctrl)`. */
  lemma {:induction false} JoinSplitIsReplace(s: string, sep: string, ctrl: string)
    requires |sep| > 0
    ensures Join(Split(s, sep), ctrl) == ReplaceAll(s, sep, ctrl)
    decreases |s|
  {
    if |s| >= |sep| {
      if sep <= s {
        var rest := Split(s[|sep|..], sep);
        JoinSplitIsReplace(s[|sep|..], sep, ctrl);
        assert ([""] + rest)[1..] == rest;
      } else {
        var rest := Split(s[1..], sep);
        JoinSplitIsReplace(s[1..], sep, ctrl);
        JoinConsFirst(s[0], rest[0], rest[1..], ctrl);
        assert [rest[0]] + rest[1..] == rest;
      }
    }
  }

  // ---------------------------------------------------------------------
  // whitespace words

  /** The length of the run of non-whitespace characters at the start of `s`. */
  function WordLength(s: string): (n: nat)
    ensures n <= |s|
    ensures forall i :: 0 <= i < n ==> !IsSpace(s[i])
    ensures n == |s| || IsSpace(s[n])
  {
    if |s| == 0 || IsSpace(s[0]) then 0 else 1 + WordLength(s[1..])
  }

  /** Python's `s.split()`: the maximal runs of non-whitespace characters. */
  function Words(s: string): (ws: seq<string>)
    decreases |s|
    ensures forall k :: 0 <= k < |ws| ==> IsWord(ws[k])
  {
    if |s| == 0 then []
    else if IsSpace(s[0]) then Words(s[1..])
    else
      var n := WordLength(s);
      [s[..n]] + Words(s[n..])
  }

  /** A non-empty text without whitespace. */
  predicate IsWord(w: string)
  {
    |w| > 0 && forall i :: 0 <= i < |w| ==> !IsSpace(w[i])
  }

  lemma WordLengthOfWord(w: string, rest: string)
    requires IsWord(w) && (rest == [] || IsSpace(rest[0]))
    ensures WordLength(w + rest) == |w|
    decreases |w|
  {
    if |w| > 1 {
      assert (w + rest)[1..] == w[1..] + rest;
      WordLengthOfWord(w[1..], rest);
    } else {
      assert (w + rest)[1..] == rest;
    }
  }

  /** Splitting words that were joined by single spaces gives the words back. */
  lemma {:induction false} WordsOfJoin(ws: seq<string>)
    requires forall k :: 0 <= k < |ws| ==> IsWord(ws[k])
    ensures Words(Join(ws, " ")) == ws
  {
    if |ws| == 1 {
      WordLengthOfWord(ws[0], "");
      assert ws[0] + "" == ws[0];
      assert ws[0][..|ws[0]|] == ws[0];
      assert ws[0][|ws[0]|..] == [];
    } else if |ws| > 1 {
      var rest := Join(ws[1..], " ");
      var s := ws[0] + " " + rest;
      WordLengthOfWord(ws[0], " " + rest);
      assert s == ws[0] + (" " + rest);
      assert s[..|ws[0]|] == ws[0];
      assert s[|ws[0]|..] == " " + rest;
      assert (" " + rest)[1..] == rest;
      WordsOfJoin(ws[1..]);
      assert [ws[0]] + ws[1..] == ws;
    }
  }

  /** Text joined from words by single spaces has no surrounding whitespace. */
  lemma {:induction false} JoinWordsEnds(ws: seq<string>)
    requires forall k :: 0 <= k < |ws| ==> IsWord(ws[k])
    ensures IsStripped(Join(ws, " "))
  {
    if |ws| > 1 {
      JoinWordsEnds(ws[1..]);
      var rest := Join(ws[1..], " ");
      assert rest != [] by { JoinContains(ws[1..], " ", 0); }
    }
  }
}
