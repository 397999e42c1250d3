/**
 * How prompt text is assembled: `"".join(parts)` over a list built step by
 * step, `zip` of two lists, and Python's `str.format` on a template whose
 * replacement fields have been parsed into literal and slot segments.
 */
module Render {
  import opened Wrappers
  import opened Text
  import opened Assoc

  /** `"".join(parts)`. */
  function Concat(parts: seq<string>): string
  {
    if parts == [] then "" else Concat(parts[..|parts| - 1]) + parts[|parts| - 1]
  }

  lemma AppendAssoc(a: string, b: string, c: string)
    ensures a + b + c == a + (b + c)
  {
  }

  /** Appending two texts one after the other is appending their concatenation. */
  lemma AppendAssoc4(c: string, m: string, p: string, q: string)
    ensures c + m + p + q == c + (m + (p + q))
  {
  }

  /** Adding one part at the end appends its text. */
  lemma ConcatSnoc(parts: seq<string>, x: string)
    ensures Concat(parts + [x]) == Concat(parts) + x
  {
    assert (parts + [x])[..|parts|] == parts;
  }

  lemma ConcatSingle(x: string)
    ensures Concat([x]) == x
  {
    ConcatSnoc([], x);
    assert [] + [x] == [x];
  }

  lemma SnocSplit<T>(a: seq<T>, b: seq<T>)
    requires b != []
    ensures b == b[..|b| - 1] + [b[|b| - 1]]
    ensures a + b == (a + b[..|b| - 1]) + [b[|b| - 1]]
  {
    assert b == b[..|b| - 1] + [b[|b| - 1]];
  }

  lemma SplitAround<T>(s: seq<T>, k: nat)
    requires k < |s|
    ensures s == s[..k] + ([s[k]] + s[k + 1..])
  {
    assert s == s[..k] + s[k..];
    assert s[k..] == [s[k]] + s[k + 1..];
  }

  /** Joining two lists of parts joins their texts. */
  lemma {:induction false} ConcatAppend(a: seq<string>, b: seq<string>)
    ensures Concat(a + b) == Concat(a) + Concat(b)
    decreases |b|
  {
    if b == [] {
      assert a + b == a;
    } else {
      var front, last := b[..|b| - 1], b[|b| - 1];
      SnocSplit(a, b);
      ConcatAppend(a, front);
      ConcatSnoc(a + front, last);
      ConcatSnoc(front, last);
      AppendAssoc(Concat(a), Concat(front), last);
    }
  }

  /** The joined text is the text before a part, the part, and the text after it. */
  lemma ConcatAround(parts: seq<string>, k: nat)
    requires k < |parts|
    ensures Concat(parts) == Concat(parts[..k]) + parts[k] + Concat(parts[k + 1..])
  {
    var before, after := parts[..k], parts[k + 1..];
    SplitAround(parts, k);
    ConcatAppend(before, [parts[k]] + after);
    ConcatAppend([parts[k]], after);
    ConcatSingle(parts[k]);
    AppendAssoc(Concat(before), parts[k], Concat(after));
  }

  /** Every part occurs in the joined text. */
  lemma ConcatContains(parts: seq<string>, k: nat)
    requires k < |parts|
    ensures Contains(Concat(parts), parts[k])
  {
    ConcatAround(parts, k);
    ContainsSelf(parts[k]);
    ContainsInfix(Concat(parts[..k]), parts[k], Concat(parts[k + 1..]), parts[k]);
  }

  /** `"".join(f(x) for x in xs)`. */
  function ConcatMap<T>(xs: seq<T>, f: T -> string): string
  {
    if xs == [] then "" else ConcatMap(xs[..|xs| - 1], f) + f(xs[|xs| - 1])
  }

  /** Extending the list by one element appends that element's text. */
  lemma ConcatMapSnoc<T>(xs: seq<T>, i: nat, f: T -> string)
    requires i < |xs|
    ensures ConcatMap(xs[..i + 1], f) == ConcatMap(xs[..i], f) + f(xs[i])
  {
    assert xs[..i + 1][..i] == xs[..i];
  }

  /** The text of every element occurs in the joined text. */
  lemma {:induction false} ConcatMapContains<T>(xs: seq<T>, f: T -> string, k: nat)
    requires k < |xs|
    ensures Contains(ConcatMap(xs, f), f(xs[k]))
  {
    var front := xs[..|xs| - 1];
    if k < |xs| - 1 {
      assert front[k] == xs[k];
      ConcatMapContains(front, f, k);
      ContainsLeft(ConcatMap(front, f), f(xs[|xs| - 1]), f(xs[k]));
    } else {
      ContainsSelf(f(xs[k]));
      ContainsRight(ConcatMap(front, f), f(xs[k]), f(xs[k]));
    }
  }

  /** `[f(x) for x in xs]`. */
  function Map<T, U>(xs: seq<T>, f: T -> U): (r: seq<U>)
    ensures |r| == |xs|
    ensures forall i :: 0 <= i < |xs| ==> r[i] == f(xs[i])
  {
    if xs == [] then [] else Map(xs[..|xs| - 1], f) + [f(xs[|xs| - 1])]
  }

  lemma MapSnoc<T, U>(xs: seq<T>, i: nat, f: T -> U)
    requires i < |xs|
    ensures Map(xs[..i + 1], f) == Map(xs[..i], f) + [f(xs[i])]
  {
  }

  /** `for x in xs: parts.append(f(x))`, as a loop over a list of parts that is joined later. */
  method AppendEach<T>(parts: seq<string>, xs: seq<T>, f: T -> string) returns (r: seq<string>)
    ensures |r| == |parts| + |xs| && r[..|parts|] == parts
    ensures Concat(r) == Concat(parts) + ConcatMap(xs, f)
  {
    r := parts;
    var i := 0;
    while i < |xs|
      invariant i <= |xs| && |r| == |parts| + i && r[..|parts|] == parts
      invariant Concat(r) == Concat(parts) + ConcatMap(xs[..i], f)
    {
      ConcatMapSnoc(xs, i, f);
      AppendAssoc(Concat(parts), ConcatMap(xs[..i], f), f(xs[i]));
      assert (r + [f(xs[i])])[..|r|] == r;
      r := r + [f(xs[i])];
      i := i + 1;
    }
    assert xs[..i] == xs;
  }

  /** `[f(x) for x in xs]` built by appending in a loop. */
  method MapEach<T>(xs: seq<T>, f: T -> string) returns (r: seq<string>)
    ensures r == Map(xs, f)
  {
    r := [];
    var i := 0;
    while i < |xs|
      invariant i <= |xs| && r == Map(xs[..i], f)
    {
      assert xs[..i + 1][..i] == xs[..i];
      r := r + [f(xs[i])];
      i := i + 1;
    }
    assert xs[..i] == xs;
  }

  /** Python's `zip(a, b)`: pairs up to the shorter length. */
  function Zip<A, B>(a: seq<A>, b: seq<B>): (r: seq<(A, B)>)
    ensures |r| == if |a| < |b| then |a| else |b|
    ensures forall i :: 0 <= i < |r| ==> r[i] == (a[i], b[i])
  {
    if a == [] || b == [] then [] else [(a[0], b[0])] + Zip(a[1..], b[1..])
  }

  /** Python's `enumerate(xs)`, counting from 0. */
  function Enumerate<T>(xs: seq<T>): (r: seq<(nat, T)>)
    ensures |r| == |xs|
    ensures forall i :: 0 <= i < |xs| ==> r[i] == (i, xs[i])
  {
    if xs == [] then [] else Enumerate(xs[..|xs| - 1]) + [(|xs| - 1, xs[|xs| - 1])]
  }

  // ---------------------------------------------------------------------
  // str.format

  /**
   * A template after parsing its replacement fields: literal text (with
   * `{{`/`}}` already unescaped) and named fields `{name}`.
   */
  datatype Segment = Lit(text: string) | Slot(name: string)

  /** The names of the replacement fields, in order. */
  function Slots(t: seq<Segment>): (ns: seq<string>)
    ensures |ns| <= |t|
  {
    if t == [] then []
    else Slots(t[..|t| - 1]) + (if t[|t| - 1].Slot? then [t[|t| - 1].name] else [])
  }

  /**
   * `template.format(**args)`: every field is replaced by its argument, and
   * a field without an argument raises `KeyError` (None here). Arguments
   * that no field names are ignored.
   */
  function Format(t: seq<Segment>, args: seq<(string, string)>): Option<string>
  {
    if t == [] then Some("")
    else
      match Format(t[..|t| - 1], args)
      case None => None
      case Some(pre) =>
        match t[|t| - 1]
        case Lit(s) => Some(pre + s)
        case Slot(n) =>
          match Get(args, n)
          case None => None
          case Some(v) => Some(pre + v)
  }

  /** Formatting fails exactly when some field has no argument. */
  lemma {:induction false} FormatDefinedIff(t: seq<Segment>, args: seq<(string, string)>)
    ensures Format(t, args).None? <==> exists n :: n in Slots(t) && n !in Keys(args)
  {
    if t != [] {
      var front := t[..|t| - 1];
      FormatDefinedIff(front, args);
      assert forall n :: n in Slots(front) ==> n in Slots(t);
      if t[|t| - 1].Slot? {
        var n := t[|t| - 1].name;
        assert n in Slots(t);
        assert Get(args, n).None? <==> n !in Keys(args);
      }
    }
  }

  /** The rendered template contains the argument of each of its fields. */
  lemma {:induction false} FormatContainsArg(t: seq<Segment>, args: seq<(string, string)>, n: string)
    requires Format(t, args).Some? && n in Slots(t)
    ensures Get(args, n).Some? && Contains(Format(t, args).value, Get(args, n).value)
  {
    var last := t[|t| - 1];
    var pre := Format(t[..|t| - 1], args).value;
    if n in Slots(t[..|t| - 1]) {
      FormatContainsArg(t[..|t| - 1], args, n);
      ContainsLeft(pre, Format(t, args).value[|pre|..], Get(args, n).value);
      assert Format(t, args).value == pre + Format(t, args).value[|pre|..];
    } else {
      assert last == Slot(n);
      ContainsSelf(Get(args, n).value);
      ContainsRight(pre, Get(args, n).value, Get(args, n).value);
    }
  }

  /** The rendered template contains each literal segment. */
  lemma {:induction false} FormatContainsLit(t: seq<Segment>, args: seq<(string, string)>, k: nat)
    requires Format(t, args).Some? && k < |t| && t[k].Lit?
    ensures Contains(Format(t, args).value, t[k].text)
  {
    var pre := Format(t[..|t| - 1], args).value;
    var r := Format(t, args).value;
    assert r == pre + r[|pre|..];
    if k < |t| - 1 {
      assert t[..|t| - 1][k] == t[k];
      FormatContainsLit(t[..|t| - 1], args, k);
      ContainsLeft(pre, r[|pre|..], t[k].text);
    } else {
      ContainsSelf(t[k].text);
      ContainsRight(pre, t[k].text, t[k].text);
    }
  }

  /**
   * The rendering depends only on the arguments the template's fields name:
   * two argument lists that agree on every field give the same text.
   */
  lemma {:induction false} FormatOnlyReadsSlots(t: seq<Segment>, a: seq<(string, string)>, b: seq<(string, string)>)
    requires forall n :: n in Slots(t) ==> Get(a, n) == Get(b, n)
    ensures Format(t, a) == Format(t, b)
  {
    if t != [] {
      var front := t[..|t| - 1];
      assert forall n :: n in Slots(front) ==> n in Slots(t);
      FormatOnlyReadsSlots(front, a, b);
      if t[|t| - 1].Slot? {
        assert t[|t| - 1].name in Slots(t);
      }
    }
  }

  /** A template that ends with literal text renders to a text that ends with it. */
  lemma FormatEndsWithLit(t: seq<Segment>, args: seq<(string, string)>)
    requires Format(t, args).Some? && t != [] && t[|t| - 1].Lit?
    ensures EndsWith(Format(t, args).value, t[|t| - 1].text)
  {
    var pre := Format(t[..|t| - 1], args).value;
    var r := Format(t, args).value;
    assert r == pre + t[|t| - 1].text;
    assert r[|r| - |t[|t| - 1].text|..] == t[|t| - 1].text;
  }

  /** A lone literal segment renders as its text. */
  lemma FormatSingleLit(s: string, args: seq<(string, string)>)
    ensures Format([Lit(s)], args) == Some(s)
  {
    assert [Lit(s)][..0] == [];
    assert "" + s == s;
  }

  /** Appending a segment appends its name if it is a field. */
  lemma SlotsSnoc(t: seq<Segment>, x: Segment)
    ensures Slots(t + [x]) == Slots(t) + (if x.Slot? then [x.name] else [])
  {
    assert (t + [x])[..|t|] == t;
  }

  /** Appending a literal segment appends its text. */
  lemma FormatSnocLit(t: seq<Segment>, s: string, args: seq<(string, string)>)
    requires Format(t, args).Some?
    ensures Format(t + [Lit(s)], args) == Some(Format(t, args).value + s)
  {
    assert (t + [Lit(s)])[..|t|] == t;
  }

  /** Appending a field appends its argument. */
  lemma FormatSnocSlot(t: seq<Segment>, n: string, v: string, args: seq<(string, string)>)
    requires Format(t, args).Some? && Get(args, n) == Some(v)
    ensures Format(t + [Slot(n)], args) == Some(Format(t, args).value + v)
  {
    assert (t + [Slot(n)])[..|t|] == t;
  }

  /** A template that starts with literal text renders to a text that starts with it. */
  lemma {:induction false} FormatStartsWithLit(t: seq<Segment>, args: seq<(string, string)>)
    requires Format(t, args).Some? && t != [] && t[0].Lit?
    ensures t[0].text <= Format(t, args).value
  {
    if |t| > 1 {
      var front := t[..|t| - 1];
      assert front[0] == t[0];
      FormatStartsWithLit(front, args);
    } else {
      assert t[..0] == [];
    }
  }

  /** A template without fields renders as its literal text. */
  lemma {:induction false} FormatLiteral(t: seq<Segment>, args: seq<(string, string)>)
    requires Slots(t) == []
    ensures Format(t, args).Some?
  {
    if t != [] {
      FormatLiteral(t[..|t| - 1], args);
    }
  }
}
