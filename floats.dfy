/**
 * crispo/metrics/floats.py: scores that are a number and remember the parts
 * they were made from. Numbers are exact reals; `statistics.mean` computes the
 * exact mean of its inputs before rounding, and the rounding is not modelled.
 */
module Floats {
  import opened Wrappers
  import opened Assoc

  function Sum(xs: seq<real>): real
  {
    if xs == [] then 0.0 else xs[0] + Sum(xs[1..])
  }

  /** `statistics.mean`, defined for a non-empty list. */
  function Mean(xs: seq<real>): real
    requires |xs| > 0
  {
    Sum(xs) / |xs| as real
  }

  lemma {:induction false} SumBounds(xs: seq<real>, lo: real, hi: real)
    requires forall i :: 0 <= i < |xs| ==> lo <= xs[i] <= hi
    ensures |xs| as real * lo <= Sum(xs) <= |xs| as real * hi
  {
    if xs != [] {
      SumBounds(xs[1..], lo, hi);
      var n := |xs[1..]| as real;
      assert |xs| as real * lo == lo + n * lo;
      assert |xs| as real * hi == hi + n * hi;
    }
  }

  /** The mean lies between any lower and upper bound of the values. */
  lemma MeanBetween(xs: seq<real>, lo: real, hi: real)
    requires |xs| > 0
    requires forall i :: 0 <= i < |xs| ==> lo <= xs[i] <= hi
    ensures lo <= Mean(xs) <= hi
  {
    SumBounds(xs, lo, hi);
    var n := |xs| as real;
    assert (n * lo) / n == lo && (n * hi) / n == hi;
    assert (n * lo) / n <= Sum(xs) / n <= (n * hi) / n;
  }

  /** `FloatList(*scores)`: the mean of the positional scores, which are kept in order. */
  datatype FloatList = FloatList(value: real, scores: seq<real>)

  function Min(xs: seq<real>): (m: real)
    requires |xs| > 0
    ensures forall i :: 0 <= i < |xs| ==> m <= xs[i]
    ensures m in xs
  {
    if |xs| == 1 then xs[0]
    else
      var m := Min(xs[1..]);
      if xs[0] <= m then xs[0] else m
  }

  function Max(xs: seq<real>): (m: real)
    requires |xs| > 0
    ensures forall i :: 0 <= i < |xs| ==> xs[i] <= m
    ensures m in xs
  {
    if |xs| == 1 then xs[0]
    else
      var m := Max(xs[1..]);
      if xs[0] >= m then xs[0] else m
  }

  /** Constructing a `FloatList`: `statistics.mean` fails on no scores. */
  function MakeFloatList(scores: seq<real>): (r: Option<FloatList>)
    ensures r.None? <==> scores == []
    ensures r.Some? ==> r.value.scores == scores
    ensures r.Some? ==> Min(scores) <= r.value.value <= Max(scores)
  {
    if scores == [] then None
    else
      MeanBetween(scores, Min(scores), Max(scores));
      Some(FloatList(Mean(scores), scores))
  }

  /**
   * `FloatDict(value, **scores)`: a number with named parts. The parts are the
   * keyword arguments, so their names are distinct.
   */
  datatype FloatDict = FloatDict(value: real, scores: seq<(string, real)>)
  {
    /** `score[key]`; `None` stands for the `KeyError`. */
    function Get(key: string): Option<real>
    {
      Assoc.Get(scores, key)
    }
  }

  /**
   * The names `FloatDict.__new__(cls, value=None, **scores)` and
   * `__init__(self, value=None, **scores)` take as their own parameters, so
   * that no keyword part can carry them.
   */
  predicate Reserved(name: string)
  {
    name == "value" || name == "cls" || name == "self"
  }

  /**
   * Constructing a `FloatDict` from its parameters: the explicit value
   * whenever one is given (0.0 included), else the mean of the named parts;
   * with neither, the mean of nothing fails. The parts are what `**scores`
   * collects, so none of them has a reserved name.
   */
  function MakeFloatDict(value: Option<real>, scores: seq<(string, real)>): (r: Option<FloatDict>)
    requires DistinctKeys(scores) && forall i :: 0 <= i < |scores| ==> !Reserved(scores[i].0)
    ensures r.None? <==> value.None? && scores == []
    ensures r.Some? ==> r.value.scores == scores
    ensures value.Some? ==> r.Some? && r.value.value == value.value
    ensures value.None? && r.Some? ==> r.value.value == Mean(Values(scores))
  {
    if value.Some? then Some(FloatDict(value.value, scores))
    else if scores == [] then None
    else Some(FloatDict(Mean(Values(scores)), scores))
  }

  /**
   * `FloatDict(value, **kwargs)` with the keyword arguments a caller passes:
   * a keyword "value" binds the value parameter and is no part, while "cls" or
   * "self" (or "value" next to a positional value) raise `TypeError`.
   */
  function KeywordFloatDict(value: Option<real>, kwargs: seq<(string, real)>): (r: Option<FloatDict>)
    requires DistinctKeys(kwargs)
    ensures r.None? <==> "cls" in Keys(kwargs) || "self" in Keys(kwargs)
                         || ("value" in Keys(kwargs) && value.Some?) || (value.None? && kwargs == [])
    ensures r.Some? ==> r.value.scores == Pop(kwargs, "value") && "value" !in Keys(r.value.scores)
    ensures r.Some? && "value" in Keys(kwargs) ==> Some(r.value.value) == Assoc.Get(kwargs, "value")
    ensures r.Some? && "value" !in Keys(kwargs) && value.Some? ==> r.value.value == value.value
    ensures r.Some? && "value" !in Keys(kwargs) && value.None? ==> r.value.value == Mean(Values(kwargs))
  {
    if "cls" in Keys(kwargs) || "self" in Keys(kwargs) then None
    else
      var parts := Pop(kwargs, "value");
      PopGet(kwargs, "value", "value");
      forall i | 0 <= i < |parts|
        ensures !Reserved(parts[i].0)
      {
        KeysAt(parts, i);
        PopKeys(kwargs, "value", parts[i].0);
      }
      if "value" in Keys(kwargs) then
        if value.Some? then None
        else
          assert parts != kwargs by { assert "value" !in Keys(parts); }
          MakeFloatDict(Assoc.Get(kwargs, "value"), parts)
      else MakeFloatDict(value, parts)
  }

  /** Without an explicit value, a `FloatDict`'s value lies between its smallest and largest part. */
  lemma FloatDictValueBetween(scores: seq<(string, real)>, lo: real, hi: real)
    requires DistinctKeys(scores) && scores != [] && forall i :: 0 <= i < |scores| ==> !Reserved(scores[i].0)
    requires forall i :: 0 <= i < |scores| ==> lo <= scores[i].1 <= hi
    ensures lo <= MakeFloatDict(None, scores).value.value <= hi
  {
    forall i | 0 <= i < |scores|
      ensures lo <= Values(scores)[i] <= hi
    {
      KeysAt(scores, i);
    }
    MeanBetween(Values(scores), lo, hi);
  }
}
