/** Folds over numeric series: the running maximum, minimum and sum that the
    bar builders keep incrementally, defined here over a whole sequence so the
    incremental versions can be compared with them. */
module Series {

  function Max(a: real, b: real): real { if a >= b then a else b }

  function Min(a: real, b: real): real { if a <= b then a else b }

  function Abs(x: int): nat { if x < 0 then -x else x }

  function Last<T>(xs: seq<T>): T
    requires |xs| > 0
  {
    xs[|xs| - 1]
  }

  /** Largest element, folded left to right as `max(acc, x)`. */
  function MaxOf(xs: seq<real>): real
    requires |xs| > 0
  {
    if |xs| == 1 then xs[0] else Max(MaxOf(xs[..|xs| - 1]), xs[|xs| - 1])
  }

  /** Smallest element, folded left to right as `min(acc, x)`. */
  function MinOf(xs: seq<real>): real
    requires |xs| > 0
  {
    if |xs| == 1 then xs[0] else Min(MinOf(xs[..|xs| - 1]), xs[|xs| - 1])
  }

  /** Sum, folded left to right as `acc + x`. */
  function SumOf(xs: seq<int>): int
  {
    if |xs| == 0 then 0 else SumOf(xs[..|xs| - 1]) + xs[|xs| - 1]
  }

  /** MaxOf is an upper bound of the sequence and is one of its elements. */
  lemma {:induction false} MaxOfIsMaximum(xs: seq<real>)
    requires |xs| > 0
    ensures forall i :: 0 <= i < |xs| ==> xs[i] <= MaxOf(xs)
    ensures exists i :: 0 <= i < |xs| && xs[i] == MaxOf(xs)
  {
    if |xs| > 1 {
      var init := xs[..|xs| - 1];
      MaxOfIsMaximum(init);
      assert forall i :: 0 <= i < |init| ==> init[i] == xs[i];
      var k :| 0 <= k < |init| && init[k] == MaxOf(init);
      if MaxOf(init) >= xs[|xs| - 1] {
        assert xs[k] == MaxOf(xs);
      } else {
        assert xs[|xs| - 1] == MaxOf(xs);
      }
    } else {
      assert xs[0] == MaxOf(xs);
    }
  }

  /** MinOf is a lower bound of the sequence and is one of its elements. */
  lemma {:induction false} MinOfIsMinimum(xs: seq<real>)
    requires |xs| > 0
    ensures forall i :: 0 <= i < |xs| ==> MinOf(xs) <= xs[i]
    ensures exists i :: 0 <= i < |xs| && xs[i] == MinOf(xs)
  {
    if |xs| > 1 {
      var init := xs[..|xs| - 1];
      MinOfIsMinimum(init);
      assert forall i :: 0 <= i < |init| ==> init[i] == xs[i];
      var k :| 0 <= k < |init| && init[k] == MinOf(init);
      if MinOf(init) <= xs[|xs| - 1] {
        assert xs[k] == MinOf(xs);
      } else {
        assert xs[|xs| - 1] == MinOf(xs);
      }
    } else {
      assert xs[0] == MinOf(xs);
    }
  }

  /** Appending one element extends each fold by one step. */
  lemma SnocFolds(xs: seq<real>, x: real)
    requires |xs| > 0
    ensures MaxOf(xs + [x]) == Max(MaxOf(xs), x)
    ensures MinOf(xs + [x]) == Min(MinOf(xs), x)
  {
    assert (xs + [x])[..|xs|] == xs;
  }

  lemma SnocSum(xs: seq<int>, x: int)
    ensures SumOf(xs + [x]) == SumOf(xs) + x
  {
    assert (xs + [x])[..|xs|] == xs;
  }
}
