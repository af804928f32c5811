/** positive_ordered_constrain: a free vector to a positive, strictly
    increasing vector of the same size, by cumulative sums of exponentials. */
module PositiveOrdered {
  import opened Elementary
  import opened Sums

  /** exp(x(0)), exp(x(1)), ... */
  function Exps(fns: Fns, x: seq<real>): (e: seq<real>)
    ensures |e| == |x|
  {
    if |x| == 0 then [] else Exps(fns, x[..|x| - 1]) + [Exp(fns, x[|x| - 1])]
  }

  /** exp(x(0)) + ... + exp(x(i)). */
  function CumulativeExp(fns: Fns, x: seq<real>, i: nat): real
    requires i < |x|
  {
    Sum(Exps(fns, x)[..i + 1])
  }

  /** The positive ordered vector: entry i is the sum of the first i+1 exponentials. */
  function PositiveOrdered(fns: Fns, x: seq<real>): (y: seq<real>)
    ensures |y| == |x|
  {
    seq(|x|, i requires 0 <= i < |x| => CumulativeExp(fns, x, i))
  }

  lemma {:induction false} ExpsAt(fns: Fns, x: seq<real>, i: nat)
    requires i < |x|
    ensures Exps(fns, x)[i] == Exp(fns, x[i])
  {
    if i < |x| - 1 {
      ExpsAt(fns, x[..|x| - 1], i);
    }
  }

  /** The first entry is exp(x(0)), and each further entry adds exp(x(i)). */
  lemma CumulativeExpStep(fns: Fns, x: seq<real>, i: nat)
    requires i < |x|
    ensures i == 0 ==> CumulativeExp(fns, x, i) == Exp(fns, x[0])
    ensures i > 0 ==> CumulativeExp(fns, x, i) == CumulativeExp(fns, x, i - 1) + Exp(fns, x[i])
  {
    var e := Exps(fns, x);
    ExpsAt(fns, x, i);
    SumPrefixStep(e, i);
    if i == 0 {
      assert e[..0] == [];
    }
  }

  /** positive_ordered_constrain(x): y[0] = exp(x[0]), y[i] = y[i-1] + exp(x[i]). */
  method PositiveOrderedConstrain(fns: Fns, x: seq<real>) returns (y: seq<real>)
    ensures y == PositiveOrdered(fns, x)
  {
    var k := |x|;
    var a := new real[k];
    if k == 0 {
      return a[..];
    }
    var e0 := Exp(fns, x[0]);
    CumulativeExpStep(fns, x, 0);
    a[0] := e0;
    for i := 1 to k
      invariant forall j :: 0 <= j < i ==> a[j] == CumulativeExp(fns, x, j)
    {
      var ei := Exp(fns, x[i]);
      CumulativeExpStep(fns, x, i);
      a[i] := a[i - 1] + ei;
    }
    y := a[..];
  }

  /** Given exp > 0, every entry is positive. */
  lemma {:induction false} CumulativeExpPositive(fns: Fns, x: seq<real>, i: nat)
    requires ExpPositive(fns)
    requires i < |x|
    ensures CumulativeExp(fns, x, i) > 0.0
  {
    CumulativeExpStep(fns, x, i);
    assert Exp(fns, x[i]) > 0.0;
    if i > 0 {
      CumulativeExpPositive(fns, x, i - 1);
    }
  }

  /** Given exp > 0, later entries are strictly larger. */
  lemma {:induction false} CumulativeExpIncreasing(fns: Fns, x: seq<real>, i: nat, j: nat)
    requires ExpPositive(fns)
    requires i < j < |x|
    ensures CumulativeExp(fns, x, i) < CumulativeExp(fns, x, j)
    decreases j - i
  {
    CumulativeExpStep(fns, x, j);
    assert Exp(fns, x[j]) > 0.0;
    if i < j - 1 {
      CumulativeExpIncreasing(fns, x, i, j - 1);
    }
  }

  /** The result is positive and strictly increasing. */
  lemma PositiveOrderedIsOrdered(fns: Fns, x: seq<real>)
    requires ExpPositive(fns)
    ensures forall i :: 0 <= i < |x| ==> PositiveOrdered(fns, x)[i] > 0.0
    ensures forall i, j :: 0 <= i < j < |x| ==> PositiveOrdered(fns, x)[i] < PositiveOrdered(fns, x)[j]
  {
    forall i | 0 <= i < |x|
      ensures PositiveOrdered(fns, x)[i] > 0.0
    {
      CumulativeExpPositive(fns, x, i);
    }
    forall i, j | 0 <= i < j < |x|
      ensures PositiveOrdered(fns, x)[i] < PositiveOrdered(fns, x)[j]
    {
      CumulativeExpIncreasing(fns, x, i, j);
    }
  }

  /** positive_ordered_constrain(x, lp): adds the log Jacobian, the sum of x,
      to lp and returns what the plain overload returns. */
  method PositiveOrderedConstrainLp(fns: Fns, x: seq<real>, lp0: real) returns (y: seq<real>, lp: real)
    ensures lp == lp0 + Sum(x)
    ensures y == PositiveOrdered(fns, x)
  {
    lp := lp0;
    for i := 0 to |x|
      invariant lp == lp0 + Sum(x[..i])
    {
      SumPrefixStep(x, i);
      lp := lp + x[i];
    }
    assert x[..|x|] == x;
    y := PositiveOrderedConstrain(fns, x);
  }
}
