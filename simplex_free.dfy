/** The inverse of the stick-breaking transform: simplex_free maps a simplex
    of size K back to the unconstrained vector of size K-1. */
module SimplexFree {
  import opened Elementary
  import opened Sums
  import opened Results
  import opened SimplexConstrain

  /** What simplex_free accepts: a non-empty vector of non-negative entries
      whose sum is within the tolerance of one. */
  predicate IsSimplex(x: seq<real>, tolerance: real)
  {
    && |x| > 0
    && (forall k :: 0 <= k < |x| ==> x[k] >= 0.0)
    && -tolerance <= 1.0 - Sum(x) <= tolerance
  }

  /** x(k) + x(k+1) + ... + x(K-1): the stick before entry k is broken off. */
  function SuffixSum(x: seq<real>, k: nat): real
    requires k <= |x|
    decreases |x| - k
  {
    if k == |x| then 0.0 else x[k] + SuffixSum(x, k + 1)
  }

  /** y(k) = logit(x(k) / stick) + log(Km1 - k), where Km1 = |x| - 1 and the
      stick is the sum of the entries from k on. */
  function FreeEntry(fns: Fns, x: seq<real>, k: nat): real
    requires k < |x| - 1
  {
    Logit(fns, Divide(fns, x[k], SuffixSum(x, k))) + Log(fns, (|x| - 1 - k) as real)
  }

  /** The entries from k on of the free vector, as the downward loop has
      written them once it has reached k. */
  function FreeSuffix(fns: Fns, x: seq<real>, k: nat): (s: seq<real>)
    requires 0 < |x| && k <= |x| - 1
    ensures |s| == |x| - 1 - k
    decreases |x| - k
  {
    if k == |x| - 1 then [] else [FreeEntry(fns, x, k)] + FreeSuffix(fns, x, k + 1)
  }

  /** The free vector of a simplex. */
  function Unconstrained(fns: Fns, x: seq<real>): (y: seq<real>)
    requires |x| > 0
    ensures |y| == |x| - 1
  {
    FreeSuffix(fns, x, 0)
  }

  /** Entry j of a free suffix starting at k is the j-th free entry. */
  lemma {:induction false} FreeSuffixAt(fns: Fns, x: seq<real>, k: nat, j: nat)
    requires 0 < |x| && k <= j < |x| - 1
    ensures FreeSuffix(fns, x, k)[j - k] == FreeEntry(fns, x, j)
    decreases j - k
  {
    if k < j {
      FreeSuffixAt(fns, x, k + 1, j);
    }
  }

  /** simplex_free(x): rejects a non-simplex with a domain error, and
      otherwise accumulates the stick from the last entry downward. */
  method SimplexFree(fns: Fns, x: seq<real>, tolerance: real) returns (r: Result<seq<real>>)
    ensures r.DomainError? <==> !IsSimplex(x, tolerance)
    ensures r.Success? ==> r.value == Unconstrained(fns, x)
  {
    if !IsSimplex(x, tolerance) {
      return DomainError("stan::prob::simplex_free: Simplex variable is not a valid simplex");
    }
    var km1 := |x| - 1;
    var y := new real[km1];
    var stickLen := x[km1];
    var k := km1;
    while k > 0
      invariant 0 <= k <= km1
      invariant stickLen == SuffixSum(x, k)
      invariant y[k..] == FreeSuffix(fns, x, k)
    {
      k := k - 1;
      stickLen := stickLen + x[k];
      var zk := Divide(fns, x[k], stickLen);
      var yk := Logit(fns, zk) + Log(fns, (km1 - k) as real);
      assert yk == FreeEntry(fns, x, k);
      y[k] := yk;
      assert y[k..] == [y[k]] + y[k + 1..];
    }
    return Success(y[..]);
  }

  /** The stick simplex_free accumulates over a constrained simplex is the
      stick the constraining loop had left at the same step. */
  lemma {:induction false} SuffixIsStick(fns: Fns, y: seq<real>, k: nat)
    requires k <= |y|
    ensures SuffixSum(Simplex(fns, y), k) == StickBefore(fns, y, k)
    decreases |y| - k
  {
    var x := Simplex(fns, y);
    SimplexAt(fns, y, k);
    if k == |y| {
      assert SuffixSum(x, k + 1) == 0.0;
    } else {
      SuffixIsStick(fns, y, k + 1);
      PieceAt(fns, y, k, StickBefore(fns, y, k), BreakFraction(fns, y, k));
    }
  }

  /** One entry of the round trip: the k-th free entry of the constrained
      simplex is y(k). */
  lemma FreeEntryOfSimplex(fns: Fns, y: seq<real>, k: nat)
    requires InvLogitInUnit(fns) && LogitInvertsInvLogit(fns)
    requires k < |y|
    ensures FreeEntry(fns, Simplex(fns, y), k) == y[k]
  {
    var x := Simplex(fns, y);
    var s, z := StickBefore(fns, y, k), BreakFraction(fns, y, k);
    SuffixIsStick(fns, y, k);
    StickPositive(fns, y, k);
    SimplexAt(fns, y, k);
    PieceAt(fns, y, k, s, z);
    CancelStick(s, z);
    assert Divide(fns, x[k], SuffixSum(x, k)) == z;
    assert (|x| - 1 - k) as real == (|y| - k) as real;
  }

  lemma CancelStick(s: real, z: real)
    requires s > 0.0
    ensures (s * z) / s == z
  {
  }

  /** Round trip: the constrained simplex passes the simplex check for any
      non-negative tolerance, and freeing it gives back the input. */
  lemma FreeInvertsConstrain(fns: Fns, y: seq<real>, tolerance: real)
    requires InvLogitInUnit(fns) && LogitInvertsInvLogit(fns)
    requires tolerance >= 0.0
    ensures IsSimplex(Simplex(fns, y), tolerance)
    ensures Unconstrained(fns, Simplex(fns, y)) == y
  {
    var x := Simplex(fns, y);
    SimplexPositive(fns, y);
    SimplexSumsToOne(fns, y);
    forall k | 0 <= k < |y|
      ensures Unconstrained(fns, x)[k] == y[k]
    {
      FreeSuffixAt(fns, x, 0, k);
      FreeEntryOfSimplex(fns, y, k);
    }
  }

  /** [0.5, 0.55] sums to 1.05 and is rejected under any tolerance below 0.05. */
  lemma RejectsOverfull(tolerance: real)
    requires tolerance < 0.05
    ensures !IsSimplex([0.5, 0.55], tolerance)
  {
    assert Sum([0.5, 0.55]) == 1.05;
  }

  /** [1.1, -0.1] sums to one but has a negative entry, and is rejected under
      every tolerance. */
  lemma RejectsNegative(tolerance: real)
    ensures !IsSimplex([1.1, -0.1], tolerance)
  {
    assert [1.1, -0.1][1] < 0.0;
  }
}
