/** The centred stick-breaking transform from an unconstrained vector of
    size K-1 to a simplex of size K (both overloads of simplex_constrain). */
module SimplexConstrain {
  import opened Elementary
  import opened Sums

  /** adj_y_k = y(k) + eq_share with eq_share = -log(Km1 - k), where Km1 = |y|:
      the shift makes y = 0 map to the uniform simplex. */
  function AdjustedY(fns: Fns, y: seq<real>, k: nat): real
    requires k < |y|
  {
    y[k] + -Log(fns, (|y| - k) as real)
  }

  /** z_k = inv_logit(adj_y_k): the fraction of the remaining stick broken
      off at step k. */
  function BreakFraction(fns: Fns, y: seq<real>, k: nat): real
    requires k < |y|
  {
    InvLogit(fns, AdjustedY(fns, y, k))
  }

  /** The stick length left before step k. */
  function StickBefore(fns: Fns, y: seq<real>, k: nat): real
    requires k <= |y|
  {
    if k == 0 then 1.0
    else StickBefore(fns, y, k - 1) - StickBefore(fns, y, k - 1) * BreakFraction(fns, y, k - 1)
  }

  /** Entry k of the simplex: the piece broken off at step k, and for k = |y|
      the stick that remains. */
  function Piece(fns: Fns, y: seq<real>, k: nat): real
    requires k <= |y|
  {
    if k < |y| then StickBefore(fns, y, k) * BreakFraction(fns, y, k) else StickBefore(fns, y, |y|)
  }

  /** The first k entries of the simplex, in the order the loop writes them. */
  function SimplexPrefix(fns: Fns, y: seq<real>, k: nat): (p: seq<real>)
    requires k <= |y| + 1
    ensures |p| == k
  {
    if k == 0 then [] else SimplexPrefix(fns, y, k - 1) + [Piece(fns, y, k - 1)]
  }

  /** The simplex the stick-breaking process produces. */
  function Simplex(fns: Fns, y: seq<real>): (x: seq<real>)
    ensures |x| == |y| + 1
  {
    SimplexPrefix(fns, y, |y| + 1)
  }

  /** Entry j of any prefix is the j-th piece. */
  lemma {:induction false} SimplexPrefixAt(fns: Fns, y: seq<real>, k: nat, j: nat)
    requires j < k <= |y| + 1
    ensures SimplexPrefix(fns, y, k)[j] == Piece(fns, y, j)
  {
    if j < k - 1 {
      SimplexPrefixAt(fns, y, k - 1, j);
    }
  }

  /** Entry k of the simplex is the k-th piece. */
  lemma SimplexAt(fns: Fns, y: seq<real>, k: nat)
    requires k <= |y|
    ensures Simplex(fns, y)[k] == Piece(fns, y, k)
  {
    SimplexPrefixAt(fns, y, |y| + 1, k);
  }

  /** The increment of lp at step k: log(stick) - log1p_exp(-adj_y_k) - log1p_exp(adj_y_k),
      with adj_y_k = y(k) + eq_share and eq_share = -log(Km1 - k). */
  function JacobianTerm(fns: Fns, y: seq<real>, k: nat): real
    requires k < |y|
  {
    StepTerm(fns, StickBefore(fns, y, k), AdjustedY(fns, y, k))
  }

  /** The three lp updates of one step, for stick length stick and adjusted input adj. */
  function StepTerm(fns: Fns, stick: real, adj: real): real
  {
    Log(fns, stick) - Log1pExp(fns, -adj) - Log1pExp(fns, adj)
  }

  /** The log Jacobian accumulated over the first k steps of the loop. */
  function PartialLogJacobian(fns: Fns, y: seq<real>, k: nat): real
    requires k <= |y|
  {
    if k == 0 then 0.0 else PartialLogJacobian(fns, y, k - 1) + JacobianTerm(fns, y, k - 1)
  }

  /** The log absolute Jacobian determinant the second overload adds to lp:
      the sum of the step terms; the last entry of the simplex contributes nothing. */
  function LogJacobian(fns: Fns, y: seq<real>): real
  {
    PartialLogJacobian(fns, y, |y|)
  }

  /** Before step k the stick is what the first k entries have not used up. */
  lemma {:induction false} StickIsRemainder(fns: Fns, y: seq<real>, k: nat)
    requires k <= |y|
    ensures StickBefore(fns, y, k) == 1.0 - Sum(SimplexPrefix(fns, y, k))
  {
    if k > 0 {
      StickIsRemainder(fns, y, k - 1);
      SumSnoc(SimplexPrefix(fns, y, k - 1), Piece(fns, y, k - 1));
    }
  }

  /** The entries of the simplex sum to one exactly (in real arithmetic). */
  lemma SimplexSumsToOne(fns: Fns, y: seq<real>)
    ensures Sum(Simplex(fns, y)) == 1.0
  {
    StickIsRemainder(fns, y, |y|);
    SumSnoc(SimplexPrefix(fns, y, |y|), Piece(fns, y, |y|));
  }

  lemma {:induction false} StickPositive(fns: Fns, y: seq<real>, k: nat)
    requires InvLogitInUnit(fns)
    requires k <= |y|
    ensures StickBefore(fns, y, k) > 0.0
  {
    if k > 0 {
      StickPositive(fns, y, k - 1);
      var s, z := StickBefore(fns, y, k - 1), BreakFraction(fns, y, k - 1);
      assert 0.0 < z < 1.0;
      var rest := 1.0 - z;
      assert s * rest > 0.0;
      assert s - s * z == s * rest;
      assert StickBefore(fns, y, k) == s - s * z;
    }
  }

  /** With inv_logit valued in (0,1), every entry of the simplex is positive. */
  lemma SimplexPositive(fns: Fns, y: seq<real>)
    requires InvLogitInUnit(fns)
    ensures forall k :: 0 <= k < |Simplex(fns, y)| ==> Simplex(fns, y)[k] > 0.0
  {
    forall k | 0 <= k <= |y|
      ensures Simplex(fns, y)[k] > 0.0
    {
      StickPositive(fns, y, k);
      SimplexAt(fns, y, k);
      if k < |y| {
        assert 0.0 < BreakFraction(fns, y, k) < 1.0;
      }
    }
  }

  /** The free vector of n zeros. */
  function Zeros(n: nat): (z: seq<real>)
    ensures |z| == n && forall k :: 0 <= k < n ==> z[k] == 0.0
  {
    seq(n, k => 0.0)
  }

  /** For the zero vector, step k breaks off 1/(n+1-k) of the stick. */
  lemma ZeroBreakFraction(fns: Fns, n: nat, k: nat)
    requires EqualShare(fns)
    requires k < n
    ensures BreakFraction(fns, Zeros(n), k) == 1.0 / ((n + 1 - k) as real)
  {
    var m := (n - k) as real;
    assert AdjustedY(fns, Zeros(n), k) == -Log(fns, m);
    assert (n + 1 - k) as real == m + 1.0;
  }

  /** For the zero vector the stick left before step k is (n+1-k)/(n+1). */
  lemma {:induction false} ZeroStick(fns: Fns, n: nat, k: nat)
    requires EqualShare(fns)
    requires k <= n
    ensures StickBefore(fns, Zeros(n), k) == ((n + 1 - k) as real) / ((n + 1) as real)
  {
    if k > 0 {
      ZeroStick(fns, n, k - 1);
      ZeroBreakFraction(fns, n, k - 1);
      ZeroStickStep(fns, n, k);
    }
  }

  lemma ZeroStickStep(fns: Fns, n: nat, k: nat)
    requires 0 < k <= n
    requires StickBefore(fns, Zeros(n), k - 1) == ((n + 1 - (k - 1)) as real) / ((n + 1) as real)
    requires BreakFraction(fns, Zeros(n), k - 1) == 1.0 / ((n + 1 - (k - 1)) as real)
    ensures StickBefore(fns, Zeros(n), k) == ((n + 1 - k) as real) / ((n + 1) as real)
  {
    var s, z := StickBefore(fns, Zeros(n), k - 1), BreakFraction(fns, Zeros(n), k - 1);
    StickAfterShare(s, z, (n + 1 - (k - 1)) as real, (n + 1 - k) as real, (n + 1) as real);
    assert StickBefore(fns, Zeros(n), k) == s - s * z;
  }

  /** A stick of r/m, having 1/r of it broken off, leaves (r-1)/m. */
  lemma StickAfterShare(s: real, z: real, r: real, q: real, m: real)
    requires r > 0.0 && m > 0.0 && q == r - 1.0
    requires s == r / m && z == 1.0 / r
    ensures s - s * z == q / m
  {
    ShareOfStick(r, m);
  }

  lemma ShareOfStick(r: real, m: real)
    requires r > 0.0 && m > 0.0
    ensures r / m - (r / m) * (1.0 / r) == (r - 1.0) / m
    ensures (r / m) * (1.0 / r) == 1.0 / m
  {
    calc {
      (r / m) * (1.0 / r);
      (r * 1.0) / (m * r);
      1.0 / m;
    }
  }

  /** A stick of r/m, broken in the fraction 1/r, gives a piece of 1/m. */
  lemma StickShare(stick: real, z: real, r: real, m: real)
    requires r > 0.0 && m > 0.0 && stick == r / m && z == 1.0 / r
    ensures stick * z == 1.0 / m
  {
    ShareOfStick(r, m);
  }

  /** The zero vector maps to the uniform simplex: every entry is 1/(n+1). */
  lemma ZeroMapsToUniform(fns: Fns, n: nat)
    requires EqualShare(fns)
    ensures forall k :: 0 <= k <= n ==> Simplex(fns, Zeros(n))[k] == 1.0 / ((n + 1) as real)
  {
    forall k | 0 <= k <= n
      ensures Simplex(fns, Zeros(n))[k] == 1.0 / ((n + 1) as real)
    {
      ZeroPiece(fns, n, k);
      SimplexAt(fns, Zeros(n), k);
    }
  }

  /** Piece k of the image of zero: the stick left, (n + 1 - k)/(n + 1),
      times the fraction 1/(n + 1 - k) broken off it. */
  lemma ZeroPiece(fns: Fns, n: nat, k: nat)
    requires EqualShare(fns) && k <= n
    ensures Piece(fns, Zeros(n), k) == 1.0 / ((n + 1) as real)
  {
    var r, m := (n + 1 - k) as real, (n + 1) as real;
    ZeroStick(fns, n, k);
    if k < n {
      ZeroBreakFraction(fns, n, k);
      StickShare(StickBefore(fns, Zeros(n), k), BreakFraction(fns, Zeros(n), k), r, m);
    } else {
      assert r == 1.0;
      assert Piece(fns, Zeros(n), k) == r / m;
    }
  }

  /** simplex_constrain(y): the stick-breaking loop, writing x(k) in place. */
  method SimplexConstrain(fns: Fns, y: seq<real>) returns (x: seq<real>)
    ensures x == Simplex(fns, y)
    ensures |x| == |y| + 1 && Sum(x) == 1.0
  {
    var km1 := |y|;
    var a := new real[km1 + 1];
    var stickLen := 1.0;
    for k := 0 to km1
      invariant stickLen == StickBefore(fns, y, k)
      invariant a[..k] == SimplexPrefix(fns, y, k)
    {
      ghost var placed := a[..k];
      var z := BreakFraction(fns, y, k);
      var piece := stickLen * z;
      PieceAt(fns, y, k, stickLen, z);
      a[k] := piece;
      assert a[..k + 1] == placed + [piece];
      stickLen := stickLen - piece;
    }
    ghost var placed := a[..km1];
    a[km1] := stickLen;
    assert a[..] == placed + [stickLen];
    x := a[..];
    SimplexSumsToOne(fns, y);
  }

  /** One step of the loop: the piece broken off is stick * z, and what remains is the next stick. */
  lemma PieceAt(fns: Fns, y: seq<real>, k: nat, stick: real, z: real)
    requires k < |y| && stick == StickBefore(fns, y, k) && z == BreakFraction(fns, y, k)
    ensures stick * z == Piece(fns, y, k)
    ensures stick - stick * z == StickBefore(fns, y, k + 1)
  {
  }

  /** The three lp updates of one loop step add that step's term. */
  lemma StepTermAt(fns: Fns, lpIn: real, stick: real, adj: real, lpOut: real)
    requires lpOut == lpIn + Log(fns, stick) - Log1pExp(fns, -adj) - Log1pExp(fns, adj)
    ensures lpOut == lpIn + StepTerm(fns, stick, adj)
  {
  }

  /** simplex_constrain(y, lp): the same simplex, and lp incremented by the
      log absolute Jacobian determinant of the transform. */
  method SimplexConstrainLp(fns: Fns, y: seq<real>, lp0: real) returns (x: seq<real>, lp: real)
    ensures x == Simplex(fns, y)
    ensures lp == lp0 + LogJacobian(fns, y)
  {
    var km1 := |y|;
    var a := new real[km1 + 1];
    var stickLen := 1.0;
    lp := lp0;
    for k := 0 to km1
      invariant stickLen == StickBefore(fns, y, k)
      invariant a[..k] == SimplexPrefix(fns, y, k)
      invariant lp == lp0 + PartialLogJacobian(fns, y, k)
    {
      ghost var placed := a[..k];
      var adjYk := AdjustedY(fns, y, k);
      var z := InvLogit(fns, adjYk);
      var piece := stickLen * z;
      PieceAt(fns, y, k, stickLen, z);
      a[k] := piece;
      assert a[..k + 1] == placed + [piece];
      ghost var lpIn := lp;
      lp := lp + Log(fns, stickLen);
      lp := lp - Log1pExp(fns, -adjYk);
      lp := lp - Log1pExp(fns, adjYk);
      StepTermAt(fns, lpIn, stickLen, adjYk, lp);
      stickLen := stickLen - piece;
    }
    ghost var placed := a[..km1];
    a[km1] := stickLen;
    assert a[..] == placed + [stickLen];
    x := a[..];
  }
}
