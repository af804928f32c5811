/** cov_matrix_constrain: a free vector of size K + (K choose 2) to a K x K
    covariance matrix L * L^T, where L is lower triangular with the free
    entries packed row by row and exponentiated on the diagonal. */
module CovMatrix {
  import opened Elementary
  import opened Sums
  import opened Results

  type Matrix = seq<seq<real>>

  /** The position in x of the first entry of row m of L; row m holds m + 1
      entries (n <= m). */
  function RowStart(m: nat): nat
  {
    if m == 0 then 0 else RowStart(m - 1) + m
  }

  /** RowStart(m) = m(m+1)/2; in particular RowStart(K) is the size the
      source demands of x. */
  lemma {:induction false} RowStartClosed(m: nat)
    ensures RowStart(m) == (m * (m + 1)) / 2
  {
    if m > 0 {
      RowStartClosed(m - 1);
      assert m * (m + 1) == (m - 1) * m + 2 * m;
    }
  }

  /** Rows are laid out in order: row m ends before row p starts when m < p. */
  lemma {:induction false} RowStartBound(m: nat, p: nat)
    requires m < p
    ensures RowStart(m) + m < RowStart(p)
    decreases p - m
  {
    if m < p - 1 {
      RowStartBound(m, p - 1);
    }
  }

  /** L(m,n): the packed entry below the diagonal, the exponentiated entry on
      it, and zero above it. */
  function FactorEntry(fns: Fns, x: seq<real>, K: nat, m: nat, n: nat): real
    requires |x| == RowStart(K) && m < K && n < K
  {
    RowStartBound(m, K);
    if n < m then x[RowStart(m) + n]
    else if n == m then Exp(fns, x[RowStart(m) + m])
    else 0.0
  }

  function FactorRow(fns: Fns, x: seq<real>, K: nat, m: nat): (row: seq<real>)
    requires |x| == RowStart(K) && m < K
    ensures |row| == K
  {
    seq(K, n requires 0 <= n < K => FactorEntry(fns, x, K, m, n))
  }

  /** The lower-triangular factor L. */
  function Factor(fns: Fns, x: seq<real>, K: nat): (l: Matrix)
    requires |x| == RowStart(K)
    ensures |l| == K
  {
    seq(K, m requires 0 <= m < K => FactorRow(fns, x, K, m))
  }

  lemma FactorAt(fns: Fns, x: seq<real>, K: nat, m: nat, n: nat)
    requires |x| == RowStart(K) && m < K && n < K
    ensures Factor(fns, x, K)[m][n] == FactorEntry(fns, x, K, m, n)
  {
    assert Factor(fns, x, K)[m] == FactorRow(fns, x, K, m);
  }

  /** M * M^T for a square matrix M given by its rows. */
  function TimesTranspose(M: Matrix): (p: Matrix)
    requires forall m :: 0 <= m < |M| ==> |M[m]| == |M|
    ensures |p| == |M| && forall m :: 0 <= m < |M| ==> |p[m]| == |M|
  {
    seq(|M|, m requires 0 <= m < |M| => seq(|M|, n requires 0 <= n < |M| => Dot(M[m], M[n])))
  }

  /** The covariance matrix the transform produces. */
  function Covariance(fns: Fns, x: seq<real>, K: nat): (c: Matrix)
    requires |x| == RowStart(K)
    ensures |c| == K && forall m :: 0 <= m < K ==> |c[m]| == K
  {
    TimesTranspose(Factor(fns, x, K))
  }

  /** cov_matrix_constrain(x, K): the size check, then the row-by-row fill of
      L with the running index i, then L * L^T. */
  method CovMatrixConstrain(fns: Fns, x: seq<real>, K: nat) returns (r: Result<Matrix>)
    ensures r.DomainError? <==> |x| != (K * (K + 1)) / 2
    ensures r.Success? ==> |x| == RowStart(K) && r.value == Covariance(fns, x, K)
  {
    RowStartClosed(K);
    if |x| != (K * (K + 1)) / 2 {
      return DomainError("x.size() != K + (K choose 2)");
    }
    var L := FillFactor(fns, x, K);
    r := Success(TimesTranspose(L));
  }

  /** The two loops over the rows of L shared by both overloads; the running
      index i reads every entry of x once, in order. */
  method FillFactor(fns: Fns, x: seq<real>, K: nat) returns (rows: Matrix)
    requires |x| == RowStart(K)
    ensures rows == Factor(fns, x, K)
  {
    var L := new real[K, K];
    var i := 0;
    for m := 0 to K
      invariant i == RowStart(m)
      invariant forall p, q :: 0 <= p < m && 0 <= q < K ==> L[p, q] == FactorEntry(fns, x, K, p, q)
    {
      RowStartBound(m, K);
      for n := 0 to m
        invariant i == RowStart(m) + n
        invariant forall p, q :: 0 <= p < m && 0 <= q < K ==> L[p, q] == FactorEntry(fns, x, K, p, q)
        invariant forall q :: 0 <= q < n ==> L[m, q] == FactorEntry(fns, x, K, m, q)
      {
        L[m, n] := x[i];
        i := i + 1;
      }
      var d := Exp(fns, x[i]);
      L[m, m] := d;
      i := i + 1;
      for n := m + 1 to K
        invariant forall p, q :: 0 <= p < m && 0 <= q < K ==> L[p, q] == FactorEntry(fns, x, K, p, q)
        invariant forall q :: 0 <= q < n ==> L[m, q] == FactorEntry(fns, x, K, m, q)
      {
        L[m, n] := 0.0;
      }
    }
    rows := seq(K, m requires 0 <= m < K reads L => seq(K, n requires 0 <= n < K reads L => L[m, n]));
    forall m | 0 <= m < K
      ensures rows[m] == Factor(fns, x, K)[m]
    {
      assert forall n :: 0 <= n < K ==> rows[m][n] == FactorEntry(fns, x, K, m, n);
    }
  }

  /** The Jacobian term of diagonal k: (K - k + 1) * log(L(k,k)). */
  function DiagonalTerm(fns: Fns, x: seq<real>, K: nat, k: nat): real
    requires |x| == RowStart(K) && k < K
  {
    (K - k + 1) as real * Log(fns, FactorEntry(fns, x, K, k, k))
  }


  /** The sum of the first k diagonal terms. */
  function DiagonalTerms(fns: Fns, x: seq<real>, K: nat, k: nat): real
    requires |x| == RowStart(K) && k <= K
  {
    if k == 0 then 0.0 else DiagonalTerms(fns, x, K, k - 1) + DiagonalTerm(fns, x, K, k - 1)
  }

  /** One step of the diagonal loop, read off the rows of L. */
  lemma DiagonalStep(fns: Fns, x: seq<real>, K: nat, L: Matrix, k: nat)
    requires |x| == RowStart(K) && L == Factor(fns, x, K) && k < K
    ensures |L[k]| == K
    ensures DiagonalTerms(fns, x, K, k + 1) == DiagonalTerms(fns, x, K, k) + (K - k + 1) as real * Log(fns, L[k][k])
  {
    FactorAt(fns, x, K, k, k);
  }

  /** The log absolute Jacobian determinant: K * log 2 plus the diagonal terms. */
  function CovLogJacobian(fns: Fns, x: seq<real>, K: nat): real
    requires |x| == RowStart(K)
  {
    K as real * Log(fns, 2.0) + DiagonalTerms(fns, x, K, K)
  }

  /** cov_matrix_constrain(x, K, lp): the same size check and matrix, and lp
      incremented by the log Jacobian read off the diagonal of L. */
  method CovMatrixConstrainLp(fns: Fns, x: seq<real>, K: nat, lp0: real) returns (r: Result<Matrix>, lp: real)
    ensures r.DomainError? <==> |x| != (K * (K + 1)) / 2
    ensures r.DomainError? ==> lp == lp0
    ensures r.Success? ==> |x| == RowStart(K) && r.value == Covariance(fns, x, K)
    ensures r.Success? ==> lp == lp0 + CovLogJacobian(fns, x, K)
  {
    lp := lp0;
    RowStartClosed(K);
    if |x| != (K * (K + 1)) / 2 {
      return DomainError("x.size() != K + (K choose 2)"), lp;
    }
    var L := FillFactor(fns, x, K);
    lp := lp + K as real * Log(fns, 2.0);
    lp := AddDiagonalTerms(fns, x, K, L, lp);
    r := Success(TimesTranspose(L));
  }

  /** The loop over the diagonal of L that adds (K - k + 1) * log(L(k,k)) to lp. */
  method AddDiagonalTerms(fns: Fns, x: seq<real>, K: nat, L: Matrix, lpIn: real) returns (lp: real)
    requires |x| == RowStart(K) && L == Factor(fns, x, K)
    ensures lp == lpIn + DiagonalTerms(fns, x, K, K)
  {
    lp := lpIn;
    for k := 0 to K
      invariant lp == lpIn + DiagonalTerms(fns, x, K, k)
    {
      DiagonalStep(fns, x, K, L, k);
      lp := lp + (K - k + 1) as real * Log(fns, L[k][k]);
    }
  }

  /** The covariance matrix is symmetric. */
  lemma CovarianceSymmetric(fns: Fns, x: seq<real>, K: nat)
    requires |x| == RowStart(K)
    ensures forall m, n :: 0 <= m < K && 0 <= n < K ==> Covariance(fns, x, K)[m][n] == Covariance(fns, x, K)[n][m]
  {
    var l := Factor(fns, x, K);
    forall m, n | 0 <= m < K && 0 <= n < K
      ensures Covariance(fns, x, K)[m][n] == Covariance(fns, x, K)[n][m]
    {
      DotCommutes(l[m], l[n]);
    }
  }

  /** With log(exp(a)) = a, the Jacobian is K * log 2 plus the weighted
      diagonal entries of x. */
  lemma {:induction false} DiagonalTermsOfFree(fns: Fns, x: seq<real>, K: nat, k: nat)
    requires LogInvertsExp(fns)
    requires |x| == RowStart(K) && k <= K
    ensures DiagonalTerms(fns, x, K, k) == WeightedDiagonal(x, K, k)
  {
    if k > 0 {
      DiagonalTermsOfFree(fns, x, K, k - 1);
      RowStartBound(k - 1, K);
      assert Log(fns, Exp(fns, x[RowStart(k - 1) + (k - 1)])) == x[RowStart(k - 1) + (k - 1)];
    }
  }

  /** Σ_{j<k} (K - j + 1) * x(RowStart(j) + j). */
  function WeightedDiagonal(x: seq<real>, K: nat, k: nat): real
    requires |x| == RowStart(K) && k <= K
  {
    if k == 0 then 0.0
    else
      RowStartBound(k - 1, K);
      WeightedDiagonal(x, K, k - 1) + (K - (k - 1) + 1) as real * x[RowStart(k - 1) + (k - 1)]
  }

  /** Where the loops read L(m,n), n <= m, from x. */
  function Position(m: nat, n: nat): nat
  {
    RowStart(m) + n
  }

  /** The row and column of L that entry t of x is read into, for a
      K x K factor. */
  function Unpack(t: nat, K: nat): (mn: (nat, nat))
    requires t < RowStart(K)
    ensures mn.1 <= mn.0 < K && Position(mn.0, mn.1) == t
    decreases K
  {
    if t >= RowStart(K - 1) then (K - 1, t - RowStart(K - 1)) else Unpack(t, K - 1)
  }

  /** Every entry of x is read exactly once: Unpack finds, for each position
      t < K(K+1)/2, a lower-triangular (m, n) read there, and no two entries of
      the triangle are read from the same position. */
  lemma PackingIsBijective(K: nat)
    ensures RowStart(K) == (K * (K + 1)) / 2
    ensures forall t :: 0 <= t < RowStart(K) ==> Position(Unpack(t, K).0, Unpack(t, K).1) == t
    ensures forall m: nat, n: nat, p: nat, q: nat :: n <= m < K && q <= p < K && Position(m, n) == Position(p, q) ==> m == p && n == q
  {
    RowStartClosed(K);
    forall m: nat, n: nat, p: nat, q: nat | n <= m < K && q <= p < K && Position(m, n) == Position(p, q)
      ensures m == p && n == q
    {
      if m < p {
        RowStartBound(m, p);
      } else if p < m {
        RowStartBound(p, m);
      }
    }
  }
}
