/** make_nu(eta, K): the degrees of freedom of the t variates behind the
    canonical partial correlations of the Lewandowski-Kurowicka-Joe (LKJ)
    distribution with shape eta, one per CPC, laid out column by column. */
module MakeNu {
  import opened CpcLayout

  /** The degrees of freedom 2 * alpha of the CPC at position j, where alpha is
      eta + (K-2)/2 for column 0 and drops by 1/2 with every further column. */
  function NuAt(eta: real, K: nat, j: nat): real
    requires K >= 1 && j < ColStart(K, K - 1)
  {
    2.0 * (eta + (K as real - 2.0) / 2.0 - 0.5 * ColumnOf(K, j) as real)
  }

  /** make_nu(eta, K): fills the first K-1 slots with 2 * alpha, then every
      further block through counter, alpha dropping by 1/2 before each block. */
  method MakeNu(eta: real, K: nat) returns (nu: seq<real>)
    requires K >= 1
    ensures |nu| == ColStart(K, K - 1) == K * (K - 1) / 2
    ensures forall j :: 0 <= j < |nu| ==> nu[j] == NuAt(eta, K, j)
  {
    var a := NuBuffer(K);
    var alpha := eta + (K as real - 2.0) / 2.0;
    var alpha2 := 2.0 * alpha;
    for j := 0 to K - 1
      invariant forall p :: 0 <= p < j ==> a[p] == NuAt(eta, K, p)
    {
      ColumnOfAt(K, 0, j);
      a[j] := alpha2;
    }
    var counter := K - 1;
    var i := 1;
    while i < K - 1
      invariant 1 <= i && (i <= K - 1 || K == 1)
      invariant K >= 2 ==> counter == ColStart(K, i)
      invariant K == 1 ==> counter == 0
      invariant counter <= a.Length == ColStart(K, K - 1)
      invariant alpha == eta + (K as real - 2.0) / 2.0 - 0.5 * (i - 1) as real
      invariant forall p :: 0 <= p < counter ==> a[p] == NuAt(eta, K, p)
    {
      alpha := alpha - 0.5;
      alpha2 := 2.0 * alpha;
      ColStartMono(K, i, K - 1);
      for j := i + 1 to K
        invariant counter == ColStart(K, i) + (j - i - 1)
        invariant forall p :: 0 <= p < counter ==> a[p] == NuAt(eta, K, p)
      {
        ColumnOfAt(K, i, j - i - 1);
        a[counter] := alpha2;
        counter := counter + 1;
      }
      i := i + 1;
    }
    nu := a[..];
    ColStartSize(K);
  }

  /** The array of K(K-1)/2 slots make_nu fills. */
  method NuBuffer(K: nat) returns (a: array<real>)
    requires K >= 1
    ensures fresh(a) && K - 1 <= a.Length == ColStart(K, K - 1)
  {
    ColStartSize(K);
    if K >= 2 {
      ColStartMono(K, 0, K - 1);
    }
    a := new real[K * (K - 1) / 2];
  }

  /** Block i (column i) holds K-1-i copies of 2 * (eta + (K-2)/2 - i/2);
      for i = 0 these are the first K-1 entries. */
  lemma NuBlock(eta: real, K: nat, i: nat, t: nat)
    requires i < K - 1 && t < K - 1 - i
    ensures ColStart(K, i) + t < ColStart(K, K - 1)
    ensures NuAt(eta, K, ColStart(K, i) + t) == 2.0 * (eta + (K as real - 2.0) / 2.0 - i as real / 2.0)
  {
    ColumnOfAt(K, i, t);
  }

  /** The degrees of freedom never increase along the array. */
  lemma NuNonIncreasing(eta: real, K: nat, j: nat, j': nat)
    requires K >= 1 && j <= j' < ColStart(K, K - 1)
    ensures NuAt(eta, K, j') <= NuAt(eta, K, j)
  {
    ColumnOfMono(K, j, j');
  }
}
