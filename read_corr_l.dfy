/** read_corr_L: the Cholesky factor of a K x K correlation matrix built from
    its K(K-1)/2 canonical partial correlations (CPCs) by the C-vine
    construction of Lewandowski, Kurowicka and Joe (2009), and the overload
    that also adds the log Jacobian determinant to log_prob. */
module ReadCorrL {
  import opened Elementary
  import opened Sums
  import opened CpcLayout

  type Matrix = seq<seq<real>>

  /** The sizes read_corr_L works with: K >= 2 and one CPC per pair. */
  predicate Shape(cpcs: seq<real>, K: nat)
  {
    K >= 2 && |cpcs| == ColStart(K, K - 1)
  }

  /** The CPC of row r in column c (c < r): entry r - c - 1 of column c. */
  function Cpc(cpcs: seq<real>, K: nat, r: nat, c: nat): real
    requires Shape(cpcs, K) && c < r < K
  {
    ColStartMono(K, c, K - 1);
    cpcs[CpcIndex(K, r, c)]
  }

  /** Where the CPC of row r in column c (c < r < K) is read from. */
  function CpcIndex(K: nat, r: nat, c: nat): nat
    requires c < r < K
  {
    ColStart(K, c) + (r - c - 1)
  }

  /** acc for row r once columns 0..c-1 are placed: the product of
      1 - CPC^2 over the CPCs of row r in those columns. */
  function Acc(cpcs: seq<real>, K: nat, r: nat, c: nat): real
    requires Shape(cpcs, K) && c <= r < K
  {
    if c == 0 then 1.0
    else Acc(cpcs, K, r, c - 1) * (1.0 - Cpc(cpcs, K, r, c - 1) * Cpc(cpcs, K, r, c - 1))
  }

  /** L(r, c): zero above the diagonal, 1 at (0, 0), sqrt(acc) on the rest of
      the diagonal, the bare CPC in column 0, and CPC * sqrt(acc) below the
      diagonal of the other columns. */
  function CorrEntry(fns: Fns, cpcs: seq<real>, K: nat, r: nat, c: nat): real
    requires Shape(cpcs, K) && r < K && c < K
  {
    if r < c then 0.0
    else if r == c then (if r == 0 then 1.0 else Sqrt(fns, Acc(cpcs, K, r, r)))
    else if c == 0 then Cpc(cpcs, K, r, 0)
    else Cpc(cpcs, K, r, c) * Sqrt(fns, Acc(cpcs, K, r, c))
  }

  function CorrRow(fns: Fns, cpcs: seq<real>, K: nat, r: nat): (row: seq<real>)
    requires Shape(cpcs, K) && r < K
    ensures |row| == K
  {
    seq(K, c requires 0 <= c < K => CorrEntry(fns, cpcs, K, r, c))
  }

  /** The Cholesky factor read_corr_L returns. */
  function CorrFactor(fns: Fns, cpcs: seq<real>, K: nat): (l: Matrix)
    requires Shape(cpcs, K)
    ensures |l| == K && forall r :: 0 <= r < K ==> |l[r]| == K
  {
    seq(K, r requires 0 <= r < K => CorrRow(fns, cpcs, K, r))
  }

  lemma CorrFactorAt(fns: Fns, cpcs: seq<real>, K: nat, r: nat, c: nat)
    requires Shape(cpcs, K) && r < K && c < K
    ensures CorrFactor(fns, cpcs, K)[r][c] == CorrEntry(fns, cpcs, K, r, c)
  {
    assert CorrFactor(fns, cpcs, K)[r] == CorrRow(fns, cpcs, K, r);
  }

  /** The state of the construction once columns 0..i-1 are placed: those
      columns of l hold L, the rest of l is still zero, and acc holds, for
      each row from i on, the product over its CPCs placed so far. */
  ghost predicate ColumnsPlaced(fns: Fns, cpcs: seq<real>, K: nat, l: array2<real>, acc: array<real>, i: nat)
    requires Shape(cpcs, K)
    reads l, acc
  {
    && l.Length0 == K && l.Length1 == K && acc.Length == K - 1 && 1 <= i <= K - 1
    && (forall p, q :: 0 <= p < K && 0 <= q < i ==> l[p, q] == CorrEntry(fns, cpcs, K, p, q))
    && (forall p, q :: 0 <= p < K && i <= q < K ==> l[p, q] == 0.0)
    && (forall a :: i - 1 <= a < K - 1 ==> acc[a] == Acc(cpcs, K, a + 1, i))
  }

  /** read_corr_L(CPCs, K): column 0 from the head of CPCs, then column by
      column the next segment, scaled by sqrt(acc), with acc shrunk by
      1 - CPC^2 after each column; the last diagonal entry closes it. */
  method ReadCorrL(fns: Fns, cpcs: seq<real>, K: nat) returns (L: Matrix)
    requires K >= 2 && |cpcs| == K * (K - 1) / 2
    ensures Shape(cpcs, K) && L == CorrFactor(fns, cpcs, K)
  {
    ColStartSize(K);
    var acc := new real[K - 1](_ => 1.0);
    var l := new real[K, K]((_, _) => 0.0);
    PlaceFirstColumn(fns, cpcs, K, l, acc);
    PlaceInnerColumns(fns, cpcs, K, l, acc);
    PlaceLastDiagonal(fns, cpcs, K, l, acc);
    L := ReadOff(l);
    RowsOfFactor(fns, cpcs, K, l, L);
  }

  /** The loop over columns 1..K-2: position moves past the previous
      column's pull CPCs, and pull shrinks by one. */
  method PlaceInnerColumns(fns: Fns, cpcs: seq<real>, K: nat, l: array2<real>, acc: array<real>)
    requires Shape(cpcs, K) && ColumnsPlaced(fns, cpcs, K, l, acc, 1)
    modifies l, acc
    ensures ColumnsPlaced(fns, cpcs, K, l, acc, K - 1)
  {
    var position := 0;
    var pull := K - 1;
    for i := 1 to K - 1
      invariant position == ColStart(K, i - 1) && pull == K - i
      invariant ColumnsPlaced(fns, cpcs, K, l, acc, i)
    {
      position := position + pull;
      pull := pull - 1;
      PlaceColumn(fns, cpcs, K, l, acc, i, position, pull);
    }
  }

  /** Every entry of l holds L. */
  ghost predicate FactorFilled(fns: Fns, cpcs: seq<real>, K: nat, l: array2<real>)
    requires Shape(cpcs, K)
    reads l
  {
    && l.Length0 == K && l.Length1 == K
    && forall p, q :: 0 <= p < K && 0 <= q < K ==> l[p, q] == CorrEntry(fns, cpcs, K, p, q)
  }

  /** L(K-1, K-1) = sqrt(acc(K-2)) completes the factor. */
  method PlaceLastDiagonal(fns: Fns, cpcs: seq<real>, K: nat, l: array2<real>, acc: array<real>)
    requires Shape(cpcs, K) && ColumnsPlaced(fns, cpcs, K, l, acc, K - 1)
    modifies l
    ensures FactorFilled(fns, cpcs, K, l)
  {
    l[K - 1, K - 1] := Sqrt(fns, acc[K - 2]);
  }

  lemma RowsOfFactor(fns: Fns, cpcs: seq<real>, K: nat, l: array2<real>, rows: Matrix)
    requires Shape(cpcs, K) && FactorFilled(fns, cpcs, K, l)
    requires |rows| == K && forall r :: 0 <= r < K ==> |rows[r]| == K
    requires forall r, c :: 0 <= r < K && 0 <= c < K ==> rows[r][c] == l[r, c]
    ensures rows == CorrFactor(fns, cpcs, K)
  {
    forall r | 0 <= r < K
      ensures rows[r] == CorrFactor(fns, cpcs, K)[r]
    {
      assert forall c :: 0 <= c < K ==> rows[r][c] == CorrEntry(fns, cpcs, K, r, c);
    }
  }

  /** The rows of a two-dimensional array. */
  method ReadOff(l: array2<real>) returns (rows: Matrix)
    ensures |rows| == l.Length0
    ensures forall r :: 0 <= r < l.Length0 ==> |rows[r]| == l.Length1
    ensures forall r, c :: 0 <= r < l.Length0 && 0 <= c < l.Length1 ==> rows[r][c] == l[r, c]
  {
    rows := seq(l.Length0, r requires 0 <= r < l.Length0 reads l => seq(l.Length1, c requires 0 <= c < l.Length1 reads l => l[r, c]));
  }

  /** L(0,0) = 1, column 0 below it the first K-1 CPCs, and acc = 1 - CPC^2. */
  method PlaceFirstColumn(fns: Fns, cpcs: seq<real>, K: nat, l: array2<real>, acc: array<real>)
    requires Shape(cpcs, K) && l.Length0 == K && l.Length1 == K && acc.Length == K - 1
    requires forall p, q :: 0 <= p < K && 0 <= q < K ==> l[p, q] == 0.0
    modifies l, acc
    ensures ColumnsPlaced(fns, cpcs, K, l, acc, 1)
  {
    l[0, 0] := 1.0;
    ColStartMono(K, 0, K - 1);
    for r := 1 to K
      invariant l[0, 0] == 1.0
      invariant forall p, q :: 0 <= p < K && 1 <= q < K ==> l[p, q] == 0.0
      invariant forall p :: 1 <= p < r ==> l[p, 0] == Cpc(cpcs, K, p, 0)
      invariant forall a :: 0 <= a < r - 1 ==> acc[a] == Acc(cpcs, K, a + 1, 1)
    {
      var t := cpcs[r - 1];
      l[r, 0] := t;
      acc[r - 1] := 1.0 - t * t;
    }
  }

  /** Column i (0 < i < K-1): L(i,i) = sqrt(acc(i-1)); below it the CPC
      segment at position, of length pull = K-1-i, scaled by sqrt(acc); then
      acc of those rows shrinks by 1 - CPC^2. */
  method PlaceColumn(fns: Fns, cpcs: seq<real>, K: nat, l: array2<real>, acc: array<real>, i: nat, position: nat, pull: nat)
    requires Shape(cpcs, K) && 1 <= i < K - 1 && position == ColStart(K, i) && pull == K - 1 - i
    requires ColumnsPlaced(fns, cpcs, K, l, acc, i)
    modifies l, acc
    ensures ColumnsPlaced(fns, cpcs, K, l, acc, i + 1)
  {
    FillColumn(fns, cpcs, K, l, acc, i, position, pull);
    ShrinkAcc(cpcs, K, acc, i, position, pull);
  }

  /** L(i,i) and the entries below it, from the CPC segment and the current acc. */
  method FillColumn(fns: Fns, cpcs: seq<real>, K: nat, l: array2<real>, acc: array<real>, i: nat, position: nat, pull: nat)
    requires Shape(cpcs, K) && 1 <= i < K - 1 && position == ColStart(K, i) && pull == K - 1 - i
    requires ColumnsPlaced(fns, cpcs, K, l, acc, i)
    modifies l
    ensures forall p, q :: 0 <= p < K && 0 <= q <= i ==> l[p, q] == CorrEntry(fns, cpcs, K, p, q)
    ensures forall p, q :: 0 <= p < K && i < q < K ==> l[p, q] == 0.0
  {
    ColStartMono(K, i, K - 1);
    l[i, i] := Sqrt(fns, acc[i - 1]);
    for p := i + 1 to K
      invariant forall p', q :: 0 <= p' < K && 0 <= q < K && q != i ==> l[p', q] == old(l[p', q])
      invariant forall p' :: 0 <= p' < i ==> l[p', i] == 0.0
      invariant l[i, i] == CorrEntry(fns, cpcs, K, i, i)
      invariant forall p' :: i < p' < p ==> l[p', i] == CorrEntry(fns, cpcs, K, p', i)
    {
      var v, w := cpcs[position + (p - i - 1)], acc[p - 1];
      assert w == Acc(cpcs, K, p, i);
      BelowDiagonalAt(fns, cpcs, K, p, i, v, w);
      l[p, i] := v * Sqrt(fns, w);
    }
  }

  /** acc of the rows below row i, shrunk by 1 - CPC^2 for the CPCs of column i. */
  method ShrinkAcc(cpcs: seq<real>, K: nat, acc: array<real>, i: nat, position: nat, pull: nat)
    requires Shape(cpcs, K) && 1 <= i < K - 1 && position == ColStart(K, i) && pull == K - 1 - i
    requires acc.Length == K - 1
    requires forall a :: i <= a < K - 1 ==> acc[a] == Acc(cpcs, K, a + 1, i)
    modifies acc
    ensures forall a :: i <= a < K - 1 ==> acc[a] == Acc(cpcs, K, a + 1, i + 1)
  {
    ColStartMono(K, i, K - 1);
    for t := 0 to pull
      invariant forall a :: i + t <= a < K - 1 ==> acc[a] == Acc(cpcs, K, a + 1, i)
      invariant forall a :: i <= a < i + t ==> acc[a] == Acc(cpcs, K, a + 1, i + 1)
    {
      var c := cpcs[position + t];
      acc[i + t] := acc[i + t] * (1.0 - c * c);
    }
  }

  /** Entry (p, i) below the diagonal of column i > 0, as the loop computes
      it from the CPC and the row's acc. */
  lemma BelowDiagonalAt(fns: Fns, cpcs: seq<real>, K: nat, p: nat, i: nat, v: real, w: real)
    requires Shape(cpcs, K) && 1 <= i < p < K
    requires ColStart(K, i) + (p - i - 1) < |cpcs|
    requires v == cpcs[ColStart(K, i) + (p - i - 1)] && w == Acc(cpcs, K, p, i)
    ensures CorrEntry(fns, cpcs, K, p, i) == v * Sqrt(fns, w)
  {
  }

  /** The row whose entry of its column the CPC at position j becomes. */
  function RowOf(K: nat, j: nat): nat
    requires K >= 1 && j < ColStart(K, K - 1)
  {
    var c := ColumnOf(K, j);
    c + 1 + (j - ColStart(K, c))
  }

  /** Every CPC is read into exactly one entry below the diagonal: each
      position j is read into (RowOf(j), ColumnOf(j)), and no two entries are
      read from the same position. */
  lemma CpcsReadOnce(K: nat)
    requires K >= 2
    ensures forall j :: 0 <= j < ColStart(K, K - 1) ==>
      ColumnOf(K, j) < RowOf(K, j) < K && CpcIndex(K, RowOf(K, j), ColumnOf(K, j)) == j
    ensures forall r: nat, c: nat, r': nat, c': nat :: c < r < K && c' < r' < K && CpcIndex(K, r, c) == CpcIndex(K, r', c') ==> r == r' && c == c'
  {
    forall r: nat, c: nat, r': nat, c': nat | c < r < K && c' < r' < K && CpcIndex(K, r, c) == CpcIndex(K, r', c')
      ensures r == r' && c == c'
    {
      ColumnOfAt(K, c, r - c - 1);
      ColumnOfAt(K, c', r' - c' - 1);
    }
  }

  /** What read_corr_L documents of its input: every CPC lies in (-1, 1). */
  predicate CpcsInRange(cpcs: seq<real>)
  {
    forall j :: 0 <= j < |cpcs| ==> -1.0 < cpcs[j] < 1.0
  }

  lemma OneMinusSquarePositive(x: real)
    requires -1.0 < x < 1.0
    ensures 1.0 - x * x > 0.0
  {
    if x >= 0.0 {
      assert x * x <= x * 1.0;
    } else {
      assert x * x <= (-x) * 1.0;
    }
  }

  /** acc stays positive while the CPCs are in (-1, 1). */
  lemma {:induction false} AccPositive(cpcs: seq<real>, K: nat, r: nat, c: nat)
    requires Shape(cpcs, K) && CpcsInRange(cpcs) && c <= r < K
    ensures Acc(cpcs, K, r, c) > 0.0
  {
    if c > 0 {
      AccPositive(cpcs, K, r, c - 1);
      var x := Cpc(cpcs, K, r, c - 1);
      ColStartMono(K, c - 1, K - 1);
      assert x == cpcs[CpcIndex(K, r, c - 1)];
      OneMinusSquarePositive(x);
      var a, b := Acc(cpcs, K, r, c - 1), 1.0 - x * x;
      assert Acc(cpcs, K, r, c) == a * b;
      PositiveProduct(a, b);
    }
  }

  lemma PositiveProduct(a: real, b: real)
    requires a > 0.0 && b > 0.0
    ensures a * b > 0.0
  {
  }

  /** Entry c < r of row r squares to CPC^2 * acc. */
  lemma EntrySquare(fns: Fns, cpcs: seq<real>, K: nat, r: nat, c: nat, e: real, x: real, a: real)
    requires SqrtSquares(fns) && Shape(cpcs, K) && CpcsInRange(cpcs) && c < r < K
    requires e == CorrEntry(fns, cpcs, K, r, c) && x == Cpc(cpcs, K, r, c) && a == Acc(cpcs, K, r, c)
    ensures e * e == x * x * a
  {
    if c > 0 {
      AccPositive(cpcs, K, r, c);
      var s := Sqrt(fns, a);
      assert s * s == a;
      assert e == x * s;
      assert (x * s) * (x * s) == x * x * (s * s);
    } else {
      assert e == x && a == 1.0;
    }
  }

  /** The entries of row r before column k square-sum to 1 - acc(r, k). */
  lemma {:induction false} RowPrefixNorm(fns: Fns, cpcs: seq<real>, K: nat, r: nat, k: nat)
    requires SqrtSquares(fns) && Shape(cpcs, K) && CpcsInRange(cpcs) && k <= r < K
    ensures Dot(CorrRow(fns, cpcs, K, r)[..k], CorrRow(fns, cpcs, K, r)[..k]) == 1.0 - Acc(cpcs, K, r, k)
  {
    var row := CorrRow(fns, cpcs, K, r);
    if k == 0 {
      assert row[..0] == [];
    } else {
      var e, x, a := row[k - 1], Cpc(cpcs, K, r, k - 1), Acc(cpcs, K, r, k - 1);
      RowPrefixNorm(fns, cpcs, K, r, k - 1);
      EntrySquare(fns, cpcs, K, r, k - 1, e, x, a);
      SquareStep(row, k, e, x, a);
      AccStep(cpcs, K, r, k, x, a);
    }
  }

  lemma AccStep(cpcs: seq<real>, K: nat, r: nat, k: nat, x: real, a: real)
    requires Shape(cpcs, K) && 0 < k <= r < K
    requires x == Cpc(cpcs, K, r, k - 1) && a == Acc(cpcs, K, r, k - 1)
    ensures Acc(cpcs, K, r, k) == a * (1.0 - x * x)
  {
  }

  /** One more entry e, with e^2 = x^2 a, takes the squared norm of a prefix
      from 1 - a to 1 - a (1 - x^2). */
  lemma SquareStep(row: seq<real>, k: nat, e: real, x: real, a: real)
    requires 0 < k <= |row| && row[k - 1] == e && e * e == x * x * a
    requires Dot(row[..k - 1], row[..k - 1]) == 1.0 - a
    ensures Dot(row[..k], row[..k]) == 1.0 - a * (1.0 - x * x)
  {
    DotPrefixStep(row, row, k - 1);
  }

  /** Entries after the diagonal add nothing to a row's squared norm. */
  lemma {:induction false} RowTailNorm(fns: Fns, cpcs: seq<real>, K: nat, r: nat, k: nat)
    requires Shape(cpcs, K) && r < k <= K
    ensures Dot(CorrRow(fns, cpcs, K, r)[..k], CorrRow(fns, cpcs, K, r)[..k])
      == Dot(CorrRow(fns, cpcs, K, r)[..r + 1], CorrRow(fns, cpcs, K, r)[..r + 1])
  {
    if k > r + 1 {
      var row := CorrRow(fns, cpcs, K, r);
      RowTailNorm(fns, cpcs, K, r, k - 1);
      DotPrefixStep(row, row, k - 1);
    }
  }

  /** The square of the diagonal entry sqrt(acc) gives back acc. */
  lemma SqrtOfAcc(fns: Fns, a: real)
    requires SqrtSquares(fns) && a >= 0.0
    ensures Sqrt(fns, a) * Sqrt(fns, a) == a
  {
  }

  /** Each row of L has squared norm one, so L * L^T has a unit diagonal: L is
      the Cholesky factor of a correlation matrix. */
  lemma RowNormOne(fns: Fns, cpcs: seq<real>, K: nat, r: nat)
    requires SqrtSquares(fns) && Shape(cpcs, K) && CpcsInRange(cpcs) && r < K
    ensures Dot(CorrFactor(fns, cpcs, K)[r], CorrFactor(fns, cpcs, K)[r]) == 1.0
  {
    var row := CorrRow(fns, cpcs, K, r);
    assert CorrFactor(fns, cpcs, K)[r] == row;
    RowHeadNorm(fns, cpcs, K, r);
    RowTailNorm(fns, cpcs, K, r, K);
    assert row[..K] == row;
  }

  /** Up to and including the diagonal, the squares of row r add up to one:
      the diagonal entry squared is what the entries before it left over. */
  lemma RowHeadNorm(fns: Fns, cpcs: seq<real>, K: nat, r: nat)
    requires SqrtSquares(fns) && Shape(cpcs, K) && CpcsInRange(cpcs) && r < K
    ensures Dot(CorrRow(fns, cpcs, K, r)[..r + 1], CorrRow(fns, cpcs, K, r)[..r + 1]) == 1.0
  {
    if r > 0 {
      DiagonalSquare(fns, cpcs, K, r);
      RowPrefixNorm(fns, cpcs, K, r, r);
      LeftOverSquare(CorrRow(fns, cpcs, K, r), r, Acc(cpcs, K, r, r));
    } else {
      FirstRowHead(fns, cpcs, K);
    }
  }

  /** Row 0 starts with L(0, 0) = 1. */
  lemma FirstRowHead(fns: Fns, cpcs: seq<real>, K: nat)
    requires Shape(cpcs, K)
    ensures Dot(CorrRow(fns, cpcs, K, 0)[..1], CorrRow(fns, cpcs, K, 0)[..1]) == 1.0
  {
    var row := CorrRow(fns, cpcs, K, 0);
    assert row[0] == 1.0;
    LeftOverSquare(row, 0, 1.0);
  }

  /** A prefix with squared norm 1 - a, followed by an entry whose square is
      a, has squared norm one. */
  lemma LeftOverSquare(row: seq<real>, r: nat, a: real)
    requires r < |row| && Dot(row[..r], row[..r]) == 1.0 - a && row[r] * row[r] == a
    ensures Dot(row[..r + 1], row[..r + 1]) == 1.0
  {
    DotPrefixStep(row, row, r);
  }

  /** Below row 0, the diagonal entry sqrt(acc) squares back to acc. */
  lemma DiagonalSquare(fns: Fns, cpcs: seq<real>, K: nat, r: nat)
    requires SqrtSquares(fns) && Shape(cpcs, K) && CpcsInRange(cpcs) && 0 < r < K
    ensures CorrRow(fns, cpcs, K, r)[r] * CorrRow(fns, cpcs, K, r)[r] == Acc(cpcs, K, r, r)
  {
    AccPositive(cpcs, K, r, r);
    var a := Acc(cpcs, K, r, r);
    assert CorrRow(fns, cpcs, K, r)[r] == Sqrt(fns, a);
    SqrtOfAcc(fns, a);
  }

  /** L is lower triangular, L(0, 0) = 1 and column 0 below it is the first
      K - 1 CPCs, in order. */
  lemma CorrFactorShape(fns: Fns, cpcs: seq<real>, K: nat)
    requires Shape(cpcs, K)
    ensures K - 1 <= |cpcs|
    ensures forall r, c :: 0 <= r < c < K ==> CorrFactor(fns, cpcs, K)[r][c] == 0.0
    ensures CorrFactor(fns, cpcs, K)[0][0] == 1.0
    ensures forall r :: 1 <= r < K ==> CorrFactor(fns, cpcs, K)[r][0] == cpcs[r - 1]
  {
    ColStartMono(K, 0, K - 1);
    forall r, c | 0 <= r < c < K
      ensures CorrFactor(fns, cpcs, K)[r][c] == 0.0
    {
      CorrFactorAt(fns, cpcs, K, r, c);
    }
    CorrFactorAt(fns, cpcs, K, 0, 0);
    forall r | 1 <= r < K
      ensures CorrFactor(fns, cpcs, K)[r][0] == cpcs[r - 1]
    {
      CorrFactorAt(fns, cpcs, K, r, 0);
      assert ColStart(K, 0) == 0;
    }
  }

  // ---------------------------------------------------------------------
  // The log_prob overload.

  /** The counters k, i and lead of the log_prob loop. */
  datatype Cursor = Cursor(k: nat, i: nat, lead: real)

  /** The counter update at the end of each pass: i moves on, and once it
      passes K the loop moves to the next k, with i = k + 1 and
      lead = K - k - 1. */
  function Advance(K: nat, cur: Cursor): Cursor
  {
    if cur.i + 1 > K then Cursor(cur.k + 1, cur.k + 2, K as real - (cur.k + 1) as real - 1.0)
    else Cursor(cur.k, cur.i + 1, cur.lead)
  }

  /** The counters when the loop reaches CPC j. */
  function CursorAt(K: nat, start: Cursor, j: nat): Cursor
  {
    if j == 0 then start else Advance(K, CursorAt(K, start, j - 1))
  }

  /** The counters as read_corr_L initialises them: k = 0, i = 0, lead = K - 2. */
  function AsWrittenStart(K: nat): Cursor
  {
    Cursor(0, 0, K as real - 2.0)
  }

  /** The initialisation that walks the columns in step with the CPC layout:
      k = 1, i = 2, lead = K - 2. */
  function CorrectedStart(K: nat): Cursor
  {
    Cursor(1, 2, K as real - 2.0)
  }

  /** The increment lead / 2 * log1m(CPC^2) of one pass of the loop. */
  function JacobianTerm(fns: Fns, lead: real, cpc: real): real
  {
    lead / 2.0 * Log1m(fns, cpc * cpc)
  }

  /** The first n increments of the loop. */
  function LeadTerms(fns: Fns, cpcs: seq<real>, K: nat, start: Cursor, n: nat): real
    requires n <= |cpcs|
  {
    if n == 0 then 0.0
    else LeadTerms(fns, cpcs, K, start, n - 1) + JacobianTerm(fns, CursorAt(K, start, n - 1).lead, cpcs[n - 1])
  }

  /** The log_prob loop over every CPC but the last, from the given counters. */
  method AccumulateLogProb(fns: Fns, cpcs: seq<real>, K: nat, start: Cursor, logProb0: real) returns (logProb: real)
    requires |cpcs| >= 1
    ensures logProb == logProb0 + LeadTerms(fns, cpcs, K, start, |cpcs| - 1)
  {
    var k: nat, i: nat, lead: real := start.k, start.i, start.lead;
    logProb := logProb0;
    for j := 0 to |cpcs| - 1
      invariant Cursor(k, i, lead) == CursorAt(K, start, j)
      invariant logProb == logProb0 + LeadTerms(fns, cpcs, K, start, j)
    {
      var log1cpc2 := Log1m(fns, cpcs[j] * cpcs[j]);
      logProb := logProb + lead / 2.0 * log1cpc2;
      assert logProb == logProb0 + LeadTerms(fns, cpcs, K, start, j + 1);
      i := i + 1;
      if i > K {
        k := k + 1;
        i := k + 1;
        lead := K as real - k as real - 1.0;
      }
    }
  }

  /** read_corr_L(CPCs, K, log_prob) as written: the loop from k = 0, i = 0,
      then the same factor as read_corr_L(CPCs, K). */
  method ReadCorrLLp(fns: Fns, cpcs: seq<real>, K: nat, logProb0: real) returns (L: Matrix, logProb: real)
    requires K >= 2 && |cpcs| == K * (K - 1) / 2
    ensures Shape(cpcs, K) && L == CorrFactor(fns, cpcs, K)
    ensures logProb == logProb0 + LeadTerms(fns, cpcs, K, AsWrittenStart(K), |cpcs| - 1)
  {
    ColStartSize(K);
    logProb := AccumulateLogProb(fns, cpcs, K, AsWrittenStart(K), logProb0);
    L := ReadCorrL(fns, cpcs, K);
  }

  /** The C-vine Jacobian weight of the CPC at position j: K - 2 - c for a CPC
      of column c, so that log |J| = sum of (K - 2 - c) / 2 * log(1 - CPC^2). */
  function LkjLead(K: nat, j: nat): real
    requires K >= 1 && j < ColStart(K, K - 1)
  {
    K as real - 2.0 - ColumnOf(K, j) as real
  }

  function LkjTerms(fns: Fns, cpcs: seq<real>, K: nat, n: nat): real
    requires Shape(cpcs, K) && n <= |cpcs|
  {
    if n == 0 then 0.0
    else LkjTerms(fns, cpcs, K, n - 1) + JacobianTerm(fns, LkjLead(K, n - 1), cpcs[n - 1])
  }

  /** The log absolute Jacobian determinant of the C-vine construction. */
  function LkjLogJacobian(fns: Fns, cpcs: seq<real>, K: nat): real
    requires Shape(cpcs, K)
  {
    LkjTerms(fns, cpcs, K, |cpcs|)
  }

  /** From the corrected start, the counters at CPC t of column c are
      k = c + 1, i = c + 2 + t and lead = K - 2 - c. */
  lemma CorrectedCursor(K: nat, c: nat, t: nat)
    requires K >= 2 && c < K - 1 && t < K - 1 - c
    ensures CursorAt(K, CorrectedStart(K), ColStart(K, c) + t) == Cursor(c + 1, c + 2 + t, K as real - 2.0 - c as real)
  {
    ColumnStart(K, c);
    WithinColumn(K, CorrectedStart(K), ColStart(K, c), t);
  }

  /** From the corrected start, the first CPC of column c finds k = c + 1,
      i = c + 2 and lead = K - 2 - c. */
  lemma {:induction false} ColumnStart(K: nat, c: nat)
    requires K >= 2 && c < K - 1
    ensures CursorAt(K, CorrectedStart(K), ColStart(K, c)) == Cursor(c + 1, c + 2, K as real - 2.0 - c as real)
    decreases c
  {
    if c > 0 {
      ColumnStart(K, c - 1);
      var s := ColStart(K, c - 1);
      var first := CursorAt(K, CorrectedStart(K), s);
      assert first == Cursor(c, c + 1, K as real - 2.0 - (c - 1) as real);
      WithinColumn(K, CorrectedStart(K), s, K - 1 - c);
      var p: nat := s + (K - 1 - c);
      assert CursorAt(K, CorrectedStart(K), p) == first.(i := K);
      assert ColStart(K, c) == p + 1;
      NextColumn(K, c, p, p + 1);
    } else {
      assert ColStart(K, 0) == 0;
    }
  }

  /** While i stays within K, each pass only moves i on by one. */
  lemma WithinColumn(K: nat, start: Cursor, s: nat, t: nat)
    requires CursorAt(K, start, s).i + t <= K
    ensures CursorAt(K, start, s + t) == CursorAt(K, start, s).(i := CursorAt(K, start, s).i + t)
  {
    CursorAtShift(K, start, s, t);
    StepsInColumn(K, CursorAt(K, start, s), t);
  }

  lemma {:induction false} StepsInColumn(K: nat, cur: Cursor, t: nat)
    requires cur.i + t <= K
    ensures CursorAt(K, cur, t) == cur.(i := cur.i + t)
    decreases t
  {
    if t > 0 {
      StepsInColumn(K, cur, t - 1);
    }
  }

  /** Running s + t passes is running t passes from where s passes end. */
  lemma {:induction false} CursorAtShift(K: nat, start: Cursor, s: nat, t: nat)
    ensures CursorAt(K, start, s + t) == CursorAt(K, CursorAt(K, start, s), t)
    decreases t
  {
    if t > 0 {
      CursorAtShift(K, start, s, t - 1);
      var p := s + (t - 1);
      assert CursorAt(K, start, p + 1) == Advance(K, CursorAt(K, start, p));
    }
  }

  /** Past the last CPC of column c - 1 (where i = K), the counters move to
      column c: k = c + 1, i = c + 2, lead = K - 2 - c. */
  lemma NextColumn(K: nat, c: nat, p: nat, j: nat)
    requires 0 < c < K - 1 && j == p + 1
    requires CursorAt(K, CorrectedStart(K), p) == Cursor(c, K, K as real - 2.0 - (c - 1) as real)
    ensures CursorAt(K, CorrectedStart(K), j) == Cursor(c + 1, c + 2, K as real - 2.0 - c as real)
  {
    var prev := CursorAt(K, CorrectedStart(K), p);
    assert CursorAt(K, CorrectedStart(K), j) == Advance(K, prev);
  }

  /** The corrected counters give every CPC its C-vine weight, and k stays
      below K, so the size_t difference K - k never wraps. */
  lemma CorrectedLeadIsLkj(K: nat, j: nat)
    requires K >= 2 && j < ColStart(K, K - 1)
    ensures CursorAt(K, CorrectedStart(K), j).lead == LkjLead(K, j)
    ensures CursorAt(K, CorrectedStart(K), j).k < K
  {
    var c := ColumnOf(K, j);
    CorrectedCursor(K, c, j - ColStart(K, c));
  }

  lemma {:induction false} CorrectedTerms(fns: Fns, cpcs: seq<real>, K: nat, n: nat)
    requires Shape(cpcs, K) && n <= |cpcs|
    ensures LeadTerms(fns, cpcs, K, CorrectedStart(K), n) == LkjTerms(fns, cpcs, K, n)
  {
    if n > 0 {
      CorrectedTerms(fns, cpcs, K, n - 1);
      CorrectedLeadIsLkj(K, n - 1);
    }
  }

  /** The last CPC, alone in column K - 2, has weight zero: skipping it in the
      loop loses nothing. */
  lemma LastCpcAddsNothing(fns: Fns, cpcs: seq<real>, K: nat)
    requires Shape(cpcs, K)
    ensures LkjLead(K, |cpcs| - 1) == 0.0
    ensures LkjLogJacobian(fns, cpcs, K) == LkjTerms(fns, cpcs, K, |cpcs| - 1)
  {
    ColumnOfAt(K, K - 2, 0);
  }

  /** read_corr_L(CPCs, K, log_prob) with the counters started at k = 1,
      i = 2: log_prob grows by exactly the C-vine log Jacobian. */
  method ReadCorrLLpCorrected(fns: Fns, cpcs: seq<real>, K: nat, logProb0: real) returns (L: Matrix, logProb: real)
    requires K >= 2 && |cpcs| == K * (K - 1) / 2
    ensures Shape(cpcs, K) && L == CorrFactor(fns, cpcs, K)
    ensures logProb == logProb0 + LkjLogJacobian(fns, cpcs, K)
  {
    ColStartSize(K);
    logProb := AccumulateLogProb(fns, cpcs, K, CorrectedStart(K), logProb0);
    CorrectedTerms(fns, cpcs, K, |cpcs| - 1);
    LastCpcAddsNothing(fns, cpcs, K);
    L := ReadCorrL(fns, cpcs, K);
  }

  /** As written, the counters stay at k = 0 with lead K - 2 for the first
      K + 1 CPCs ... */
  lemma {:induction false} AsWrittenHead(K: nat, j: nat)
    requires j <= K
    ensures CursorAt(K, AsWrittenStart(K), j) == Cursor(0, j, K as real - 2.0)
  {
    if j > 0 {
      AsWrittenHead(K, j - 1);
    }
  }

  /** ... and from then on they run K + 1 CPCs behind the corrected ones. */
  lemma {:induction false} AsWrittenShift(K: nat, n: nat)
    ensures CursorAt(K, AsWrittenStart(K), K + 1 + n) == CursorAt(K, CorrectedStart(K), n)
  {
    if n == 0 {
      AsWrittenHead(K, K);
    } else {
      AsWrittenShift(K, n - 1);
    }
  }

  /** The weights the loop as written gives: K - 2 for the first K + 1 CPCs,
      then the C-vine weight of the CPC K + 1 positions earlier. */
  lemma AsWrittenLead(K: nat, j: nat)
    requires K >= 2 && j < ColStart(K, K - 1)
    ensures j <= K ==> CursorAt(K, AsWrittenStart(K), j).lead == K as real - 2.0
    ensures j > K ==> CursorAt(K, AsWrittenStart(K), j).lead == LkjLead(K, j - K - 1)
    ensures CursorAt(K, AsWrittenStart(K), j).k < K
  {
    var cur := CursorAt(K, AsWrittenStart(K), j);
    if j <= K {
      AsWrittenHead(K, j);
      assert cur == Cursor(0, j, K as real - 2.0);
    } else {
      var n: nat := j - K - 1;
      assert K + 1 + n == j;
      AsWrittenShift(K, n);
      CorrectedLeadIsLkj(K, n);
      assert cur == CursorAt(K, CorrectedStart(K), n);
    }
  }

  /** For K >= 4 the loop as written misweighs the first CPC of column 1
      (position K - 1, inside the loop's range): lead K - 2 where the C-vine
      Jacobian has K - 3. */
  lemma AsWrittenMisweighs(K: nat)
    requires K >= 4
    ensures K - 1 < ColStart(K, K - 1) - 1
    ensures CursorAt(K, AsWrittenStart(K), K - 1).lead == K as real - 2.0
    ensures LkjLead(K, K - 1) == K as real - 3.0
  {
    AsWrittenHead(K, K - 1);
    ColumnOfAt(K, 1, 0);
    ColStartMono(K, 1, K - 1);
  }
}
