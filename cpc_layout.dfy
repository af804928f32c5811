/** The layout shared by make_nu and read_corr_L: the K(K-1)/2 canonical
    partial correlations (CPCs) of a K x K correlation matrix are stored
    column by column of its Cholesky factor, column c holding the K-1-c
    correlations of variable c with variables c+1, ..., K-1. */
module CpcLayout {

  /** The position of the first CPC of column c; the column before it holds
      K - c of them. */
  function ColStart(K: nat, c: nat): nat
    requires c <= K - 1
  {
    if c == 0 then 0 else ColStart(K, c - 1) + (K - c)
  }

  /** 2 * ColStart(K, c) = c(2K - 1 - c). */
  lemma {:induction false} ColStartClosed(K: nat, c: nat)
    requires c <= K - 1
    ensures 2 * ColStart(K, c) == c * (2 * K - 1 - c)
  {
    if c > 0 {
      ColStartClosed(K, c - 1);
      assert (c - 1) * (2 * K - c) + 2 * (K - c) == c * (2 * K - 1 - c);
    }
  }

  /** The K - 1 columns hold exactly K(K-1)/2 CPCs. */
  lemma ColStartSize(K: nat)
    requires K >= 1
    ensures ColStart(K, K - 1) == K * (K - 1) / 2
  {
    ColStartClosed(K, K - 1);
    assert (K - 1) * (2 * K - 1 - (K - 1)) == K * (K - 1);
  }

  /** Column c ends where any later column starts, or before. */
  lemma {:induction false} ColStartMono(K: nat, c: nat, d: nat)
    requires c < d <= K - 1
    ensures ColStart(K, c) + (K - 1 - c) <= ColStart(K, d)
    decreases d - c
  {
    if c < d - 1 {
      ColStartMono(K, c, d - 1);
    }
  }

  /** The column, from c on, that holds the CPC at position j. */
  function ColumnFrom(K: nat, j: nat, c: nat): (col: nat)
    requires K >= 1 && c < K - 1 && ColStart(K, c) <= j < ColStart(K, K - 1)
    ensures c <= col < K - 1 && ColStart(K, col) <= j < ColStart(K, col + 1)
    decreases K - c
  {
    if j < ColStart(K, c + 1) then c else ColumnFrom(K, j, c + 1)
  }

  /** The column of the Cholesky factor that the CPC at position j belongs to. */
  function ColumnOf(K: nat, j: nat): (col: nat)
    requires K >= 1 && j < ColStart(K, K - 1)
    ensures col < K - 1 && ColStart(K, col) <= j < ColStart(K, col + 1)
  {
    ColumnFrom(K, j, 0)
  }

  /** Entry t of column c sits at position ColStart(K, c) + t, and nowhere
      else: the columns tile the positions without gaps or overlaps. */
  lemma ColumnOfAt(K: nat, c: nat, t: nat)
    requires c < K - 1 && t < K - 1 - c
    ensures ColStart(K, c) + t < ColStart(K, K - 1)
    ensures ColumnOf(K, ColStart(K, c) + t) == c
  {
    var j := ColStart(K, c) + t;
    ColStartMono(K, c, K - 1);
    var col := ColumnOf(K, j);
    if col < c {
      ColStartMono(K, col, c);
    } else if col > c {
      ColStartMono(K, c, col);
    }
  }

  /** Positions further on belong to the same column or a later one. */
  lemma ColumnOfMono(K: nat, j: nat, j': nat)
    requires K >= 1 && j <= j' < ColStart(K, K - 1)
    ensures ColumnOf(K, j) <= ColumnOf(K, j')
  {
    var c, c' := ColumnOf(K, j), ColumnOf(K, j');
    if c' < c {
      ColStartMono(K, c', c);
    }
  }
}
