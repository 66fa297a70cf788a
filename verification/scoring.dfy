/**
 * Weighted scoring of one testing method: each criterion row contributes its
 * average multiplied by a weight that depends on the method and on the
 * criterion's position. Arithmetic is exact (`real`); the rounding of the
 * total to two decimals is not part of this model.
 */
module Scoring {
  import opened Grid

  /** The weight method m gives to criterion i (any m other than 0 and 1 takes the last branch). */
  function Weight(m: nat, i: nat): real {
    if m == 0 then (if i < 2 then 1.5 else 0.8)
    else if m == 1 then (if 2 <= i < 4 then 1.5 else 0.8)
    else (if i == 4 then 2.0 else 0.5)
  }

  /** Every weight is positive, so a larger criterion average never lowers a score. */
  lemma WeightPositive(m: nat, i: nat)
    ensures Weight(m, i) > 0.0
  {
  }

  /** The sum of a row, added up from the left. */
  function Sum(row: seq<real>): real {
    if row == [] then 0.0 else Sum(row[..|row| - 1]) + row[|row| - 1]
  }

  function Average(row: seq<real>): real
    requires |row| > 0
  {
    Sum(row) / |row| as real
  }

  /** The average is undefined for an empty row, so scoring needs every row to have a value. */
  predicate RowsNonEmpty(g: Grid) {
    forall i :: 0 <= i < |g| ==> |g[i]| > 0
  }

  /** The score of method m: the sum over the rows of average times weight. */
  function Total(m: nat, g: Grid): real
    requires RowsNonEmpty(g)
  {
    if g == [] then 0.0
    else Total(m, g[..|g| - 1]) + Average(g[|g| - 1]) * Weight(m, |g| - 1)
  }

  /** The accumulation loop of the scoring helper, one `total +=` per criterion row. */
  method EvaluateMethod(m: nat, g: Grid) returns (total: real)
    requires RowsNonEmpty(g)
    ensures total == Total(m, g)
  {
    total := 0.0;
    var i := 0;
    while i < |g|
      invariant 0 <= i <= |g|
      invariant total == Total(m, g[..i])
    {
      var values := g[i];
      var avg := Sum(values) / |values| as real;
      if m == 0 {
        total := total + avg * (if i < 2 then 1.5 else 0.8);
      } else if m == 1 {
        total := total + avg * (if 2 <= i < 4 then 1.5 else 0.8);
      } else {
        total := total + avg * (if i == 4 then 2.0 else 0.5);
      }
      assert g[..i + 1][..i] == g[..i];
      i := i + 1;
    }
    assert g[..i] == g;
  }

  /** Unfolds the recursive total over a grid of exactly five rows. */
  lemma {:induction false} TotalOfFiveRows(m: nat, g: Grid)
    requires |g| == 5 && RowsNonEmpty(g)
    ensures Total(m, g) == Average(g[0]) * Weight(m, 0) + Average(g[1]) * Weight(m, 1)
      + Average(g[2]) * Weight(m, 2) + Average(g[3]) * Weight(m, 3) + Average(g[4]) * Weight(m, 4)
  {
    assert g[..1][..0] == [];
    assert Total(m, g[..1]) == Average(g[0]) * Weight(m, 0);
    assert g[..2][..1] == g[..1];
    assert Total(m, g[..2]) == Total(m, g[..1]) + Average(g[1]) * Weight(m, 1);
    assert g[..3][..2] == g[..2];
    assert Total(m, g[..3]) == Total(m, g[..2]) + Average(g[2]) * Weight(m, 2);
    assert g[..4][..3] == g[..3];
    assert Total(m, g[..4]) == Total(m, g[..3]) + Average(g[3]) * Weight(m, 3);
    assert g[..4] == g[..|g| - 1];
  }

  /**
   * The weight table written out per method: A favours criteria 1-2, B
   * favours criteria 3-4, C favours criterion 5 (counting from 1).
   */
  lemma {:induction false} WeightTable(g: Grid)
    requires WellShaped(g)
    ensures Total(0, g) == 1.5 * (Average(g[0]) + Average(g[1]))
                         + 0.8 * (Average(g[2]) + Average(g[3]) + Average(g[4]))
    ensures Total(1, g) == 0.8 * (Average(g[0]) + Average(g[1]))
                         + 1.5 * (Average(g[2]) + Average(g[3])) + 0.8 * Average(g[4])
    ensures Total(2, g) == 0.5 * (Average(g[0]) + Average(g[1]) + Average(g[2]) + Average(g[3]))
                         + 2.0 * Average(g[4])
  {
    TotalOfFiveRows(0, g);
    TotalOfFiveRows(1, g);
    TotalOfFiveRows(2, g);
  }

  /** A row of zeros sums to zero. */
  lemma {:induction false} SumOfZeros(row: seq<real>)
    requires forall k :: 0 <= k < |row| ==> row[k] == 0.0
    ensures Sum(row) == 0.0
  {
    if row != [] {
      SumOfZeros(row[..|row| - 1]);
    }
  }

  /** A grid of zeros (the form with no usable field) scores 0 for every method. */
  lemma {:induction false} ZeroGridScoresZero(m: nat, g: Grid)
    requires RowsNonEmpty(g)
    requires forall i, j :: 0 <= i < |g| && 0 <= j < |g[i]| ==> g[i][j] == 0.0
    ensures Total(m, g) == 0.0
  {
    if g != [] {
      SumOfZeros(g[|g| - 1]);
      ZeroGridScoresZero(m, g[..|g| - 1]);
    }
  }

  /** Sum is monotone in each cell. */
  lemma {:induction false} SumMonotone(row: seq<real>, row': seq<real>)
    requires |row| == |row'|
    requires forall k :: 0 <= k < |row| ==> row[k] <= row'[k]
    ensures Sum(row) <= Sum(row')
  {
    if row != [] {
      SumMonotone(row[..|row| - 1], row'[..|row'| - 1]);
    }
  }

  /** A row that is at least as large in every cell has at least as large an average. */
  lemma AverageMonotone(row: seq<real>, row': seq<real>)
    requires |row| == |row'| > 0
    requires forall k :: 0 <= k < |row| ==> row[k] <= row'[k]
    ensures Average(row) <= Average(row')
  {
    SumMonotone(row, row');
    var d := |row| as real;
    assert Sum(row) / d <= Sum(row') / d;
  }

  /** Raising any cell of the grid never lowers any method's score. */
  lemma {:induction false} TotalMonotone(m: nat, g: Grid, g': Grid)
    requires RowsNonEmpty(g) && |g| == |g'|
    requires forall i :: 0 <= i < |g| ==> |g[i]| == |g'[i]|
    requires forall i, j :: 0 <= i < |g| && 0 <= j < |g[i]| ==> g[i][j] <= g'[i][j]
    ensures Total(m, g) <= Total(m, g')
  {
    if g != [] {
      var n := |g| - 1;
      AverageMonotone(g[n], g'[n]);
      WeightPositive(m, n);
      assert Average(g[n]) * Weight(m, n) <= Average(g'[n]) * Weight(m, n);
      TotalMonotone(m, g[..n], g'[..n]);
    }
  }
}
