/** The value semantics of `Util.normalizeByFeatureScaling`: min-max scaling of every column
    of a rectangular table of reals, each column by its own original minimum and maximum. */
module FeatureScaling {
  import opened Extrema

  /** A dataset as a value: a sequence of rows. */
  type Table = seq<seq<real>>

  /** At least one row, and every row as long as the first. */
  predicate Rectangular(t: Table) {
    |t| > 0 && forall i :: 0 <= i < |t| ==> |t[i]| == |t[0]|
  }

  /** The number of columns, the length of the first row. */
  function Width(t: Table): nat
    requires |t| > 0
  {
    |t[0]|
  }

  /** Column `c`: entry `c` of every row, in row order. */
  function Column(t: Table, c: nat): (col: seq<real>)
    requires Rectangular(t) && c < Width(t)
    ensures |col| == |t|
    ensures forall i :: 0 <= i < |t| ==> col[i] == t[i][c]
  {
    seq(|t|, i requires 0 <= i < |t| => t[i][c])
  }

  function ColumnMin(t: Table, c: nat): real
    requires Rectangular(t) && c < Width(t)
  {
    SeqMin(Column(t, c))
  }

  function ColumnMax(t: Table, c: nat): real
    requires Rectangular(t) && c < Width(t)
  {
    SeqMax(Column(t, c))
  }

  /** Every column holds at least two distinct values, so its range is positive. */
  predicate NonDegenerate(t: Table)
    requires Rectangular(t)
  {
    forall c :: 0 <= c < Width(t) ==> ColumnMin(t, c) < ColumnMax(t, c)
  }

  /** The affine map sending `lo` to 0 and `hi` to 1. */
  function Scale(x: real, lo: real, hi: real): real
    requires lo < hi
  {
    (x - lo) / (hi - lo)
  }

  /** Every entry `t[i][c]` replaced by its scaled value against column `c`'s original range. */
  function Normalized(t: Table): (n: Table)
    requires Rectangular(t) && NonDegenerate(t)
    ensures Rectangular(n) && |n| == |t| && Width(n) == Width(t)
    ensures forall i :: 0 <= i < |t| ==> |n[i]| == |t[i]|
  {
    seq(|t|, i requires 0 <= i < |t| =>
      seq(|t[i]|, c requires 0 <= c < |t[i]| =>
        Scale(t[i][c], ColumnMin(t, c), ColumnMax(t, c))))
  }

  /** Entry `(i, c)` of the normalized table reads the entry of the original at the same place. */
  lemma NormalizedAt(t: Table, i: nat, c: nat)
    requires Rectangular(t) && NonDegenerate(t)
    requires i < |t| && c < Width(t)
    ensures Normalized(t)[i][c] == Scale(t[i][c], ColumnMin(t, c), ColumnMax(t, c))
  {
  }

  /** Scaling maps `[lo, hi]` into `[0, 1]`, `lo` to 0 and `hi` to 1. */
  lemma ScaleBounds(x: real, lo: real, hi: real)
    requires lo < hi
    ensures lo <= x <= hi ==> 0.0 <= Scale(x, lo, hi) <= 1.0
    ensures Scale(lo, lo, hi) == 0.0
    ensures Scale(hi, lo, hi) == 1.0
  {
    var d := hi - lo;
    if lo <= x <= hi {
      QuotientInUnitInterval(x - lo, d);
    }
  }

  /** A quotient `a / d` with `0 <= a <= d` lies in `[0, 1]`. */
  lemma QuotientInUnitInterval(a: real, d: real)
    requires 0.0 <= a <= d && d > 0.0
    ensures 0.0 <= a / d <= 1.0
  {
    var q := a / d;
    assert q * d == a;
    assert (1.0 - q) * d == d - a;
  }

  /** Scaling by a positive range preserves and reflects order. */
  lemma ScaleMonotone(x: real, y: real, lo: real, hi: real)
    requires lo < hi
    ensures x <= y <==> Scale(x, lo, hi) <= Scale(y, lo, hi)
  {
    var d := hi - lo;
    var sx, sy := Scale(x, lo, hi), Scale(y, lo, hi);
    assert sx * d == x - lo;
    assert sy * d == y - lo;
    assert (sy - sx) * d == y - x;
  }

  /** After normalization every entry lies in `[0, 1]`. */
  lemma NormalizedInUnitInterval(t: Table, i: nat, c: nat)
    requires Rectangular(t) && NonDegenerate(t)
    requires i < |t| && c < Width(t)
    ensures 0.0 <= Normalized(t)[i][c] <= 1.0
  {
    var col := Column(t, c);
    assert col[i] == t[i][c];
    ScaleBounds(t[i][c], ColumnMin(t, c), ColumnMax(t, c));
  }

  /** An entry that held its column's minimum becomes 0; one that held the maximum becomes 1. */
  lemma NormalizedExtremes(t: Table, i: nat, c: nat)
    requires Rectangular(t) && NonDegenerate(t)
    requires i < |t| && c < Width(t)
    ensures t[i][c] == ColumnMin(t, c) ==> Normalized(t)[i][c] == 0.0
    ensures t[i][c] == ColumnMax(t, c) ==> Normalized(t)[i][c] == 1.0
  {
    ScaleBounds(t[i][c], ColumnMin(t, c), ColumnMax(t, c));
  }

  /** Within a column the normalized entries are ordered exactly as the original ones. */
  lemma NormalizedPreservesOrder(t: Table, a: nat, b: nat, c: nat)
    requires Rectangular(t) && NonDegenerate(t)
    requires a < |t| && b < |t| && c < Width(t)
    ensures t[a][c] <= t[b][c] <==> Normalized(t)[a][c] <= Normalized(t)[b][c]
  {
    ScaleMonotone(t[a][c], t[b][c], ColumnMin(t, c), ColumnMax(t, c));
  }

  /** After normalization each column's minimum is 0 and its maximum is 1. */
  lemma NormalizedColumnRange(t: Table, c: nat)
    requires Rectangular(t) && NonDegenerate(t)
    requires c < Width(t)
    ensures ColumnMin(Normalized(t), c) == 0.0
    ensures ColumnMax(Normalized(t), c) == 1.0
  {
    var n := Normalized(t);
    var col, ncol := Column(t, c), Column(n, c);
    forall i | 0 <= i < |t| ensures 0.0 <= ncol[i] <= 1.0 {
      NormalizedInUnitInterval(t, i, c);
    }
    var lo :| 0 <= lo < |col| && col[lo] == ColumnMin(t, c);
    var hi :| 0 <= hi < |col| && col[hi] == ColumnMax(t, c);
    NormalizedExtremes(t, lo, c);
    NormalizedExtremes(t, hi, c);
    assert ncol[lo] == 0.0 && ncol[hi] == 1.0;
    SeqMinCharacterized(ncol, 0.0);
    SeqMaxCharacterized(ncol, 1.0);
  }

  /** Normalizing an already normalized table changes nothing. */
  lemma NormalizedIdempotent(t: Table)
    requires Rectangular(t) && NonDegenerate(t)
    ensures NonDegenerate(Normalized(t))
    ensures Normalized(Normalized(t)) == Normalized(t)
  {
    var n := Normalized(t);
    forall c | 0 <= c < Width(n) ensures ColumnMin(n, c) == 0.0 && ColumnMax(n, c) == 1.0 {
      NormalizedColumnRange(t, c);
    }
    var nn := Normalized(n);
    forall i | 0 <= i < |n| ensures nn[i] == n[i] {
      forall c | 0 <= c < |n[i]| ensures nn[i][c] == n[i][c] {
        assert nn[i][c] == Scale(n[i][c], 0.0, 1.0);
      }
    }
  }

  /** Columns are scaled independently: column `c` of the result depends only on column `c`
      of the input. */
  lemma ColumnsIndependent(t: Table, u: Table, c: nat)
    requires Rectangular(t) && NonDegenerate(t)
    requires Rectangular(u) && NonDegenerate(u)
    requires c < Width(t) && c < Width(u)
    requires Column(t, c) == Column(u, c)
    ensures Column(Normalized(t), c) == Column(Normalized(u), c)
  {
  }

  /** The column ranges of the three-row example. */
  lemma ExampleThreeRowsRanges(t: Table)
    requires t == [[1.0, 10.0], [2.0, 20.0], [3.0, 30.0]]
    ensures Rectangular(t) && Width(t) == 2
    ensures ColumnMin(t, 0) == 1.0 && ColumnMax(t, 0) == 3.0
    ensures ColumnMin(t, 1) == 10.0 && ColumnMax(t, 1) == 30.0
  {
    var c0, c1 := Column(t, 0), Column(t, 1);
    assert c0[0] == 1.0 && c0[1] == 2.0 && c0[2] == 3.0;
    assert c1[0] == 10.0 && c1[1] == 20.0 && c1[2] == 30.0;
    RangeOfIncreasing(c0);
    RangeOfIncreasing(c1);
  }

  /** In a three-element ascending sequence the first element is the minimum and the last the maximum. */
  lemma RangeOfIncreasing(s: seq<real>)
    requires |s| == 3 && s[0] <= s[1] <= s[2]
    ensures SeqMin(s) == s[0] && SeqMax(s) == s[2]
  {
  }

  /** The three-row example: `[[1,10],[2,20],[3,30]]` becomes `[[0,0],[0.5,0.5],[1,1]]`. */
  lemma ExampleThreeRows(t: Table)
    requires t == [[1.0, 10.0], [2.0, 20.0], [3.0, 30.0]]
    ensures Rectangular(t) && NonDegenerate(t)
    ensures Normalized(t) == [[0.0, 0.0], [0.5, 0.5], [1.0, 1.0]]
  {
    ExampleThreeRowsRanges(t);
    assert NonDegenerate(t);
    var n := Normalized(t);
    assert n[0] == [Scale(1.0, 1.0, 3.0), Scale(10.0, 10.0, 30.0)] == [0.0, 0.0];
    assert n[1] == [Scale(2.0, 1.0, 3.0), Scale(20.0, 10.0, 30.0)] == [0.5, 0.5];
    assert n[2] == [Scale(3.0, 1.0, 3.0), Scale(30.0, 10.0, 30.0)] == [1.0, 1.0];
  }

  /** A table with a constant column, `[[5,1],[5,2]]`, is outside the operation's domain:
      its first column has zero range. */
  lemma ConstantColumnIsDegenerate()
    ensures var t := [[5.0, 1.0], [5.0, 2.0]];
      Rectangular(t) && !NonDegenerate(t)
  {
    var t := [[5.0, 1.0], [5.0, 2.0]];
    assert Column(t, 0) == [5.0, 5.0];
    SeqMinCharacterized([5.0, 5.0], 5.0);
    SeqMaxCharacterized([5.0, 5.0], 5.0);
    assert ColumnMin(t, 0) == ColumnMax(t, 0);
  }
}
