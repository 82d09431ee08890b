/** `Util.normalizeByFeatureScaling`: the in-place version. The dataset is a list of row
    arrays; each column is collected, its maximum and minimum taken, and every row's entry in
    that column overwritten with its scaled value. */
module Normalizer {
  import opened Extrema
  import opened FeatureScaling

  /** The current contents of the row arrays, as a table. */
  function Rows(dataset: seq<array<real>>): (t: Table)
    reads dataset
    ensures |t| == |dataset|
    ensures forall i :: 0 <= i < |dataset| ==> t[i] == dataset[i][..]
  {
    seq(|dataset|, i requires 0 <= i < |dataset| reads dataset => dataset[i][..])
  }

  /** No array appears twice in the list, so writing one row leaves every other row alone. */
  predicate DistinctRows(dataset: seq<array<real>>) {
    forall i, j :: 0 <= i < j < |dataset| ==> dataset[i] != dataset[j]
  }

  /** Every row has an entry at index `colNum`. */
  predicate HasColumn(dataset: seq<array<real>>, colNum: nat) {
    forall i :: 0 <= i < |dataset| ==> colNum < dataset[i].Length
  }

  /** The inner loop that builds the list `column`: entry `colNum` of every row, in row order. */
  method CollectColumn(dataset: seq<array<real>>, colNum: nat) returns (column: seq<real>)
    requires HasColumn(dataset, colNum)
    ensures |column| == |dataset|
    ensures forall i :: 0 <= i < |dataset| ==> column[i] == dataset[i][colNum]
  {
    column := [];
    for r := 0 to |dataset|
      invariant |column| == r
      invariant forall i :: 0 <= i < r ==> column[i] == dataset[i][colNum]
    {
      column := column + [dataset[r][colNum]];
    }
  }

  /** Overwrites entry `colNum` of every row with its scaled value against `[minimum, maximum]`;
      no other entry changes. */
  method ScaleColumn(dataset: seq<array<real>>, colNum: nat, minimum: real, maximum: real)
    requires HasColumn(dataset, colNum)
    requires DistinctRows(dataset)
    requires minimum < maximum
    modifies dataset
    ensures forall i :: 0 <= i < |dataset| ==>
      dataset[i][colNum] == Scale(old(dataset[i][colNum]), minimum, maximum)
    ensures forall i, c :: 0 <= i < |dataset| && 0 <= c < dataset[i].Length && c != colNum ==>
      dataset[i][c] == old(dataset[i][c])
  {
    var difference := maximum - minimum;
    for r := 0 to |dataset|
      invariant forall i :: 0 <= i < r ==>
        dataset[i][colNum] == Scale(old(dataset[i][colNum]), minimum, maximum)
      invariant forall i :: r <= i < |dataset| ==> dataset[i][colNum] == old(dataset[i][colNum])
      invariant forall i, c :: 0 <= i < |dataset| && 0 <= c < dataset[i].Length && c != colNum ==>
        dataset[i][c] == old(dataset[i][c])
    {
      dataset[r][colNum] := (dataset[r][colNum] - minimum) / difference;
    }
  }

  /** Scales every column of `dataset` in place onto `[0, 1]`. The rows must be non-empty,
      equally long, pairwise distinct arrays, and no column may be constant. */
  method NormalizeByFeatureScaling(dataset: seq<array<real>>)
    requires Rectangular(Rows(dataset))
    requires DistinctRows(dataset)
    requires NonDegenerate(Rows(dataset))
    modifies dataset
    ensures Rows(dataset) == Normalized(old(Rows(dataset)))
  {
    ghost var orig := Rows(dataset);
    ghost var target := Normalized(orig);
    var n := |dataset|;
    assert forall i :: 0 <= i < n ==> dataset[i].Length == |orig[i]| == |orig[0]|;
    for colNum := 0 to dataset[0].Length
      invariant forall i, c :: 0 <= i < n && 0 <= c < colNum ==> dataset[i][c] == target[i][c]
      invariant forall i, c :: 0 <= i < n && colNum <= c < |orig[0]| ==> dataset[i][c] == orig[i][c]
    {
      var column := CollectColumn(dataset, colNum);
      assert column == Column(orig, colNum);
      var maximum := SeqMax(column);
      var minimum := SeqMin(column);
      assert minimum == ColumnMin(orig, colNum) < ColumnMax(orig, colNum) == maximum;
      ScaleColumn(dataset, colNum, minimum, maximum);
      forall i | 0 <= i < n ensures dataset[i][colNum] == target[i][colNum] {
        NormalizedAt(orig, i, colNum);
      }
    }
    forall i | 0 <= i < n ensures dataset[i][..] == target[i] {
      assert |target[i]| == |orig[i]|;
    }
  }
}
