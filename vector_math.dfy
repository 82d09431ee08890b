/** `Util.dotProduct`: the sum of the products `xs[i] * ys[i]` for every index of `xs`.
    The loop runs over `xs.length` only and reads `ys[i]` at those indices, so `ys` must be
    at least as long as `xs` and any further entries of `ys` are ignored. */
module VectorMath {

  /** The sum over `i < |xs|` of `xs[i] * ys[i]`, accumulated from the left as the loop does. */
  function Dot(xs: seq<real>, ys: seq<real>): real
    requires |xs| <= |ys|
    decreases |xs|
  {
    if |xs| == 0 then 0.0
    else Dot(xs[..|xs| - 1], ys) + xs[|xs| - 1] * ys[|xs| - 1]
  }

  /** The loop of `dotProduct`: an accumulator starting at zero, updated once per index of `xs`. */
  method DotProduct(xs: array<real>, ys: array<real>) returns (sum: real)
    requires xs.Length <= ys.Length
    ensures sum == Dot(xs[..], ys[..])
  {
    sum := 0.0;
    for i := 0 to xs.Length
      invariant sum == Dot(xs[..i], ys[..])
    {
      assert xs[..i + 1][..i] == xs[..i];
      sum := sum + xs[i] * ys[i];
    }
    assert xs[..xs.Length] == xs[..];
  }

  /** Entries of `ys` beyond the length of `xs` do not take part. */
  lemma {:induction false} DotIgnoresExtraEntries(xs: seq<real>, ys: seq<real>, zs: seq<real>)
    requires |xs| <= |ys|
    decreases |xs|
    ensures Dot(xs, ys + zs) == Dot(xs, ys)
  {
    if |xs| > 0 {
      DotIgnoresExtraEntries(xs[..|xs| - 1], ys, zs);
      assert (ys + zs)[|xs| - 1] == ys[|xs| - 1];
    }
  }

  /** The dot product only depends on the first `|xs|` entries of `ys`. */
  lemma DotOnPrefix(xs: seq<real>, ys: seq<real>)
    requires |xs| <= |ys|
    ensures Dot(xs, ys) == Dot(xs, ys[..|xs|])
  {
    assert ys == ys[..|xs|] + ys[|xs|..];
    DotIgnoresExtraEntries(xs, ys[..|xs|], ys[|xs|..]);
  }

  /** The empty vector has dot product zero with anything. */
  lemma DotOfEmpty(ys: seq<real>)
    ensures Dot([], ys) == 0.0
  {
  }

  /** The dot product with a vector of zeros is zero. */
  lemma {:induction false} DotWithZeros(xs: seq<real>, ys: seq<real>)
    requires |xs| <= |ys|
    requires forall i :: 0 <= i < |ys| ==> ys[i] == 0.0
    decreases |xs|
    ensures Dot(xs, ys) == 0.0
  {
    if |xs| > 0 {
      DotWithZeros(xs[..|xs| - 1], ys);
    }
  }

  /** On vectors of equal length the dot product is symmetric. */
  lemma {:induction false} DotSymmetric(xs: seq<real>, ys: seq<real>)
    requires |xs| == |ys|
    decreases |xs|
    ensures Dot(xs, ys) == Dot(ys, xs)
  {
    if |xs| > 0 {
      var n := |xs| - 1;
      DotOnPrefix(xs[..n], ys);
      DotOnPrefix(ys[..n], xs);
      DotSymmetric(xs[..n], ys[..n]);
    }
  }

  /** The vector of length n with a single one at index k and zeros elsewhere. */
  function Unit(n: nat, k: nat): (e: seq<real>)
    ensures |e| == n
  {
    seq(n, i => if i == k then 1.0 else 0.0)
  }

  /** Splits off the last term of the sum when the first vector is a unit vector. */
  lemma {:induction false} DotUnitLeft(n: nat, k: nat, ys: seq<real>)
    requires n <= |ys|
    decreases n
    ensures Dot(Unit(n, k), ys) == if k < n then ys[k] else 0.0
  {
    if n > 0 {
      assert Unit(n, k)[..n - 1] == Unit(n - 1, k);
      DotUnitLeft(n - 1, k, ys);
    }
  }

  /** Unit basis vectors are orthonormal: the dot product of two of them is one exactly when
      they are the same vector. */
  lemma DotOfUnitVectors(n: nat, j: nat, k: nat)
    requires j < n && k < n
    ensures Dot(Unit(n, j), Unit(n, k)) == if j == k then 1.0 else 0.0
  {
    DotUnitLeft(n, j, Unit(n, k));
  }
}
