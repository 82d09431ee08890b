/** `Util.max`: the maximum of an array of doubles, or the sentinel `Double.MIN_VALUE`
    when the array is empty. The method only reads the array, so it is modelled on the
    array's contents. */
module ArrayMax {
  import opened Extrema

  /** 2 to the power n. */
  function Pow2(n: nat): (r: real)
    ensures r >= 1.0
  {
    if n == 0 then 1.0 else 2.0 * Pow2(n - 1)
  }

  /** Java's `Double.MIN_VALUE`, the smallest POSITIVE double, 2^-1074. It is not the most
      negative double. */
  const DoubleMinValue: real := 1.0 / Pow2(1074)

  /** The sentinel is a positive number, smaller than one. */
  lemma DoubleMinValueIsPositive()
    ensures 0.0 < DoubleMinValue < 1.0
  {
  }

  /** The maximum of `numbers`, or `DoubleMinValue` when `numbers` is empty. */
  function Max(numbers: seq<real>): (r: real)
    ensures |numbers| == 0 ==> r == DoubleMinValue
    ensures forall i :: 0 <= i < |numbers| ==> numbers[i] <= r
    ensures |numbers| > 0 ==> exists i :: 0 <= i < |numbers| && numbers[i] == r
  {
    if |numbers| == 0 then DoubleMinValue else SeqMax(numbers)
  }

  /** Appending an element to a non-empty array raises the maximum to that element or keeps it. */
  lemma MaxOfAppend(numbers: seq<real>, x: real)
    requires |numbers| > 0
    ensures Max(numbers + [x]) == if x >= Max(numbers) then x else Max(numbers)
  {
    var s := numbers + [x];
    var m := if x >= Max(numbers) then x else Max(numbers);
    forall i | 0 <= i < |s| ensures s[i] <= m {
      if i < |numbers| { assert s[i] == numbers[i]; }
    }
    if x >= Max(numbers) {
      assert s[|numbers|] == m;
    } else {
      var k :| 0 <= k < |numbers| && numbers[k] == Max(numbers);
      assert s[k] == m;
    }
    SeqMaxCharacterized(s, m);
  }

  /** Because the sentinel is positive, the empty array reports a larger maximum than any
      array of negative numbers: the sentinel is not a neutral element for the maximum. */
  lemma EmptyMaxExceedsNegativeMax(numbers: seq<real>)
    requires |numbers| > 0
    requires forall i :: 0 <= i < |numbers| ==> numbers[i] < 0.0
    ensures Max(numbers) < Max([])
  {
  }

  /** The sentinel cannot be told apart from a genuine maximum: the empty array and the
      one-element array holding `DoubleMinValue` give the same answer. */
  lemma SentinelIsAmbiguous()
    ensures Max([]) == Max([DoubleMinValue])
  {
  }
}
