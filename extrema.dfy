/** The largest and the smallest value of a non-empty sequence of reals.
    These stand for `Collections.max` and `Collections.min` on the column list that
    the normalizer builds, and for the `max()` of a non-empty double stream.
    Reals are totally ordered, so which of several equal elements is chosen does not
    matter. */
module Extrema {

  /** The largest element of a non-empty sequence: an upper bound that is attained. */
  function SeqMax(s: seq<real>): (m: real)
    requires |s| > 0
    ensures forall i :: 0 <= i < |s| ==> s[i] <= m
    ensures exists i :: 0 <= i < |s| && s[i] == m
  {
    if |s| == 1 then s[0]
    else
      var rest := SeqMax(s[1..]);
      assert forall i :: 1 <= i < |s| ==> s[i] == s[1..][i - 1];
      if s[0] >= rest then s[0] else rest
  }

  /** The smallest element of a non-empty sequence: a lower bound that is attained. */
  function SeqMin(s: seq<real>): (m: real)
    requires |s| > 0
    ensures forall i :: 0 <= i < |s| ==> m <= s[i]
    ensures exists i :: 0 <= i < |s| && s[i] == m
  {
    if |s| == 1 then s[0]
    else
      var rest := SeqMin(s[1..]);
      assert forall i :: 1 <= i < |s| ==> s[i] == s[1..][i - 1];
      if s[0] <= rest then s[0] else rest
  }

  /** An attained upper bound is the maximum: the two properties of SeqMax determine it. */
  lemma SeqMaxCharacterized(s: seq<real>, m: real)
    requires |s| > 0
    requires forall i :: 0 <= i < |s| ==> s[i] <= m
    requires exists i :: 0 <= i < |s| && s[i] == m
    ensures SeqMax(s) == m
  {
  }

  /** An attained lower bound is the minimum: the two properties of SeqMin determine it. */
  lemma SeqMinCharacterized(s: seq<real>, m: real)
    requires |s| > 0
    requires forall i :: 0 <= i < |s| ==> m <= s[i]
    requires exists i :: 0 <= i < |s| && s[i] == m
    ensures SeqMin(s) == m
  {
  }

  /** The minimum never exceeds the maximum, and they agree exactly when all elements are equal. */
  lemma MinAtMostMax(s: seq<real>)
    requires |s| > 0
    ensures SeqMin(s) <= SeqMax(s)
    ensures SeqMin(s) == SeqMax(s) <==> forall i :: 0 <= i < |s| ==> s[i] == s[0]
  {
  }
}
