/** The minimum of a sequence of lap times, as `std::min_element` finds it. */
module LapTimes {

  /** `m` is the smallest of the lap times `s`: one of them, and no larger than any. */
  ghost predicate IsMinimum(s: seq<real>, m: real)
  {
    m in s && forall i :: 0 <= i < |s| ==> m <= s[i]
  }

  /** The smallest lap time of a non-empty sequence. */
  function Min(s: seq<real>): (m: real)
    requires |s| > 0
    ensures IsMinimum(s, m)
  {
    if |s| == 1 then s[0]
    else
      var rest := Min(s[1..]);
      assert forall i :: 1 <= i < |s| ==> s[i] == s[1..][i - 1];
      if s[0] <= rest then s[0] else rest
  }

  /** A sequence has at most one minimum. */
  lemma MinimumUnique(s: seq<real>, m: real, m': real)
    requires IsMinimum(s, m) && IsMinimum(s, m')
    ensures m == m'
  {
  }

  /** Any minimum of `s` is the value `Min` computes. */
  lemma IsMinimumIsMin(s: seq<real>, m: real)
    requires IsMinimum(s, m)
    ensures |s| > 0 && m == Min(s)
  {
  }

  /** The minimum depends only on the multiset of lap times, not on their order. */
  lemma MinPermutationInvariant(s: seq<real>, t: seq<real>)
    requires |s| > 0
    requires multiset(s) == multiset(t)
    ensures |t| > 0
    ensures Min(s) == Min(t)
  {
    assert |t| == |multiset(t)| == |multiset(s)| == |s|;
    var m := Min(s);
    assert m in multiset(t);
    forall j | 0 <= j < |t|
      ensures m <= t[j]
    {
      assert t[j] in multiset(s);
      var i :| 0 <= i < |s| && s[i] == t[j];
    }
    IsMinimumIsMin(t, m);
  }

  /** `std::min_element(s.begin(), s.end())` as an index: the position of the
      FIRST smallest lap time, or `|s|` (the `end()` iterator) when `s` is empty. */
  method MinElement(s: seq<real>) returns (k: nat)
    ensures k <= |s|
    ensures k == |s| <==> |s| == 0
    ensures k < |s| ==> forall j :: 0 <= j < |s| ==> s[k] <= s[j]
    ensures k < |s| ==> forall j :: 0 <= j < k ==> s[k] < s[j]
  {
    if |s| == 0 {
      return |s|;
    }
    k := 0;
    var i := 1;
    while i < |s|
      invariant 1 <= i <= |s|
      invariant k < i
      invariant forall j :: 0 <= j < i ==> s[k] <= s[j]
      invariant forall j :: 0 <= j < k ==> s[k] < s[j]
    {
      if s[i] < s[k] {
        k := i;
      }
      i := i + 1;
    }
  }

  /** Dereferencing the iterator `min_element` returns yields `Min`. */
  method MinElementValue(s: seq<real>) returns (m: real)
    requires |s| > 0
    ensures IsMinimum(s, m)
    ensures m == Min(s)
  {
    var k := MinElement(s);
    m := s[k];
    IsMinimumIsMin(s, m);
  }
}
