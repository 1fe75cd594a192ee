/** Counting distinct numbers below a bound. */
module Pigeonhole {

  function Below(n: nat): (s: set<nat>)
    ensures |s| == n
    ensures forall k: nat :: k in s <==> k < n
  {
    if n == 0 then {} else Below(n - 1) + {n - 1}
  }

  lemma {:induction false} DistinctWithin(s: seq<nat>, universe: set<nat>)
    requires forall i :: 0 <= i < |s| ==> s[i] in universe
    requires forall i, j :: 0 <= i < j < |s| ==> s[i] != s[j]
    ensures |s| <= |universe|
  {
    if s != [] {
      var n := |s| - 1;
      DistinctWithin(s[..n], universe - {s[n]});
    }
  }

  lemma {:induction false} CoverNeeds(s: seq<nat>, universe: set<nat>)
    requires forall x :: x in universe ==> x in s
    ensures |universe| <= |s|
  {
    if s == [] {
      assert universe == {};
    } else {
      var n := |s| - 1;
      assert forall x :: x in universe - {s[n]} ==> x in s[..n];
      CoverNeeds(s[..n], universe - {s[n]});
    }
  }
}
