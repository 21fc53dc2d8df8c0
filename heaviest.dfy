/** The rule both legacy space-object variants use for their static
    "biggest mass" pointer: each new object replaces the current one only if
    it is strictly heavier, so after any number of constructions the pointer
    names the earliest of the heaviest objects built so far. */
module Heaviest {
  /** The position the strict-`>` tracking ends at, over the masses in
      construction order. */
  function HeaviestIndex(masses: seq<int>): (r: nat)
    requires |masses| > 0
    ensures r < |masses|
    ensures forall k :: 0 <= k < |masses| ==> masses[k] <= masses[r]
    ensures forall k :: 0 <= k < r ==> masses[k] < masses[r]
  {
    if |masses| == 1 then 0
    else
      var p := HeaviestIndex(masses[..|masses| - 1]);
      if masses[|masses| - 1] > masses[p] then |masses| - 1 else p
  }

  /** One more construction: the new object takes over exactly when it is
      strictly heavier than the current heaviest. */
  lemma HeaviestAppend(masses: seq<int>, m: int)
    requires |masses| > 0
    ensures HeaviestIndex(masses + [m]) == if m > masses[HeaviestIndex(masses)] then |masses| else HeaviestIndex(masses)
  {
    assert (masses + [m])[..|masses|] == masses;
  }

  /** The heaviest position is the only one that is both maximal and the
      first to reach the maximum, so any tracking that keeps those two
      facts agrees with it: a characterisation of HeaviestIndex. */
  lemma HeaviestUnique(masses: seq<int>, r: nat)
    requires r < |masses|
    requires forall k :: 0 <= k < |masses| ==> masses[k] <= masses[r]
    requires forall k :: 0 <= k < r ==> masses[k] < masses[r]
    ensures HeaviestIndex(masses) == r
  {
    var h := HeaviestIndex(masses);
    if h != r {
      assert false;
    }
  }
}
