/** Sets of ids drawn from a list, and their sizes. */
module IdSets {
  function Elems(s: seq<int>): set<int> {
    set x | x in s
  }

  predicate Distinct(s: seq<int>) {
    forall i, j :: 0 <= i < j < |s| ==> s[i] != s[j]
  }

  lemma {:induction false} ElemsCard(s: seq<int>)
    ensures |Elems(s)| <= |s|
    ensures Distinct(s) ==> |Elems(s)| == |s|
  {
    if s != [] {
      var n := |s| - 1;
      ElemsCard(s[..n]);
      assert Elems(s) == Elems(s[..n]) + {s[n]};
      if Distinct(s) {
        assert s[n] !in Elems(s[..n]);
      }
    }
  }

  /** A subset is no larger, and a subset of the same size is the whole set. */
  lemma SubsetCard(a: set<int>, b: set<int>)
    requires a <= b
    ensures |a| <= |b|
    ensures |a| == |b| ==> a == b
  {
    assert b == a + (b - a);
    assert a * (b - a) == {};
    if |a| == |b| {
      assert |b - a| == 0;
    }
  }
}
