/** Sequence helpers that stand for JavaScript's `Array.prototype.filter` and `find`. */
module Seqs {
  import opened Wrappers

  /** `s.filter(p)`: the elements satisfying `p`, in order. */
  function Filter<T>(s: seq<T>, p: T -> bool): (r: seq<T>)
    ensures |r| <= |s|
    ensures forall x :: x in r ==> x in s && p(x)
    ensures forall x :: x in s && p(x) ==> x in r
  {
    if s == [] then []
    else Filter(s[..|s| - 1], p) + (if p(s[|s| - 1]) then [s[|s| - 1]] else [])
  }

  lemma FilterAppend<T>(s: seq<T>, t: seq<T>, p: T -> bool)
    ensures Filter(s + t, p) == Filter(s, p) + Filter(t, p)
    decreases |t|
  {
    if t == [] {
      assert s + t == s;
    } else {
      assert (s + t)[..|s + t| - 1] == s + t[..|t| - 1];
      FilterAppend(s, t[..|t| - 1], p);
    }
  }

  lemma {:induction false} FilterNone<T>(s: seq<T>, p: T -> bool)
    requires forall i :: 0 <= i < |s| ==> !p(s[i])
    ensures Filter(s, p) == []
  {
    if s != [] {
      FilterNone(s[..|s| - 1], p);
    }
  }

  /** The indices of the elements of `s` satisfying `p`, ascending: where Filter takes its elements from. */
  function Positions<T>(s: seq<T>, p: T -> bool): (r: seq<nat>)
    ensures forall k :: 0 <= k < |r| ==> r[k] < |s| && p(s[r[k]])
    ensures forall k, l :: 0 <= k < l < |r| ==> r[k] < r[l]
    ensures forall i :: 0 <= i < |s| && p(s[i]) ==> i in r
  {
    if s == [] then []
    else
      var n := |s| - 1;
      Positions(s[..n], p) + (if p(s[n]) then [n] else [])
  }

  /**
   * Filter keeps order and multiplicity: its k-th element is the element of `s` at the k-th
   * position satisfying `p`.
   */
  lemma {:induction false} FilterPositions<T>(s: seq<T>, p: T -> bool)
    ensures |Filter(s, p)| == |Positions(s, p)|
    ensures forall k :: 0 <= k < |Filter(s, p)| ==> Filter(s, p)[k] == s[Positions(s, p)[k]]
  {
    if s != [] {
      var n := |s| - 1;
      FilterPositions(s[..n], p);
      var f, pre := Filter(s[..n], p), Positions(s[..n], p);
      var tail := if p(s[n]) then [s[n]] else [];
      var tailPos: seq<nat> := if p(s[n]) then [n] else [];
      assert Filter(s, p) == f + tail;
      assert Positions(s, p) == pre + tailPos;
      forall k | 0 <= k < |f + tail| ensures (f + tail)[k] == s[(pre + tailPos)[k]] {
        if k < |f| {
          assert (f + tail)[k] == f[k] == s[..n][pre[k]];
          assert (pre + tailPos)[k] == pre[k];
        }
      }
    }
  }

  /** The first element Filter keeps is the one `FirstWhere` finds, and it keeps one exactly then. */
  lemma FilterFirst<T>(s: seq<T>, p: T -> bool)
    ensures Filter(s, p) != [] <==> FirstWhere(s, p).Some?
    ensures Filter(s, p) != [] ==> Filter(s, p)[0] == s[FirstWhere(s, p).value]
  {
    FilterPositions(s, p);
    var pos := Positions(s, p);
    match FirstWhere(s, p)
    case None =>
    case Some(f) =>
      assert f in pos;
      var m :| 0 <= m < |pos| && pos[m] == f;
      assert pos[0] <= f;
      assert !(pos[0] < f) by {
        assert p(s[pos[0]]);
      }
  }

  /** `s.findIndex(p)`, with "no match" as `None`: the index of the first element satisfying `p`. */
  function FirstWhere<T>(s: seq<T>, p: T -> bool): (r: Option<nat>)
    ensures r.Some? ==> r.value < |s| && p(s[r.value]) && forall j :: 0 <= j < r.value ==> !p(s[j])
    ensures r.None? ==> forall j :: 0 <= j < |s| ==> !p(s[j])
  {
    if s == [] then None
    else if p(s[0]) then Some(0)
    else match FirstWhere(s[1..], p)
      case None => None
      case Some(k) => Some(k + 1)
  }

  /** The groups laid end to end, first group first (nested `forEach` order). */
  function Concat<T>(groups: seq<seq<T>>): (r: seq<T>)
  {
    if groups == [] then [] else Concat(groups[..|groups| - 1]) + groups[|groups| - 1]
  }

  lemma ConcatMember<T>(groups: seq<seq<T>>, x: T)
    requires x in Concat(groups)
    ensures exists g :: 0 <= g < |groups| && x in groups[g]
  {
    if groups != [] {
      var n := |groups| - 1;
      if x !in groups[n] {
        ConcatMember(groups[..n], x);
        var g :| 0 <= g < n && x in groups[..n][g];
        assert x in groups[g];
      }
    }
  }

  lemma ConcatIncludes<T>(groups: seq<seq<T>>, g: nat, x: T)
    requires g < |groups| && x in groups[g]
    ensures x in Concat(groups)
  {
    var n := |groups| - 1;
    if g < n {
      assert groups[..n][g] == groups[g];
      ConcatIncludes(groups[..n], g, x);
    }
  }
}
