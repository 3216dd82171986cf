/**
 * De-duplication by key in first-seen order: the loops that push an item into a result list
 * only when a `Set` of already-seen ids does not yet hold its id, and the insertion-ordered
 * keys of a JavaScript `Map`.
 */
module Dedup {
  import opened Seqs

  /** The keys of the elements of `s`. */
  function KeySet<T, K(==)>(s: seq<T>, key: T -> K): set<K> {
    set i | 0 <= i < |s| :: key(s[i])
  }

  /**
   * Reference definition: scanning `s` from the front, keep an element exactly when no
   * earlier kept element has its key.
   */
  function UniqueBy<T, K(==)>(s: seq<T>, key: T -> K): seq<T> {
    if s == [] then []
    else
      var kept := UniqueBy(s[..|s| - 1], key);
      if key(s[|s| - 1]) in KeySet(kept, key) then kept else kept + [s[|s| - 1]]
  }

  /** The position of the first element of `s` whose key is `k`. */
  ghost function FirstIndexOf<T, K>(s: seq<T>, k: K, key: T -> K): (p: nat)
    requires k in KeySet(s, key)
    ensures p < |s| && key(s[p]) == k
    ensures forall j :: 0 <= j < p ==> key(s[j]) != k
  {
    if key(s[0]) == k then 0
    else
      assert k in KeySet(s[1..], key) by {
        var i :| 0 <= i < |s| && key(s[i]) == k;
        assert s[1..][i - 1] == s[i];
      }
      1 + FirstIndexOf(s[1..], k, key)
  }

  lemma KeySetAppend<T, K>(s: seq<T>, x: T, key: T -> K)
    ensures KeySet(s + [x], key) == KeySet(s, key) + {key(x)}
  {
    forall k | k in KeySet(s + [x], key) ensures k in KeySet(s, key) + {key(x)} {
      var i :| 0 <= i < |s| + 1 && key((s + [x])[i]) == k;
      if i < |s| { assert (s + [x])[i] == s[i]; }
    }
    forall k | k in KeySet(s, key) ensures k in KeySet(s + [x], key) {
      var i :| 0 <= i < |s| && key(s[i]) == k;
      assert (s + [x])[i] == s[i];
    }
    assert (s + [x])[|s|] == x;
  }

  lemma FirstIndexOfExtend<T, K>(s: seq<T>, x: T, k: K, key: T -> K)
    requires k in KeySet(s + [x], key)
    ensures FirstIndexOf(s + [x], k, key)
         == if k in KeySet(s, key) then FirstIndexOf(s, k, key) else |s|
  {
    KeySetAppend(s, x, key);
    assert forall j :: 0 <= j < |s| ==> (s + [x])[j] == s[j];
  }

  lemma UniqueByAppend<T, K>(s: seq<T>, x: T, key: T -> K)
    ensures UniqueBy(s + [x], key)
         == if key(x) in KeySet(UniqueBy(s, key), key) then UniqueBy(s, key)
            else UniqueBy(s, key) + [x]
  {
    assert (s + [x])[..|s|] == s;
  }

  /** De-duplication loses no key: every key of the input is the key of a kept element. */
  lemma {:induction false} UniqueByKeys<T, K>(s: seq<T>, key: T -> K)
    ensures KeySet(UniqueBy(s, key), key) == KeySet(s, key)
  {
    if s != [] {
      var n := |s| - 1;
      assert s == s[..n] + [s[n]];
      UniqueByKeys(s[..n], key);
      UniqueByAppend(s[..n], s[n], key);
      KeySetAppend(s[..n], s[n], key);
      KeySetAppend(UniqueBy(s[..n], key), s[n], key);
    }
  }

  /** The kept elements have pairwise distinct keys. */
  lemma {:induction false} UniqueByDistinct<T, K>(s: seq<T>, key: T -> K)
    ensures forall i, j :: 0 <= i < j < |UniqueBy(s, key)| ==>
              key(UniqueBy(s, key)[i]) != key(UniqueBy(s, key)[j])
  {
    if s != [] {
      var n := |s| - 1;
      assert s == s[..n] + [s[n]];
      UniqueByDistinct(s[..n], key);
      UniqueByAppend(s[..n], s[n], key);
      var kept := UniqueBy(s[..n], key);
      forall i | 0 <= i < |kept| ensures key(kept[i]) != key(s[n]) || key(s[n]) in KeySet(kept, key) {
      }
    }
  }

  /**
   * `r` lists, in order, the first element of `s` with each of its keys.
   */
  ghost predicate FirstSeen<T, K>(s: seq<T>, r: seq<T>, key: T -> K)
    requires KeySet(r, key) == KeySet(s, key)
  {
    && (forall i :: 0 <= i < |r| ==> r[i] == s[FirstIndexOf(s, key(r[i]), key)])
    && (forall i, j :: 0 <= i < j < |r| ==>
          FirstIndexOf(s, key(r[i]), key) < FirstIndexOf(s, key(r[j]), key))
  }

  /** Appending an element leaves the first position of every already-kept key inside `p`. */
  lemma KeptStayFirst<T, K>(p: seq<T>, x: T, key: T -> K)
    requires KeySet(UniqueBy(p, key), key) == KeySet(p, key)
    requires FirstSeen(p, UniqueBy(p, key), key)
    ensures var s, kept := p + [x], UniqueBy(p, key);
      forall i :: 0 <= i < |kept| ==>
        && key(kept[i]) in KeySet(s, key)
        && FirstIndexOf(s, key(kept[i]), key) == FirstIndexOf(p, key(kept[i]), key) < |p|
        && s[FirstIndexOf(s, key(kept[i]), key)] == kept[i]
  {
    KeySetAppend(p, x, key);
    var s, kept := p + [x], UniqueBy(p, key);
    forall i | 0 <= i < |kept|
      ensures FirstIndexOf(s, key(kept[i]), key) == FirstIndexOf(p, key(kept[i]), key) < |p|
      ensures s[FirstIndexOf(s, key(kept[i]), key)] == kept[i]
    {
      FirstIndexOfExtend(p, x, key(kept[i]), key);
      assert s[FirstIndexOf(p, key(kept[i]), key)] == p[FirstIndexOf(p, key(kept[i]), key)];
    }
  }

  /** An element with a new key goes to the end, and its first position is the last one. */
  lemma NewKeyFirstSeen<T, K>(p: seq<T>, x: T, key: T -> K)
    requires KeySet(UniqueBy(p, key), key) == KeySet(p, key)
    requires FirstSeen(p, UniqueBy(p, key), key)
    requires key(x) !in KeySet(p, key)
    ensures KeySet(UniqueBy(p, key) + [x], key) == KeySet(p + [x], key)
    ensures FirstSeen(p + [x], UniqueBy(p, key) + [x], key)
  {
    NewKeyElements(p, x, key);
    NewKeyOrder(p, x, key);
  }

  lemma NewKeyElements<T, K>(p: seq<T>, x: T, key: T -> K)
    requires KeySet(UniqueBy(p, key), key) == KeySet(p, key)
    requires FirstSeen(p, UniqueBy(p, key), key)
    requires key(x) !in KeySet(p, key)
    ensures KeySet(UniqueBy(p, key) + [x], key) == KeySet(p + [x], key)
    ensures var s, r := p + [x], UniqueBy(p, key) + [x];
      forall i :: 0 <= i < |r| ==> r[i] == s[FirstIndexOf(s, key(r[i]), key)]
  {
    KeptStayFirst(p, x, key);
    KeySetAppend(p, x, key);
    KeySetAppend(UniqueBy(p, key), x, key);
    FirstIndexOfExtend(p, x, key(x), key);
    var s, kept := p + [x], UniqueBy(p, key);
    var r := kept + [x];
    forall i | 0 <= i < |r| ensures r[i] == s[FirstIndexOf(s, key(r[i]), key)] {
      if i < |kept| {
        assert r[i] == kept[i];
      } else {
        assert r[i] == x && FirstIndexOf(s, key(x), key) == |p|;
      }
    }
  }

  lemma NewKeyOrder<T, K>(p: seq<T>, x: T, key: T -> K)
    requires KeySet(UniqueBy(p, key), key) == KeySet(p, key)
    requires FirstSeen(p, UniqueBy(p, key), key)
    requires key(x) !in KeySet(p, key)
    ensures KeySet(UniqueBy(p, key) + [x], key) == KeySet(p + [x], key)
    ensures var s, r := p + [x], UniqueBy(p, key) + [x];
      forall i, j :: 0 <= i < j < |r| ==>
        FirstIndexOf(s, key(r[i]), key) < FirstIndexOf(s, key(r[j]), key)
  {
    KeptStayFirst(p, x, key);
    KeySetAppend(p, x, key);
    KeySetAppend(UniqueBy(p, key), x, key);
    FirstIndexOfExtend(p, x, key(x), key);
    var s, kept := p + [x], UniqueBy(p, key);
    var r := kept + [x];
    forall i, j | 0 <= i < j < |r|
      ensures FirstIndexOf(s, key(r[i]), key) < FirstIndexOf(s, key(r[j]), key)
    {
      assert r[i] == kept[i];
      if j < |kept| {
        assert r[j] == kept[j];
      } else {
        assert r[j] == x && FirstIndexOf(s, key(x), key) == |p|;
      }
    }
  }

  lemma FirstSeenStep<T, K>(p: seq<T>, x: T, key: T -> K)
    requires KeySet(UniqueBy(p, key), key) == KeySet(p, key)
    requires KeySet(UniqueBy(p + [x], key), key) == KeySet(p + [x], key)
    requires FirstSeen(p, UniqueBy(p, key), key)
    ensures FirstSeen(p + [x], UniqueBy(p + [x], key), key)
  {
    UniqueByAppend(p, x, key);
    if key(x) in KeySet(p, key) {
      KeptStayFirst(p, x, key);
      assert UniqueBy(p + [x], key) == UniqueBy(p, key);
    } else {
      NewKeyFirstSeen(p, x, key);
    }
  }

  /**
   * In order, the kept elements are the first element of the input with each key:
   * de-duplication in first-seen order.
   */
  lemma {:induction false} UniqueByFirstSeen<T, K>(s: seq<T>, key: T -> K)
    ensures KeySet(UniqueBy(s, key), key) == KeySet(s, key)
    ensures FirstSeen(s, UniqueBy(s, key), key)
  {
    UniqueByKeys(s, key);
    if s != [] {
      var n := |s| - 1;
      assert s == s[..n] + [s[n]];
      UniqueByFirstSeen(s[..n], key);
      FirstSeenStep(s[..n], s[n], key);
    }
  }

  /** Every kept element is an element of the input. */
  lemma UniqueBySubset<T, K>(s: seq<T>, key: T -> K, x: T)
    requires x in UniqueBy(s, key)
    ensures x in s
  {
    UniqueByFirstSeen(s, key);
    var i :| 0 <= i < |UniqueBy(s, key)| && UniqueBy(s, key)[i] == x;
    assert s[FirstIndexOf(s, key(x), key)] == x;
  }

  /** One push-loop step: the element is pushed exactly when its key is not yet seen. */
  lemma PushStep<T, K>(before: seq<T>, x: T, key: T -> K)
    ensures key(x) in KeySet(UniqueBy(before, key), key) ==>
              UniqueBy(before + [x], key) == UniqueBy(before, key)
    ensures key(x) !in KeySet(UniqueBy(before, key), key) ==>
              && UniqueBy(before + [x], key) == UniqueBy(before, key) + [x]
              && KeySet(UniqueBy(before + [x], key), key)
                 == KeySet(UniqueBy(before, key), key) + {key(x)}
  {
    UniqueByAppend(before, x, key);
    KeySetAppend(UniqueBy(before, key), x, key);
  }

  lemma ConcatStep<T>(groups: seq<seq<T>>, i: nat)
    requires i < |groups|
    ensures Concat(groups[..i + 1]) == Concat(groups[..i]) + groups[i]
  {
    assert groups[..i + 1][..i] == groups[..i];
  }

  /**
   * The nested push loop: walk every group in order and every element of it in order, and
   * push an element when the set of seen keys does not hold its key yet.
   */
  method CollectUnique<T, K(==)>(groups: seq<seq<T>>, key: T -> K) returns (unique: seq<T>)
    ensures unique == UniqueBy(Concat(groups), key)
  {
    unique := [];
    var seen: set<K> := {};
    var i := 0;
    while i < |groups|
      invariant 0 <= i <= |groups|
      invariant unique == UniqueBy(Concat(groups[..i]), key)
      invariant seen == KeySet(unique, key)
    {
      ghost var done := Concat(groups[..i]);
      var group := groups[i];
      var j := 0;
      assert done + group[..j] == done;
      while j < |group|
        invariant 0 <= j <= |group|
        invariant unique == UniqueBy(done + group[..j], key)
        invariant seen == KeySet(unique, key)
      {
        var x := group[j];
        assert done + group[..j + 1] == (done + group[..j]) + [x];
        PushStep(done + group[..j], x, key);
        if key(x) !in seen {
          seen := seen + {key(x)};
          unique := unique + [x];
        }
        j := j + 1;
      }
      assert group[..j] == group;
      ConcatStep(groups, i);
      i := i + 1;
    }
    assert groups[..i] == groups;
  }
}
