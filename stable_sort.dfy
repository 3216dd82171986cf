/**
 * JavaScript's `Array.prototype.sort` with a comparator is a STABLE sort (ECMAScript 2019):
 * the result is ordered by the comparator and elements the comparator calls equal keep their
 * input order. The sorting algorithm itself belongs to the JavaScript engine, so it is modelled
 * here by a stable insertion sort whose result is characterised by three lemmas: it is sorted,
 * it is a permutation, and every class of equivalent elements keeps its order.
 *
 * `le(a, b)` means "a may be placed before b" (the comparator returns a value <= 0).
 */
module StableSort {

  /** `le` is total and transitive, which is what a consistent comparator provides. */
  ghost predicate TotalPreorder<T(!new)>(le: (T, T) -> bool) {
    && (forall a, b :: le(a, b) || le(b, a))
    && (forall a, b, c :: le(a, b) && le(b, c) ==> le(a, c))
  }

  ghost predicate Sorted<T>(s: seq<T>, le: (T, T) -> bool) {
    forall i, j :: 0 <= i < j < |s| ==> le(s[i], s[j])
  }

  /** The elements of `s` that the comparator calls equal to `k`, in order. */
  function Ties<T>(s: seq<T>, k: T, le: (T, T) -> bool): seq<T> {
    if s == [] then []
    else (if le(s[0], k) && le(k, s[0]) then [s[0]] else []) + Ties(s[1..], k, le)
  }

  /** Places `x` after every element of `s` that may precede it. */
  function Insert<T>(x: T, s: seq<T>, le: (T, T) -> bool): (r: seq<T>)
    ensures |r| == |s| + 1
  {
    if s == [] then [x]
    else if le(s[0], x) then [s[0]] + Insert(x, s[1..], le)
    else [x] + s
  }

  /** Inserts the elements one by one in input order. */
  function Sort<T>(s: seq<T>, le: (T, T) -> bool): (r: seq<T>)
    ensures |r| == |s|
  {
    if s == [] then [] else Insert(s[|s| - 1], Sort(s[..|s| - 1], le), le)
  }

  lemma {:induction false} TiesAppend<T>(s: seq<T>, t: seq<T>, k: T, le: (T, T) -> bool)
    ensures Ties(s + t, k, le) == Ties(s, k, le) + Ties(t, k, le)
  {
    if s == [] {
      assert s + t == t;
    } else {
      assert (s + t)[1..] == s[1..] + t;
      TiesAppend(s[1..], t, k, le);
    }
  }

  lemma {:induction false} NoTies<T>(s: seq<T>, k: T, le: (T, T) -> bool)
    requires forall i :: 0 <= i < |s| ==> !(le(s[i], k) && le(k, s[i]))
    ensures Ties(s, k, le) == []
  {
    if s != [] {
      NoTies(s[1..], k, le);
    }
  }

  lemma {:induction false} InsertPermutes<T>(x: T, s: seq<T>, le: (T, T) -> bool)
    ensures multiset(Insert(x, s, le)) == multiset(s) + multiset{x}
  {
    if s != [] && le(s[0], x) {
      InsertPermutes(x, s[1..], le);
      assert s == [s[0]] + s[1..];
    }
  }

  lemma {:induction false} InsertSorted<T(!new)>(x: T, s: seq<T>, le: (T, T) -> bool)
    requires TotalPreorder(le) && Sorted(s, le)
    ensures Sorted(Insert(x, s, le), le)
  {
    if s != [] {
      if le(s[0], x) {
        var tail := s[1..];
        InsertSorted(x, tail, le);
        InsertPermutes(x, tail, le);
        var r := Insert(x, tail, le);
        forall j | 0 <= j < |r| ensures le(s[0], r[j]) {
          assert r[j] in multiset(r);
          if r[j] != x {
            assert r[j] in multiset(tail);
            var m :| 0 <= m < |tail| && tail[m] == r[j];
            assert s[m + 1] == r[j];
          }
        }
      } else {
        assert le(x, s[0]);
      }
    }
  }

  /**
   * `x` placed in front of a sorted `s` that it must precede: if `x` ties with `k`, no element
   * of `s` does, since each of them lies strictly after `x`.
   */
  lemma InsertFrontKeepsTies<T(!new)>(x: T, s: seq<T>, k: T, le: (T, T) -> bool)
    requires TotalPreorder(le) && Sorted(s, le)
    requires s != [] && !le(s[0], x)
    ensures Ties([x] + s, k, le) == Ties(s, k, le) + (if le(x, k) && le(k, x) then [x] else [])
  {
    TiesAppend([x], s, k, le);
    if le(x, k) && le(k, x) {
      forall i | 0 <= i < |s| ensures !(le(s[i], k) && le(k, s[i])) {
        assert i == 0 || le(s[0], s[i]);
      }
      NoTies(s, k, le);
    }
  }

  /** Putting the same element in front of two lists keeps their ties related the same way. */
  lemma ConsKeepsTies<T>(h: T, r: seq<T>, s: seq<T>, last: seq<T>, k: T, le: (T, T) -> bool)
    requires Ties(r, k, le) == Ties(s, k, le) + last
    ensures Ties([h] + r, k, le) == Ties([h] + s, k, le) + last
  {
    TiesAppend([h], r, k, le);
    TiesAppend([h], s, k, le);
    AppendAssociative(Ties([h], k, le), Ties(s, k, le), last);
  }

  lemma AppendAssociative<T>(a: seq<T>, b: seq<T>, c: seq<T>)
    ensures a + (b + c) == (a + b) + c
  {
  }

  lemma {:induction false} InsertKeepsTies<T(!new)>(x: T, s: seq<T>, k: T, le: (T, T) -> bool)
    requires TotalPreorder(le) && Sorted(s, le)
    ensures Ties(Insert(x, s, le), k, le)
         == Ties(s, k, le) + (if le(x, k) && le(k, x) then [x] else [])
  {
    if s == [] {
    } else if le(s[0], x) {
      var tail := s[1..];
      assert Sorted(tail, le);
      InsertKeepsTies(x, tail, k, le);
      ConsKeepsTies(s[0], Insert(x, tail, le), tail, if le(x, k) && le(k, x) then [x] else [], k, le);
      assert s == [s[0]] + tail;
    } else {
      InsertFrontKeepsTies(x, s, k, le);
    }
  }

  /** Sorting orders the input by `le`. */
  lemma {:induction false} SortSorted<T(!new)>(s: seq<T>, le: (T, T) -> bool)
    requires TotalPreorder(le)
    ensures Sorted(Sort(s, le), le)
  {
    if s != [] {
      SortSorted(s[..|s| - 1], le);
      InsertSorted(s[|s| - 1], Sort(s[..|s| - 1], le), le);
    }
  }

  /** Sorting only reorders: the result is a permutation of the input. */
  lemma {:induction false} SortPermutes<T>(s: seq<T>, le: (T, T) -> bool)
    ensures multiset(Sort(s, le)) == multiset(s)
  {
    if s != [] {
      var n := |s| - 1;
      SortPermutes(s[..n], le);
      InsertPermutes(s[n], Sort(s[..n], le), le);
      assert s == s[..n] + [s[n]];
    }
  }

  /** Stability: elements the comparator calls equal come out in their input order. */
  lemma {:induction false} SortStable<T(!new)>(s: seq<T>, k: T, le: (T, T) -> bool)
    requires TotalPreorder(le)
    ensures Ties(Sort(s, le), k, le) == Ties(s, k, le)
  {
    if s != [] {
      var n := |s| - 1;
      SortStable(s[..n], k, le);
      SortSorted(s[..n], le);
      InsertKeepsTies(s[n], Sort(s[..n], le), k, le);
      assert s == s[..n] + [s[n]];
      TiesAppend(s[..n], [s[n]], k, le);
    }
  }
  /** An element that every element of `s` may precede goes to the end. */
  lemma {:induction false} InsertAtEnd<T>(x: T, s: seq<T>, le: (T, T) -> bool)
    requires forall i :: 0 <= i < |s| ==> le(s[i], x)
    ensures Insert(x, s, le) == s + [x]
  {
    if s != [] {
      InsertAtEnd(x, s[1..], le);
      assert s == [s[0]] + s[1..];
    }
  }

  /** Sorting a list that is already in order changes nothing. */
  lemma {:induction false} SortOfSorted<T>(s: seq<T>, le: (T, T) -> bool)
    requires Sorted(s, le)
    ensures Sort(s, le) == s
  {
    if s != [] {
      var n := |s| - 1;
      assert Sorted(s[..n], le);
      SortOfSorted(s[..n], le);
      InsertAtEnd(s[n], s[..n], le);
      assert s == s[..n] + [s[n]];
    }
  }

  /** Sorting twice is sorting once. */
  lemma SortIdempotent<T(!new)>(s: seq<T>, le: (T, T) -> bool)
    requires TotalPreorder(le)
    ensures Sort(Sort(s, le), le) == Sort(s, le)
  {
    SortSorted(s, le);
    SortOfSorted(Sort(s, le), le);
  }
}
