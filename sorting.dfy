/** Stable sorting by a real-valued key, as done by java.util.Collections.sort
    with a comparator that compares one numeric field.

    SortBy is an insertion sort.  Its result is characterised without reference
    to the algorithm: it is the unique sequence that is sorted by the key and
    keeps, for every key value, the elements with that key in their input order
    (SameKeyOrder).  Any stable sort therefore computes the same sequence. */
module Sorting {

  /** The elements of s whose key is k, in the order of s. */
  function Filter<T>(s: seq<T>, key: T -> real, k: real): (r: seq<T>)
    ensures |r| <= |s|
  {
    if s == [] then []
    else if key(s[0]) == k then [s[0]] + Filter(s[1..], key, k)
    else Filter(s[1..], key, k)
  }

  predicate Sorted<T>(s: seq<T>, key: T -> real)
  {
    forall i, j :: 0 <= i < j < |s| ==> key(s[i]) <= key(s[j])
  }

  /** a and b hold, for every key value, the same elements in the same order. */
  ghost predicate SameKeyOrder<T>(a: seq<T>, b: seq<T>, key: T -> real)
  {
    forall k :: Filter(a, key, k) == Filter(b, key, k)
  }

  /** Insert x before the first element whose key is not smaller than key(x). */
  function Insert<T>(x: T, s: seq<T>, key: T -> real): (r: seq<T>)
    ensures |r| == |s| + 1
  {
    if s == [] || key(x) <= key(s[0]) then [x] + s
    else [s[0]] + Insert(x, s[1..], key)
  }

  function SortBy<T>(s: seq<T>, key: T -> real): (r: seq<T>)
    ensures |r| == |s|
  {
    if s == [] then []
    else Insert(s[0], SortBy(s[1..], key), key)
  }

  lemma {:induction false} InsertMultiset<T>(x: T, s: seq<T>, key: T -> real)
    ensures multiset(Insert(x, s, key)) == multiset(s) + multiset{x}
  {
    if s != [] && key(x) > key(s[0]) {
      assert s == [s[0]] + s[1..];
      InsertMultiset(x, s[1..], key);
    }
  }

  /** Sorting permutes its input. */
  lemma {:induction false} SortByMultiset<T>(s: seq<T>, key: T -> real)
    ensures multiset(SortBy(s, key)) == multiset(s)
  {
    if s != [] {
      assert s == [s[0]] + s[1..];
      SortByMultiset(s[1..], key);
      InsertMultiset(s[0], SortBy(s[1..], key), key);
    }
  }

  /** Sorting keeps exactly the elements of its input. */
  lemma SortByMembers<T>(s: seq<T>, key: T -> real)
    ensures forall x :: x in SortBy(s, key) <==> x in s
  {
    SortByMultiset(s, key);
    forall x ensures x in SortBy(s, key) <==> x in s {
      assert x in SortBy(s, key) <==> x in multiset(SortBy(s, key));
    }
  }

  /** Removes the first occurrence of x (java.util.List.remove(Object)). */
  function RemoveFirst<T(==)>(s: seq<T>, x: T): seq<T>
  {
    if s == [] then []
    else if s[0] == x then s[1..]
    else [s[0]] + RemoveFirst(s[1..], x)
  }

  lemma {:induction false} RemoveFirstMultiset<T>(s: seq<T>, x: T)
    ensures x in s ==> multiset(RemoveFirst(s, x)) == multiset(s) - multiset{x}
    ensures x !in s ==> RemoveFirst(s, x) == s
  {
    if s != [] {
      assert s == [s[0]] + s[1..];
      RemoveFirstMultiset(s[1..], x);
    }
  }

  // ---------------------------------------------------------------------
  // Filter

  lemma {:induction false} FilterConcat<T>(a: seq<T>, b: seq<T>, key: T -> real, k: real)
    ensures Filter(a + b, key, k) == Filter(a, key, k) + Filter(b, key, k)
  {
    if a == [] {
      assert a + b == b;
    } else {
      assert (a + b)[1..] == a[1..] + b;
      FilterConcat(a[1..], b, key, k);
    }
  }

  lemma {:induction false} FilterMember<T>(s: seq<T>, key: T -> real, k: real, x: T)
    ensures x in Filter(s, key, k) <==> x in s && key(x) == k
  {
    if s != [] {
      FilterMember(s[1..], key, k, x);
      assert s == [s[0]] + s[1..];
    }
  }

  /** A filter is empty when no element has that key. */
  lemma FilterEmpty<T>(s: seq<T>, key: T -> real, k: real)
    requires forall i :: 0 <= i < |s| ==> key(s[i]) != k
    ensures Filter(s, key, k) == []
  {
    if Filter(s, key, k) != [] {
      var x := Filter(s, key, k)[0];
      FilterMember(s, key, k, x);
    }
  }

  lemma SameKeyOrderConcat<T>(a: seq<T>, a': seq<T>, b: seq<T>, b': seq<T>, key: T -> real)
    requires SameKeyOrder(a, a', key) && SameKeyOrder(b, b', key)
    ensures SameKeyOrder(a + b, a' + b', key)
  {
    forall k ensures Filter(a + b, key, k) == Filter(a' + b', key, k) {
      FilterConcat(a, b, key, k);
      FilterConcat(a', b', key, k);
    }
  }

  // ---------------------------------------------------------------------
  // Insert and SortBy: sorted and stable

  lemma {:induction false} InsertSorted<T>(x: T, s: seq<T>, key: T -> real)
    requires Sorted(s, key)
    ensures Sorted(Insert(x, s, key), key)
  {
    if s == [] || key(x) <= key(s[0]) {
    } else {
      InsertSorted(x, s[1..], key);
      var r := Insert(x, s[1..], key);
      InsertMultiset(x, s[1..], key);
      forall j | 0 <= j < |r| ensures key(s[0]) <= key(r[j]) {
        assert r[j] in multiset(r);
        if r[j] == x {
        } else {
          assert r[j] in multiset(s[1..]);
          var i :| 0 <= i < |s[1..]| && s[1..][i] == r[j];
          assert s[i + 1] == r[j];
        }
      }
    }
  }

  lemma {:induction false} InsertFilter<T>(x: T, s: seq<T>, key: T -> real, k: real)
    requires Sorted(s, key)
    ensures Filter(Insert(x, s, key), key, k)
         == if key(x) == k then [x] + Filter(s, key, k) else Filter(s, key, k)
  {
    if s == [] || key(x) <= key(s[0]) {
      assert ([x] + s)[1..] == s;
    } else {
      assert ([s[0]] + Insert(x, s[1..], key))[1..] == Insert(x, s[1..], key);
      InsertFilter(x, s[1..], key, k);
      if key(x) == k {
        // key(s[0]) < key(x) == k, so s[0] is not in the filter
        assert key(s[0]) != k;
      }
    }
  }

  lemma {:induction false} SortBySorted<T>(s: seq<T>, key: T -> real)
    ensures Sorted(SortBy(s, key), key)
  {
    if s != [] {
      SortBySorted(s[1..], key);
      InsertSorted(s[0], SortBy(s[1..], key), key);
    }
  }

  lemma {:induction false} SortByStable<T>(s: seq<T>, key: T -> real)
    ensures SameKeyOrder(SortBy(s, key), s, key)
  {
    if s != [] {
      SortByStable(s[1..], key);
      SortBySorted(s[1..], key);
      forall k ensures Filter(SortBy(s, key), key, k) == Filter(s, key, k) {
        InsertFilter(s[0], SortBy(s[1..], key), key, k);
      }
    }
  }

  lemma NoFilterEmpty<T>(s: seq<T>, key: T -> real)
    requires forall k :: Filter(s, key, k) == []
    ensures s == []
  {
    if s != [] {
      FilterMember(s, key, key(s[0]), s[0]);
    }
  }

  // ---------------------------------------------------------------------
  // Uniqueness: a sorted sequence is determined by its per-key filters

  lemma {:induction false} SortedUnique<T>(a: seq<T>, b: seq<T>, key: T -> real)
    requires Sorted(a, key) && Sorted(b, key)
    requires SameKeyOrder(a, b, key)
    ensures a == b
    decreases |a|
  {
    if a == [] {
      NoFilterEmpty(b, key);
    } else if b == [] {
      NoFilterEmpty(a, key);
    } else {
      var ka, kb := key(a[0]), key(b[0]);
      FilterMember(a, key, ka, a[0]);
      var ya := Filter(b, key, ka)[0];
      FilterMember(b, key, ka, ya);
      var j :| 0 <= j < |b| && b[j] == ya;
      assert kb <= ka;
      FilterMember(b, key, kb, b[0]);
      var yb := Filter(a, key, kb)[0];
      FilterMember(a, key, kb, yb);
      var i :| 0 <= i < |a| && a[i] == yb;
      assert ka <= kb;
      assert a == [a[0]] + a[1..] && b == [b[0]] + b[1..];
      assert a[0] == b[0] by {
        assert Filter(a, key, ka) == [a[0]] + Filter(a[1..], key, ka);
        assert Filter(b, key, ka) == [b[0]] + Filter(b[1..], key, ka);
      }
      forall k ensures Filter(a[1..], key, k) == Filter(b[1..], key, k) {
        assert Filter(a, key, k) == Filter(b, key, k);
        if key(a[0]) == k {
          var fa, fb := Filter(a[1..], key, k), Filter(b[1..], key, k);
          assert Filter(a, key, k) == [a[0]] + fa;
          assert Filter(b, key, k) == [b[0]] + fb;
          assert ([a[0]] + fa)[1..] == fa;
          assert ([b[0]] + fb)[1..] == fb;
        } else {
          assert Filter(a, key, k) == Filter(a[1..], key, k);
          assert Filter(b, key, k) == Filter(b[1..], key, k);
        }
      }
      SortedUnique(a[1..], b[1..], key);
    }
  }

  /** Sorting depends only on the per-key order of the input. */
  lemma SortBySame<T>(a: seq<T>, b: seq<T>, key: T -> real)
    requires SameKeyOrder(a, b, key)
    ensures SortBy(a, key) == SortBy(b, key)
  {
    SortBySorted(a, key);
    SortBySorted(b, key);
    SortByStable(a, key);
    SortByStable(b, key);
    SortedUnique(SortBy(a, key), SortBy(b, key), key);
  }

  /** Re-sorting an already sorted sequence changes nothing. */
  lemma SortByIdempotent<T>(s: seq<T>, key: T -> real)
    requires Sorted(s, key)
    ensures SortBy(s, key) == s
  {
    SortBySorted(s, key);
    SortByStable(s, key);
    SortedUnique(SortBy(s, key), s, key);
  }

  /** Elements with equal keys determine the multiset. */
  lemma SameKeyOrderMultiset<T>(a: seq<T>, b: seq<T>, key: T -> real)
    requires SameKeyOrder(a, b, key)
    ensures multiset(a) == multiset(b)
  {
    SortBySame(a, b, key);
    SortByMultiset(a, key);
    SortByMultiset(b, key);
  }

  // ---------------------------------------------------------------------
  // Appending one element to a sorted sequence and sorting again

  /** Number of leading elements whose key is at most k. */
  function CountAtMost<T>(s: seq<T>, key: T -> real, k: real): (p: nat)
    requires Sorted(s, key)
    ensures p <= |s|
    ensures forall i :: 0 <= i < p ==> key(s[i]) <= k
    ensures forall i :: p <= i < |s| ==> key(s[i]) > k
  {
    if s == [] || key(s[0]) > k then 0
    else 1 + CountAtMost(s[1..], key, k)
  }

  /** A higher bound counts at least as many leading elements. */
  lemma {:induction false} CountAtMostMonotone<T>(s: seq<T>, key: T -> real, k: real, k': real)
    requires Sorted(s, key) && k <= k'
    ensures CountAtMost(s, key, k) <= CountAtMost(s, key, k')
    decreases |s|
  {
    if s != [] && key(s[0]) <= k {
      CountAtMostMonotone(s[1..], key, k, k');
    }
  }

  lemma SortedAround<T>(s: seq<T>, x: T, key: T -> real, p: nat)
    requires Sorted(s, key) && p <= |s|
    requires forall i :: 0 <= i < p ==> key(s[i]) <= key(x)
    requires forall i :: p <= i < |s| ==> key(s[i]) > key(x)
    ensures Sorted(s[..p] + [x] + s[p..], key)
  {
    var r := s[..p] + [x] + s[p..];
    forall i, j | 0 <= i < j < |r| ensures key(r[i]) <= key(r[j]) {
      if i < p {
        assert r[i] == s[i];
        if j == p { } else if j < p { assert r[j] == s[j]; } else { assert r[j] == s[j - 1]; }
      } else if i == p {
        assert r[j] == s[j - 1];
      } else {
        assert r[i] == s[i - 1] && r[j] == s[j - 1];
      }
    }
  }

  lemma FiltersAround<T>(s: seq<T>, x: T, key: T -> real, p: nat)
    requires p <= |s|
    requires forall i :: p <= i < |s| ==> key(s[i]) > key(x)
    ensures SameKeyOrder(s[..p] + [x] + s[p..], s + [x], key)
  {
    assert s == s[..p] + s[p..];
    forall k ensures Filter(s[..p] + [x] + s[p..], key, k) == Filter(s + [x], key, k) {
      FilterConcat(s[..p] + [x], s[p..], key, k);
      FilterConcat(s[..p], [x], key, k);
      FilterConcat(s, [x], key, k);
      FilterConcat(s[..p], s[p..], key, k);
      if key(x) == k {
        FilterEmpty(s[p..], key, k);
      }
    }
  }

  /** Sorting s + [x] for a sorted s places x after every element whose key is
      at most key(x) and before the others. */
  lemma SortAppend<T>(s: seq<T>, x: T, key: T -> real)
    requires Sorted(s, key)
    ensures var p := CountAtMost(s, key, key(x));
            SortBy(s + [x], key) == s[..p] + [x] + s[p..]
  {
    var p := CountAtMost(s, key, key(x));
    var r := s[..p] + [x] + s[p..];
    SortedAround(s, x, key, p);
    FiltersAround(s, x, key, p);
    SortBySorted(s + [x], key);
    SortByStable(s + [x], key);
    SortedUnique(SortBy(s + [x], key), r, key);
  }

  lemma {:induction false} RemoveFirstMiddle<T>(a: seq<T>, x: T, b: seq<T>)
    requires x !in a
    ensures RemoveFirst(a + [x] + b, x) == a + b
  {
    if a == [] {
      assert a + [x] + b == [x] + b;
    } else {
      var s := a + [x] + b;
      assert s[0] == a[0] && a[0] != x;
      assert s[1..] == a[1..] + [x] + b;
      RemoveFirstMiddle(a[1..], x, b);
      assert RemoveFirst(s, x) == [a[0]] + RemoveFirst(s[1..], x);
      assert a + b == [a[0]] + (a[1..] + b);
    }
  }

  /** Append one element, sort, then remove that element: for a sorted input
      without x, this is the input itself. */
  lemma SortAppendRemove<T>(s: seq<T>, x: T, key: T -> real)
    requires Sorted(s, key) && x !in s
    ensures RemoveFirst(SortBy(s + [x], key), x) == s
  {
    var p := CountAtMost(s, key, key(x));
    var pre, post := s[..p], s[p..];
    assert s == pre + post;
    SortAppend(s, x, key);
    RemoveFirstMiddle(pre, x, post);
  }

  /** The same, for an unsorted input: the result is the input sorted. */
  lemma SortAppendRemoveUnsorted<T>(s: seq<T>, x: T, key: T -> real)
    requires x !in s
    ensures RemoveFirst(SortBy(s + [x], key), x) == SortBy(s, key)
  {
    var t := SortBy(s, key);
    SortBySorted(s, key);
    SortAppendResort(s, x, key);
    SortByMembers(s, key);
    SortAppendRemove(t, x, key);
  }

  /** Sorting a list before appending to it and sorting again makes no
      difference. */
  lemma SortAppendResort<T>(s: seq<T>, x: T, key: T -> real)
    ensures SortBy(SortBy(s, key) + [x], key) == SortBy(s + [x], key)
  {
    var t := SortBy(s, key);
    SortByStable(s, key);
    forall k ensures Filter(s + [x], key, k) == Filter(t + [x], key, k) {
      FilterConcat(s, [x], key, k);
      FilterConcat(t, [x], key, k);
    }
    SortBySame(s + [x], t + [x], key);
  }

  /** Sorting is idempotent. */
  lemma SortByFixed<T>(s: seq<T>, key: T -> real)
    ensures SortBy(SortBy(s, key), key) == SortBy(s, key)
  {
    SortBySorted(s, key);
    SortByIdempotent(SortBy(s, key), key);
  }

  /** SortAppendRemove for a list that sorting leaves unchanged. */
  lemma SortedAppendRemove<T>(s: seq<T>, x: T, key: T -> real)
    requires SortBy(s, key) == s && x !in s
    ensures RemoveFirst(SortBy(s + [x], key), x) == s
  {
    SortBySorted(s, key);
    SortAppendRemove(s, x, key);
  }

  /** Collections.shuffle, as an arbitrary rearrangement chosen by the
      caller: the k-th call gets permutation sh(k, l) of its list l. */
  type Shuffle<!T> = (nat, seq<T>) -> seq<T>

  ghost predicate Permutes<T(!new)>(sh: Shuffle<T>)
  {
    forall k, l :: multiset(sh(k, l)) == multiset(l)
  }
}
