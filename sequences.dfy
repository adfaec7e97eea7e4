/** The two LINQ operators the evaluator uses: Where (Filter) and the stable
    OrderBy on a nullable integer key (SortByKey), where a null key sorts first. */
module Sequences {
  import opened Values

  function Filter<T(!new)>(s: seq<T>, p: T -> bool): (r: seq<T>)
    ensures |r| <= |s|
  {
    if s == [] then []
    else
      var rest := Filter(s[1..], p);
      if p(s[0]) then [s[0]] + rest else rest
  }

  /** Where keeps every occurrence of an element that satisfies the predicate and drops
      every other one. */
  lemma {:induction false} FilterFacts<T(!new)>(s: seq<T>, p: T -> bool)
    ensures forall x :: multiset(Filter(s, p))[x] == if p(x) then multiset(s)[x] else 0
    ensures forall x :: x in Filter(s, p) <==> x in s && p(x)
    ensures multiset(Filter(s, p)) <= multiset(s)
  {
    if s != [] {
      FilterFacts(s[1..], p);
      assert s == [s[0]] + s[1..];
      assert forall x :: x in Filter(s, p) <==> x in multiset(Filter(s, p));
      assert forall x :: x in s <==> x in multiset(s);
    }
  }

  /** Where keeps input order: filtering a concatenation filters each part in turn. */
  lemma {:induction false} FilterAppend<T(!new)>(s: seq<T>, t: seq<T>, p: T -> bool)
    ensures Filter(s + t, p) == Filter(s, p) + Filter(t, p)
  {
    if s == [] {
      assert s + t == t;
    } else {
      FilterAppend(s[1..], t, p);
      assert s == [s[0]] + s[1..];
      assert s + t == [s[0]] + (s[1..] + t);
      FilterCons(s[0], s[1..], p);
      FilterCons(s[0], s[1..] + t, p);
    }
  }

  /** Filtering a sequence with one more element in front. */
  lemma FilterCons<T(!new)>(x: T, s: seq<T>, p: T -> bool)
    ensures Filter([x] + s, p) == (if p(x) then [x] else []) + Filter(s, p)
  {
    assert ([x] + s)[1..] == s;
  }

  /** Nothing passes the filter when no element satisfies the predicate. */
  lemma {:induction false} FilterNone<T(!new)>(s: seq<T>, p: T -> bool)
    requires forall x :: x in s ==> !p(x)
    ensures Filter(s, p) == []
  {
    if s != [] {
      assert s[0] in s;
      assert forall x :: x in s[1..] ==> x in s;
      FilterNone(s[1..], p);
    }
  }

  /** Comparer<int?>.Default: null before every number. */
  predicate KeyLe(a: Option<int>, b: Option<int>) {
    a.None? || (b.Some? && a.value <= b.value)
  }

  predicate Sorted<T>(s: seq<T>, key: T -> Option<int>) {
    forall i, j :: 0 <= i < j < |s| ==> KeyLe(key(s[i]), key(s[j]))
  }

  /** Places x before the first element whose key is not smaller than its own. */
  function Insert<T>(x: T, s: seq<T>, key: T -> Option<int>): seq<T> {
    if s == [] || KeyLe(key(x), key(s[0])) then [x] + s
    else [s[0]] + Insert(x, s[1..], key)
  }

  /** Enumerable.OrderBy: a stable sort by key. */
  function SortByKey<T>(s: seq<T>, key: T -> Option<int>): seq<T> {
    if s == [] then [] else Insert(s[0], SortByKey(s[1..], key), key)
  }

  lemma {:induction false} InsertFacts<T>(x: T, s: seq<T>, key: T -> Option<int>)
    requires Sorted(s, key)
    ensures Sorted(Insert(x, s, key), key)
    ensures multiset(Insert(x, s, key)) == multiset(s) + multiset{x}
  {
    if s == [] || KeyLe(key(x), key(s[0])) {
      var r := [x] + s;
      forall i, j | 0 <= i < j < |r| ensures KeyLe(key(r[i]), key(r[j])) {
        if i == 0 { assert KeyLe(key(s[0]), key(s[j - 1])) || j == 1; }
      }
    } else {
      InsertFacts(x, s[1..], key);
      var rest := Insert(x, s[1..], key);
      var r := [s[0]] + rest;
      assert x in multiset(rest);
      forall i, j | 0 <= i < j < |r| ensures KeyLe(key(r[i]), key(r[j])) {
        if i == 0 {
          assert r[j] in multiset(rest);
          assert r[j] == x || r[j] in multiset(s[1..]);
          if r[j] != x {
            var k :| 0 <= k < |s[1..]| && s[1..][k] == r[j];
            assert KeyLe(key(s[0]), key(s[k + 1]));
          }
        }
      }
      assert s == [s[0]] + s[1..];
    }
  }

  /** The sorted sequence is in key order, holds exactly the input's elements, and
      keeps the input order among elements with equal keys. */
  lemma {:induction false} SortByKeyFacts<T>(s: seq<T>, key: T -> Option<int>)
    ensures Sorted(SortByKey(s, key), key)
    ensures multiset(SortByKey(s, key)) == multiset(s)
    ensures forall k :: WithKey(SortByKey(s, key), key, k) == WithKey(s, key, k)
  {
    if s != [] {
      SortByKeyFacts(s[1..], key);
      InsertFacts(s[0], SortByKey(s[1..], key), key);
      assert s == [s[0]] + s[1..];
    }
    forall k {
      SortByKeyIsStable(s, key, k);
    }
  }

  /** The elements of s whose key is k, in their order in s. */
  function WithKey<T>(s: seq<T>, key: T -> Option<int>, k: Option<int>): seq<T> {
    if s == [] then []
    else (if key(s[0]) == k then [s[0]] else []) + WithKey(s[1..], key, k)
  }

  lemma WithKeyCons<T>(x: T, s: seq<T>, key: T -> Option<int>, k: Option<int>)
    ensures WithKey([x] + s, key, k) == (if key(x) == k then [x] else []) + WithKey(s, key, k)
  {
    assert ([x] + s)[1..] == s;
  }

  /** Insertion passes only elements whose key differs from the inserted one's, so
      among the elements of any one key the inserted element comes first. */
  lemma {:induction false} InsertIsStable<T>(x: T, s: seq<T>, key: T -> Option<int>, k: Option<int>)
    ensures WithKey(Insert(x, s, key), key, k) == (if key(x) == k then [x] else []) + WithKey(s, key, k)
  {
    if s == [] || KeyLe(key(x), key(s[0])) {
      WithKeyCons(x, s, key, k);
    } else {
      InsertIsStable(x, s[1..], key, k);
      WithKeyCons(s[0], Insert(x, s[1..], key), key, k);
      assert key(s[0]) != key(x);
    }
  }

  /** OrderBy is stable: the elements of any one key keep their input order. */
  lemma {:induction false} SortByKeyIsStable<T>(s: seq<T>, key: T -> Option<int>, k: Option<int>)
    ensures WithKey(SortByKey(s, key), key, k) == WithKey(s, key, k)
  {
    if s != [] {
      SortByKeyIsStable(s[1..], key, k);
      InsertIsStable(s[0], SortByKey(s[1..], key), key, k);
    }
  }

  /** Two elements with equal keys, the first before the second in the input and no
      other element of that key around them, come out of the sort in that order. */
  lemma TiedElementsKeepTheirOrder<T>(a: T, b: T, before: seq<T>, between: seq<T>, after: seq<T>,
                                      key: T -> Option<int>)
    requires key(a) == key(b)
    requires forall y :: y in before + between + after ==> key(y) != key(a)
    ensures WithKey(SortByKey(before + [a] + between + [b] + after, key), key, key(a)) == [a, b]
  {
    var k := key(a);
    SortByKeyIsStable(before + [a] + between + [b] + after, key, k);
    WithKeyAppend(before + [a] + between + [b], after, key, k);
    WithKeyAppend(before + [a] + between, [b], key, k);
    WithKeyAppend(before + [a], between, key, k);
    WithKeyAppend(before, [a], key, k);
    WithKeyNone(before, key, k);
    WithKeyNone(between, key, k);
    WithKeyNone(after, key, k);
    WithKeyCons(a, [], key, k);
    WithKeyCons(b, [], key, k);
  }

  lemma {:induction false} WithKeyAppend<T>(s: seq<T>, t: seq<T>, key: T -> Option<int>, k: Option<int>)
    ensures WithKey(s + t, key, k) == WithKey(s, key, k) + WithKey(t, key, k)
  {
    if s != [] {
      WithKeyAppend(s[1..], t, key, k);
      assert (s + t)[1..] == s[1..] + t;
    } else {
      assert s + t == t;
    }
  }

  lemma {:induction false} WithKeyNone<T>(s: seq<T>, key: T -> Option<int>, k: Option<int>)
    requires forall y :: y in s ==> key(y) != k
    ensures WithKey(s, key, k) == []
  {
    if s != [] {
      assert s[0] in s;
      assert forall y :: y in s[1..] ==> y in s;
      WithKeyNone(s[1..], key, k);
    }
  }

  /** Where and the selection of one key commute: the elements of a key that pass the
      filter are those of the filtered sequence, in the same order. */
  lemma {:induction false} FilterWithKey<T(!new)>(s: seq<T>, p: T -> bool, key: T -> Option<int>, k: Option<int>)
    ensures WithKey(Filter(s, p), key, k) == Filter(WithKey(s, key, k), p)
  {
    if s != [] {
      var x, rest := s[0], s[1..];
      FilterWithKey(rest, p, key, k);
      assert Filter(s, p) == (if p(x) then [x] else []) + Filter(rest, p);
      assert WithKey(s, key, k) == (if key(x) == k then [x] else []) + WithKey(rest, key, k);
      if p(x) {
        WithKeyCons(x, Filter(rest, p), key, k);
      } else {
        assert Filter(s, p) == Filter(rest, p);
      }
      if key(x) == k {
        FilterCons(x, WithKey(rest, key, k), p);
      } else {
        assert WithKey(s, key, k) == WithKey(rest, key, k);
      }
    }
  }

  /** Where followed by OrderBy: the elements of any one key that pass the filter come
      out in their input order. */
  lemma SortedFilterKeepsTies<T(!new)>(s: seq<T>, p: T -> bool, key: T -> Option<int>, k: Option<int>)
    ensures WithKey(SortByKey(Filter(s, p), key), key, k) == Filter(WithKey(s, key, k), p)
  {
    SortByKeyIsStable(Filter(s, p), key, k);
    FilterWithKey(s, p, key, k);
  }

  /** Sorting an already sorted sequence changes nothing, so sorting twice is sorting once. */
  lemma {:induction false} SortSortedIsIdentity<T>(s: seq<T>, key: T -> Option<int>)
    requires Sorted(s, key)
    ensures SortByKey(s, key) == s
  {
    if s != [] {
      assert Sorted(s[1..], key);
      SortSortedIsIdentity(s[1..], key);
      assert s[1..] == [] || KeyLe(key(s[0]), key(s[1..][0]));
    }
  }

  lemma SortByKeyIdempotent<T>(s: seq<T>, key: T -> Option<int>)
    ensures SortByKey(SortByKey(s, key), key) == SortByKey(s, key)
  {
    SortByKeyFacts(s, key);
    SortSortedIsIdentity(SortByKey(s, key), key);
  }
}
