/**
 * Stable sorting by an integer key, the behaviour of Rust's `slice::sort_by`
 * as the triangle demos use it: the result is ordered by key, is a
 * permutation of the input, and elements with equal keys keep their input
 * order. Insertion sort is the reference definition; StableSortIsUnique
 * shows that any sort with those three properties gives the same result.
 */
module StableSort {

  /** Keys never decrease along `s`. */
  ghost predicate SortedBy<T>(s: seq<T>, key: T -> int)
  {
    forall i, j :: 0 <= i < j < |s| ==> key(s[i]) <= key(s[j])
  }

  /** The elements of `s` whose key is `k`, in their order in `s`. */
  function FilterKey<T>(s: seq<T>, key: T -> int, k: int): (r: seq<T>)
    ensures |r| <= |s|
    ensures forall x :: x in r ==> x in s && key(x) == k
  {
    if s == [] then []
    else (if key(s[0]) == k then [s[0]] else []) + FilterKey(s[1..], key, k)
  }

  /** Puts `x` in front of the first element whose key is at least `key(x)`. */
  function Insert<T>(x: T, s: seq<T>, key: T -> int): (r: seq<T>)
    ensures |r| == |s| + 1
  {
    if s == [] || key(x) <= key(s[0]) then [x] + s
    else [s[0]] + Insert(x, s[1..], key)
  }

  /** Insertion sort from the back: each element goes in front of the equal keys already placed after it. */
  function SortBy<T>(s: seq<T>, key: T -> int): (r: seq<T>)
    ensures |r| == |s|
  {
    if s == [] then [] else Insert(s[0], SortBy(s[1..], key), key)
  }

  lemma {:induction false} InsertElements<T>(x: T, s: seq<T>, key: T -> int)
    ensures multiset(Insert(x, s, key)) == multiset(s) + multiset{x}
    ensures forall y :: y in Insert(x, s, key) ==> y == x || y in s
  {
    if s != [] && key(x) > key(s[0]) {
      InsertElements(x, s[1..], key);
      assert s == [s[0]] + s[1..];
    }
  }

  lemma {:induction false} InsertSorted<T>(x: T, s: seq<T>, key: T -> int)
    requires SortedBy(s, key)
    ensures SortedBy(Insert(x, s, key), key)
  {
    if s != [] && key(x) > key(s[0]) {
      InsertSorted(x, s[1..], key);
      InsertElements(x, s[1..], key);
      var r := Insert(x, s[1..], key);
      forall j | 0 <= j < |r|
        ensures key(s[0]) <= key(r[j])
      {
        if r[j] != x {
          assert r[j] in s[1..];
        }
      }
    }
  }

  lemma {:induction false} InsertFilter<T>(x: T, s: seq<T>, key: T -> int, k: int)
    ensures FilterKey(Insert(x, s, key), key, k)
            == if key(x) == k then [x] + FilterKey(s, key, k) else FilterKey(s, key, k)
  {
    if s == [] || key(x) <= key(s[0]) {
      assert ([x] + s)[1..] == s;
    } else {
      InsertFilter(x, s[1..], key, k);
      assert ([s[0]] + Insert(x, s[1..], key))[1..] == Insert(x, s[1..], key);
      if key(x) == k {
        assert key(s[0]) != k;
      }
    }
  }

  /** The sort orders by key and rearranges without losing or adding elements. */
  lemma {:induction false} SortBySortedPermutation<T>(s: seq<T>, key: T -> int)
    ensures SortedBy(SortBy(s, key), key)
    ensures multiset(SortBy(s, key)) == multiset(s)
  {
    if s != [] {
      SortBySortedPermutation(s[1..], key);
      InsertSorted(s[0], SortBy(s[1..], key), key);
      InsertElements(s[0], SortBy(s[1..], key), key);
      assert s == [s[0]] + s[1..];
    }
  }

  /** Stability: the elements of each key come out in their input order. */
  lemma {:induction false} SortByStable<T>(s: seq<T>, key: T -> int, k: int)
    ensures FilterKey(SortBy(s, key), key, k) == FilterKey(s, key, k)
  {
    if s != [] {
      SortByStable(s[1..], key, k);
      InsertFilter(s[0], SortBy(s[1..], key), key, k);
    }
  }

  lemma {:induction false} FilterNonEmpty<T>(s: seq<T>, key: T -> int, k: int)
    requires FilterKey(s, key, k) != []
    ensures exists i :: 0 <= i < |s| && key(s[i]) == k
  {
    if key(s[0]) != k {
      FilterNonEmpty(s[1..], key, k);
      var i :| 0 <= i < |s[1..]| && key(s[1..][i]) == k;
      assert key(s[i + 1]) == k;
    }
  }

  lemma FilterOfHead<T>(s: seq<T>, key: T -> int)
    requires s != []
    ensures FilterKey(s, key, key(s[0])) == [s[0]] + FilterKey(s[1..], key, key(s[0]))
  {
  }

  lemma FilterOfOtherKey<T>(s: seq<T>, key: T -> int, k: int)
    requires s != [] && key(s[0]) != k
    ensures FilterKey(s, key, k) == FilterKey(s[1..], key, k)
  {
  }

  /**
   * Two sequences that are both sorted by key and agree on the order of each
   * key's elements are equal: a stable sort has exactly one possible result.
   */
  lemma {:induction false} StableSortIsUnique<T>(a: seq<T>, b: seq<T>, key: T -> int)
    requires SortedBy(a, key) && SortedBy(b, key)
    requires forall k :: FilterKey(a, key, k) == FilterKey(b, key, k)
    ensures a == b
  {
    if a == [] {
      if b != [] {
        FilterOfHead(b, key);
      }
    } else if b == [] {
      FilterOfHead(a, key);
    } else {
      SameHead(a, b, key);
      TailFilters(a, b, key);
      SortedTail(a, key);
      SortedTail(b, key);
      StableSortIsUnique(a[1..], b[1..], key);
      assert a == [a[0]] + a[1..] && b == [b[0]] + b[1..];
    }
  }

  lemma SortedTail<T>(a: seq<T>, key: T -> int)
    requires a != [] && SortedBy(a, key)
    ensures SortedBy(a[1..], key)
  {
    forall i, j | 0 <= i < j < |a| - 1
      ensures key(a[1..][i]) <= key(a[1..][j])
    {
      assert a[1..][i] == a[i + 1] && a[1..][j] == a[j + 1];
    }
  }

  /** Two sorted sequences with the same per-key orders start with the same element. */
  lemma SameHead<T>(a: seq<T>, b: seq<T>, key: T -> int)
    requires a != [] && b != [] && SortedBy(a, key) && SortedBy(b, key)
    requires forall k :: FilterKey(a, key, k) == FilterKey(b, key, k)
    ensures a[0] == b[0]
  {
    var ka, kb := key(a[0]), key(b[0]);
    FilterOfHead(a, key);
    FilterOfHead(b, key);
    FilterNonEmpty(b, key, ka);
    FilterNonEmpty(a, key, kb);
    assert ka == kb;
    assert FilterKey(a, key, ka)[0] == a[0];
  }

  /** Dropping an equal head keeps the per-key orders equal. */
  lemma TailFilters<T>(a: seq<T>, b: seq<T>, key: T -> int)
    requires a != [] && b != [] && a[0] == b[0]
    requires forall k :: FilterKey(a, key, k) == FilterKey(b, key, k)
    ensures forall k :: FilterKey(a[1..], key, k) == FilterKey(b[1..], key, k)
  {
    var ka := key(a[0]);
    forall k
      ensures FilterKey(a[1..], key, k) == FilterKey(b[1..], key, k)
    {
      if k == ka {
        FilterOfHead(a, key);
        FilterOfHead(b, key);
        assert [a[0]] + FilterKey(a[1..], key, k) == [b[0]] + FilterKey(b[1..], key, k);
        assert FilterKey(a[1..], key, k) == ([a[0]] + FilterKey(a[1..], key, k))[1..];
      } else {
        FilterOfOtherKey(a, key, k);
        FilterOfOtherKey(b, key, k);
      }
    }
  }

  /** Any sorted sequence that keeps each key's input order is the insertion sort of the input. */
  lemma StableSortCharacterisation<T>(s: seq<T>, r: seq<T>, key: T -> int)
    requires SortedBy(r, key)
    requires forall k :: FilterKey(r, key, k) == FilterKey(s, key, k)
    ensures r == SortBy(s, key)
  {
    SortBySortedPermutation(s, key);
    forall k
      ensures FilterKey(r, key, k) == FilterKey(SortBy(s, key), key, k)
    {
      SortByStable(s, key, k);
    }
    StableSortIsUnique(r, SortBy(s, key), key);
  }
}
