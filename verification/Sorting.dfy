/** The two library sorts the program calls. Both are specified by what the C++
    standard promises of std::sort and std::partial_sort -- a permutation in
    comparator order, ties in any order -- and callers use nothing else. */
module Sorting {

  /** What std::sort demands of its comparator. */
  ghost predicate StrictWeak<T(!new)>(before: (T, T) -> bool) {
    && (forall a, b :: before(a, b) ==> !before(b, a))
    && (forall a, b, c :: before(a, c) ==> before(a, b) || before(b, c))
  }

  /** No element stands after one it should precede. */
  ghost predicate Ordered<T>(s: seq<T>, before: (T, T) -> bool) {
    forall i, j :: 0 <= i < j < |s| ==> !before(s[j], s[i])
  }

  ghost predicate IsSortOf<T(!new)>(before: (T, T) -> bool, s: seq<T>, r: seq<T>) {
    multiset(r) == multiset(s) && Ordered(r, before)
  }

  /** The first n are in order and none of the rest should precede any of them. */
  ghost predicate IsPartialSortOf<T(!new)>(before: (T, T) -> bool, n: nat, s: seq<T>, r: seq<T>) {
    && multiset(r) == multiset(s)
    && |r| == |s|
    && n <= |r|
    && Ordered(r[..n], before)
    && forall i, j :: 0 <= i < n <= j < |r| ==> !before(r[j], r[i])
  }

  lemma SameLength<T>(s: seq<T>, r: seq<T>)
    requires multiset(s) == multiset(r)
    ensures |s| == |r|
  {
    assert |s| == |multiset(s)| == |multiset(r)| == |r|;
  }

  lemma SameElements<T>(s: seq<T>, r: seq<T>, x: T)
    requires multiset(s) == multiset(r)
    ensures x in s <==> x in r
  {
    assert x in s <==> x in multiset(s);
    assert x in r <==> x in multiset(r);
  }

  /** Placing x at k keeps the order when it belongs neither before the elements
      in front of it nor after the ones behind it. */
  lemma InsertKeepsOrder<T>(s: seq<T>, k: nat, x: T, before: (T, T) -> bool)
    requires Ordered(s, before) && k <= |s|
    requires forall i :: 0 <= i < k ==> !before(x, s[i])
    requires forall j :: k <= j < |s| ==> !before(s[j], x)
    ensures Ordered(s[..k] + [x] + s[k..], before)
  {
    var r := s[..k] + [x] + s[k..];
    forall i, j | 0 <= i < j < |r| ensures !before(r[j], r[i]) {
      var p, q := if i < k then i else i - 1, if j < k then j else j - 1;
      if i != k && j != k {
        assert r[i] == s[p] && r[j] == s[q];
      }
    }
  }

  lemma NotBefore<T(!new)>(before: (T, T) -> bool, a: T, b: T, c: T)
    requires StrictWeak(before)
    requires !before(a, b) && (b == c || !before(b, c))
    ensures !before(a, c)
  {
  }

  method Insert<T(!new)>(s: seq<T>, x: T, before: (T, T) -> bool) returns (r: seq<T>)
    requires StrictWeak(before)
    requires Ordered(s, before)
    ensures IsSortOf(before, s + [x], r)
  {
    var k := |s|;
    while k > 0 && before(x, s[k - 1])
      invariant 0 <= k <= |s|
      invariant forall j :: k <= j < |s| ==> !before(s[j], x)
    {
      k := k - 1;
    }
    forall i | 0 <= i < k ensures !before(x, s[i]) {
      NotBefore(before, x, s[k - 1], s[i]);
    }
    InsertKeepsOrder(s, k, x, before);
    r := s[..k] + [x] + s[k..];
    assert s == s[..k] + s[k..];
  }

  method Sort<T(!new)>(s: seq<T>, before: (T, T) -> bool) returns (r: seq<T>)
    requires StrictWeak(before)
    ensures IsSortOf(before, s, r)
  {
    r := [];
    for i := 0 to |s|
      invariant IsSortOf(before, s[..i], r)
    {
      var r' := Insert(r, s[i], before);
      assert s[..i + 1] == s[..i] + [s[i]];
      r := r';
    }
    assert s[..|s|] == s;
  }

  method PartialSort<T(!new)>(s: seq<T>, n: nat, before: (T, T) -> bool) returns (r: seq<T>)
    requires StrictWeak(before)
    requires n <= |s|
    ensures IsPartialSortOf(before, n, s, r)
  {
    r := Sort(s, before);
    SameLength(s, r);
  }
}
