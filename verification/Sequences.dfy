/** Facts about sequences and permutations used throughout. */
module Sequences {

  ghost predicate NoDuplicates<T>(s: seq<T>) {
    forall i, j :: 0 <= i < j < |s| ==> s[i] != s[j]
  }

  function WithoutIndex<T>(s: seq<T>, i: nat): seq<T>
    requires i < |s|
  {
    s[..i] + s[i + 1..]
  }

  lemma WithoutIndexMembers<T>(s: seq<T>, i: nat, x: T)
    requires i < |s| && NoDuplicates(s)
    ensures NoDuplicates(WithoutIndex(s, i))
    ensures x in WithoutIndex(s, i) <==> x in s && x != s[i]
  {
    var t := WithoutIndex(s, i);
    if x in s && x != s[i] {
      var k :| 0 <= k < |s| && s[k] == x;
      assert t[if k < i then k else k - 1] == x;
    }
  }

  function MapSeq<A, B>(f: A -> B, s: seq<A>): (r: seq<B>)
    ensures |r| == |s|
  {
    seq(|s|, i requires 0 <= i < |s| => f(s[i]))
  }

  lemma TakeOut<T>(t: seq<T>, i: nat)
    requires i < |t|
    ensures multiset(t) == multiset(WithoutIndex(t, i)) + multiset{t[i]}
    ensures multiset(WithoutIndex(t, i)) == multiset(t) - multiset{t[i]}
  {
    assert t == t[..i] + [t[i]] + t[i + 1..];
  }

  lemma MapTakeOut<A, B>(f: A -> B, t: seq<A>, i: nat)
    requires i < |t|
    ensures multiset(MapSeq(f, t)) == multiset(MapSeq(f, WithoutIndex(t, i))) + multiset{f(t[i])}
  {
    TakeOut(MapSeq(f, t), i);
    assert WithoutIndex(MapSeq(f, t), i) == MapSeq(f, WithoutIndex(t, i));
  }

  lemma {:induction false} MapKeepsPermutation<A, B>(f: A -> B, s: seq<A>, t: seq<A>)
    requires multiset(s) == multiset(t)
    ensures multiset(MapSeq(f, s)) == multiset(MapSeq(f, t))
  {
    if s == [] {
      assert |multiset(t)| == 0;
    } else {
      assert s[0] in multiset(t);
      var i :| 0 <= i < |t| && t[i] == s[0];
      TakeOut(s, 0);
      TakeOut(t, i);
      MapTakeOut(f, s, 0);
      MapTakeOut(f, t, i);
      MapKeepsPermutation(f, WithoutIndex(s, 0), WithoutIndex(t, i));
    }
  }

  lemma CountInNoDuplicates<T>(s: seq<T>)
    ensures NoDuplicates(s) <==> forall x :: x in s ==> multiset(s)[x] == 1
  {
    if s != [] {
      var last := s[|s| - 1];
      var front := s[..|s| - 1];
      CountInNoDuplicates(front);
      assert s == front + [last];
      if NoDuplicates(s) {
        assert last !in front;
        forall x | x in s ensures multiset(s)[x] == 1 {
          assert x in front || x == last;
        }
      }
      if forall x :: x in s ==> multiset(s)[x] == 1 {
        assert multiset(s) == multiset(front) + multiset{last};
        assert last in s;
        assert multiset(front)[last] == 0;
        forall x | x in front ensures multiset(front)[x] == 1 {
          assert x in s;
        }
      }
    }
  }

  lemma PermutationNoDuplicates<T>(s: seq<T>, t: seq<T>)
    requires multiset(s) == multiset(t) && NoDuplicates(s)
    ensures NoDuplicates(t)
    ensures forall x :: x in s <==> x in t
  {
    CountInNoDuplicates(s);
    CountInNoDuplicates(t);
    forall x ensures x in s <==> x in t {
      assert x in s <==> x in multiset(s);
      assert x in t <==> x in multiset(t);
    }
  }

  lemma SameMembers<T>(s: seq<T>, t: seq<T>)
    requires NoDuplicates(s) && NoDuplicates(t)
    requires forall x :: x in s <==> x in t
    ensures multiset(s) == multiset(t)
  {
    CountInNoDuplicates(s);
    CountInNoDuplicates(t);
    forall x ensures multiset(s)[x] == multiset(t)[x] {
      assert x in s <==> x in multiset(s);
      assert x in t <==> x in multiset(t);
    }
  }
}
