/** Group-header byte totals: 64-bit sums that add up to the flat total. */
module GroupTotals {
  import opened Connections
  import opened Sequences
  import opened GroupTree
  import opened SortRoles

  method AggregateBytes(src: seq<SourceRow>, g: Group) returns (rxBytes: nat, txBytes: nat)
    ensures rxBytes == SumNat(g.srcRows, RxBytesAt(src)) % TWO64 == ByteSum(src, g.srcRows, true) % TWO64
    ensures txBytes == SumNat(g.srcRows, TxBytesAt(src)) % TWO64 == ByteSum(src, g.srcRows, false) % TWO64
  {
    ByteSumExactly(src, g.srcRows);
    rxBytes, txBytes := 0, 0;
    for i := 0 to |g.srcRows|
      invariant rxBytes == SumNat(g.srcRows[..i], RxBytesAt(src)) % TWO64
      invariant txBytes == SumNat(g.srcRows[..i], TxBytesAt(src)) % TWO64
    {
      var r := g.srcRows[i];
      assert g.srcRows[..i + 1][..i] == g.srcRows[..i];
      AddWraps(SumNat(g.srcRows[..i], RxBytesAt(src)), RxBytesAt(src)(r));
      AddWraps(SumNat(g.srcRows[..i], TxBytesAt(src)), TxBytesAt(src)(r));
      rxBytes := (rxBytes + RxBytesAt(src)(r)) % TWO64;
      txBytes := (txBytes + TxBytesAt(src)(r)) % TWO64;
    }
    assert g.srcRows[..|g.srcRows|] == g.srcRows;
  }

  lemma AddWraps(a: nat, b: nat)
    ensures (a % TWO64 + b) % TWO64 == (a + b) % TWO64
  {
  }

  lemma WrapsAlike(x: nat, z: nat, y: nat)
    requires x % TWO64 == z % TWO64
    ensures (x + y % TWO64) % TWO64 == (z + y) % TWO64
  {
    AddWraps(x, y % TWO64);
    AddWraps(z, y % TWO64);
    AddWraps(y, z);
  }

  function Range(n: nat): seq<nat> {
    seq(n, i => i)
  }

  function Flatten(groups: seq<Group>): seq<nat> {
    if groups == [] then [] else Flatten(groups[..|groups| - 1]) + groups[|groups| - 1].srcRows
  }

  function SumOfHeaders(groups: seq<Group>, f: nat -> nat): nat {
    if groups == [] then 0
    else SumOfHeaders(groups[..|groups| - 1], f) + SumNat(groups[|groups| - 1].srcRows, f) % TWO64
  }

  lemma {:induction false} SumConcat(a: seq<nat>, b: seq<nat>, f: nat -> nat)
    ensures SumNat(a + b, f) == SumNat(a, f) + SumNat(b, f)
  {
    if b == [] {
      assert a + b == a;
    } else {
      SumConcat(a, b[..|b| - 1], f);
      assert (a + b)[..|a + b| - 1] == a + b[..|b| - 1];
    }
  }

  lemma SumTakenOut(b: seq<nat>, i: nat, f: nat -> nat)
    requires i < |b|
    ensures SumNat(b, f) == SumNat(WithoutIndex(b, i), f) + f(b[i])
  {
    hide SumNat;
    var front, one, back := b[..i], [b[i]], b[i + 1..];
    assert b == front + one + back;
    SumConcat(front + one, back, f);
    SumConcat(front, one, f);
    SumConcat(front, back, f);
    SumOfOne(b[i], f);
  }

  lemma SumOfOne(x: nat, f: nat -> nat)
    ensures SumNat([x], f) == f(x)
  {
    assert [x][..0] == [];
  }

  lemma {:induction false} SumPermutation(a: seq<nat>, b: seq<nat>, f: nat -> nat)
    requires multiset(a) == multiset(b)
    ensures SumNat(a, f) == SumNat(b, f)
  {
    if a == [] {
      assert |multiset(b)| == 0;
    } else {
      var last := |a| - 1;
      assert a[last] in multiset(b);
      var i :| 0 <= i < |b| && b[i] == a[last];
      TakeOut(a, last);
      TakeOut(b, i);
      SumPermutation(WithoutIndex(a, last), WithoutIndex(b, i), f);
      SumTakenOut(a, last, f);
      SumTakenOut(b, i, f);
    }
  }

  /** Each header adds what it shows, a 64-bit value. */
  lemma HeaderAdds(groups: seq<Group>, g: Group, f: nat -> nat)
    ensures SumOfHeaders(groups + [g], f) == SumOfHeaders(groups, f) + SumNat(g.srcRows, f) % TWO64
  {
    assert (groups + [g])[..|groups|] == groups;
  }

  lemma {:induction false} HeadersSumFlattened(groups: seq<Group>, f: nat -> nat)
    ensures SumOfHeaders(groups, f) % TWO64 == SumNat(Flatten(groups), f) % TWO64
  {
    if groups != [] {
      var front, last := groups[..|groups| - 1], groups[|groups| - 1];
      HeadersSumFlattened(front, f);
      SumConcat(Flatten(front), last.srcRows, f);
      WrapsAlike(SumOfHeaders(front, f), SumNat(Flatten(front), f), SumNat(last.srcRows, f));
    }
  }

  lemma {:induction false} FlattenMembers(groups: seq<Group>, n: nat, r: nat)
    requires n <= |groups|
    ensures r in Flatten(groups[..n]) <==> exists g :: 0 <= g < n && r in groups[g].srcRows
  {
    if n != 0 {
      FlattenMembers(groups, n - 1, r);
      assert groups[..n][..n - 1] == groups[..n - 1];
    }
  }

  lemma {:induction false} FlattenNoDuplicates(groups: seq<Group>, filing: map<nat, string>, n: nat)
    requires Filed(groups, filing) && n <= |groups|
    ensures NoDuplicates(Flatten(groups[..n]))
  {
    if n != 0 {
      FlattenNoDuplicates(groups, filing, n - 1);
      assert groups[..n][..n - 1] == groups[..n - 1];
      var front, last := Flatten(groups[..n - 1]), groups[n - 1].srcRows;
      forall i, j | 0 <= i < |front| && 0 <= j < |last| ensures front[i] != last[j] {
        if front[i] == last[j] {
          FlattenMembers(groups, n - 1, front[i]);
          var g :| 0 <= g < n - 1 && front[i] in groups[g].srcRows;
          var k :| 0 <= k < |groups[g].srcRows| && groups[g].srcRows[k] == front[i];
          OnePlace(groups, filing, g, k, n - 1, j);
        }
      }
    }
  }

  lemma FilingBounds(groups: seq<Group>, keys: seq<string>, g: nat, r: nat)
    requires Filed(groups, FilingOf(keys)) && g < |groups| && r in groups[g].srcRows
    ensures r < |keys|
  {
    var i :| 0 <= i < |groups[g].srcRows| && groups[g].srcRows[i] == r;
    FiledUnderItsKey(groups, FilingOf(keys), g, i);
  }

  /** The groups hold each source row once, so they flatten to a permutation of it. */
  lemma FlattenIsAllRows(groups: seq<Group>, keys: seq<string>)
    requires Filed(groups, FilingOf(keys))
    ensures multiset(Flatten(groups)) == multiset(Range(|keys|))
  {
    var flat, all := Flatten(groups), Range(|keys|);
    assert groups[..|groups|] == groups;
    FlattenNoDuplicates(groups, FilingOf(keys), |groups|);
    forall r: nat ensures r in flat <==> r in all {
      FlattenMembers(groups, |groups|, r);
      if r in flat {
        var g :| 0 <= g < |groups| && r in groups[g].srcRows;
        FilingBounds(groups, keys, g, r);
        assert all[r] == r;
      }
      if r in all {
        assert r in FilingOf(keys);
        var g :| 0 <= g < |groups| && groups[g].key == keys[r];
        assert r in groups[g].srcRows;
      }
    }
    SameMembers(flat, all);
  }

  /** Header totals add up, modulo 2^64, to the total over all source rows. */
  lemma HeaderTotalsConserve(groups: seq<Group>, keys: seq<string>, f: nat -> nat)
    requires Filed(groups, FilingOf(keys))
    ensures SumOfHeaders(groups, f) % TWO64 == SumNat(Range(|keys|), f) % TWO64
  {
    FlattenIsAllRows(groups, keys);
    SumPermutation(Flatten(groups), Range(|keys|), f);
    HeadersSumFlattened(groups, f);
  }
}
