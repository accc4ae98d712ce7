/** The value-level theory of the grouped view: which source row is filed under
    which group, the structural edits, and the events that announce them. */
module GroupTree {
  import opened Sequences

  datatype Group = Group(key: string, title: string, srcRows: seq<nat>)

  /** Identity of a source row, independent of its current row number. */
  type RowId = nat

  // ---- filing ----------------------------------------------------------------

  ghost predicate DistinctKeys(groups: seq<Group>) {
    forall g, h :: 0 <= g < h < |groups| ==> groups[g].key != groups[h].key
  }

  ghost predicate Holds(groups: seq<Group>, key: string) {
    exists g :: 0 <= g < |groups| && groups[g].key == key
  }

  /** Each row of `filing` appears exactly once, in the one group whose key it is
      filed under, and nothing else appears anywhere. */
  ghost predicate Filed(groups: seq<Group>, filing: map<nat, string>) {
    && DistinctKeys(groups)
    && (forall g :: 0 <= g < |groups| ==> NoDuplicates(groups[g].srcRows))
    && (forall g, r: nat :: 0 <= g < |groups| ==>
          (r in groups[g].srcRows <==> r in filing && filing[r] == groups[g].key))
    && (forall r: nat :: r in filing ==> Holds(groups, filing[r]))
  }

  ghost predicate NoEmptyGroup(groups: seq<Group>) {
    forall g :: 0 <= g < |groups| ==> groups[g].srcRows != []
  }

  /** Every row r of a source whose rows have these keys, except lo <= r < hi. */
  ghost function FilingExcept(keys: seq<string>, lo: nat, hi: nat): map<nat, string> {
    map r: nat | 0 <= r < |keys| && !(lo <= r < hi) :: keys[r]
  }

  ghost function FilingOf(keys: seq<string>): map<nat, string> {
    map r: nat | 0 <= r < |keys| :: keys[r]
  }

  lemma FilingExceptNone(keys: seq<string>, n: nat)
    ensures FilingExcept(keys, n, n) == FilingOf(keys)
  {
  }

  lemma FilingExceptStep(keys: seq<string>, r: nat, end: nat)
    requires r < end && r < |keys|
    ensures r !in FilingExcept(keys, r, end)
    ensures FilingExcept(keys, r, end)[r := keys[r]] == FilingExcept(keys, r + 1, end)
  {
  }

  lemma FilingExceptLess(keys: seq<string>, first: nat, r: nat)
    requires first <= r < |keys|
    ensures r in FilingExcept(keys, first, r)
    ensures FilingExcept(keys, first, r) - {r} == FilingExcept(keys, first, r + 1)
  {
  }

  lemma FiledUnderItsKey(groups: seq<Group>, filing: map<nat, string>, g: nat, i: nat)
    requires Filed(groups, filing) && g < |groups| && i < |groups[g].srcRows|
    ensures groups[g].srcRows[i] in filing && filing[groups[g].srcRows[i]] == groups[g].key
  {
    var r := groups[g].srcRows[i];
    assert r in groups[g].srcRows;
  }

  // ---- agreement with a rebuild from scratch -----------------------------------

  /** The simple specification: every key that occurs, with the rows that have it. */
  ghost function RowsByKey(keys: seq<string>): map<string, set<nat>> {
    map k | k in keys :: set r: nat | 0 <= r < |keys| && keys[r] == k
  }

  ghost function KeySet(groups: seq<Group>): set<string> {
    set g | 0 <= g < |groups| :: groups[g].key
  }

  ghost function RowsUnder(groups: seq<Group>, k: string): set<nat> {
    set g, i | 0 <= g < |groups| && 0 <= i < |groups[g].srcRows| && groups[g].key == k :: groups[g].srcRows[i]
  }

  ghost function GroupMap(groups: seq<Group>): map<string, set<nat>> {
    map k | k in KeySet(groups) :: RowsUnder(groups, k)
  }

  /** However the groups came about, being filed by key without empty groups fixes
      the key-to-rows map completely. */
  lemma FilingDeterminesGroups(groups: seq<Group>, keys: seq<string>)
    requires Filed(groups, FilingOf(keys)) && NoEmptyGroup(groups)
    ensures GroupMap(groups) == RowsByKey(keys)
  {
    forall k ensures k in KeySet(groups) <==> k in keys {
      if k in KeySet(groups) {
        var g :| 0 <= g < |groups| && groups[g].key == k;
        FiledUnderItsKey(groups, FilingOf(keys), g, 0);
      }
      if k in keys {
        var r :| 0 <= r < |keys| && keys[r] == k;
        assert FilingOf(keys)[r] == k;
        assert Holds(groups, k);
      }
    }
    forall k | k in keys ensures RowsUnder(groups, k) == RowsByKey(keys)[k] {
      forall r: nat | r < |keys| && keys[r] == k ensures r in RowsUnder(groups, k) {
        assert FilingOf(keys)[r] == k;
        var g :| 0 <= g < |groups| && groups[g].key == k;
        assert r in groups[g].srcRows;
      }
      forall r: nat | r in RowsUnder(groups, k) ensures r in RowsByKey(keys)[k] {
        var g, i :| 0 <= g < |groups| && 0 <= i < |groups[g].srcRows| && groups[g].key == k
            && groups[g].srcRows[i] == r;
        FiledUnderItsKey(groups, FilingOf(keys), g, i);
      }
    }
  }

  /** A row stands in one place only. */
  lemma OnePlace(groups: seq<Group>, filing: map<nat, string>, g: nat, i: nat, h: nat, j: nat)
    requires Filed(groups, filing)
    requires g < |groups| && i < |groups[g].srcRows|
    requires h < |groups| && j < |groups[h].srcRows|
    requires groups[g].srcRows[i] == groups[h].srcRows[j]
    ensures g == h && i == j
  {
    var r := groups[g].srcRows[i];
    assert r in groups[g].srcRows && r in groups[h].srcRows;
    assert groups[g].key == filing[r] == groups[h].key;
  }

  // ---- structural edits ---------------------------------------------------------

  function AppendChild(groups: seq<Group>, g: nat, r: nat): seq<Group>
    requires g < |groups|
  {
    groups[g := groups[g].(srcRows := groups[g].srcRows + [r])]
  }

  function AddGroup(groups: seq<Group>, key: string, title: string, r: nat): seq<Group> {
    groups + [Group(key, title, [r])]
  }

  function RemoveChild(groups: seq<Group>, g: nat, i: nat): seq<Group>
    requires g < |groups| && i < |groups[g].srcRows|
  {
    groups[g := groups[g].(srcRows := WithoutIndex(groups[g].srcRows, i))]
  }

  function RemoveGroup(groups: seq<Group>, g: nat): (r: seq<Group>)
    requires g < |groups|
    ensures |r| == |groups| - 1
  {
    WithoutIndex(groups, g)
  }

  /** The index of the first group with this key, or the number of groups. */
  function FirstWith(groups: seq<Group>, key: string): (g: nat)
    ensures g <= |groups| && (g < |groups| ==> groups[g].key == key)
  {
    if groups == [] then 0
    else
      var n := |groups| - 1;
      var g := FirstWith(groups[..n], key);
      if g < n || groups[n].key == key then g else n + 1
  }

  /** Row r put under a key, opening a group at the end when there is none. */
  function FiledUnder(groups: seq<Group>, key: string, title: string, r: nat): seq<Group> {
    var g := FirstWith(groups, key);
    if g < |groups| then AppendChild(groups, g, r) else AddGroup(groups, key, title, r)
  }

  /** The row at (g, i) taken out, and its group with it if that was its last. */
  function Unfiled(groups: seq<Group>, g: nat, i: nat): seq<Group>
    requires g < |groups| && i < |groups[g].srcRows|
  {
    var after := RemoveChild(groups, g, i);
    if after[g].srcRows == [] then RemoveGroup(after, g) else after
  }

  ghost predicate IsAscending(rows: seq<nat>) {
    forall i, j :: 0 <= i < j < |rows| ==> rows[i] < rows[j]
  }

  /** Appending keeps the rows of a group ascending exactly when the row exceeds the last. */
  lemma AppendKeepsAscending(rows: seq<nat>, r: nat)
    requires IsAscending(rows)
    ensures IsAscending(rows + [r]) <==> rows == [] || rows[|rows| - 1] < r
  {
    var longer := rows + [r];
    if rows != [] && IsAscending(longer) {
      assert longer[|rows| - 1] < longer[|rows|];
    }
  }

  /** Moving row 0 to the group that holds row 1 leaves that group descending. */
  lemma RegroupBreaksAscending()
    ensures var groups := [Group("a", "a", [1]), Group("b", "b", [0])];
            && IsAscending(groups[0].srcRows) && IsAscending(groups[1].srcRows)
            && FiledUnder(Unfiled(groups, 1, 0), "a", "a", 0) == [Group("a", "a", [1, 0])]
            && !IsAscending([1, 0])
  {
    var groups := [Group("a", "a", [1]), Group("b", "b", [0])];
    assert WithoutIndex(groups[1].srcRows, 0) == [];
    assert RemoveChild(groups, 1, 0) == [groups[0], Group("b", "b", [])];
    assert Unfiled(groups, 1, 0) == [groups[0]];
    assert [groups[0]][..0] == [] && FirstWith([groups[0]], "a") == 0;
    assert AppendChild([groups[0]], 0, 0) == [Group("a", "a", [1, 0])] by {
      assert groups[0].srcRows + [0] == [1, 0];
    }
    assert [1, 0][0] > [1, 0][1];
  }

  lemma AppendChildFiled(groups: seq<Group>, filing: map<nat, string>, g: nat, r: nat)
    requires Filed(groups, filing) && g < |groups| && r !in filing
    ensures Filed(AppendChild(groups, g, r), filing[r := groups[g].key])
  {
    var after, filing' := AppendChild(groups, g, r), filing[r := groups[g].key];
    assert r !in groups[g].srcRows;
    forall h, x: nat | 0 <= h < |after|
      ensures x in after[h].srcRows <==> x in filing' && filing'[x] == after[h].key
    {
      assert x in groups[h].srcRows <==> x in filing && filing[x] == groups[h].key;
    }
    forall x: nat | x in filing' ensures Holds(after, filing'[x]) {
      var h :| 0 <= h < |groups| && groups[h].key == filing'[x];
      assert after[h].key == filing'[x];
    }
  }

  lemma AddGroupFiled(groups: seq<Group>, filing: map<nat, string>, key: string, title: string, r: nat)
    requires Filed(groups, filing) && !Holds(groups, key) && r !in filing
    ensures Filed(AddGroup(groups, key, title, r), filing[r := key])
  {
    var after, filing' := AddGroup(groups, key, title, r), filing[r := key];
    forall h, x: nat | 0 <= h < |after|
      ensures x in after[h].srcRows <==> x in filing' && filing'[x] == after[h].key
    {
      if h < |groups| {
        assert x in groups[h].srcRows <==> x in filing && filing[x] == groups[h].key;
      } else {
        assert x in filing ==> Holds(groups, filing[x]);
      }
    }
    forall x: nat | x in filing' ensures Holds(after, filing'[x]) {
      if x == r {
        assert after[|groups|].key == key;
      } else {
        var h :| 0 <= h < |groups| && groups[h].key == filing[x];
        assert after[h].key == filing'[x];
      }
    }
  }

  lemma RemoveChildFiled(groups: seq<Group>, filing: map<nat, string>, g: nat, i: nat)
    requires Filed(groups, filing) && g < |groups| && i < |groups[g].srcRows|
    ensures Filed(RemoveChild(groups, g, i), filing - {groups[g].srcRows[i]})
  {
    var r := groups[g].srcRows[i];
    var after, filing' := RemoveChild(groups, g, i), filing - {r};
    assert r in groups[g].srcRows;
    forall h, x: nat | 0 <= h < |after|
      ensures NoDuplicates(after[h].srcRows)
      ensures x in after[h].srcRows <==> x in filing' && filing'[x] == after[h].key
    {
      assert x in groups[h].srcRows <==> x in filing && filing[x] == groups[h].key;
      if h == g {
        WithoutIndexMembers(groups[g].srcRows, i, x);
      }
    }
    forall x: nat | x in filing' ensures Holds(after, filing'[x]) {
      var h :| 0 <= h < |groups| && groups[h].key == filing[x];
      assert after[h].key == filing'[x];
    }
  }

  lemma RemoveGroupFiled(groups: seq<Group>, filing: map<nat, string>, g: nat)
    requires Filed(groups, filing) && g < |groups| && groups[g].srcRows == []
    ensures Filed(RemoveGroup(groups, g), filing)
  {
    var after := RemoveGroup(groups, g);
    forall h, x: nat | 0 <= h < |after|
      ensures x in after[h].srcRows <==> x in filing && filing[x] == after[h].key
    {
      var h' := if h < g then h else h + 1;
      assert after[h] == groups[h'];
      assert x in groups[h'].srcRows <==> x in filing && filing[x] == groups[h'].key;
    }
    forall x: nat | x in filing ensures Holds(after, filing[x]) {
      var h :| 0 <= h < |groups| && groups[h].key == filing[x];
      assert x in groups[h].srcRows;
      assert after[if h < g then h else h - 1] == groups[h];
    }
  }

  // ---- renumbering ----------------------------------------------------------------

  function ShiftUp(rows: seq<nat>, first: nat, count: nat): (r: seq<nat>)
    ensures |r| == |rows|
  {
    seq(|rows|, i requires 0 <= i < |rows| => if rows[i] >= first then rows[i] + count else rows[i])
  }

  function ShiftDown(rows: seq<nat>, last: nat, count: nat): (r: seq<nat>)
    requires count <= last + 1
    ensures |r| == |rows|
  {
    seq(|rows|, i requires 0 <= i < |rows| => if rows[i] > last then rows[i] - count else rows[i])
  }

  function ShiftGroupsUp(groups: seq<Group>, first: nat, count: nat): (r: seq<Group>)
    ensures |r| == |groups|
  {
    seq(|groups|, g requires 0 <= g < |groups| => groups[g].(srcRows := ShiftUp(groups[g].srcRows, first, count)))
  }

  function ShiftGroupsDown(groups: seq<Group>, last: nat, count: nat): (r: seq<Group>)
    requires count <= last + 1
    ensures |r| == |groups|
  {
    seq(|groups|, g requires 0 <= g < |groups| => groups[g].(srcRows := ShiftDown(groups[g].srcRows, last, count)))
  }

  /** A sequence with a span inserted, and one with a span cut out. */
  function Spliced<T>(s: seq<T>, first: nat, inserted: seq<T>): seq<T>
    requires first <= |s|
  {
    s[..first] + inserted + s[first..]
  }

  function Cut<T>(s: seq<T>, first: nat, last: nat): seq<T>
    requires first <= last < |s|
  {
    s[..first] + s[last + 1..]
  }

  lemma ShiftUpMember(rows: seq<nat>, first: nat, count: nat, r: nat)
    ensures r in ShiftUp(rows, first, count) <==>
            (r < first && r in rows) || (r >= first + count && r - count in rows)
    ensures NoDuplicates(rows) ==> NoDuplicates(ShiftUp(rows, first, count))
  {
    var up := ShiftUp(rows, first, count);
    if r < first && r in rows {
      var i :| 0 <= i < |rows| && rows[i] == r;
      assert up[i] == r;
    }
    if r >= first + count && r - count in rows {
      var i :| 0 <= i < |rows| && rows[i] == r - count;
      assert up[i] == r;
    }
  }

  lemma ShiftGroupsUpFiled(groups: seq<Group>, keys: seq<string>, first: nat, inserted: seq<string>)
    requires first <= |keys| && Filed(groups, FilingOf(keys))
    ensures Filed(ShiftGroupsUp(groups, first, |inserted|),
                  FilingExcept(Spliced(keys, first, inserted), first, first + |inserted|))
  {
    var n := |inserted|;
    var after := ShiftGroupsUp(groups, first, n);
    var keys' := Spliced(keys, first, inserted);
    var filing := FilingExcept(keys', first, first + n);
    forall g, r: nat | 0 <= g < |after|
      ensures NoDuplicates(after[g].srcRows)
      ensures r in after[g].srcRows <==> r in filing && filing[r] == after[g].key
    {
      ShiftUpMember(groups[g].srcRows, first, n, r);
      assert r in groups[g].srcRows <==> r in FilingOf(keys) && keys[r] == groups[g].key;
      assert r >= n ==> (r - n in groups[g].srcRows <==> r - n in FilingOf(keys) && keys[r - n] == groups[g].key);
      assert first + n <= r < |keys'| ==> keys'[r] == keys[r - n];
    }
    forall r: nat | r in filing ensures Holds(after, filing[r]) {
      var r' := if r < first then r else r - n;
      assert FilingOf(keys)[r'] == filing[r];
      var h :| 0 <= h < |groups| && groups[h].key == filing[r];
      assert after[h].key == filing[r];
    }
  }

  lemma ShiftDownMember(rows: seq<nat>, first: nat, last: nat, r: nat)
    requires first <= last && forall x :: x in rows ==> !(first <= x <= last)
    ensures r in ShiftDown(rows, last, last - first + 1) <==>
            (r < first && r in rows) || (r >= first && r + (last - first + 1) in rows)
    ensures NoDuplicates(rows) ==> NoDuplicates(ShiftDown(rows, last, last - first + 1))
  {
    var n := last - first + 1;
    var down := ShiftDown(rows, last, n);
    assert forall i :: 0 <= i < |rows| ==> rows[i] in rows;
    if r < first && r in rows {
      var i :| 0 <= i < |rows| && rows[i] == r;
      assert down[i] == r;
    }
    if r >= first && r + n in rows {
      var i :| 0 <= i < |rows| && rows[i] == r + n;
      assert down[i] == r;
    }
  }

  /** Which row of the shortened source a group holds, row by row. */
  lemma ShiftedDownHolds(g: Group, keys: seq<string>, first: nat, last: nat, r: nat)
    requires first <= last < |keys| && NoDuplicates(g.srcRows)
    requires forall x: nat :: x in g.srcRows <==>
      x in FilingExcept(keys, first, last + 1) && FilingExcept(keys, first, last + 1)[x] == g.key
    ensures var rows, filing := ShiftDown(g.srcRows, last, last - first + 1), FilingOf(Cut(keys, first, last));
            NoDuplicates(rows) && (r in rows <==> r in filing && filing[r] == g.key)
  {
    var n, keys' := last - first + 1, Cut(keys, first, last);
    ShiftDownMember(g.srcRows, first, last, r);
    hide NoDuplicates, ShiftDown;
    assert first <= r < |keys'| ==> keys'[r] == keys[r + n];
    assert r < first ==> keys'[r] == keys[r];
    var before := FilingExcept(keys, first, last + 1);
    assert r in g.srcRows <==> r in before && before[r] == g.key;
    assert r + n in g.srcRows <==> r + n in before && before[r + n] == g.key;
  }

  lemma ShiftGroupsDownFiled(groups: seq<Group>, keys: seq<string>, first: nat, last: nat)
    requires first <= last < |keys| && Filed(groups, FilingExcept(keys, first, last + 1))
    ensures Filed(ShiftGroupsDown(groups, last, last - first + 1), FilingOf(Cut(keys, first, last)))
  {
    var n := last - first + 1;
    var after, before := ShiftGroupsDown(groups, last, n), FilingExcept(keys, first, last + 1);
    var keys' := Cut(keys, first, last);
    var filing := FilingOf(keys');
    forall g | 0 <= g < |after| ensures NoDuplicates(after[g].srcRows) {
      ShiftedDownHolds(groups[g], keys, first, last, 0);
    }
    forall g, r: nat | 0 <= g < |after|
      ensures r in after[g].srcRows <==> r in filing && filing[r] == after[g].key
    {
      assert after[g].srcRows == ShiftDown(groups[g].srcRows, last, n) && after[g].key == groups[g].key;
      ShiftedDownHolds(groups[g], keys, first, last, r);
    }
    forall r: nat | r in filing ensures Holds(after, filing[r]) {
      var r' := if r < first then r else r + n;
      assert r' in before && before[r'] == filing[r];
      var h :| 0 <= h < |groups| && groups[h].key == before[r'];
      assert after[h].key == filing[r];
    }
  }

  // ---- the reverse index ------------------------------------------------------------

  /** index[r] is where row r stands, for exactly the rows that stand somewhere. */
  ghost predicate IsInverse(index: map<nat, (nat, nat)>, groups: seq<Group>) {
    && (forall g, i :: 0 <= g < |groups| && 0 <= i < |groups[g].srcRows| ==>
          groups[g].srcRows[i] in index && index[groups[g].srcRows[i]] == (g, i))
    && (forall r: nat :: r in index ==>
          index[r].0 < |groups| && index[r].1 < |groups[index[r].0].srcRows|
          && groups[index[r].0].srcRows[index[r].1] == r)
  }

  lemma InverseCoversFiling(index: map<nat, (nat, nat)>, groups: seq<Group>, filing: map<nat, string>)
    requires IsInverse(index, groups) && Filed(groups, filing)
    ensures index.Keys == filing.Keys
    ensures forall r: nat :: r in index ==> groups[index[r].0].key == filing[r]
  {
    forall r: nat | r in filing ensures r in index {
      var g :| 0 <= g < |groups| && groups[g].key == filing[r];
      assert r in groups[g].srcRows;
      var i :| 0 <= i < |groups[g].srcRows| && groups[g].srcRows[i] == r;
    }
    forall r: nat | r in index ensures r in filing && groups[index[r].0].key == filing[r] {
      assert r in groups[index[r].0].srcRows;
    }
  }
}
