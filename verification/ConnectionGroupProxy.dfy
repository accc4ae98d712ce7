/** The grouped view kept up to date incrementally: groups, reverse index,
    structural events and persistent indexes. */
module ConnectionGroups {
  import opened Sequences
  import opened Connections
  import opened GroupKeys
  import opened GroupTree
  import opened GroupEvents
  import opened SortRoles
  import opened Sorting
  import opened GroupTotals

  function KeysOf(mode: ViewMode, src: seq<SourceRow>): (keys: seq<string>)
    ensures |keys| == |src|
  {
    seq(|src|, r requires 0 <= r < |src| => GroupKey(mode, src[r].conn))
  }

  lemma KeyOfRow(mode: ViewMode, src: seq<SourceRow>, r: nat)
    requires r < |src|
    ensures KeysOf(mode, src)[r] == GroupKey(mode, src[r].conn)
  {
  }

  lemma KeysOfSpliced(mode: ViewMode, src: seq<SourceRow>, first: nat, rows: seq<SourceRow>)
    requires first <= |src|
    ensures KeysOf(mode, Spliced(src, first, rows)) == Spliced(KeysOf(mode, src), first, KeysOf(mode, rows))
  {
  }

  lemma KeysOfChanged(mode: ViewMode, src: seq<SourceRow>, top: nat, rows: seq<SourceRow>)
    requires top + |rows| <= |src|
    ensures var was, keys := KeysOf(mode, src), KeysOf(mode, src[..top] + rows + src[top + |rows|..]);
            && keys[..top] == was[..top] && keys[top + |rows|..] == was[top + |rows|..]
            && ((forall i :: 0 <= i < |rows| ==> rows[i].conn == src[top + i].conn) ==> keys == was)
  {
  }

  lemma KeysOfCut(mode: ViewMode, src: seq<SourceRow>, first: nat, last: nat)
    requires first <= last < |src|
    ensures KeysOf(mode, Cut(src, first, last)) == Cut(KeysOf(mode, src), first, last)
  {
  }

  datatype ModelIndex =
    | NoIndex
    | GroupIndex(row: nat, col: nat)
    | ChildIndex(row: nat, col: nat, group: nat)

  /** What an index denotes, said without coordinates. */
  datatype Name = Nowhere | GroupName(key: string, col: nat) | ChildName(key: string, srcRow: nat, col: nat)

  function NameOf(groups: seq<Group>, p: ModelIndex): Name {
    match p
    case NoIndex => Nowhere
    case GroupIndex(row, col) => if row < |groups| then GroupName(groups[row].key, col) else Nowhere
    case ChildIndex(row, col, g) =>
      if g < |groups| && row < |groups[g].srcRows|
      then ChildName(groups[g].key, groups[g].srcRows[row], col) else Nowhere
  }

  /** Every group has a title that fits its key. */
  ghost predicate Titled(mode: ViewMode, groups: seq<Group>) {
    forall g :: 0 <= g < |groups| ==> TitleFits(mode, groups[g].key, groups[g].title)
  }

  lemma OwnTitleFits(mode: ViewMode, c: Connection)
    ensures TitleFits(mode, GroupKey(mode, c), GroupTitle(mode, c))
  {
    hide GroupKey, GroupTitle;
  }

  lemma TitledRows(mode: ViewMode, a: seq<Group>, b: seq<Group>)
    requires Titled(mode, a) && |a| == |b|
    requires forall g :: 0 <= g < |a| ==> b[g].key == a[g].key && b[g].title == a[g].title
    ensures Titled(mode, b)
  {
    hide TitleFits;
  }

  lemma TitledUnfiled(mode: ViewMode, groups: seq<Group>, g: nat, i: nat)
    requires Titled(mode, groups) && g < |groups| && i < |groups[g].srcRows|
    ensures Titled(mode, RemoveChild(groups, g, i))
  {
    hide TitleFits, WithoutIndex;
  }

  lemma TitledWithout(mode: ViewMode, groups: seq<Group>, g: nat)
    requires Titled(mode, groups) && g < |groups|
    ensures Titled(mode, RemoveGroup(groups, g))
  {
    hide TitleFits;
    var after := RemoveGroup(groups, g);
    forall h | 0 <= h < |after| ensures TitleFits(mode, after[h].key, after[h].title) {
      assert after[h] == groups[if h < g then h else h + 1];
    }
  }

  lemma TitledFiled(mode: ViewMode, groups: seq<Group>, c: Connection, r: nat)
    requires Titled(mode, groups)
    ensures Titled(mode, FiledUnder(groups, GroupKey(mode, c), GroupTitle(mode, c), r))
  {
    hide GroupKey, GroupTitle, FirstWith;
    assert TitleFits(mode, GroupKey(mode, c), GroupTitle(mode, c));
    hide TitleFits;
  }

  lemma TitledAnew(mode: ViewMode, groups: seq<Group>, g: nat, c: Connection)
    requires Titled(mode, groups) && g < |groups| && groups[g].key == GroupKey(mode, c)
    ensures Titled(mode, groups[g := groups[g].(title := GroupTitle(mode, c))])
  {
    hide GroupKey, GroupTitle;
    OwnTitleFits(mode, c);
    hide TitleFits;
  }

  lemma TitledSorted(mode: ViewMode, groups: seq<Group>, mid: seq<Group>, sorted: seq<Group>)
    requires Titled(mode, groups) && ChildrenPermuted(groups, mid) && multiset(mid) == multiset(sorted)
    ensures Titled(mode, sorted)
  {
    hide TitleFits;
    TitledRows(mode, groups, mid);
    forall g | 0 <= g < |sorted| ensures TitleFits(mode, sorted[g].key, sorted[g].title) {
      assert sorted[g] in multiset(mid);
      var h :| 0 <= h < |mid| && mid[h] == sorted[g];
    }
  }

  /** What a view shows at an index: a group by its key, or a child by the identity of its row. */
  datatype Shown = ShownGroup(key: string, col: nat) | ShownChild(key: string, id: RowId, col: nat)

  ghost function ShownAt(groups: seq<Group>, ids: seq<RowId>, p: ModelIndex): Option<Shown> {
    match NameOf(groups, p)
    case Nowhere => None
    case GroupName(key, col) => Some(ShownGroup(key, col))
    case ChildName(key, r, col) => Some(ShownChild(key, IdAt(ids, r), col))
  }

  /** Groups and rows may have been added at the ends; what was there stands where it stood. */
  ghost predicate OnlyAppended(a: seq<Group>, b: seq<Group>) {
    |a| <= |b| && forall g :: 0 <= g < |a| ==> b[g].key == a[g].key && a[g].srcRows <= b[g].srcRows
  }

  lemma FiledUnderAppends(groups: seq<Group>, key: string, title: string, r: nat)
    ensures OnlyAppended(groups, FiledUnder(groups, key, title, r))
  {
  }

  lemma AppendedTwice(a: seq<Group>, b: seq<Group>, c: seq<Group>)
    requires OnlyAppended(a, b) && OnlyAppended(b, c)
    ensures OnlyAppended(a, c)
  {
    forall g | 0 <= g < |a| ensures c[g].key == a[g].key && a[g].srcRows <= c[g].srcRows {
      assert a[g].srcRows <= b[g].srcRows && b[g].srcRows <= c[g].srcRows;
    }
  }

  /** Appending shows the same at every index that showed something. */
  lemma AppendedShows(a: seq<Group>, b: seq<Group>, ids: seq<RowId>, p: ModelIndex)
    requires OnlyAppended(a, b) && ShownAt(a, ids, p).Some?
    ensures ShownAt(b, ids, p) == ShownAt(a, ids, p)
  {
  }

  /** So does renumbering the rows along with their identities. */
  lemma RenumberedShows(a: seq<Group>, ids: seq<RowId>, b: seq<Group>, ids': seq<RowId>, p: ModelIndex)
    requires SameKeyOrder(a, b) && TreeOf(a, ids) == TreeOf(b, ids')
    ensures ShownAt(b, ids', p) == ShownAt(a, ids, p)
  {
    if p.ChildIndex? && p.group < |a| {
      assert TreeOf(a, ids)[p.group] == TreeOf(b, ids')[p.group];
      assert ChildrenOf(a[p.group].srcRows, ids) == ChildrenOf(b[p.group].srcRows, ids');
      if p.row < |a[p.group].srcRows| {
        assert ChildrenOf(a[p.group].srcRows, ids)[p.row] == ChildrenOf(b[p.group].srcRows, ids')[p.row];
      }
    }
  }

  /** The held indexes show what they showed. */
  ghost predicate HeldStill(a: seq<Group>, ids: seq<RowId>, held: seq<ModelIndex>,
                            b: seq<Group>, ids': seq<RowId>, held': seq<ModelIndex>)
  {
    && |held'| == |held|
    && forall i :: 0 <= i < |held| && ShownAt(a, ids, held[i]).Some? ==>
         ShownAt(b, ids', held'[i]) == ShownAt(a, ids, held[i])
  }

  /** The three stages of an insertion, as seen through the held indexes. */
  lemma InsertionHoldsStill(a: seq<Group>, ids: seq<RowId>, shifted: seq<Group>, filed: seq<Group>, ids': seq<RowId>,
                            sorted: seq<Group>, held: seq<ModelIndex>, held': seq<ModelIndex>)
    requires SameKeyOrder(a, shifted) && TreeOf(a, ids) == TreeOf(shifted, ids') && OnlyAppended(shifted, filed)
    requires |held'| == |held|
    requires forall i :: 0 <= i < |held| ==> NameOf(sorted, held'[i]) == NameOf(filed, held[i])
    ensures HeldStill(a, ids, held, sorted, ids', held')
  {
    hide NameOf, TreeOf, OnlyAppended, SameKeyOrder;
    forall i | 0 <= i < |held| && ShownAt(a, ids, held[i]).Some?
      ensures ShownAt(sorted, ids', held'[i]) == ShownAt(a, ids, held[i])
    {
      RenumberedShows(a, ids, shifted, ids', held[i]);
      AppendedShows(shifted, filed, ids', held[i]);
    }
  }

  /** The state a completed sort leaves: children in order within every group,
      and groups in order too unless sorting stays within groups. */
  ghost predicate Arranged(groups: seq<Group>, src: seq<SourceRow>, col: Column, order: SortOrder, within: bool) {
    && (forall g :: 0 <= g < |groups| ==> Ordered(groups[g].srcRows, RowBefore(src, col, order)))
    && (!within ==> Ordered(groups, GroupBefore(src, col, order)))
  }

  /** The outcome of sorting, by way of the groups with only their children sorted. */
  ghost predicate SortOutcome(groups: seq<Group>, mid: seq<Group>, sorted: seq<Group>,
                              src: seq<SourceRow>, col: Column, order: SortOrder, within: bool)
  {
    && ChildrenPermuted(groups, mid)
    && multiset(mid) == multiset(sorted)
    && (within ==> sorted == mid)
    && Arranged(sorted, src, col, order, within)
  }

  method SortGroups(groups: seq<Group>, src: seq<SourceRow>, col: Column, order: SortOrder, within: bool)
    returns (sorted: seq<Group>)
    ensures exists mid :: SortOutcome(groups, mid, sorted, src, col, order, within)
  {
    ComparatorsAreStrictWeak(src, col, order);
    sorted := groups;
    for g := 0 to |groups|
      invariant |sorted| == |groups|
      invariant forall h :: 0 <= h < g ==>
        && sorted[h].key == groups[h].key && sorted[h].title == groups[h].title
        && IsSortOf(RowBefore(src, col, order), groups[h].srcRows, sorted[h].srcRows)
      invariant forall h :: g <= h < |groups| ==> sorted[h] == groups[h]
    {
      var rows := Sort(groups[g].srcRows, RowBefore(src, col, order));
      sorted := sorted[g := sorted[g].(srcRows := rows)];
    }
    ghost var mid := sorted;
    if !within {
      sorted := Sort(sorted, GroupBefore(src, col, order));
      forall g | 0 <= g < |sorted| ensures Ordered(sorted[g].srcRows, RowBefore(src, col, order)) {
        assert sorted[g] in multiset(mid);
        var h :| 0 <= h < |mid| && mid[h] == sorted[g];
      }
    }
    assert SortOutcome(groups, mid, sorted, src, col, order, within);
  }

  method IndexOf(rows: seq<nat>, r: nat) returns (i: int)
    ensures i == -1 ==> r !in rows
    ensures i != -1 ==> 0 <= i < |rows| && rows[i] == r
  {
    for k := 0 to |rows|
      invariant r !in rows[..k]
    {
      if rows[k] == r { return k; }
    }
    return -1;
  }

  /** index finds the group of every key. */
  ghost predicate FindsGroups(index: map<string, nat>, groups: seq<Group>) {
    && (forall k :: k in index ==> index[k] < |groups| && groups[index[k]].key == k)
    && (forall g :: 0 <= g < |groups| ==> groups[g].key in index)
  }

  /** Put row r under `key`, opening a group when there is none yet. */
  method PlaceRow(groups: seq<Group>, index: map<string, nat>, key: string, title: string, r: nat,
                  ghost filing: map<nat, string>)
    returns (groups': seq<Group>, index': map<string, nat>)
    requires Filed(groups, filing) && NoEmptyGroup(groups) && r !in filing
    requires FindsGroups(index, groups)
    ensures Filed(groups', filing[r := key]) && NoEmptyGroup(groups')
    ensures FindsGroups(index', groups')
    ensures forall mode :: Titled(mode, groups) && TitleFits(mode, key, title) ==> Titled(mode, groups')
  {
    hide TitleFits;
    if key !in index {
      AddGroupFiled(groups, filing, key, title, r);
      index' := index[key := |groups|];
      groups' := AddGroup(groups, key, title, r);
    } else {
      AppendChildFiled(groups, filing, index[key], r);
      index' := index;
      groups' := AppendChild(groups, index[key], r);
    }
  }

  lemma NothingFiled(keys: seq<string>)
    ensures Filed([], FilingOf(keys[..0]))
  {
  }

  lemma FilingOfStep(keys: seq<string>, r: nat)
    requires r < |keys|
    ensures r !in FilingOf(keys[..r])
    ensures FilingOf(keys[..r])[r := keys[r]] == FilingOf(keys[..r + 1])
  {
  }

  /** Grouping from scratch: every row under its key, groups in order of first row. */
  method GroupByKey(mode: ViewMode, src: seq<SourceRow>) returns (groups: seq<Group>)
    ensures Filed(groups, FilingOf(KeysOf(mode, src))) && NoEmptyGroup(groups) && Titled(mode, groups)
  {
    ghost var keys := KeysOf(mode, src);
    groups := [];
    var keyToIdx: map<string, nat> := map[];
    NothingFiled(keys);
    for r := 0 to |src|
      invariant Filed(groups, FilingOf(keys[..r])) && NoEmptyGroup(groups) && Titled(mode, groups)
      invariant FindsGroups(keyToIdx, groups)
    {
      OwnTitleFits(mode, src[r].conn);
      hide Titled, TitleFits, Filed, NoEmptyGroup, FindsGroups;
      var key := GroupKey(mode, src[r].conn);
      FilingOfStep(keys, r);
      groups, keyToIdx := PlaceRow(groups, keyToIdx, key, GroupTitle(mode, src[r].conn), r, FilingOf(keys[..r]));
    }
    assert keys[..|src|] == keys;
  }

  /** Record where the rows of group g stand. */
  method IndexGroup(index: map<nat, (nat, nat)>, groups: seq<Group>, g: nat, ghost filing: map<nat, string>)
    returns (r: map<nat, (nat, nat)>)
    requires Filed(groups, filing) && g < |groups| && IsInverse(index, groups[..g])
    ensures IsInverse(r, groups[..g + 1])
  {
    var rows := groups[g].srcRows;
    ghost var done := groups[..g];
    r := index;
    IndexNoneYet(index, done, groups[g]);
    for i := 0 to |rows|
      invariant IsInverse(r, done + [groups[g].(srcRows := rows[..i])])
    {
      RowIsNew(groups, filing, g, i);
      IndexOneMore(r, done, groups[g], i);
      r := r[rows[i] := (g, i)];
    }
    assert rows[..|rows|] == rows;
    assert done + [groups[g]] == groups[..g + 1];
  }

  lemma IndexNoneYet(index: map<nat, (nat, nat)>, done: seq<Group>, g: Group)
    requires IsInverse(index, done)
    ensures IsInverse(index, done + [g.(srcRows := g.srcRows[..0])])
  {
    var b := done + [g.(srcRows := g.srcRows[..0])];
    assert forall h :: 0 <= h < |done| ==> b[h] == done[h];
  }

  lemma RowIsNew(groups: seq<Group>, filing: map<nat, string>, g: nat, i: nat)
    requires Filed(groups, filing) && g < |groups| && i < |groups[g].srcRows|
    ensures forall h, j :: 0 <= h < g && 0 <= j < |groups[h].srcRows| ==> groups[h].srcRows[j] != groups[g].srcRows[i]
    ensures groups[g].srcRows[i] !in groups[g].srcRows[..i]
  {
    forall h, j | 0 <= h < g && 0 <= j < |groups[h].srcRows| ensures groups[h].srcRows[j] != groups[g].srcRows[i] {
      if groups[h].srcRows[j] == groups[g].srcRows[i] {
        OnePlace(groups, filing, h, j, g, i);
      }
    }
  }

  lemma IndexOneMore(index: map<nat, (nat, nat)>, done: seq<Group>, g: Group, i: nat)
    requires i < |g.srcRows|
    requires IsInverse(index, done + [g.(srcRows := g.srcRows[..i])])
    requires forall h, j :: 0 <= h < |done| && 0 <= j < |done[h].srcRows| ==> done[h].srcRows[j] != g.srcRows[i]
    requires g.srcRows[i] !in g.srcRows[..i]
    ensures IsInverse(index[g.srcRows[i] := (|done|, i)], done + [g.(srcRows := g.srcRows[..i + 1])])
  {
    var a, b := done + [g.(srcRows := g.srcRows[..i])], done + [g.(srcRows := g.srcRows[..i + 1])];
    var index' := index[g.srcRows[i] := (|done|, i)];
    forall h, j | 0 <= h < |b| && 0 <= j < |b[h].srcRows|
      ensures b[h].srcRows[j] in index' && index'[b[h].srcRows[j]] == (h, j)
    {
      if h < |done| || j < i {
        assert a[h].srcRows[j] == b[h].srcRows[j];
      }
    }
  }

  method ShiftRowsUp(rows: seq<nat>, first: nat, count: nat) returns (r: seq<nat>)
    ensures r == ShiftUp(rows, first, count)
  {
    r := rows;
    for i := 0 to |rows|
      invariant |r| == |rows|
      invariant forall j :: 0 <= j < i ==> r[j] == ShiftUp(rows, first, count)[j]
      invariant forall j :: i <= j < |rows| ==> r[j] == rows[j]
    {
      if r[i] >= first { r := r[i := r[i] + count]; }
    }
  }

  method ShiftRowsDown(rows: seq<nat>, last: nat, count: nat) returns (r: seq<nat>)
    requires count <= last + 1
    ensures r == ShiftDown(rows, last, count)
  {
    r := rows;
    for i := 0 to |rows|
      invariant |r| == |rows|
      invariant forall j :: 0 <= j < i ==> r[j] == ShiftDown(rows, last, count)[j]
      invariant forall j :: i <= j < |rows| ==> r[j] == rows[j]
    {
      if r[i] > last { r := r[i := r[i] - count]; }
    }
  }

  lemma {:induction false} FirstStays(groups: seq<Group>, key: string, g: nat)
    requires g < |groups| && FirstWith(groups[..g], key) == g && groups[g].key == key
    ensures FirstWith(groups, key) == g
  {
    var n := |groups| - 1;
    if g < n {
      assert groups[..n][..g] == groups[..g];
      FirstStays(groups[..n], key, g);
    }
  }

  /** The first group with this key, or -1. */
  method FindGroup(groups: seq<Group>, key: string) returns (g: int)
    ensures g == -1 ==> !Holds(groups, key) && FirstWith(groups, key) == |groups|
    ensures g != -1 ==> 0 <= g < |groups| && groups[g].key == key && g == FirstWith(groups, key)
  {
    for h := 0 to |groups|
      invariant forall k :: 0 <= k < h ==> groups[k].key != key
      invariant FirstWith(groups[..h], key) == h
    {
      assert groups[..h + 1][..h] == groups[..h];
      if groups[h].key == key {
        FirstStays(groups, key, h);
        return h;
      }
    }
    assert groups[..|groups|] == groups;
    return -1;
  }

  /** Where source row r stands, or -1. */
  method Locate(groups: seq<Group>, r: nat, ghost filing: map<nat, string>) returns (g: int, i: int)
    requires Filed(groups, filing)
    ensures g == -1 ==> r !in filing
    ensures g != -1 ==> 0 <= g < |groups| && 0 <= i < |groups[g].srcRows| && groups[g].srcRows[i] == r
  {
    for h := 0 to |groups|
      invariant forall k :: 0 <= k < h ==> r !in groups[k].srcRows
    {
      var at := IndexOf(groups[h].srcRows, r);
      if at >= 0 { return h, at; }
    }
    return -1, -1;
  }

  /** The indices of exactly the groups without rows, each once. */
  ghost predicate AreTheEmptyGroups(emptied: seq<nat>, groups: seq<Group>) {
    && NoDuplicates(emptied)
    && (forall i :: 0 <= i < |emptied| ==> emptied[i] < |groups| && groups[emptied[i]].srcRows == [])
    && (forall g :: 0 <= g < |groups| ==> (g in emptied <==> groups[g].srcRows == []))
  }

  ghost predicate HighestFirstFrom(s: seq<nat>) {
    forall i, j :: 0 <= i < j < |s| ==> s[i] > s[j]
  }

  lemma HighestFirst(emptied: seq<nat>, doomed: seq<nat>, groups: seq<Group>)
    requires AreTheEmptyGroups(emptied, groups)
    requires IsSortOf((a: nat, b: nat) => a > b, emptied, doomed)
    ensures AreTheEmptyGroups(doomed, groups) && HighestFirstFrom(doomed)
  {
    PermutationNoDuplicates(emptied, doomed);
    forall i | 0 <= i < |doomed| ensures doomed[i] < |groups| && groups[doomed[i]].srcRows == [] {
      assert doomed[i] in emptied;
      var k :| 0 <= k < |emptied| && emptied[k] == doomed[i];
    }
  }

  /** Removing the highest empty group leaves the other indices right. */
  lemma DropHighest(doomed: seq<nat>, groups: seq<Group>)
    requires doomed != [] && AreTheEmptyGroups(doomed, groups) && HighestFirstFrom(doomed)
    ensures AreTheEmptyGroups(doomed[1..], RemoveGroup(groups, doomed[0])) && HighestFirstFrom(doomed[1..])
  {
    var g, rest := doomed[0], doomed[1..];
    var after := RemoveGroup(groups, g);
    assert doomed == [g] + rest;
    forall h | h in rest ensures h < g {
      var i :| 0 <= i < |rest| && rest[i] == h;
      assert doomed[i + 1] == h;
    }
    forall h | 0 <= h < |after| ensures h in rest <==> after[h].srcRows == [] {
      var h' := if h < g then h else h + 1;
      assert after[h] == groups[h'];
      assert h' in doomed <==> groups[h'].srcRows == [];
    }
  }

  lemma HighestIsEmpty(doomed: seq<nat>, groups: seq<Group>)
    requires doomed != [] && AreTheEmptyGroups(doomed, groups)
    ensures doomed[0] < |groups| && groups[doomed[0]].srcRows == []
  {
  }

  lemma StillTheEmptyGroups(emptied: seq<nat>, groups: seq<Group>, g: nat, i: nat)
    requires AreTheEmptyGroups(emptied, groups) && g < |groups| && i < |groups[g].srcRows|
    ensures var after := RemoveChild(groups, g, i);
            AreTheEmptyGroups(if after[g].srcRows == [] && g !in emptied then emptied + [g] else emptied, after)
  {
    assert g !in emptied;
    var after := RemoveChild(groups, g, i);
    forall h | 0 <= h < |groups| && h != g ensures after[h] == groups[h] {
    }
    hide RemoveChild;
  }

  lemma NoneLeft(groups: seq<Group>)
    requires AreTheEmptyGroups([], groups)
    ensures NoEmptyGroup(groups)
  {
  }

  /** The groups that have rows, in their order and with their titles. */
  ghost function Occupied(groups: seq<Group>): seq<Group> {
    if groups == [] then []
    else
      var last := groups[|groups| - 1];
      Occupied(groups[..|groups| - 1]) + (if last.srcRows == [] then [] else [last])
  }

  lemma {:induction false} OccupiedConcat(a: seq<Group>, b: seq<Group>)
    ensures Occupied(a + b) == Occupied(a) + Occupied(b)
  {
    if b == [] {
      assert a + b == a;
    } else {
      var front, last := b[..|b| - 1], b[|b| - 1];
      OccupiedConcat(a, front);
      var one := if last.srcRows == [] then [] else [last];
      assert (a + b)[..|a + b| - 1] == a + front && (a + b)[|a + b| - 1] == last;
      assert Occupied(a + b) == Occupied(a + front) + one && Occupied(b) == Occupied(front) + one;
    }
  }

  lemma OccupiedNone(empty: Group)
    requires empty.srcRows == []
    ensures Occupied([empty]) == []
  {
    assert [empty][..0] == [];
  }

  lemma OccupiedWithout(groups: seq<Group>, g: nat)
    requires g < |groups| && groups[g].srcRows == []
    ensures Occupied(RemoveGroup(groups, g)) == Occupied(groups)
  {
    hide Occupied;
    var front, one, back := groups[..g], [groups[g]], groups[g + 1..];
    OccupiedNone(groups[g]);
    assert groups == front + one + back;
    OccupiedConcat(front + one, back);
    OccupiedConcat(front, one);
    OccupiedConcat(front, back);
  }

  lemma {:induction false} AllOccupied(groups: seq<Group>)
    requires NoEmptyGroup(groups)
    ensures Occupied(groups) == groups
  {
    if groups != [] {
      var front, last := groups[..|groups| - 1], groups[|groups| - 1];
      AllOccupied(front);
      assert last.srcRows != [];
      hide NoEmptyGroup;
      assert groups == front + [last];
    }
  }

  // ---- regrouping -----------------------------------------------------------------

  /** Keys under which rows stand while a change is being worked through: rows
      before r by their new key, the others still by their old one. */
  function Mixed(was: seq<string>, keys: seq<string>, r: nat): seq<string>
    requires |was| == |keys| && r <= |keys|
  {
    keys[..r] + was[r..]
  }

  lemma MixedStep(was: seq<string>, keys: seq<string>, r: nat)
    requires |was| == |keys| && r < |keys|
    ensures r in FilingOf(Mixed(was, keys, r)) && FilingOf(Mixed(was, keys, r))[r] == was[r]
    ensures FilingOf(Mixed(was, keys, r))[r := keys[r]] == FilingOf(Mixed(was, keys, r + 1))
  {
  }

  lemma MixedEnds(was: seq<string>, keys: seq<string>, top: nat, end: nat)
    requires |was| == |keys| && top <= end <= |keys|
    requires keys[..top] == was[..top] && keys[end..] == was[end..]
    ensures Mixed(was, keys, top) == was && Mixed(was, keys, end) == keys
  {
    assert was == was[..top] + was[top..];
    assert keys == keys[..end] + keys[end..];
  }

  /** Groups and their rows stay; titles may change. */
  ghost predicate RowsStay(a: seq<Group>, b: seq<Group>) {
    |a| == |b| && forall g :: 0 <= g < |a| ==> a[g].key == b[g].key && a[g].srcRows == b[g].srcRows
  }

  lemma RowsStayFiled(a: seq<Group>, b: seq<Group>, filing: map<nat, string>)
    requires RowsStay(a, b) && Filed(a, filing)
    ensures Filed(b, filing)
  {
    forall r: nat | r in filing ensures Holds(b, filing[r]) {
      var h :| 0 <= h < |a| && a[h].key == filing[r];
      assert b[h].key == filing[r];
    }
  }

  lemma RowsStayIndexed(a: seq<Group>, b: seq<Group>, index: map<nat, (nat, nat)>, ids: seq<RowId>)
    requires RowsStay(a, b) && IsInverse(index, a) && NoEmptyGroup(a)
    ensures IsInverse(index, b) && NoEmptyGroup(b) && TreeOf(b, ids) == TreeOf(a, ids)
  {
  }

  /** A group's title plays no part in where rows stand. */
  lemma Retitled(groups: seq<Group>, filing: map<nat, string>, ids: seq<RowId>, index: map<nat, (nat, nat)>,
                 g: nat, title: string)
    requires Filed(groups, filing) && NoEmptyGroup(groups) && IsInverse(index, groups) && g < |groups|
    ensures var after := groups[g := groups[g].(title := title)];
            && Filed(after, filing) && NoEmptyGroup(after) && IsInverse(index, after)
            && TreeOf(after, ids) == TreeOf(groups, ids) && RowsStay(groups, after)
  {
    hide Filed, NoEmptyGroup, IsInverse, TreeOf;
    var after := groups[g := groups[g].(title := title)];
    RowsStayFiled(groups, after, filing);
    RowsStayIndexed(groups, after, index, ids);
  }

  lemma PositionOf(index: map<nat, (nat, nat)>, groups: seq<Group>, filing: map<nat, string>, r: nat)
    requires IsInverse(index, groups) && Filed(groups, filing) && r in filing
    ensures r in index && index[r].0 < |groups| && index[r].1 < |groups[index[r].0].srcRows|
    ensures groups[index[r].0].srcRows[index[r].1] == r && groups[index[r].0].key == filing[r]
  {
    InverseCoversFiling(index, groups, filing);
  }

  // ---- re-sorting -------------------------------------------------------------------

  ghost predicate Reordered(a: seq<Group>, b: seq<Group>) {
    exists mid :: ChildrenPermuted(a, mid) && multiset(mid) == multiset(b)
  }

  ghost predicate SameKeyOrder(a: seq<Group>, b: seq<Group>) {
    |a| == |b| && forall g :: 0 <= g < |a| ==> a[g].key == b[g].key
  }

  lemma StaysAsItIs(groups: seq<Group>, src: seq<SourceRow>, col: Option<Column>, order: SortOrder, within: bool)
    ensures Reordered(groups, groups) && SameKeyOrder(groups, groups)
    ensures col.Some? && groups == [] ==> Arranged(groups, src, col.value, order, within)
  {
    assert ChildrenPermuted(groups, groups);
  }

  lemma SortOnlyReorders(groups: seq<Group>, mid: seq<Group>, sorted: seq<Group>, src: seq<SourceRow>, col: Column,
                         order: SortOrder, within: bool)
    requires SortOutcome(groups, mid, sorted, src, col, order, within)
    ensures Reordered(groups, sorted) && |sorted| == |groups|
    ensures within ==> SameKeyOrder(groups, sorted)
  {
    hide Arranged;
    SameLength(mid, sorted);
  }

  /** The dry run's comparison: keys and rows, position by position. */
  method Differs(groups: seq<Group>, sorted: seq<Group>) returns (d: bool)
    requires |groups| == |sorted|
    ensures !d <==> forall g :: 0 <= g < |groups| ==>
              sorted[g].key == groups[g].key && sorted[g].srcRows == groups[g].srcRows
  {
    for g := 0 to |sorted|
      invariant forall h :: 0 <= h < g ==> sorted[h].key == groups[h].key && sorted[h].srcRows == groups[h].srcRows
    {
      if sorted[g].key != groups[g].key || sorted[g].srcRows != groups[g].srcRows { return true; }
    }
    return false;
  }

  lemma AlreadyArranged(groups: seq<Group>, mid: seq<Group>, sorted: seq<Group>, filing: map<nat, string>)
    requires Filed(groups, filing) && ChildrenPermuted(groups, mid) && multiset(mid) == multiset(sorted)
    requires |groups| == |sorted|
    requires forall g :: 0 <= g < |groups| ==>
              sorted[g].key == groups[g].key && sorted[g].srcRows == groups[g].srcRows
    ensures sorted == groups
  {
    hide Filed;
    forall g | 0 <= g < |groups| ensures sorted[g] == groups[g] {
      assert sorted[g] in multiset(mid);
      var h :| 0 <= h < |mid| && mid[h] == sorted[g];
      OneGroupPerKey(groups, filing, g, h);
    }
  }

  lemma OneGroupPerKey(groups: seq<Group>, filing: map<nat, string>, g: nat, h: nat)
    requires Filed(groups, filing) && g < |groups| && h < |groups| && groups[g].key == groups[h].key
    ensures g == h
  {
  }

  /** What a persistent index is remembered by: an empty key stands for nothing,
      row -1 for the group itself. */
  datatype Identity = Identity(key: string, srcRow: int, col: nat)

  function IdentityOf(groups: seq<Group>, p: ModelIndex): Identity {
    match NameOf(groups, p)
    case Nowhere => Identity("", -1, 0)
    case GroupName(key, col) => Identity(key, -1, col)
    case ChildName(key, r, col) => Identity(key, r, col)
  }

  method Identify(groups: seq<Group>, list: seq<ModelIndex>) returns (identities: seq<Identity>)
    ensures |identities| == |list|
    ensures forall i :: 0 <= i < |list| ==> identities[i] == IdentityOf(groups, list[i])
  {
    identities := [];
    for n := 0 to |list|
      invariant |identities| == n
      invariant forall i :: 0 <= i < n ==> identities[i] == IdentityOf(groups, list[i])
    {
      identities := identities + [IdentityOf(groups, list[n])];
    }
  }

  function RelocateOne(keyToIdx: map<string, nat>, index: map<nat, (nat, nat)>, id: Identity): ModelIndex {
    if id.key == "" || id.key !in keyToIdx then NoIndex
    else if id.srcRow < 0 then GroupIndex(keyToIdx[id.key], id.col)
    else if id.srcRow in index then ChildIndex(index[id.srcRow].1, id.col, index[id.srcRow].0)
    else NoIndex
  }

  method Relocate(ghost before: seq<Group>, groups: seq<Group>, index: map<nat, (nat, nat)>,
                  identities: seq<Identity>, ghost filing: map<nat, string>, ghost list: seq<ModelIndex>)
    returns (moved: seq<ModelIndex>)
    requires Filed(before, filing) && NoEmptyGroup(before) && Filed(groups, filing) && IsInverse(index, groups)
    requires forall r :: r in filing ==> filing[r] != ""
    requires |identities| == |list|
    requires forall i :: 0 <= i < |list| ==> identities[i] == IdentityOf(before, list[i])
    ensures |moved| == |list|
    ensures forall i :: 0 <= i < |list| ==> NameOf(groups, moved[i]) == NameOf(before, list[i])
  {
    var keyToIdx: map<string, nat> := map[];
    for g := 0 to |groups|
      invariant FindsGroups(keyToIdx, groups[..g])
    {
      keyToIdx := keyToIdx[groups[g].key := g];
    }
    assert groups[..|groups|] == groups;
    moved := [];
    for n := 0 to |identities|
      invariant |moved| == n
      invariant forall i :: 0 <= i < n ==> NameOf(groups, moved[i]) == NameOf(before, list[i])
    {
      SameName(before, groups, filing, keyToIdx, index, list[n]);
      hide Filed, NoEmptyGroup, IsInverse, FindsGroups;
      moved := moved + [RelocateOne(keyToIdx, index, identities[n])];
    }
  }

  /** An index survives a reordering under its name; none is lost, because keys of
      occupied groups are never empty. */
  lemma SameName(before: seq<Group>, groups: seq<Group>, filing: map<nat, string>,
                 keyToIdx: map<string, nat>, index: map<nat, (nat, nat)>, p: ModelIndex)
    requires Filed(before, filing) && NoEmptyGroup(before) && Filed(groups, filing)
    requires IsInverse(index, groups) && FindsGroups(keyToIdx, groups)
    requires forall r :: r in filing ==> filing[r] != ""
    ensures NameOf(groups, RelocateOne(keyToIdx, index, IdentityOf(before, p))) == NameOf(before, p)
  {
    InverseCoversFiling(index, groups, filing);
    if NameOf(before, p) != Nowhere {
      var g, i := if p.GroupIndex? then p.row else p.group, if p.GroupIndex? then 0 else p.row;
      FiledUnderItsKey(before, filing, g, i);
      assert Holds(groups, before[g].key);
    }
  }

  class ConnectionGroupProxy {
    var mode: ViewMode
    var src: seq<SourceRow>
    var groups: seq<Group>
    var srcIndex: map<nat, (nat, nat)>
    var sortColumn: Option<Column>
    var sortOrder: SortOrder
    var sortWithinGroups: bool
    /** The indexes a view holds on to, as the framework lists them. */
    var persistents: seq<ModelIndex>
    /** Identities of the source rows and the structural events so far. */
    ghost var ids: seq<RowId>
    ghost var events: seq<Event>

    /** The rows in `filing` stand in the tree under fitting titles, and a view that replayed
        every event so far holds exactly that tree. */
    ghost predicate InStep(filing: map<nat, string>)
      reads this
    {
      Filed(groups, filing) && Replay(events) == Some(TreeOf(groups, ids)) && Titled(mode, groups)
    }

    ghost predicate Valid()
      reads this
    {
      && |ids| == |src|
      && InStep(FilingOf(KeysOf(mode, src)))
      && NoEmptyGroup(groups)
      && IsInverse(srcIndex, groups)
    }

    constructor (mode: ViewMode, src: seq<SourceRow>, ghost ids: seq<RowId>)
      requires |src| == |ids|
      ensures Valid() && this.mode == mode && this.src == src && this.ids == ids
      ensures sortColumn == None && sortWithinGroups && persistents == []
      ensures events == [ModelReset(TreeOf(groups, ids))]
    {
      this.mode, this.src, this.ids := mode, src, ids;
      groups, srcIndex, events, persistents := [], map[], [], [];
      sortColumn, sortOrder, sortWithinGroups := None, Ascending, true;
      new;
      Rebuild();
    }

    /** Regroup everything from scratch, inside a model reset. */
    method Rebuild()
      requires |ids| == |src| && Replay(events).Some?
      modifies `groups, `srcIndex, `events
      ensures Valid()
      ensures sortColumn.Some? ==> Arranged(groups, src, sortColumn.value, sortOrder, sortWithinGroups)
      ensures events == old(events) + [ModelReset(TreeOf(groups, ids))]
    {
      hide Titled, Filed, NoEmptyGroup, IsInverse, GroupKey, Arranged, Replay, TreeOf, ChildrenPermuted;
      ghost var keys := KeysOf(mode, src);
      groups := GroupByKey(mode, src);
      if sortColumn.Some? {
        var sorted := SortGroups(groups, src, sortColumn.value, sortOrder, sortWithinGroups);
        ghost var mid :| SortOutcome(groups, mid, sorted, src, sortColumn.value, sortOrder, sortWithinGroups);
        ReorderedFiled(groups, mid, sorted, FilingOf(keys));
        TitledSorted(mode, groups, mid, sorted);
        groups := sorted;
      }
      ghost var reset := ModelReset(TreeOf(groups, ids));
      ReplayOneMore(events, reset, Replay(events).value);
      events := events + [reset];
      RefreshSrcIndex(FilingOf(keys));
    }

    method SetViewMode(mode: ViewMode)
      requires Valid()
      modifies `mode, `groups, `srcIndex, `events
      ensures Valid() && this.mode == mode
      ensures events == old(events)
                + (if mode == old(this.mode) then [] else [ModelReset(TreeOf(groups, ids))])
      ensures mode != old(this.mode) && sortColumn.Some? ==>
        Arranged(groups, src, sortColumn.value, sortOrder, sortWithinGroups)
    {
      if mode == this.mode { return; }
      this.mode := mode;
      Rebuild();
    }

    /** One pass over the groups rebuilds the row-to-position index. */
    method RefreshSrcIndex(ghost filing: map<nat, string>)
      requires Filed(groups, filing)
      modifies `srcIndex
      ensures IsInverse(srcIndex, groups)
    {
      srcIndex := map[];
      for g := 0 to |groups|
        invariant IsInverse(srcIndex, groups[..g])
      {
        srcIndex := IndexGroup(srcIndex, groups, g, filing);
      }
      assert groups[..|groups|] == groups;
    }

    // ---- source handlers ----------------------------------------------------------

    /** Put source row r under its current key and announce where it went. */
    method FileRow(r: nat, ghost filing: map<nat, string>)
      requires r < |src| && r !in filing && InStep(filing) && NoEmptyGroup(groups)
      modifies `groups, `events
      ensures InStep(filing[r := GroupKey(mode, src[r].conn)]) && NoEmptyGroup(groups)
      ensures groups == FiledUnder(old(groups), GroupKey(mode, src[r].conn), GroupTitle(mode, src[r].conn), r)
      ensures GrewByInserts(old(events), events, [IdAt(ids, r)])
    {
      hide Titled, Filed, Replay, TreeOf, Enabled, Apply, GroupKey, GroupTitle, FirstWith;
      var key := GroupKey(mode, src[r].conn);
      TitledFiled(mode, groups, src[r].conn, r);
      var existing := FindGroup(groups, key);
      if existing >= 0 {
        TreeAppendChild(groups, ids, existing, r);
        AppendChildFiled(groups, filing, existing, r);
        Announce(ChildInserted(existing, |groups[existing].srcRows|, IdAt(ids, r)));
        groups := AppendChild(groups, existing, r);
      } else {
        TreeAddGroup(groups, ids, key, GroupTitle(mode, src[r].conn), r);
        AddGroupFiled(groups, filing, key, GroupTitle(mode, src[r].conn), r);
        Announce(GroupInserted(|groups|, IdAt(ids, r)));
        groups := AddGroup(groups, key, GroupTitle(mode, src[r].conn), r);
      }
    }

    ghost method Announce(e: Event)
      requires Replay(events).Some? && Enabled(Replay(events).value, e)
      modifies `events
      ensures Replay(events) == Some(Apply(old(Replay(events).value), e)) && events == old(events) + [e]
    {
      ReplayOneMore(events, e, Replay(events).value);
      events := events + [e];
    }

    method OnSourceRowsInserted(first: nat, rows: seq<SourceRow>, ghost newIds: seq<RowId>)
      requires Valid() && first <= |src| && |rows| == |newIds| > 0
      modifies `src, `ids, `groups, `srcIndex, `events, `persistents
      ensures Valid()
      ensures src == Spliced(old(src), first, rows) && ids == Spliced(old(ids), first, newIds)
      ensures AnnouncesInserts(old(events), events, newIds)
      // insertions are at the ends, so held indexes need no adjustment before the re-sort
      ensures HeldStill(old(groups), old(ids), old(persistents), groups, ids, persistents)
      ensures sortColumn.Some? ==> Arranged(groups, src, sortColumn.value, sortOrder, sortWithinGroups)
    {
      hide Titled, Filed, NoEmptyGroup, IsInverse, Replay, TreeOf, Arranged, Reordered, NameOf, SameKeyOrder;
      hide GrewByInserts, GrewByLayout;
      hide OnlyAppended, HeldStill, FilingOf, FilingExcept, KeysOf;
      MakeRoom(first, rows, newIds);
      ghost var shifted := groups;
      FileSpan(first, first + |rows|);
      ghost var filed := groups;
      assert ids[first..first + |rows|] == newIds;
      RefreshSrcIndex(FilingOf(KeysOf(mode, src)));
      var _ := ResortGroupsPreservingIndexes();
      InsertionHoldsStill(old(groups), old(ids), shifted, filed, ids, groups, old(persistents), persistents);
    }

    /** Step 1 of an insertion: shift the rows it pushed down. */
    method MakeRoom(first: nat, rows: seq<SourceRow>, ghost newIds: seq<RowId>)
      requires Valid() && first <= |src| && |rows| == |newIds|
      modifies `src, `ids, `groups
      ensures src == Spliced(old(src), first, rows) && ids == Spliced(old(ids), first, newIds)
      ensures InStep(FilingExcept(KeysOf(mode, src), first, first + |rows|)) && NoEmptyGroup(groups)
      ensures SameKeyOrder(old(groups), groups)
    {
      hide Titled, Filed, NoEmptyGroup;
      ghost var keys, added := KeysOf(mode, src), KeysOf(mode, rows);
      ShiftGroupsUpFiled(groups, keys, first, added);
      TreeShiftUp(groups, ids, keys, first, newIds);
      KeysOfSpliced(mode, src, first, rows);
      src := Spliced(src, first, rows);
      ids := Spliced(ids, first, newIds);
      ghost var before := groups;
      ShiftAllUp(first, |rows|);
      TitledRows(mode, before, groups);
    }

    /** Step 2: file each new row. */
    method FileSpan(first: nat, end: nat)
      requires first <= end <= |src| && |ids| == |src|
      requires InStep(FilingExcept(KeysOf(mode, src), first, end)) && NoEmptyGroup(groups)
      modifies `groups, `events
      ensures InStep(FilingOf(KeysOf(mode, src))) && NoEmptyGroup(groups)
      ensures GrewByInserts(old(events), events, ids[first..end]) && OnlyAppended(old(groups), groups)
    {
      hide Titled, Filed, NoEmptyGroup, Replay, TreeOf, GrewByInserts, FiledUnder, FilingExcept;
      hide KeysOf, GroupKey, GroupTitle;
      ghost var keys := KeysOf(mode, src);
      NoInsertsYet(events, ids, first);
      assert OnlyAppended(groups, groups);
      hide OnlyAppended;
      for r := first to end
        invariant InStep(FilingExcept(keys, r, end)) && NoEmptyGroup(groups)
        invariant GrewByInserts(old(events), events, ids[first..r]) && OnlyAppended(old(groups), groups)
      {
        FilingExceptStep(keys, r, end);
        KeyOfRow(mode, src, r);
        ghost var mid, before := events, groups;
        FileRow(r, FilingExcept(keys, r, end));
        FiledUnderAppends(before, GroupKey(mode, src[r].conn), GroupTitle(mode, src[r].conn), r);
        AppendedTwice(old(groups), before, groups);
        InsertsNext(old(events), mid, events, ids, first, r);
      }
      FilingExceptNone(keys, end);
    }

    method ShiftAllUp(first: nat, count: nat)
      modifies `groups
      ensures groups == ShiftGroupsUp(old(groups), first, count)
      ensures NoEmptyGroup(old(groups)) ==> NoEmptyGroup(groups)
    {
      for g := 0 to |groups|
        invariant |groups| == |old(groups)|
        invariant forall h :: 0 <= h < g ==> groups[h] == ShiftGroupsUp(old(groups), first, count)[h]
        invariant forall h :: g <= h < |groups| ==> groups[h] == old(groups)[h]
      {
        var rows := ShiftRowsUp(groups[g].srcRows, first, count);
        groups := groups[g := groups[g].(srcRows := rows)];
      }
    }

    method ShiftAllDown(last: nat, count: nat)
      requires count <= last + 1
      modifies `groups
      ensures groups == ShiftGroupsDown(old(groups), last, count)
    {
      for g := 0 to |groups|
        invariant |groups| == |old(groups)|
        invariant forall h :: 0 <= h < g ==> groups[h] == ShiftGroupsDown(old(groups), last, count)[h]
        invariant forall h :: g <= h < |groups| ==> groups[h] == old(groups)[h]
      {
        var rows := ShiftRowsDown(groups[g].srcRows, last, count);
        groups := groups[g := groups[g].(srcRows := rows)];
      }
    }

    method OnSourceRowsRemoved(first: nat, last: nat)
      requires Valid() && first <= last < |src|
      modifies `src, `ids, `groups, `srcIndex, `events, `persistents
      ensures Valid()
      ensures src == Cut(old(src), first, last) && ids == Cut(old(ids), first, last)
      ensures |groups| <= |old(groups)|
      ensures AnnouncesRemovals(old(events), events, last - first + 1, |old(groups)| - |groups|)
      ensures sortColumn.Some? ==> Arranged(groups, src, sortColumn.value, sortOrder, sortWithinGroups)
    {
      hide Titled, Filed, NoEmptyGroup, IsInverse, Replay, TreeOf, Arranged, NameOf, SameKeyOrder;
      hide GrewByChildRemovals, GrewByGroupRemovals, GrewByLayout, ChildrenPermuted;
      var emptied := UnfileSpan(first, last);
      CloseGap(first, last);
      DropEmptied(emptied, FilingOf(KeysOf(mode, src)));
      RefreshSrcIndex(FilingOf(KeysOf(mode, src)));
      var _ := ResortGroupsPreservingIndexes();
    }

    /** Step 1 of a removal: take each removed row out of its group, remembering
        the groups that become empty. */
    method UnfileSpan(first: nat, last: nat) returns (emptied: seq<nat>)
      requires Valid() && first <= last < |src|
      modifies `groups, `events
      ensures InStep(FilingExcept(KeysOf(mode, src), first, last + 1))
      ensures AreTheEmptyGroups(emptied, groups)
      ensures |groups| == |old(groups)| && GrewByChildRemovals(old(events), events, last - first + 1)
    {
      hide Titled, Filed, Replay, TreeOf;
      ghost var keys := KeysOf(mode, src);
      emptied := [];
      FilingExceptNone(keys, first);
      for r := first to last + 1
        invariant InStep(FilingExcept(keys, first, r))
        invariant AreTheEmptyGroups(emptied, groups)
        invariant |groups| == |old(groups)| && GrewByChildRemovals(old(events), events, r - first)
      {
        FilingExceptLess(keys, first, r);
        emptied := UnfileRow(r, FilingExcept(keys, first, r), emptied);
      }
    }

    method UnfileRow(r: nat, ghost filing: map<nat, string>, emptied: seq<nat>) returns (emptied': seq<nat>)
      requires InStep(filing) && r in filing && AreTheEmptyGroups(emptied, groups)
      modifies `groups, `events
      ensures InStep(filing - {r}) && AreTheEmptyGroups(emptied', groups)
      ensures |groups| == |old(groups)| && GrewByChildRemovals(old(events), events, 1)
    {
      hide Titled, Filed, Replay, TreeOf, AreTheEmptyGroups, Enabled, Apply;
      var g, i := Locate(groups, r, filing);
      TreeRemoveChild(groups, ids, g, i);
      RemoveChildFiled(groups, filing, g, i);
      Announce(ChildRemoved(g, i));
      StillTheEmptyGroups(emptied, groups, g, i);
      TitledUnfiled(mode, groups, g, i);
      groups := RemoveChild(groups, g, i);
      emptied' := if groups[g].srcRows == [] && g !in emptied then emptied + [g] else emptied;
    }

    /** Step 2: renumber the rows behind the gap. */
    method CloseGap(first: nat, last: nat)
      requires first <= last < |src| && |ids| == |src|
      requires InStep(FilingExcept(KeysOf(mode, src), first, last + 1))
      modifies `src, `ids, `groups
      ensures src == Cut(old(src), first, last) && ids == Cut(old(ids), first, last)
      ensures InStep(FilingOf(KeysOf(mode, src))) && |groups| == |old(groups)|
      ensures forall e :: AreTheEmptyGroups(e, old(groups)) ==> AreTheEmptyGroups(e, groups)
    {
      hide Titled, Filed;
      ghost var keys := KeysOf(mode, src);
      ShiftGroupsDownFiled(groups, keys, first, last);
      TreeShiftDown(groups, ids, keys, first, last);
      KeysOfCut(mode, src, first, last);
      src := Cut(src, first, last);
      ids := Cut(ids, first, last);
      ghost var before := groups;
      ShiftAllDown(last, last - first + 1);
      TitledRows(mode, before, groups);
    }

    /** Step 3: remove the emptied groups, highest index first. */
    method DropEmptied(emptied: seq<nat>, ghost filing: map<nat, string>)
      requires InStep(filing) && AreTheEmptyGroups(emptied, groups)
      modifies `groups, `events
      ensures InStep(filing) && NoEmptyGroup(groups) && groups == Occupied(old(groups))
      ensures |groups| == |old(groups)| - |emptied| && GrewByGroupRemovals(old(events), events, |emptied|)
    {
      hide Titled, Filed, Occupied, Replay, TreeOf, NoEmptyGroup, Enabled, Apply, RemoveGroup;
      var doomed := Sort(emptied, (a: nat, b: nat) => a > b);
      HighestFirst(emptied, doomed, groups);
      SameLength(emptied, doomed);
      for k := 0 to |doomed|
        invariant InStep(filing) && Occupied(groups) == Occupied(old(groups))
        invariant |groups| == |old(groups)| - k && GrewByGroupRemovals(old(events), events, k)
        invariant AreTheEmptyGroups(doomed[k..], groups) && HighestFirstFrom(doomed[k..])
      {
        var g := doomed[k];
        assert doomed[k..][0] == g && doomed[k..][1..] == doomed[k + 1..];
        HighestIsEmpty(doomed[k..], groups);
        hide AreTheEmptyGroups, HighestFirstFrom;
        TreeRemoveGroup(groups, ids, g);
        RemoveGroupFiled(groups, filing, g);
        DropHighest(doomed[k..], groups);
        OccupiedWithout(groups, g);
        TitledWithout(mode, groups, g);
        Announce(GroupRemoved(g));
        groups := RemoveGroup(groups, g);
      }
      NoneLeft(groups);
      AllOccupied(groups);
    }

    method OnSourceDataChanged(top: nat, rows: seq<SourceRow>, mayRegroup: bool)
      requires Valid() && rows != [] && top + |rows| <= |src|
      requires !mayRegroup ==> forall i :: 0 <= i < |rows| ==> rows[i].conn == src[top + i].conn
      modifies `src, `groups, `srcIndex, `events, `persistents
      ensures Valid()
      ensures src == old(src)[..top] + rows + old(src)[top + |rows|..]
      ensures AnnouncesMoves(old(events), events, |rows|)
      ensures KeysOf(mode, src) == KeysOf(mode, old(src)) ==> events == old(events)
    {
      hide Titled, Filed, NoEmptyGroup, IsInverse, Replay, TreeOf;
      hide Mixed, FilingOf, Arranged, Reordered, NameOf, SameKeyOrder, KeysOf, GrewByLayout, GrewWithoutReset;
      hide AnnouncesMoves;
      ghost var was := KeysOf(mode, src);
      ghost var end := top + |rows|;
      KeysOfChanged(mode, src, top, rows);
      src := src[..top] + rows + src[top + |rows|..];
      ghost var keys := KeysOf(mode, src);
      MixedEnds(was, keys, top, end);
      LayoutAnnounced(events, []);
      NothingMoved(events, |rows|);
      if mayRegroup {
        var structuralChange := RegroupSpan(top, top + |rows|, was);
        ghost var mid := events;
        LayoutAnnounced(events, []);
        if structuralChange {
          var _ := ResortGroupsPreservingIndexes();
        }
        MovesThenLayout(old(events), mid, events, |rows|);
      }
    }

    method RegroupSpan(top: nat, end: nat, ghost was: seq<string>) returns (structuralChange: bool)
      requires |was| == |src| && top <= end <= |src|
      requires InStep(FilingOf(Mixed(was, KeysOf(mode, src), top))) && NoEmptyGroup(groups)
        && IsInverse(srcIndex, groups)
      modifies `groups, `srcIndex, `events
      ensures InStep(FilingOf(Mixed(was, KeysOf(mode, src), end))) && NoEmptyGroup(groups)
        && IsInverse(srcIndex, groups)
      ensures GrewWithoutReset(old(events), events) && |events| <= |old(events)| + 3 * (end - top)
      ensures forall i :: |old(events)| <= i < |events| ==> !events[i].LayoutChanged?
      ensures structuralChange <==> was[top..end] != KeysOf(mode, src)[top..end]
      ensures !structuralChange ==> events == old(events)
    {
      hide Titled, Filed, NoEmptyGroup, IsInverse, Replay, TreeOf, FilingOf, Mixed, KeysOf, GroupKey;
      ghost var keys := KeysOf(mode, src);
      structuralChange := false;
      for r := top to end
        invariant InStep(FilingOf(Mixed(was, keys, r))) && NoEmptyGroup(groups) && IsInverse(srcIndex, groups)
        invariant GrewWithoutReset(old(events), events) && |events| <= |old(events)| + 3 * (r - top)
        invariant forall i :: |old(events)| <= i < |events| ==> !events[i].LayoutChanged?
        invariant structuralChange <==> exists k :: top <= k < r && was[k] != keys[k]
        invariant !structuralChange ==> events == old(events)
      {
        MixedStep(was, keys, r);
        KeyOfRow(mode, src, r);
        var moved := RegroupSourceRow(r, FilingOf(Mixed(was, keys, r)));
        structuralChange := moved || structuralChange;
      }
    }

    /** Move one row to the group its current key names. */
    method RegroupSourceRow(r: nat, ghost filing: map<nat, string>) returns (moved: bool)
      requires r < |src| && r in filing
      requires InStep(filing) && NoEmptyGroup(groups) && IsInverse(srcIndex, groups)
      modifies `groups, `srcIndex, `events
      ensures InStep(filing[r := GroupKey(mode, src[r].conn)]) && NoEmptyGroup(groups) && IsInverse(srcIndex, groups)
      ensures moved == (filing[r] != GroupKey(mode, src[r].conn))
      ensures !moved ==> events == old(events)
      ensures moved ==> GrewByMove(old(events), events, IdAt(ids, r))
      ensures r in old(srcIndex) && old(srcIndex)[r].0 < |old(groups)|
      ensures !moved ==>
        var g := old(srcIndex)[r].0;
        groups == old(groups)[g := old(groups)[g].(title := GroupTitle(mode, src[r].conn))]
      ensures moved ==>
        var g, i := old(srcIndex)[r].0, old(srcIndex)[r].1;
        && i < |old(groups)[g].srcRows|
        && groups == FiledUnder(Unfiled(old(groups), g, i),
                                GroupKey(mode, src[r].conn), GroupTitle(mode, src[r].conn), r)
    {
      hide Titled, Filed, NoEmptyGroup, IsInverse, Replay, TreeOf, FiledUnder, Unfiled, GroupKey, GroupTitle;
      PositionOf(srcIndex, groups, filing, r);
      var newKey := GroupKey(mode, src[r].conn);
      var g, i := srcIndex[r].0, srcIndex[r].1;
      if groups[g].key == newKey {
        var newTitle := GroupTitle(mode, src[r].conn);
        Retitled(groups, filing, ids, srcIndex, g, newTitle);
        TitledAnew(mode, groups, g, src[r].conn);
        assert filing[r := newKey] == filing;
        groups := groups[g := groups[g].(title := newTitle)];
        return false;
      }
      Unfile(g, i, filing);
      assert (filing - {r})[r := newKey] == filing[r := newKey];
      ghost var mid := events;
      FileRow(r, filing - {r});
      MoveCompleted(old(events), mid, events, IdAt(ids, r));
      RefreshSrcIndex(filing[r := newKey]);
      return true;
    }

    /** Take the row at (g, i) out, and its group with it if that was its last. */
    method Unfile(g: nat, i: nat, ghost filing: map<nat, string>)
      requires InStep(filing) && NoEmptyGroup(groups) && g < |groups| && i < |groups[g].srcRows|
      modifies `groups, `events
      ensures InStep(filing - {old(groups[g].srcRows[i])}) && NoEmptyGroup(groups)
      ensures groups == Unfiled(old(groups), g, i)
      ensures old(events) <= events && |old(events)| + 1 <= |events| <= |old(events)| + 2
      ensures events[|old(events)|].ChildRemoved?
      ensures |events| == |old(events)| + 2 ==> events[|old(events)| + 1].GroupRemoved?
    {
      hide Titled, Filed, Replay, TreeOf, Enabled, Apply;
      ghost var r := groups[g].srcRows[i];
      TreeRemoveChild(groups, ids, g, i);
      RemoveChildFiled(groups, filing, g, i);
      Announce(ChildRemoved(g, i));
      TitledUnfiled(mode, groups, g, i);
      groups := RemoveChild(groups, g, i);
      if groups[g].srcRows == [] {
        TitledWithout(mode, groups, g);
        TreeRemoveGroup(groups, ids, g);
        RemoveGroupFiled(groups, filing - {r}, g);
        Announce(GroupRemoved(g));
        groups := RemoveGroup(groups, g);
      }
    }

    // ---- sorting ------------------------------------------------------------------

    /** No column means that no sort is kept up any longer; the order stays as it is. */
    method SortBy(column: Option<Column>, order: SortOrder)
      requires Valid()
      modifies `sortColumn, `sortOrder, `groups, `srcIndex, `events, `persistents
      ensures Valid() && Reordered(old(groups), groups) && GrewByLayout(old(events), events)
      ensures sortColumn == column && sortOrder == order
      ensures column.Some? ==> Arranged(groups, src, column.value, order, sortWithinGroups)
      ensures column.None? ==> groups == old(groups)
      ensures |persistents| == |old(persistents)|
      ensures forall i :: 0 <= i < |persistents| ==>
        NameOf(groups, persistents[i]) == NameOf(old(groups), old(persistents)[i])
    {
      hide Titled, Filed, NoEmptyGroup, IsInverse, Replay, TreeOf;
      sortColumn, sortOrder := column, order;
      var _ := ResortGroupsPreservingIndexes();
    }

    method SetSortWithinGroups(on: bool)
      requires Valid()
      modifies `sortWithinGroups, `groups, `srcIndex, `events, `persistents
      ensures Valid() && sortWithinGroups == on && Reordered(old(groups), groups)
      ensures GrewByLayout(old(events), events)
      ensures on != old(sortWithinGroups) && sortColumn.Some? ==>
        Arranged(groups, src, sortColumn.value, sortOrder, on)
      ensures on ==> SameKeyOrder(old(groups), groups)
      ensures |persistents| == |old(persistents)|
      ensures forall i :: 0 <= i < |persistents| ==>
        NameOf(groups, persistents[i]) == NameOf(old(groups), old(persistents)[i])
    {
      hide Titled, Filed, NoEmptyGroup, IsInverse, Replay, TreeOf;
      if sortWithinGroups == on {
        assert ChildrenPermuted(groups, groups);
        return;
      }
      sortWithinGroups := on;
      var _ := ResortGroupsPreservingIndexes();
    }

    /** Re-apply the sort. Groups and children are only permuted, and every index a
        view holds names the same group or flow afterwards. */
    method ResortGroupsPreservingIndexes() returns (changed: bool)
      requires Valid()
      modifies `groups, `srcIndex, `events, `persistents
      ensures Valid()
      ensures sortColumn.Some? ==> Arranged(groups, src, sortColumn.value, sortOrder, sortWithinGroups)
      ensures sortColumn.None? ==> !changed
      ensures Reordered(old(groups), groups)
      ensures sortWithinGroups ==> SameKeyOrder(old(groups), groups)
      ensures |persistents| == |old(persistents)|
      ensures forall i :: 0 <= i < |persistents| ==>
        NameOf(groups, persistents[i]) == NameOf(old(groups), old(persistents)[i])
      ensures !changed ==> groups == old(groups) && persistents == old(persistents) && events == old(events)
      ensures GrewByLayout(old(events), events) && |groups| == |old(groups)|
    {
      hide Titled, Filed, NoEmptyGroup, IsInverse, Replay, TreeOf, NameOf, Reordered, SameKeyOrder;
      hide ChildrenPermuted, Arranged;
      hide GrewByLayout;
      StaysAsItIs(groups, src, sortColumn, sortOrder, sortWithinGroups);
      LayoutAnnounced(events, []);
      if sortColumn.None? || groups == [] { return false; }
      var sorted := SortGroups(groups, src, sortColumn.value, sortOrder, sortWithinGroups);
      ghost var mid :| SortOutcome(groups, mid, sorted, src, sortColumn.value, sortOrder, sortWithinGroups);
      SortOnlyReorders(groups, mid, sorted, src, sortColumn.value, sortOrder, sortWithinGroups);
      LayoutAnnounced(events, TreeOf(sorted, ids));
      changed := Differs(groups, sorted);
      if !changed {
        AlreadyArranged(groups, mid, sorted, FilingOf(KeysOf(mode, src)));
        return false;
      }
      InstallOrder(sorted, mid);
    }

    /** The layout-change protocol: note what every held index names, install the new
        order, and point each index at the same thing again. */
    method InstallOrder(sorted: seq<Group>, ghost mid: seq<Group>)
      requires Valid() && ChildrenPermuted(groups, mid) && multiset(mid) == multiset(sorted)
      modifies `groups, `srcIndex, `events, `persistents
      ensures Valid() && groups == sorted && events == old(events) + [LayoutChanged(TreeOf(groups, ids))]
      ensures |persistents| == |old(persistents)|
      ensures forall i :: 0 <= i < |persistents| ==>
        NameOf(groups, persistents[i]) == NameOf(old(groups), old(persistents)[i])
    {
      hide Titled, Filed, NoEmptyGroup, IsInverse, SameUpToOrder, ChildrenPermuted, NameOf;
      ghost var filing, before := FilingOf(KeysOf(mode, src)), groups;
      ReorderedFiled(groups, mid, sorted, filing);
      TitledSorted(mode, groups, mid, sorted);
      TreeReordered(groups, mid, sorted, ids);
      Announce(LayoutChanged(TreeOf(sorted, ids)));
      var identities := Identify(groups, persistents);
      groups := sorted;
      RefreshSrcIndex(filing);
      persistents := Relocate(before, groups, srcIndex, identities, filing, persistents);
    }

    // ---- mapping ------------------------------------------------------------------

    /** The source row a child index shows; group rows show none. */
    function MapToSource(p: ModelIndex): Option<(nat, nat)>
      reads this
    {
      if p.ChildIndex? && p.group < |groups| && p.row < |groups[p.group].srcRows|
      then Some((groups[p.group].srcRows[p.row], p.col)) else None
    }

    function MapFromSource(row: nat, col: nat): ModelIndex
      reads this
    {
      if row in srcIndex then ChildIndex(srcIndex[row].1, col, srcIndex[row].0) else NoIndex
    }

    /** The two mappings are mutual inverses between all source rows and all child
        indexes, and neither is defined on anything else. */
    lemma MappingsAreInverse(p: ModelIndex, row: nat, col: nat)
      requires Valid()
      ensures MapToSource(p).Some? ==>
                && MapToSource(p).value.0 < |src|
                && MapFromSource(MapToSource(p).value.0, MapToSource(p).value.1) == p
      ensures MapFromSource(row, col) != NoIndex <==> row < |src|
      ensures row < |src| ==> MapToSource(MapFromSource(row, col)) == Some((row, col))
    {
      InverseCoversFiling(srcIndex, groups, FilingOf(KeysOf(mode, src)));
      if MapToSource(p).Some? {
        FiledUnderItsKey(groups, FilingOf(KeysOf(mode, src)), p.group, p.row);
      }
    }

    /** Incremental upkeep and a rebuild agree: the same keys with the same rows. */
    lemma AgreesWithRebuild()
      requires Valid()
      ensures GroupMap(groups) == RowsByKey(KeysOf(mode, src))
    {
      FilingDeterminesGroups(groups, KeysOf(mode, src));
    }

    /** What a kept-up sort shows: the children of a group by the column's own field, and the
        headers by their sums unless sorting stays within groups. */
    lemma SortedByField(g: nat, i: nat, j: nat, h: nat)
      requires Valid() && sortColumn.Some? && Arranged(groups, src, sortColumn.value, sortOrder, sortWithinGroups)
      ensures g < |groups| && i < j < |groups[g].srcRows| ==>
        && groups[g].srcRows[i] < |src| && groups[g].srcRows[j] < |src|
        && RowsInOrder(src[groups[g].srcRows[i]], src[groups[g].srcRows[j]], sortColumn.value, sortOrder)
      ensures !sortWithinGroups && g < h < |groups| ==>
        HeadersInOrder(src, groups[g], groups[h], sortColumn.value, sortOrder)
    {
      hide Replay, TreeOf, GroupKey, RowsInOrder, HeadersInOrder, IsInverse;
      if g < |groups| && i < j < |groups[g].srcRows| {
        FiledUnderItsKey(groups, FilingOf(KeysOf(mode, src)), g, i);
        FiledUnderItsKey(groups, FilingOf(KeysOf(mode, src)), g, j);
        OrderedRows(src, groups[g].srcRows, sortColumn.value, sortOrder, i, j);
      }
      if !sortWithinGroups && g < h < |groups| {
        OrderedHeaders(src, groups, sortColumn.value, sortOrder, g, h);
      }
    }

    /** By interface and by process a group's title is that of each of its rows, as a rebuild
        would have it. */
    lemma TitlesAgreeWithRebuild(g: nat, r: nat)
      requires Valid() && !mode.ByContainer? && g < |groups| && r in groups[g].srcRows
      ensures r < |src| && groups[g].title == GroupTitle(mode, src[r].conn)
    {
      hide GroupKey, GroupTitle, TitleFits, Replay, TreeOf, IsInverse;
      assert FilingOf(KeysOf(mode, src))[r] == groups[g].key;
      OnlyTitle(mode, groups[g].key, groups[g].title, src[r].conn);
    }

    /** Two source rows stand in one group exactly when their flows belong together. */
    lemma OneGroupExactly(r: nat, r': nat)
      requires Valid() && r < |src| && r' < |src|
      ensures (exists g :: 0 <= g < |groups| && r in groups[g].srcRows && r' in groups[g].srcRows)
              <==> BelongTogether(mode, src[r].conn, src[r'].conn)
    {
      hide BelongTogether, GroupKey, Replay, TreeOf;
      SameKeyExactly(mode, src[r].conn, src[r'].conn);
      var filing := FilingOf(KeysOf(mode, src));
      assert filing[r] == GroupKey(mode, src[r].conn) && filing[r'] == GroupKey(mode, src[r'].conn);
      if filing[r] == filing[r'] {
        var g :| 0 <= g < |groups| && groups[g].key == filing[r];
        assert r in groups[g].srcRows && r' in groups[g].srcRows;
      }
    }

    /** Header byte totals add up to the flat total, modulo 2^64. */
    lemma HeaderTotalsAgree()
      requires Valid()
      ensures SumOfHeaders(groups, RxBytesAt(src)) % TWO64 == SumNat(Range(|src|), RxBytesAt(src)) % TWO64
      ensures SumOfHeaders(groups, TxBytesAt(src)) % TWO64 == SumNat(Range(|src|), TxBytesAt(src)) % TWO64
    {
      HeaderTotalsConserve(groups, KeysOf(mode, src), RxBytesAt(src));
      HeaderTotalsConserve(groups, KeysOf(mode, src), TxBytesAt(src));
    }
  }
}
