/** The structural signals the grouped model emits, replayed on a view's own copy
    of the tree. A view learns of a row only from these events. */
module GroupEvents {
  import opened Sequences
  import opened GroupTree
  import opened Connections

  /** What a view holds: per group, the identities of its child rows. */
  type Tree = seq<seq<RowId>>

  datatype Event =
    | GroupInserted(at: nat, child: RowId)
    | ChildInserted(group: nat, at: nat, child: RowId)
    | ChildRemoved(group: nat, at: nat)
    | GroupRemoved(at: nat)
    | LayoutChanged(tree: Tree)
    | ModelReset(tree: Tree)

  ghost function Contents(t: Tree): seq<multiset<RowId>> {
    seq(|t|, g requires 0 <= g < |t| => multiset(t[g]))
  }

  /** The same groups with the same children, in any order at both levels. */
  ghost predicate SameUpToOrder(t: Tree, u: Tree) {
    multiset(Contents(t)) == multiset(Contents(u))
  }

  /** Are the event's coordinates meaningful on this tree? */
  ghost predicate Enabled(t: Tree, e: Event) {
    match e
    case GroupInserted(at, _) => at <= |t|
    case ChildInserted(g, at, _) => g < |t| && at <= |t[g]|
    case ChildRemoved(g, at) => g < |t| && at < |t[g]|
    case GroupRemoved(at) => at < |t| && t[at] == []
    case LayoutChanged(u) => SameUpToOrder(t, u)
    case ModelReset(_) => true
  }

  ghost function Apply(t: Tree, e: Event): Tree
    requires Enabled(t, e)
  {
    match e
    case GroupInserted(at, child) => t[..at] + [[child]] + t[at..]
    case ChildInserted(g, at, child) => t[g := t[g][..at] + [child] + t[g][at..]]
    case ChildRemoved(g, at) => t[g := WithoutIndex(t[g], at)]
    case GroupRemoved(at) => WithoutIndex(t, at)
    case LayoutChanged(u) => u
    case ModelReset(u) => u
  }

  /** The copy a view ends up with, or None once some event did not fit. */
  ghost function Replay(events: seq<Event>): Option<Tree> {
    if events == [] then Some([])
    else
      var before := Replay(events[..|events| - 1]);
      var e := events[|events| - 1];
      if before.Some? && Enabled(before.value, e) then Some(Apply(before.value, e)) else None
  }

  lemma ReplayOneMore(events: seq<Event>, e: Event, t: Tree)
    requires Replay(events) == Some(t) && Enabled(t, e)
    ensures Replay(events + [e]) == Some(Apply(t, e))
  {
    assert (events + [e])[..|events|] == events;
  }

  // ---- how the log may grow ---------------------------------------------------------

  /** Nothing announced is taken back, and no reset is announced. */
  ghost predicate GrewWithoutReset(was: seq<Event>, now: seq<Event>) {
    was <= now && forall i :: |was| <= i < |now| ==> !now[i].ModelReset?
  }

  predicate Inserts(e: Event, child: RowId) {
    (e.GroupInserted? || e.ChildInserted?) && e.child == child
  }

  /** One insertion for each of these rows, in order. */
  ghost predicate GrewByInserts(was: seq<Event>, now: seq<Event>, children: seq<RowId>) {
    && was <= now && |now| == |was| + |children|
    && forall i :: 0 <= i < |children| ==> Inserts(now[|was| + i], children[i])
  }

  ghost predicate GrewByChildRemovals(was: seq<Event>, now: seq<Event>, n: nat) {
    was <= now && |now| == |was| + n && forall i :: |was| <= i < |now| ==> now[i].ChildRemoved?
  }

  ghost predicate GrewByGroupRemovals(was: seq<Event>, now: seq<Event>, n: nat) {
    was <= now && |now| == |was| + n && forall i :: |was| <= i < |now| ==> now[i].GroupRemoved?
  }

  /** At most one layout change. */
  ghost predicate GrewByLayout(was: seq<Event>, now: seq<Event>) {
    was <= now && |now| <= |was| + 1 && (|now| == |was| + 1 ==> now[|was|].LayoutChanged?)
  }

  /** A row leaves its group, its group leaves if that was all, and the row arrives. */
  ghost predicate GrewByMove(was: seq<Event>, now: seq<Event>, child: RowId) {
    && was <= now && |was| + 2 <= |now| <= |was| + 3
    && now[|was|].ChildRemoved? && (|now| == |was| + 3 ==> now[|was| + 1].GroupRemoved?)
    && Inserts(now[|now| - 1], child)
  }

  lemma NoInsertsYet(events: seq<Event>, ids: seq<RowId>, first: nat)
    requires first <= |ids|
    ensures GrewByInserts(events, events, ids[first..first])
  {
  }

  /** The next of the rows ids[first..]. */
  lemma InsertsNext(was: seq<Event>, mid: seq<Event>, now: seq<Event>, ids: seq<RowId>, first: nat, r: nat)
    requires first <= r < |ids|
    requires GrewByInserts(was, mid, ids[first..r]) && GrewByInserts(mid, now, [IdAt(ids, r)])
    ensures GrewByInserts(was, now, ids[first..r + 1])
  {
    InsertsOneMore(was, mid, now, ids[first..r], IdAt(ids, r));
    assert ids[first..r] + [IdAt(ids, r)] == ids[first..r + 1];
  }

  lemma InsertsOneMore(was: seq<Event>, mid: seq<Event>, now: seq<Event>, children: seq<RowId>, child: RowId)
    requires GrewByInserts(was, mid, children) && GrewByInserts(mid, now, [child])
    ensures GrewByInserts(was, now, children + [child])
  {
    var longer := children + [child];
    forall i | 0 <= i < |longer| ensures Inserts(now[|was| + i], longer[i]) {
      if i < |children| {
        assert now[|was| + i] == mid[|was| + i];
      } else {
        assert Inserts(now[|mid| + 0], [child][0]);
      }
    }
  }

  lemma MoveCompleted(was: seq<Event>, mid: seq<Event>, now: seq<Event>, child: RowId)
    requires was <= mid && |was| + 1 <= |mid| <= |was| + 2 && mid[|was|].ChildRemoved?
    requires |mid| == |was| + 2 ==> mid[|was| + 1].GroupRemoved?
    requires GrewByInserts(mid, now, [child])
    ensures GrewByMove(was, now, child)
  {
    assert Inserts(now[|mid| + 0], [child][0]);
  }

  /** New rows: each is inserted once, then the layout may change. */
  ghost predicate AnnouncesInserts(was: seq<Event>, now: seq<Event>, children: seq<RowId>) {
    exists mid :: GrewByInserts(was, mid, children) && GrewByLayout(mid, now)
  }

  /** Removed rows: each is removed once, then the groups left empty, then the layout may
      change. */
  ghost predicate AnnouncesRemovals(was: seq<Event>, now: seq<Event>, rows: nat, groups: nat) {
    exists mid, end :: GrewByChildRemovals(was, mid, rows) && GrewByGroupRemovals(mid, end, groups)
                       && GrewByLayout(end, now)
  }

  /** At most n rows' moves, and a layout change only as the very last. */
  ghost predicate AnnouncesMoves(was: seq<Event>, now: seq<Event>, n: nat) {
    && GrewWithoutReset(was, now) && |now| <= |was| + 3 * n + 1
    && (forall i :: |was| <= i < |now| - 1 ==> !now[i].LayoutChanged?)
  }

  lemma MovesThenLayout(was: seq<Event>, mid: seq<Event>, now: seq<Event>, n: nat)
    requires GrewWithoutReset(was, mid) && |mid| <= |was| + 3 * n && GrewByLayout(mid, now)
    requires forall i :: |was| <= i < |mid| ==> !mid[i].LayoutChanged?
    ensures AnnouncesMoves(was, now, n)
  {
    assert forall i :: 0 <= i < |mid| ==> now[i] == mid[i];
  }

  lemma NothingMoved(events: seq<Event>, n: nat)
    ensures AnnouncesMoves(events, events, n)
  {
  }

  lemma LayoutAnnounced(was: seq<Event>, tree: Tree)
    ensures GrewByLayout(was, was) && GrewByLayout(was, was + [LayoutChanged(tree)])
  {
  }

  lemma InsertsWithoutReset(was: seq<Event>, now: seq<Event>, children: seq<RowId>)
    requires AnnouncesInserts(was, now, children)
    ensures GrewWithoutReset(was, now)
  {
    var mid :| GrewByInserts(was, mid, children) && GrewByLayout(mid, now);
    forall i | |was| <= i < |now| ensures !now[i].ModelReset? {
      if i < |mid| {
        assert now[i] == mid[i] && Inserts(mid[|was| + (i - |was|)], children[i - |was|]);
      }
    }
  }

  lemma RemovalsWithoutReset(was: seq<Event>, now: seq<Event>, rows: nat, groups: nat)
    requires AnnouncesRemovals(was, now, rows, groups)
    ensures GrewWithoutReset(was, now)
  {
    var mid, end :| GrewByChildRemovals(was, mid, rows) && GrewByGroupRemovals(mid, end, groups)
                    && GrewByLayout(end, now);
    forall i | |was| <= i < |now| ensures !now[i].ModelReset? {
      if i < |mid| {
        assert now[i] == end[i] == mid[i];
      } else if i < |end| {
        assert now[i] == end[i];
      }
    }
  }

  ghost function Resets(events: seq<Event>): nat {
    if events == [] then 0
    else Resets(events[..|events| - 1]) + (if events[|events| - 1].ModelReset? then 1 else 0)
  }

  lemma {:induction false} ResetsKept(was: seq<Event>, now: seq<Event>)
    requires GrewWithoutReset(was, now)
    ensures Resets(now) == Resets(was)
    decreases |now|
  {
    if |now| == |was| {
      assert now == was;
    } else {
      ResetsKept(was, now[..|now| - 1]);
    }
  }

  lemma ResetsOneMore(was: seq<Event>, e: Event)
    ensures Resets(was + [e]) == Resets(was) + (if e.ModelReset? then 1 else 0)
  {
    assert (was + [e])[..|was|] == was;
  }

  // ---- the tree a list of groups stands for -----------------------------------------

  ghost function IdAt(ids: seq<RowId>, r: nat): RowId {
    if r < |ids| then ids[r] else 0
  }

  ghost function ChildrenOf(rows: seq<nat>, ids: seq<RowId>): (t: seq<RowId>)
    ensures |t| == |rows|
  {
    seq(|rows|, i requires 0 <= i < |rows| => IdAt(ids, rows[i]))
  }

  ghost function TreeOf(groups: seq<Group>, ids: seq<RowId>): (t: Tree)
    ensures |t| == |groups|
  {
    seq(|groups|, g requires 0 <= g < |groups| => ChildrenOf(groups[g].srcRows, ids))
  }

  lemma TreeAppendChild(groups: seq<Group>, ids: seq<RowId>, g: nat, r: nat)
    requires g < |groups|
    ensures var e := ChildInserted(g, |groups[g].srcRows|, IdAt(ids, r));
            Enabled(TreeOf(groups, ids), e)
            && Apply(TreeOf(groups, ids), e) == TreeOf(AppendChild(groups, g, r), ids)
  {
    var t := ChildrenOf(groups[g].srcRows, ids);
    assert t[..|t|] + [IdAt(ids, r)] + t[|t|..] == ChildrenOf(groups[g].srcRows + [r], ids);
  }

  lemma TreeAddGroup(groups: seq<Group>, ids: seq<RowId>, key: string, title: string, r: nat)
    ensures var e := GroupInserted(|groups|, IdAt(ids, r));
            Enabled(TreeOf(groups, ids), e)
            && Apply(TreeOf(groups, ids), e) == TreeOf(AddGroup(groups, key, title, r), ids)
  {
    assert ChildrenOf([r], ids) == [IdAt(ids, r)];
  }

  lemma TreeRemoveChild(groups: seq<Group>, ids: seq<RowId>, g: nat, i: nat)
    requires g < |groups| && i < |groups[g].srcRows|
    ensures var e := ChildRemoved(g, i);
            Enabled(TreeOf(groups, ids), e)
            && Apply(TreeOf(groups, ids), e) == TreeOf(RemoveChild(groups, g, i), ids)
  {
    assert WithoutIndex(ChildrenOf(groups[g].srcRows, ids), i) == ChildrenOf(WithoutIndex(groups[g].srcRows, i), ids);
  }

  lemma TreeRemoveGroup(groups: seq<Group>, ids: seq<RowId>, g: nat)
    requires g < |groups| && groups[g].srcRows == []
    ensures var e := GroupRemoved(g);
            Enabled(TreeOf(groups, ids), e)
            && Apply(TreeOf(groups, ids), e) == TreeOf(RemoveGroup(groups, g), ids)
  {
  }

  /** Renumbering after an insertion into the source is invisible to a view. */
  lemma TreeShiftUp(groups: seq<Group>, ids: seq<RowId>, keys: seq<string>, first: nat, inserted: seq<RowId>)
    requires Filed(groups, FilingOf(keys)) && |keys| == |ids| && first <= |ids|
    ensures TreeOf(ShiftGroupsUp(groups, first, |inserted|), Spliced(ids, first, inserted)) == TreeOf(groups, ids)
  {
    var ids' := Spliced(ids, first, inserted);
    forall g | 0 <= g < |groups|
      ensures ChildrenOf(ShiftUp(groups[g].srcRows, first, |inserted|), ids') == ChildrenOf(groups[g].srcRows, ids)
    {
      forall i | 0 <= i < |groups[g].srcRows| ensures groups[g].srcRows[i] < |ids| {
        FiledUnderItsKey(groups, FilingOf(keys), g, i);
      }
    }
  }

  lemma TreeShiftDown(groups: seq<Group>, ids: seq<RowId>, keys: seq<string>, first: nat, last: nat)
    requires |keys| == |ids| && first <= last < |ids|
    requires Filed(groups, FilingExcept(keys, first, last + 1))
    ensures TreeOf(ShiftGroupsDown(groups, last, last - first + 1), Cut(ids, first, last)) == TreeOf(groups, ids)
  {
    var ids' := Cut(ids, first, last);
    forall g | 0 <= g < |groups|
      ensures ChildrenOf(ShiftDown(groups[g].srcRows, last, last - first + 1), ids')
        == ChildrenOf(groups[g].srcRows, ids)
    {
      forall i | 0 <= i < |groups[g].srcRows|
        ensures groups[g].srcRows[i] < |ids| && !(first <= groups[g].srcRows[i] <= last)
      {
        FiledUnderItsKey(groups, FilingExcept(keys, first, last + 1), g, i);
      }
    }
  }

  // ---- reordering ----------------------------------------------------------------------

  /** Sorting children inside each group, then the groups, is a layout change. */
  ghost predicate ChildrenPermuted(groups: seq<Group>, sorted: seq<Group>) {
    && |sorted| == |groups|
    && forall g :: 0 <= g < |groups| ==>
         && sorted[g].key == groups[g].key && sorted[g].title == groups[g].title
         && multiset(sorted[g].srcRows) == multiset(groups[g].srcRows)
  }

  lemma TreeReordered(groups: seq<Group>, mid: seq<Group>, sorted: seq<Group>, ids: seq<RowId>)
    requires ChildrenPermuted(groups, mid) && multiset(mid) == multiset(sorted)
    ensures SameUpToOrder(TreeOf(groups, ids), TreeOf(sorted, ids))
  {
    var f := (g: Group) => multiset(ChildrenOf(g.srcRows, ids));
    forall g | 0 <= g < |groups|
      ensures multiset(ChildrenOf(groups[g].srcRows, ids)) == multiset(ChildrenOf(mid[g].srcRows, ids))
    {
      var idOf := (r: nat) => IdAt(ids, r);
      MapKeepsPermutation(idOf, groups[g].srcRows, mid[g].srcRows);
      assert MapSeq(idOf, groups[g].srcRows) == ChildrenOf(groups[g].srcRows, ids);
      assert MapSeq(idOf, mid[g].srcRows) == ChildrenOf(mid[g].srcRows, ids);
    }
    assert Contents(TreeOf(groups, ids)) == MapSeq(f, mid);
    MapKeepsPermutation(f, mid, sorted);
    assert Contents(TreeOf(sorted, ids)) == MapSeq(f, sorted);
  }

  /** A sort only permutes: filing survives, and so does having no empty group. */
  lemma ReorderedFiled(groups: seq<Group>, mid: seq<Group>, sorted: seq<Group>, filing: map<nat, string>)
    requires Filed(groups, filing) && NoEmptyGroup(groups)
    requires ChildrenPermuted(groups, mid) && multiset(mid) == multiset(sorted)
    ensures Filed(sorted, filing) && NoEmptyGroup(sorted)
  {
    ChildrenPermutedFiled(groups, mid, filing);
    GroupsPermutedFiled(mid, sorted, filing);
  }

  lemma ChildrenPermutedFiled(groups: seq<Group>, mid: seq<Group>, filing: map<nat, string>)
    requires Filed(groups, filing) && NoEmptyGroup(groups) && ChildrenPermuted(groups, mid)
    ensures Filed(mid, filing) && NoEmptyGroup(mid)
  {
    forall g | 0 <= g < |mid|
      ensures NoDuplicates(mid[g].srcRows) && mid[g].srcRows != []
      ensures forall r: nat :: r in mid[g].srcRows <==> r in groups[g].srcRows
    {
      PermutationNoDuplicates(groups[g].srcRows, mid[g].srcRows);
      assert groups[g].srcRows[0] in groups[g].srcRows;
    }
    forall r: nat | r in filing ensures Holds(mid, filing[r]) {
      var h :| 0 <= h < |groups| && groups[h].key == filing[r];
      assert mid[h].key == filing[r];
    }
  }

  lemma GroupsPermutedFiled(mid: seq<Group>, sorted: seq<Group>, filing: map<nat, string>)
    requires Filed(mid, filing) && NoEmptyGroup(mid) && multiset(mid) == multiset(sorted)
    ensures Filed(sorted, filing) && NoEmptyGroup(sorted)
  {
    KeysOfPermutation(mid, sorted);
    forall g | 0 <= g < |sorted|
      ensures NoDuplicates(sorted[g].srcRows) && sorted[g].srcRows != []
      ensures forall r: nat :: r in sorted[g].srcRows <==> r in filing && filing[r] == sorted[g].key
    {
      assert sorted[g] in multiset(mid);
      var h :| 0 <= h < |mid| && mid[h] == sorted[g];
      forall r: nat ensures r in sorted[g].srcRows <==> r in filing && filing[r] == sorted[g].key {
        assert r in mid[h].srcRows <==> r in filing && filing[r] == mid[h].key;
      }
    }
    forall r: nat | r in filing ensures Holds(sorted, filing[r]) {
      var h :| 0 <= h < |mid| && mid[h].key == filing[r];
      assert mid[h] in multiset(sorted);
      var g :| 0 <= g < |sorted| && sorted[g] == mid[h];
    }
  }

  lemma KeysOfPermutation(mid: seq<Group>, sorted: seq<Group>)
    requires DistinctKeys(mid) && multiset(mid) == multiset(sorted)
    ensures DistinctKeys(sorted)
  {
    var key := (g: Group) => g.key;
    MapKeepsPermutation(key, mid, sorted);
    var a, b := MapSeq(key, mid), MapSeq(key, sorted);
    assert NoDuplicates(a);
    PermutationNoDuplicates(a, b);
    forall g, h | 0 <= g < h < |sorted| ensures sorted[g].key != sorted[h].key {
      assert b[g] != b[h];
    }
  }
}
