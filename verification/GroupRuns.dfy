/** Whole runs of the grouped view, driven by any sequence of source changes,
    sorts and mode switches. */
module GroupRuns {
  import opened Connections
  import opened GroupKeys
  import opened GroupTree
  import opened GroupEvents
  import opened SortRoles
  import opened ConnectionGroups
  import opened GroupTotals

  datatype Op =
    | Insert(first: nat, rows: seq<SourceRow>, ids: seq<RowId>)
    | Remove(first: nat, last: nat)
    | Change(top: nat, rows: seq<SourceRow>)
    | SortOn(column: Option<Column>, order: SortOrder)
    | WithinGroups(on: bool)
    | Mode(mode: ViewMode)

  /** The source keeps to its own model contract: spans lie within its rows. */
  predicate Possible(op: Op, rowCount: nat) {
    match op
    case Insert(first, rows, ids) => first <= rowCount && |rows| == |ids| > 0
    case Remove(first, last) => first <= last < rowCount
    case Change(top, rows) => rows != [] && top + |rows| <= rowCount
    case _ => true
  }

  /** The flat source on its own, without any grouping, under one operation. */
  function SourceStep(src: seq<SourceRow>, op: Op): seq<SourceRow> {
    if !Possible(op, |src|) then src
    else match op
      case Insert(first, rows, _) => Spliced(src, first, rows)
      case Remove(first, last) => Cut(src, first, last)
      case Change(top, rows) => src[..top] + rows + src[top + |rows|..]
      case _ => src
  }

  function SourceAfter(src: seq<SourceRow>, ops: seq<Op>): seq<SourceRow> {
    if ops == [] then src else SourceStep(SourceAfter(src, ops[..|ops| - 1]), ops[|ops| - 1])
  }

  function ModeStep(mode: ViewMode, op: Op): ViewMode {
    if op.Mode? then op.mode else mode
  }

  function ModeAfter(mode: ViewMode, ops: seq<Op>): ViewMode {
    if ops == [] then mode else ModeStep(ModeAfter(mode, ops[..|ops| - 1]), ops[|ops| - 1])
  }

  /** How often the mode really changes. */
  function Switches(mode: ViewMode, ops: seq<Op>): nat {
    if ops == [] then 0
    else
      var front, op := ops[..|ops| - 1], ops[|ops| - 1];
      Switches(mode, front) + (if ModeStep(ModeAfter(mode, front), op) != ModeAfter(mode, front) then 1 else 0)
  }

  lemma OneMoreOp(mode: ViewMode, src: seq<SourceRow>, ops: seq<Op>, n: nat)
    requires n < |ops|
    ensures SourceAfter(src, ops[..n + 1]) == SourceStep(SourceAfter(src, ops[..n]), ops[n])
    ensures ModeAfter(mode, ops[..n + 1]) == ModeStep(ModeAfter(mode, ops[..n]), ops[n])
    ensures Switches(mode, ops[..n + 1]) == Switches(mode, ops[..n])
              + (if ModeAfter(mode, ops[..n + 1]) != ModeAfter(mode, ops[..n]) then 1 else 0)
  {
    assert ops[..n + 1][..n] == ops[..n];
  }

  lemma ImpossibleChangesNothing(src: seq<SourceRow>, mode: ViewMode, op: Op)
    requires !Possible(op, |src|)
    ensures SourceStep(src, op) == src && ModeStep(mode, op) == mode
  {
  }

  lemma NoOpYet(mode: ViewMode, src: seq<SourceRow>, ops: seq<Op>)
    requires ops == []
    ensures SourceAfter(src, ops) == src && ModeAfter(mode, ops) == mode && Switches(mode, ops) == 0
  {
  }

  /** One operation resets the model exactly when it changes the mode. */
  ghost predicate ResetsOnSwitch(was: seq<Event>, now: seq<Event>, switched: bool) {
    Resets(now) == Resets(was) + (if switched then 1 else 0)
  }

  lemma CountResets(was: seq<Event>, now: seq<Event>)
    ensures GrewWithoutReset(was, now) ==> ResetsOnSwitch(was, now, false)
    ensures was <= now && |now| == |was| + 1 && now[|was|].ModelReset? ==> ResetsOnSwitch(was, now, true)
  {
    if GrewWithoutReset(was, now) {
      ResetsKept(was, now);
    }
    if was <= now && |now| == |was| + 1 {
      assert now == was + [now[|was|]];
      ResetsOneMore(was, now[|was|]);
    }
  }

  method Perform(p: ConnectionGroupProxy, op: Op)
    requires p.Valid() && Possible(op, |p.src|)
    modifies p
    ensures p.Valid()
    ensures p.src == SourceStep(old(p.src), op)
    ensures p.mode == ModeStep(old(p.mode), op) && old(p.events) <= p.events
    ensures !op.Mode? ==> GrewWithoutReset(old(p.events), p.events)
    ensures ResetsOnSwitch(old(p.events), p.events, p.mode != old(p.mode))
  {
    hide Filed, NoEmptyGroup, IsInverse, Replay, TreeOf, KeysOf, Arranged, Reordered, NameOf;
    hide AnnouncesInserts, AnnouncesRemovals, Resets;
    ghost var was := p.events;
    match op {
      case Insert(first, rows, ids) => 
        p.OnSourceRowsInserted(first, rows, ids);
        InsertsWithoutReset(was, p.events, ids);
      case Remove(first, last) => 
        ghost var before := |p.groups|;
        p.OnSourceRowsRemoved(first, last);
        RemovalsWithoutReset(was, p.events, last - first + 1, before - |p.groups|);
      case Change(top, rows) => p.OnSourceDataChanged(top, rows, true);
      case SortOn(column, order) => p.SortBy(column, order);
      case WithinGroups(on) => p.SetSortWithinGroups(on);
      case Mode(mode) => p.SetViewMode(mode);
    }
    CountResets(was, p.events);
  }

  /** After any run the tree is what a rebuild would group, a view that saw nothing but
      the events holds that tree, the reverse index is exact, and headers add up. */
  method Drive(mode: ViewMode, src: seq<SourceRow>, ids: seq<RowId>, ops: seq<Op>) returns (p: ConnectionGroupProxy)
    requires |src| == |ids|
    ensures p.Valid() && p.src == SourceAfter(src, ops) && p.mode == ModeAfter(mode, ops)
    ensures GroupMap(p.groups) == RowsByKey(KeysOf(p.mode, SourceAfter(src, ops)))
    ensures Replay(p.events) == Some(TreeOf(p.groups, p.ids)) && Resets(p.events) == 1 + Switches(mode, ops)
    ensures SumOfHeaders(p.groups, RxBytesAt(p.src)) % TWO64 == SumNat(Range(|p.src|), RxBytesAt(p.src)) % TWO64
    ensures SumOfHeaders(p.groups, TxBytesAt(p.src)) % TWO64 == SumNat(Range(|p.src|), TxBytesAt(p.src)) % TWO64
  {
    hide Filed, NoEmptyGroup, IsInverse, Replay, TreeOf, KeysOf, GroupMap, RowsByKey, SumOfHeaders, SumNat;
    p := new ConnectionGroupProxy(mode, src, ids);
    CountResets([], p.events);
    NoOpYet(mode, src, ops[..0]);
    hide SourceAfter, SourceStep, ModeAfter, ModeStep, Switches, Possible;
    for n := 0 to |ops|
      invariant fresh(p) && p.Valid() && p.src == SourceAfter(src, ops[..n]) && p.mode == ModeAfter(mode, ops[..n])
      invariant Resets(p.events) == 1 + Switches(mode, ops[..n])
    {
      OneMoreOp(mode, src, ops, n);
      if Possible(ops[n], |p.src|) {
        Perform(p, ops[n]);
      } else {
        ImpossibleChangesNothing(p.src, p.mode, ops[n]);
      }
    }
    assert ops[..|ops|] == ops;
    p.AgreesWithRebuild();
    p.HeaderTotalsAgree();
  }
}
