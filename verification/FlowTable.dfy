/** The value-level theory of the flow table: what one tick does to its rows. */
module FlowTable {
  import opened Connections
  import opened RateHistory

  datatype Row = Row(
    current: Connection,
    rx: Channel,
    tx: Channel,
    lastSeenMs: int,
    stale: bool,
    samples: nat)
  {
    function Id(): FlowId { current.Id() }
  }

  type Snapshot = map<FlowId, Connection>

  datatype Settings = Settings(staleMs: nat, staleUdpMs: nat, windowMs: nat)

  // ---- one row, one tick ----------------------------------------------------------------

  function RxBefore(prev: Snapshot, k: FlowId): Option<nat> {
    if k in prev then Some(prev[k].counters.rxBytes) else None
  }

  function TxBefore(prev: Snapshot, k: FlowId): Option<nat> {
    if k in prev then Some(prev[k].counters.txBytes) else None
  }

  function Refreshed(r: Row, c: Connection, prev: Snapshot, nowMs: int, deltaMs: int, windowMs: nat): Row {
    Row(c,
        Push(r.rx, nowMs, RawRate(RxBefore(prev, r.Id()), c.counters.rxBytes, deltaMs), nowMs - windowMs),
        Push(r.tx, nowMs, RawRate(TxBefore(prev, r.Id()), c.counters.txBytes, deltaMs), nowMs - windowMs),
        nowMs, false, r.samples + 1)
  }

  function Faded(r: Row): Row {
    if r.stale then r else r.(stale := true, rx := r.rx.(raw := 0.0), tx := r.tx.(raw := 0.0))
  }

  function Updated(r: Row, incoming: Snapshot, prev: Snapshot, nowMs: int, deltaMs: int, windowMs: nat): Row {
    if r.Id() in incoming then Refreshed(r, incoming[r.Id()], prev, nowMs, deltaMs, windowMs) else Faded(r)
  }

  function UpdatedAll(rows: seq<Row>, incoming: Snapshot, prev: Snapshot, nowMs: int, deltaMs: int,
                      windowMs: nat): (r: seq<Row>)
    ensures |r| == |rows|
  {
    seq(|rows|, i requires 0 <= i < |rows| => Updated(rows[i], incoming, prev, nowMs, deltaMs, windowMs))
  }

  function FreshRow(c: Connection, nowMs: int): Row {
    Row(c, SILENT, SILENT, nowMs, false, 0)
  }

  function Budget(r: Row, s: Settings): nat {
    if r.current.proto.Udp? then s.staleUdpMs else s.staleMs
  }

  predicate IsExpired(r: Row, nowMs: int, s: Settings) {
    r.stale && nowMs - r.lastSeenMs > Budget(r, s)
  }

  function Kept(rows: seq<Row>, nowMs: int, s: Settings): seq<Row> {
    if rows == [] then []
    else (if IsExpired(rows[0], nowMs, s) then [] else [rows[0]]) + Kept(rows[1..], nowMs, s)
  }

  // ---- tables -----------------------------------------------------------------------------

  datatype Table = Table(rows: seq<Row>, prev: Snapshot, lastMs: int)

  ghost predicate DistinctIds(rows: seq<Row>) {
    forall i, j :: 0 <= i < j < |rows| ==> rows[i].Id() != rows[j].Id()
  }

  ghost predicate HasRow(rows: seq<Row>, k: FlowId) {
    exists i :: 0 <= i < |rows| && rows[i].Id() == k
  }

  ghost predicate Keyed(m: Snapshot) {
    forall k :: k in m ==> m[k].Id() == k
  }

  /** A row against the last snapshot and the time of the last tick. */
  ghost predicate RowInStep(r: Row, prev: Snapshot, lastMs: int) {
    && (!r.stale <==> r.Id() in prev)
    && (!r.stale ==> r.lastSeenMs == lastMs && r.current.counters == prev[r.Id()].counters)
    && r.lastSeenMs <= lastMs
    && r.rx.raw >= 0.0 && r.tx.raw >= 0.0
    && (r.stale ==> r.rx.raw == 0.0 && r.tx.raw == 0.0)
  }

  /** What holds between ticks: one row per identity, the live rows are exactly the last
      snapshot's flows with its counters, and no rate is negative. */
  ghost predicate Consistent(t: Table) {
    && DistinctIds(t.rows)
    && Keyed(t.prev)
    && (forall i :: 0 <= i < |t.rows| ==> RowInStep(t.rows[i], t.prev, t.lastMs))
    && (forall k :: k in t.prev ==> HasRow(t.rows, k))
  }

  ghost predicate AreNew(added: seq<Row>, kept: seq<Row>, incoming: Snapshot, nowMs: int) {
    && DistinctIds(added)
    && (forall i :: 0 <= i < |added| ==>
          && added[i].Id() in incoming && added[i] == FreshRow(incoming[added[i].Id()], nowMs)
          && !HasRow(kept, added[i].Id()))
    && (forall k :: k in incoming && !HasRow(kept, k) ==> HasRow(added, k))
  }

  ghost function Survivors(t: Table, incoming: Snapshot, nowMs: int, s: Settings): seq<Row> {
    Kept(UpdatedAll(t.rows, incoming, t.prev, nowMs, nowMs - t.lastMs, s.windowMs), nowMs, s)
  }

  /** One tick: known rows are refreshed or fade, expired ones leave in place, and unseen
      flows are appended in some order. */
  ghost predicate Ticked(t: Table, incoming: Snapshot, nowMs: int, s: Settings, t': Table) {
    var kept := Survivors(t, incoming, nowMs, s);
    && t'.prev == incoming && t'.lastMs == nowMs
    && kept <= t'.rows
    && AreNew(t'.rows[|kept|..], kept, incoming, nowMs)
  }

  // ---- a tick keeps the table consistent ----------------------------------------------------

  lemma {:induction false} KeptAt(rows: seq<Row>, nowMs: int, s: Settings, j: nat) returns (i: nat)
    requires j < |Kept(rows, nowMs, s)|
    ensures i < |rows| && rows[i] == Kept(rows, nowMs, s)[j] && !IsExpired(rows[i], nowMs, s)
  {
    if IsExpired(rows[0], nowMs, s) {
      i := KeptAt(rows[1..], nowMs, s, j);
      i := i + 1;
    } else if j == 0 {
      i := 0;
    } else {
      i := KeptAt(rows[1..], nowMs, s, j - 1);
      i := i + 1;
    }
  }

  lemma {:induction false} KeptHas(rows: seq<Row>, nowMs: int, s: Settings, i: nat) returns (j: nat)
    requires i < |rows| && !IsExpired(rows[i], nowMs, s)
    ensures j < |Kept(rows, nowMs, s)| && Kept(rows, nowMs, s)[j] == rows[i]
  {
    if i == 0 {
      j := 0;
    } else {
      j := KeptHas(rows[1..], nowMs, s, i - 1);
      if !IsExpired(rows[0], nowMs, s) {
        j := j + 1;
      }
    }
  }

  lemma {:induction false} KeptDistinct(rows: seq<Row>, nowMs: int, s: Settings)
    requires DistinctIds(rows)
    ensures DistinctIds(Kept(rows, nowMs, s))
  {
    if rows != [] {
      KeptDistinct(rows[1..], nowMs, s);
      var tail := Kept(rows[1..], nowMs, s);
      forall j | 0 <= j < |tail| ensures tail[j].Id() != rows[0].Id() {
        var i := KeptAt(rows[1..], nowMs, s, j);
        assert rows[1..][i] == rows[i + 1];
      }
    }
  }

  lemma UpdatedInStep(r: Row, incoming: Snapshot, prev: Snapshot, lastMs: int, nowMs: int, windowMs: nat)
    requires RowInStep(r, prev, lastMs) && Keyed(incoming) && nowMs >= lastMs
    ensures var r' := Updated(r, incoming, prev, nowMs, nowMs - lastMs, windowMs);
            r'.Id() == r.Id() && RowInStep(r', incoming, nowMs)
  {
  }

  /** Where a surviving row came from. */
  lemma SurvivorOrigin(t: Table, incoming: Snapshot, nowMs: int, s: Settings, j: nat) returns (i: nat)
    requires j < |Survivors(t, incoming, nowMs, s)|
    ensures i < |t.rows|
    ensures Survivors(t, incoming, nowMs, s)[j]
      == Updated(t.rows[i], incoming, t.prev, nowMs, nowMs - t.lastMs, s.windowMs)
    ensures !IsExpired(Survivors(t, incoming, nowMs, s)[j], nowMs, s)
  {
    i := KeptAt(UpdatedAll(t.rows, incoming, t.prev, nowMs, nowMs - t.lastMs, s.windowMs), nowMs, s, j);
  }

  lemma SurvivorsDistinct(t: Table, incoming: Snapshot, nowMs: int, s: Settings)
    requires Consistent(t) && Keyed(incoming) && nowMs >= t.lastMs
    ensures DistinctIds(Survivors(t, incoming, nowMs, s))
  {
    var updated := UpdatedAll(t.rows, incoming, t.prev, nowMs, nowMs - t.lastMs, s.windowMs);
    forall i | 0 <= i < |updated| ensures updated[i].Id() == t.rows[i].Id() {
      UpdatedInStep(t.rows[i], incoming, t.prev, t.lastMs, nowMs, s.windowMs);
    }
    KeptDistinct(updated, nowMs, s);
  }

  /** Row i after a tick is an old row, updated, or the first row of a flow that had none. */
  ghost predicate HasOrigin(t: Table, incoming: Snapshot, nowMs: int, s: Settings, r: Row) {
    || (exists j :: 0 <= j < |t.rows| && r == Updated(t.rows[j], incoming, t.prev, nowMs, nowMs - t.lastMs, s.windowMs))
    || (r.Id() in incoming && !HasRow(t.rows, r.Id()) && r == FreshRow(incoming[r.Id()], nowMs))
  }

  /** A flow with a row that is in the snapshot keeps its row. */
  lemma PresentSurvives(t: Table, incoming: Snapshot, nowMs: int, s: Settings, k: FlowId)
    requires Consistent(t) && Keyed(incoming) && nowMs >= t.lastMs && k in incoming && HasRow(t.rows, k)
    ensures HasRow(Survivors(t, incoming, nowMs, s), k)
  {
    var i :| 0 <= i < |t.rows| && t.rows[i].Id() == k;
    var updated := UpdatedAll(t.rows, incoming, t.prev, nowMs, nowMs - t.lastMs, s.windowMs);
    UpdatedInStep(t.rows[i], incoming, t.prev, t.lastMs, nowMs, s.windowMs);
    var j := KeptHas(updated, nowMs, s, i);
    assert Survivors(t, incoming, nowMs, s)[j].Id() == k;
  }

  /** A row of a flow that is gone stays, as it was, for as long as its protocol's retention. */
  lemma AbsentRowStays(t: Table, incoming: Snapshot, nowMs: int, s: Settings, t': Table, i: nat) returns (j: nat)
    requires Ticked(t, incoming, nowMs, s, t') && i < |t.rows| && t.rows[i].Id() !in incoming
    requires nowMs - t.rows[i].lastSeenMs <= (if t.rows[i].current.proto == Udp then s.staleUdpMs else s.staleMs)
    ensures j < |t'.rows| && t'.rows[j].stale
    ensures t'.rows[j].current == t.rows[i].current && t'.rows[j].lastSeenMs == t.rows[i].lastSeenMs
  {
    var updated := UpdatedAll(t.rows, incoming, t.prev, nowMs, nowMs - t.lastMs, s.windowMs);
    j := KeptHas(updated, nowMs, s, i);
    assert t'.rows[j] == Survivors(t, incoming, nowMs, s)[j];
  }

  /** Any row after a tick: in step with the snapshot, within its budget, showing the
      snapshot's entry if there is one, and from where it should be. */
  lemma RowAfterTick(t: Table, incoming: Snapshot, nowMs: int, s: Settings, t': Table, i: nat)
    requires Consistent(t) && Keyed(incoming) && nowMs >= t.lastMs && Ticked(t, incoming, nowMs, s, t')
    requires i < |t'.rows|
    ensures RowInStep(t'.rows[i], incoming, nowMs) && !IsExpired(t'.rows[i], nowMs, s)
    ensures t'.rows[i].stale && t'.rows[i].current.proto == Udp ==> nowMs - t'.rows[i].lastSeenMs <= s.staleUdpMs
    ensures t'.rows[i].stale && t'.rows[i].current.proto != Udp ==> nowMs - t'.rows[i].lastSeenMs <= s.staleMs
    ensures t'.rows[i].Id() in incoming ==> t'.rows[i].current == incoming[t'.rows[i].Id()]
    ensures HasOrigin(t, incoming, nowMs, s, t'.rows[i])
  {
    var kept := Survivors(t, incoming, nowMs, s);
    if i < |kept| {
      var j := SurvivorOrigin(t, incoming, nowMs, s, i);
      UpdatedInStep(t.rows[j], incoming, t.prev, t.lastMs, nowMs, s.windowMs);
    } else {
      assert t'.rows[i] == t'.rows[|kept|..][i - |kept|];
      if HasRow(t.rows, t'.rows[i].Id()) {
        PresentSurvives(t, incoming, nowMs, s, t'.rows[i].Id());
      }
    }
  }

  lemma TwoPartsDistinct(kept: seq<Row>, rows: seq<Row>, incoming: Snapshot, nowMs: int)
    requires DistinctIds(kept) && kept <= rows && AreNew(rows[|kept|..], kept, incoming, nowMs)
    ensures DistinctIds(rows)
    ensures forall k :: k in incoming ==> HasRow(rows, k)
  {
    var added := rows[|kept|..];
    forall i, j | 0 <= i < j < |rows| ensures rows[i].Id() != rows[j].Id() {
      if i < |kept| <= j {
        assert rows[j] == added[j - |kept|];
        assert kept[i].Id() != rows[j].Id();
      } else if |kept| <= i {
        assert rows[i] == added[i - |kept|] && rows[j] == added[j - |kept|];
      }
    }
    forall k | k in incoming ensures HasRow(rows, k) {
      if HasRow(kept, k) {
        var i :| 0 <= i < |kept| && kept[i].Id() == k;
        assert rows[i].Id() == k;
      } else {
        var i :| 0 <= i < |added| && added[i].Id() == k;
        assert rows[|kept| + i].Id() == k;
      }
    }
  }

  /** The table is consistent after a tick if it was before; every stale row is within its
      budget; and every flow of the snapshot shows as it is in the snapshot. */
  lemma TickConsistent(t: Table, incoming: Snapshot, nowMs: int, s: Settings, t': Table)
    requires Consistent(t) && Keyed(incoming) && nowMs >= t.lastMs && Ticked(t, incoming, nowMs, s, t')
    ensures Consistent(t')
    ensures forall i :: 0 <= i < |t'.rows| ==> !IsExpired(t'.rows[i], nowMs, s)
    ensures forall i :: 0 <= i < |t'.rows| && t'.rows[i].Id() in incoming ==>
      t'.rows[i].current == incoming[t'.rows[i].Id()]
  {
    hide Survivors, RowInStep, IsExpired;
    SurvivorsDistinct(t, incoming, nowMs, s);
    TwoPartsDistinct(Survivors(t, incoming, nowMs, s), t'.rows, incoming, nowMs);
    forall i | 0 <= i < |t'.rows|
      ensures RowInStep(t'.rows[i], incoming, nowMs) && !IsExpired(t'.rows[i], nowMs, s)
      ensures t'.rows[i].Id() in incoming ==> t'.rows[i].current == incoming[t'.rows[i].Id()]
    {
      RowAfterTick(t, incoming, nowMs, s, t', i);
    }
  }

  /** New rows come last: of two flows, whichever was there first keeps its place, so the rows
      are in no order of the flows themselves. */
  lemma FirstComeFirst(a: Connection, b: Connection, nowMs: int, laterMs: int, s: Settings, t: Table, t': Table)
    requires a.Id() != b.Id() && nowMs <= laterMs
    requires Ticked(Table([], map[], 0), map[a.Id() := a], nowMs, s, t)
    requires Ticked(t, map[a.Id() := a, b.Id() := b], laterMs, s, t')
    ensures |t'.rows| == 2 && t'.rows[0].Id() == a.Id() && t'.rows[1].Id() == b.Id()
  {
    OnlyRow(a, nowMs, s, t);
    var incoming := map[a.Id() := a, b.Id() := b];
    var updated := UpdatedAll(t.rows, incoming, t.prev, laterMs, laterMs - t.lastMs, s.windowMs);
    assert updated[1..] == [] && Kept(updated, laterMs, s) == updated;
    var added := t'.rows[1..];
    assert t'.rows == updated + added;
    TwoNewRows(added, updated, incoming, laterMs, a.Id(), b.Id());
  }

  lemma OnlyRow(a: Connection, nowMs: int, s: Settings, t: Table)
    requires Ticked(Table([], map[], 0), map[a.Id() := a], nowMs, s, t)
    ensures |t.rows| == 1 && t.rows[0].Id() == a.Id() && !t.rows[0].stale
  {
    var added := t.rows[0..];
    assert added == t.rows;
    assert !HasRow([], a.Id()) && HasRow(added, a.Id());
    assert forall i :: 0 <= i < |added| ==> added[i].Id() == a.Id();
    assert 1 < |added| ==> added[0].Id() != added[1].Id();
  }

  lemma TwoNewRows(added: seq<Row>, kept: seq<Row>, incoming: Snapshot, nowMs: int, a: FlowId, b: FlowId)
    requires AreNew(added, kept, incoming, nowMs) && incoming.Keys == {a, b} && a != b
    requires |kept| == 1 && kept[0].Id() == a
    ensures |added| == 1 && added[0].Id() == b
  {
    assert HasRow(kept, a) && !HasRow(kept, b);
    assert HasRow(added, b);
    forall i | 0 <= i < |added| ensures added[i].Id() == b {
      assert added[i].Id() in incoming;
    }
    assert 1 < |added| ==> added[0].Id() != added[1].Id();
  }
}
