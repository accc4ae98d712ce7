/** The flow table as the program keeps it: rows updated in place on every tick, with
    its key index, its change signals and its UDP accumulators. */
module ConnectionAggregation {
  import opened Connections
  import opened RateHistory
  import opened RowRuns
  import opened FlowTable
  import opened FlowRuns
  import opened FlowUdp
  import opened FlowHistory
  import opened UdpPeers
  import opened UdpTable

  // ---- signals ------------------------------------------------------------------------------

  datatype Signal =
    | RowsUpdated(first: int, last: int)
    | RowRemoved(at: nat)
    | RowsInserted(start: nat, ids: seq<FlowId>)

  ghost predicate Fits(copy: seq<FlowId>, s: Signal) {
    match s
    case RowsUpdated(first, last) => 0 <= first <= last < |copy|
    case RowRemoved(at) => at < |copy|
    case RowsInserted(start, _) => start <= |copy|
  }

  ghost function Follow(copy: seq<FlowId>, s: Signal): seq<FlowId>
    requires Fits(copy, s)
  {
    match s
    case RowsUpdated(_, _) => copy
    case RowRemoved(at) => copy[..at] + copy[at + 1..]
    case RowsInserted(start, ids) => copy[..start] + ids + copy[start..]
  }

  /** What a model adapter that mirrors the signals holds, or None after a misfit. */
  ghost function Mirror(signals: seq<Signal>): Option<seq<FlowId>> {
    if signals == [] then Some([])
    else
      var before, s := Mirror(signals[..|signals| - 1]), signals[|signals| - 1];
      if before.Some? && Fits(before.value, s) then Some(Follow(before.value, s)) else None
  }

  /** The log has only grown: by updates of exactly these runs, then by no further updates
      and at most one insertion. */
  ghost predicate AnnouncesUpdates(was: seq<Signal>, now: seq<Signal>, sent: seq<(int, int)>) {
    && was <= now && |was| + |sent| <= |now|
    && (forall i :: 0 <= i < |sent| ==> now[|was| + i] == RowsUpdated(sent[i].0, sent[i].1))
    && (forall i :: |was| + |sent| <= i < |now| - 1 ==> now[i].RowRemoved?)
    && (|was| + |sent| < |now| ==> !now[|now| - 1].RowsUpdated?)
  }

  /** What a tick announces: the touched rows in maximal runs, by their numbers before the
      tick, then the removals, then what is new. */
  ghost predicate AnnouncesTick(was: seq<Signal>, now: seq<Signal>, touched: seq<int>) {
    exists sent :: AnnouncesUpdates(was, now, sent) && Covered(sent) == touched && Maximal(sent)
  }

  lemma UpdatesThenRest(was: seq<Signal>, mid: seq<Signal>, end: seq<Signal>, now: seq<Signal>, sent: seq<(int, int)>)
    requires was <= mid && |mid| == |was| + |sent|
    requires forall i :: 0 <= i < |sent| ==> mid[|was| + i] == RowsUpdated(sent[i].0, sent[i].1)
    requires mid <= end && forall i :: |mid| <= i < |end| ==> end[i].RowRemoved?
    requires end <= now && |now| <= |end| + 1 && (|now| == |end| + 1 ==> now[|end|].RowsInserted?)
    ensures AnnouncesUpdates(was, now, sent)
  {
    assert forall i :: 0 <= i < |mid| ==> now[i] == end[i] == mid[i];
    assert forall i :: 0 <= i < |end| ==> now[i] == end[i];
  }

  ghost function IdsOf(rows: seq<Row>): (ids: seq<FlowId>)
    ensures |ids| == |rows|
  {
    seq(|rows|, i requires 0 <= i < |rows| => rows[i].Id())
  }

  ghost predicate IndexesRows(index: map<FlowId, nat>, rows: seq<Row>) {
    && (forall k :: k in index ==> index[k] < |rows| && rows[index[k]].Id() == k)
    && (forall i :: 0 <= i < |rows| ==> rows[i].Id() in index && index[rows[i].Id()] == i)
  }

  // ---- steps that only compute ----------------------------------------------------------------

  function WithDirection(c: Connection, ctx: HostContext): Connection {
    if c.direction.UnknownDirection? then c.(direction := InferDirection(c, ctx)) else c
  }

  function WithDirections(conns: seq<Connection>, ctx: HostContext): (r: seq<Connection>)
    ensures |r| == |conns|
  {
    seq(|conns|, i requires 0 <= i < |conns| => WithDirection(conns[i], ctx))
  }

  method InferDirections(conns: seq<Connection>, ctx: HostContext) returns (r: seq<Connection>)
    ensures r == WithDirections(conns, ctx)
  {
    r := conns;
    for i := 0 to |conns|
      invariant |r| == |conns|
      invariant forall j :: 0 <= j < i ==> r[j] == WithDirection(conns[j], ctx)
      invariant forall j :: i <= j < |conns| ==> r[j] == conns[j]
    {
      if r[i].direction.UnknownDirection? {
        r := r[i := r[i].(direction := InferDirection(r[i], ctx))];
      }
    }
  }

  method IndexSnapshot(conns: seq<Connection>) returns (m: Snapshot)
    ensures m == IndexById(conns) && Keyed(m)
  {
    m := map[];
    for i := 0 to |conns|
      invariant m == IndexById(conns[..i])
    {
      assert conns[..i + 1][..i] == conns[..i];
      m := m[conns[i].Id() := conns[i]];
    }
    assert conns[..|conns|] == conns;
    forall k | k in m ensures m[k].Id() == k {
      IndexKeyed(conns, k);
    }
  }

  method RefreshRow(r: Row, c: Connection, prev: Snapshot, nowMs: int, deltaMs: int, windowMs: nat) returns (r': Row)
    ensures r' == Refreshed(r, c, prev, nowMs, deltaMs, windowMs)
  {
    var rawRx, rawTx := 0.0, 0.0;
    if r.Id() in prev {
      var p := prev[r.Id()].counters;
      rawRx := if c.counters.rxBytes >= p.rxBytes
               then (c.counters.rxBytes - p.rxBytes) as real / DeltaSecs(deltaMs) else 0.0;
      rawTx := if c.counters.txBytes >= p.txBytes
               then (c.counters.txBytes - p.txBytes) as real / DeltaSecs(deltaMs) else 0.0;
    }
    var rxSamples := Trim(r.rx.samples + [RateSample(nowMs, rawRx)], nowMs - windowMs);
    var txSamples := Trim(r.tx.samples + [RateSample(nowMs, rawTx)], nowMs - windowMs);
    r' := Row(c, Channel(rawRx, rxSamples, r.rx.sum + rawRx), Channel(rawTx, txSamples, r.tx.sum + rawTx),
              nowMs, false, r.samples + 1);
  }

  /** The rows a tick announces as updated: refreshed ones and newly stale ones. */
  ghost function Touched(rows: seq<Row>, incoming: Snapshot, n: nat): seq<int>
    requires n <= |rows|
  {
    if n == 0 then []
    else Touched(rows, incoming, n - 1)
         + (if rows[n - 1].Id() in incoming || !rows[n - 1].stale then [n - 1] else [])
  }

  lemma {:induction false} TouchedBelow(rows: seq<Row>, incoming: Snapshot, n: nat)
    requires n <= |rows|
    ensures forall x :: x in Touched(rows, incoming, n) ==> 0 <= x < n
  {
    if n > 0 {
      TouchedBelow(rows, incoming, n - 1);
    }
  }

  method UpdateRows(rows: seq<Row>, incoming: Snapshot, prev: Snapshot, nowMs: int, deltaMs: int, windowMs: nat)
    returns (r: seq<Row>, sent: seq<(int, int)>)
    ensures r == UpdatedAll(rows, incoming, prev, nowMs, deltaMs, windowMs)
    ensures Covered(sent) == Touched(rows, incoming, |rows|) && Maximal(sent)
    ensures forall i :: 0 <= i < |sent| ==> 0 <= sent[i].0 <= sent[i].1 < |rows|
  {
    hide Refreshed, Covered, Maximal, RowUpdateRuns.Valid;
    r := rows;
    var runs := new RowUpdateRuns();
    for i := 0 to |rows|
      invariant runs.Valid() && runs.added == Touched(rows, incoming, i) && (runs.first < 0 ==> runs.sent == [])
      invariant fresh(runs)
      invariant |r| == |rows|
      invariant forall j :: 0 <= j < i ==> r[j] == Updated(rows[j], incoming, prev, nowMs, deltaMs, windowMs)
      invariant forall j :: i <= j < |rows| ==> r[j] == rows[j]
    {
      if r[i].Id() in incoming {
        var r' := RefreshRow(r[i], incoming[r[i].Id()], prev, nowMs, deltaMs, windowMs);
        r := r[i := r'];
        runs.Add(i);
      } else if !r[i].stale {
        r := r[i := Faded(r[i])];
        runs.Add(i);
      }
    }
    runs.Flush();
    sent := runs.sent;
    TouchedBelow(rows, incoming, |rows|);
  }

  // ---- the table ----------------------------------------------------------------------------------

  lemma MirrorOneMore(signals: seq<Signal>, s: Signal, copy: seq<FlowId>)
    requires Mirror(signals) == Some(copy) && Fits(copy, s)
    ensures Mirror(signals + [s]) == Some(Follow(copy, s))
  {
    assert (signals + [s])[..|signals|] == signals;
  }

  lemma IndexDecides(index: map<FlowId, nat>, rows: seq<Row>, k: FlowId)
    requires IndexesRows(index, rows)
    ensures k in index <==> HasRow(rows, k)
  {
    if k in index {
      assert rows[index[k]].Id() == k;
    }
  }

  /** Pruning from the back, one row at a time. */
  lemma PruneStep(all: seq<Row>, i: nat, nowMs: int, s: Settings)
    requires i < |all|
    ensures var rows := all[..i + 1] + Kept(all[i + 1..], nowMs, s);
            && rows[i] == all[i]
            && (if IsExpired(all[i], nowMs, s) then rows[..i] + rows[i + 1..] else rows)
               == all[..i] + Kept(all[i..], nowMs, s)
  {
    var rows, tail := all[..i + 1] + Kept(all[i + 1..], nowMs, s), Kept(all[i + 1..], nowMs, s);
    assert all[i..][1..] == all[i + 1..] && all[i..][0] == all[i];
    assert Kept(all[i..], nowMs, s) == (if IsExpired(all[i], nowMs, s) then [] else [all[i]]) + tail;
    assert rows[..i] == all[..i] && rows[i + 1..] == tail;
  }

  lemma KeptOfNone(nowMs: int, s: Settings)
    ensures Kept([], nowMs, s) == []
  {
  }

  lemma IdsWithout(rows: seq<Row>, i: nat)
    requires i < |rows|
    ensures IdsOf(rows[..i] + rows[i + 1..]) == IdsOf(rows)[..i] + IdsOf(rows)[i + 1..]
  {
  }

  lemma TickedWhen(t: Table, incoming: Snapshot, nowMs: int, s: Settings, kept: seq<Row>, rows: seq<Row>)
    requires kept == Kept(UpdatedAll(t.rows, incoming, t.prev, nowMs, nowMs - t.lastMs, s.windowMs), nowMs, s)
    requires kept <= rows && AreNew(rows[|kept|..], kept, incoming, nowMs)
    ensures Ticked(t, incoming, nowMs, s, Table(rows, incoming, nowMs))
  {
  }

  /** A patch touches the one row the index names, if it names one. */
  lemma PatchHitsOne(index: map<FlowId, nat>, rows: seq<Row>, p: Connection)
    requires IndexesRows(index, rows)
    ensures PatchRows(rows, p) ==
            if p.Id() in index
            then rows[index[p.Id()] := rows[index[p.Id()]].(current := PatchedWith(rows[index[p.Id()]].current, p))]
            else rows
    ensures IndexesRows(index, PatchRows(rows, p)) && IdsOf(PatchRows(rows, p)) == IdsOf(rows)
  {
  }

  function TrimmedRow(r: Row, cutoffMs: int): Row {
    r.(rx := r.rx.(samples := Trimmed(r.rx.samples, cutoffMs)), tx := r.tx.(samples := Trimmed(r.tx.samples, cutoffMs)))
  }

  /** The histories are the same; only how far back the windows reach may differ. */
  ghost predicate SameSamples(a: map<FlowId, History>, b: map<FlowId, History>) {
    a.Keys == b.Keys && forall k :: k in a ==> b[k].rx == a[k].rx && b[k].tx == a[k].tx
  }

  ghost function Narrowed(histories: map<FlowId, History>, cutoffMs: int): map<FlowId, History> {
    map k | k in histories ::
      histories[k].(horizonMs := if histories[k].horizonMs > cutoffMs then histories[k].horizonMs else cutoffMs)
  }

  lemma StandingKeeps(t: Table, t': Table, index: map<FlowId, nat>, peers: Peers)
    requires BetweenTicks(t, t') && Consistent(t) && IndexesRows(index, t.rows)
    ensures Consistent(t') && IndexesRows(index, t'.rows) && IdsOf(t.rows) == IdsOf(t'.rows)
    ensures PeersInStep(t.rows, peers) ==> PeersInStep(t'.rows, peers)
  {
    StandingKeepsPeers(t.rows, t'.rows, peers);
    StandingConsistent(t, t');
    forall i | 0 <= i < |t.rows| ensures t'.rows[i].Id() == t.rows[i].Id() {
      assert SameStanding(t.rows[i], t'.rows[i]);
    }
    hide SameStanding, Consistent, PeersInStep;
  }

  lemma PatchedRemembers(t: Table, t': Table, histories: map<FlowId, History>, windowMs: nat)
    requires OnlyAttribution(t, t') && HistoryInStep(t.rows, histories, t.lastMs)
    ensures HistoryInStep(t'.rows, histories, t.lastMs)
    ensures WindowExact(t.rows, histories, windowMs) ==> WindowExact(t'.rows, histories, windowMs)
  {
    forall i | 0 <= i < |t.rows|
      ensures t'.rows[i].Id() == t.rows[i].Id() && t'.rows[i].lastSeenMs == t.rows[i].lastSeenMs
      ensures t'.rows[i].Id() in histories && RowRemembers(t'.rows[i], histories[t'.rows[i].Id()], t.lastMs)
    {
      assert SameButAttribution(t.rows[i], t'.rows[i]);
      assert RowRemembers(t.rows[i], histories[t.rows[i].Id()], t.lastMs);
    }
  }

  lemma TrimmedRemembers(a: seq<Row>, b: seq<Row>, histories: map<FlowId, History>, lastMs: int, cutoffMs: int)
    requires |a| == |b| && forall i :: 0 <= i < |a| ==> b[i] == TrimmedRow(a[i], cutoffMs)
    requires HistoryInStep(a, histories, lastMs) && cutoffMs <= lastMs
    ensures HistoryInStep(b, Narrowed(histories, cutoffMs), lastMs)
    ensures forall i :: 0 <= i < |b| ==> Narrowed(histories, cutoffMs)[b[i].Id()].horizonMs >= cutoffMs
  {
    forall i | 0 <= i < |b|
      ensures b[i].Id() in histories && RowRemembers(b[i], Narrowed(histories, cutoffMs)[b[i].Id()], lastMs)
    {
      var h := histories[a[i].Id()];
      assert RowRemembers(a[i], h, lastMs);
      TrimmedSince(h.rx, h.horizonMs, cutoffMs);
      TrimmedSince(h.tx, h.horizonMs, cutoffMs);
    }
  }

  /** The reference: maximum over the history since the horizon, or mean of it all. */
  ghost predicate IsReference(m: real, windowed: bool, history: seq<RateSample>, horizonMs: int) {
    if windowed then
      && m >= 0.0
      && (forall s :: s in history && s.timeMs >= horizonMs ==> s.rate <= m)
      && (m == 0.0 || exists s :: s in history && s.timeMs >= horizonMs && s.rate == m)
    else
      m == if history == [] then 0.0 else SumRates(history) / |history| as real
  }

  class ConnectionAggregator {
    const udpAggregateByPeer: bool
    var rows: seq<Row>
    var keyToIdx: map<FlowId, nat>
    var prev: Snapshot
    var lastElapsedMs: int
    var udpAgg: Peers
    var settings: Settings
    /** Windowed maximum if set, cumulative average otherwise. */
    var windowed: bool
    /** Signals since construction, per-peer observation logs, per-row rate histories. */
    ghost var signals: seq<Signal>
    ghost var logs: Logs
    ghost var histories: map<FlowId, History>
    ghost var windowFixed: bool

    ghost function TableNow(): Table
      reads this
    {
      Table(rows, prev, lastElapsedMs)
    }

    ghost predicate UdpValid()
      reads this
    {
      && AllDigest(udpAgg, logs)
      && (if udpAggregateByPeer then PeersInStep(rows, udpAgg) else udpAgg == map[])
    }

    ghost predicate HistoryValid()
      reads this
    {
      && HistoryInStep(rows, histories, lastElapsedMs)
      && (windowFixed ==> WindowExact(rows, histories, settings.windowMs))
    }

    ghost predicate Valid()
      reads this
    {
      && Consistent(TableNow())
      && IndexesRows(keyToIdx, rows)
      && Mirror(signals) == Some(IdsOf(rows))
      && UdpValid()
      && HistoryValid()
    }

    constructor (udpAggregateByPeer: bool, settings: Settings, windowed: bool)
      ensures Valid() && rows == [] && prev == map[] && lastElapsedMs == 0
      ensures this.udpAggregateByPeer == udpAggregateByPeer && this.settings == settings && this.windowed == windowed
      ensures windowFixed
    {
      this.udpAggregateByPeer, this.settings, this.windowed := udpAggregateByPeer, settings, windowed;
      rows, keyToIdx, prev, lastElapsedMs, udpAgg := [], map[], map[], 0, map[];
      signals, logs, histories, windowFixed := [], map[], map[], true;
    }

    ghost method Signals(s: Signal)
      requires Mirror(signals).Some? && Fits(Mirror(signals).value, s)
      modifies `signals
      ensures Mirror(signals) == Some(Follow(old(Mirror(signals).value), s)) && signals == old(signals) + [s]
    {
      MirrorOneMore(signals, s, Mirror(signals).value);
      signals := signals + [s];
    }

    method UpdateConnections(nowMs: int, ctx: HostContext, conns: seq<Connection>)
      requires Valid() && nowMs >= lastElapsedMs
      modifies `rows, `keyToIdx, `prev, `lastElapsedMs, `udpAgg, `signals, `logs, `histories
      ensures Valid()
      ensures Ticked(old(TableNow()), prev, nowMs, settings, TableNow())
      // the snapshot that was applied
      ensures !udpAggregateByPeer ==> prev == IndexById(WithDirections(conns, ctx))
      ensures udpAggregateByPeer ==>
        FoldedTick(old(TableNow()), old(udpAgg), WithDirections(conns, ctx), nowMs, settings, udpAgg, TableNow())
      ensures udpAggregateByPeer ==> prev == FoldedSnapshot(WithDirections(conns, ctx), udpAgg)
      // rows: live ones show the snapshot, stale ones are within budget
      ensures forall i :: 0 <= i < |rows| && !rows[i].stale ==> rows[i].current == prev[rows[i].Id()]
      ensures forall i :: 0 <= i < |rows| ==> !IsExpired(rows[i], nowMs, settings)
      // peer rows never lose bytes while they are in the table, and packets only as read
      ensures udpAggregateByPeer ==>
        PeerRowsMove(old(rows), rows, old(udpAgg), WithDirections(conns, ctx), nowMs)
      ensures udpAggregateByPeer ==> LogsExtend(old(logs), WithDirections(conns, ctx), logs)
      ensures histories == NextHistories(old(histories), old(TableNow()), prev, nowMs, settings.windowMs, rows)
      // the signals: what was touched, then what left, then what came
      ensures AnnouncesTick(old(signals), signals, Touched(old(rows), prev, |old(rows)|))
    {
      hide Consistent, AllDigest, PeersInStep, HistoryInStep, WindowExact, IndexesRows, FoldedSnapshot, FoldedTick,
           LogsExtend;
      hide Ticked, Mirror, IdsOf, NextHistories, IsExpired, PeerRowsMove, WithDirections, IndexById, FlowTable.Keyed,
           SweptAll, ObserveAll, FoldedRows, AnnouncesTick, Touched;
      var directed := InferDirections(conns, ctx);
      var snapshot := Fold(nowMs, directed);
      var incoming := IndexSnapshot(snapshot);
      ghost var was, peers := TableNow(), old(udpAgg);
      ApplySnapshot(nowMs, incoming);
      prev := incoming;
      lastElapsedMs := nowMs;
      ghost var now := TableNow();
      TickConsistent(was, incoming, nowMs, settings, now);
      LiveRowsShow(now, incoming);
      histories := NextHistories(histories, was, incoming, nowMs, settings.windowMs, rows);
      HistoryTick(old(histories), was, incoming, nowMs, settings, now);
      if udpAggregateByPeer {
        IsFoldedTick(was, peers, directed, nowMs, settings, udpAgg, now);
        PeersTick(was, peers, directed, nowMs, settings, udpAgg, now);
      }
    }

    static lemma IsFoldedTick(t: Table, peers: Peers, conns: seq<Connection>, nowMs: int, s: Settings, peers': Peers,
                              t': Table)
      requires peers' == SweptAll(ObserveAll(peers, conns, nowMs), nowMs, s.staleUdpMs)
      requires FoldedRows(conns).Keys <= peers'.Keys
      requires Ticked(t, FoldedSnapshot(conns, peers'), nowMs, s, t')
      ensures FoldedTick(t, peers, conns, nowMs, s, peers', t')
    {
    }

    static lemma LiveRowsShow(t: Table, incoming: Snapshot)
      requires Consistent(t) && t.prev == incoming
      requires forall i :: 0 <= i < |t.rows| && t.rows[i].Id() in incoming ==>
        t.rows[i].current == incoming[t.rows[i].Id()]
      ensures forall i :: 0 <= i < |t.rows| && !t.rows[i].stale ==>
                t.rows[i].Id() in incoming && t.rows[i].current == incoming[t.rows[i].Id()]
    {
      forall i | 0 <= i < |t.rows| && !t.rows[i].stale ensures t.rows[i].Id() in incoming {
        assert RowInStep(t.rows[i], t.prev, t.lastMs);
      }
    }

    /** UDP folding, or nothing when it is off. */
    method Fold(nowMs: int, directed: seq<Connection>) returns (snapshot: seq<Connection>)
      requires AllDigest(udpAgg, logs) && (!udpAggregateByPeer ==> udpAgg == map[])
      modifies `udpAgg, `logs
      ensures AllDigest(udpAgg, logs)
      ensures !udpAggregateByPeer ==> udpAgg == map[] && snapshot == directed
      ensures udpAggregateByPeer ==>
        && udpAgg == SweptAll(ObserveAll(old(udpAgg), directed, nowMs), nowMs, settings.staleUdpMs)
        && FoldedRows(directed).Keys <= udpAgg.Keys
        && IndexById(snapshot) == FoldedSnapshot(directed, udpAgg)
      ensures udpAggregateByPeer ==> LogsExtend(old(logs), directed, logs)
    {
      hide Digests, FoldedSnapshot, SweptAll, ObserveAll, FoldedRows;
      if udpAggregateByPeer {
        udpAgg, logs, snapshot := FoldUdp(udpAgg, directed, nowMs, settings.staleUdpMs, logs);
      } else {
        udpAgg, logs := map[], map[];
        snapshot := directed;
      }
    }

    /** Rows: update in place, prune, re-index, append. */
    method ApplySnapshot(nowMs: int, incoming: Snapshot)
      requires Consistent(TableNow()) && Keyed(incoming) && nowMs >= lastElapsedMs
      requires Mirror(signals) == Some(IdsOf(rows))
      modifies `rows, `keyToIdx, `signals
      ensures IndexesRows(keyToIdx, rows) && Mirror(signals) == Some(IdsOf(rows))
      ensures Ticked(old(TableNow()), incoming, nowMs, settings, Table(rows, incoming, nowMs))
      ensures AnnouncesTick(old(signals), signals, Touched(old(rows), incoming, |old(rows)|))
    {
      hide AnnouncesUpdates;
      hide Consistent, IndexesRows, Covered, Maximal, Kept, UpdatedAll, Mirror, AreNew, Touched, Survivors, Ticked;
      ghost var was := TableNow();
      var updated, sent := UpdateRows(rows, incoming, prev, nowMs, nowMs - lastElapsedMs, settings.windowMs);
      SignalRuns(sent);
      ghost var mid := signals;
      UpdatedIds(was, incoming, nowMs, settings.windowMs);
      rows := updated;
      PruneRows(nowMs);
      ghost var end := signals;
      SurvivorsAre(was, incoming, nowMs, settings);
      SurvivorsDistinct(was, incoming, nowMs, settings);
      ghost var kept := rows;
      RebuildIndex();
      AppendNew(nowMs, incoming);
      UpdatesThenRest(old(signals), mid, end, signals, sent);
      TickedWhen(was, incoming, nowMs, settings, kept, rows);
    }

    static lemma SurvivorsAre(t: Table, incoming: Snapshot, nowMs: int, s: Settings)
      ensures Survivors(t, incoming, nowMs, s)
              == Kept(UpdatedAll(t.rows, incoming, t.prev, nowMs, nowMs - t.lastMs, s.windowMs), nowMs, s)
    {
    }

    static lemma UpdatedIds(t: Table, incoming: Snapshot, nowMs: int, windowMs: nat)
      requires Keyed(incoming)
      ensures IdsOf(UpdatedAll(t.rows, incoming, t.prev, nowMs, nowMs - t.lastMs, windowMs)) == IdsOf(t.rows)
    {
    }

    ghost method SignalRuns(sent: seq<(int, int)>)
      requires Mirror(signals).Some?
      requires forall i :: 0 <= i < |sent| ==> 0 <= sent[i].0 <= sent[i].1 < |Mirror(signals).value|
      modifies `signals
      ensures Mirror(signals) == old(Mirror(signals))
      ensures old(signals) <= signals && |signals| == |old(signals)| + |sent|
      ensures forall i :: 0 <= i < |sent| ==> signals[|old(signals)| + i] == RowsUpdated(sent[i].0, sent[i].1)
    {
      hide Mirror;
      for i := 0 to |sent|
        invariant Mirror(signals) == old(Mirror(signals))
        invariant old(signals) <= signals && |signals| == |old(signals)| + i
        invariant forall j :: 0 <= j < i ==> signals[|old(signals)| + j] == RowsUpdated(sent[j].0, sent[j].1)
      {
        Signals(RowsUpdated(sent[i].0, sent[i].1));
      }
    }

    /** From the last row to the first, so that indices stay good. */
    method PruneRows(nowMs: int)
      requires Mirror(signals) == Some(IdsOf(rows))
      modifies `rows, `signals
      ensures rows == Kept(old(rows), nowMs, settings)
      ensures Mirror(signals) == Some(IdsOf(rows)) && old(signals) <= signals
      ensures |signals| == |old(signals)| + |old(rows)| - |rows|
      ensures forall i :: |old(signals)| <= i < |signals| ==> signals[i].RowRemoved?
    {
      hide Kept, IsExpired, Mirror;
      var i := |rows|;
      KeptOfNone(nowMs, settings);
      assert rows[..i] == rows && rows[i..] == [];
      while i > 0
        invariant 0 <= i <= |old(rows)|
        invariant rows == old(rows)[..i] + Kept(old(rows)[i..], nowMs, settings)
        invariant Mirror(signals) == Some(IdsOf(rows)) && old(signals) <= signals
        invariant |signals| == |old(signals)| + |old(rows)| - |rows|
        invariant forall j :: |old(signals)| <= j < |signals| ==> signals[j].RowRemoved?
      {
        i := i - 1;
        PruneStep(old(rows), i, nowMs, settings);
        if IsExpired(rows[i], nowMs, settings) {
          Signals(RowRemoved(i));
          IdsWithout(rows, i);
          rows := rows[..i] + rows[i + 1..];
        }
      }
      assert old(rows)[0..] == old(rows);
    }

    method RebuildIndex()
      requires DistinctIds(rows)
      modifies `keyToIdx
      ensures IndexesRows(keyToIdx, rows)
    {
      keyToIdx := map[];
      for i := 0 to |rows|
        invariant IndexesRows(keyToIdx, rows[..i])
      {
        keyToIdx := keyToIdx[rows[i].Id() := i];
      }
      assert rows[..|rows|] == rows;
    }

    /** Flows without a row get one, in whatever order the snapshot's table yields them. */
    method AppendNew(nowMs: int, incoming: Snapshot)
      requires IndexesRows(keyToIdx, rows) && Keyed(incoming)
      requires Mirror(signals) == Some(IdsOf(rows))
      modifies `rows, `keyToIdx, `signals
      ensures IndexesRows(keyToIdx, rows) && Mirror(signals) == Some(IdsOf(rows))
      ensures old(rows) <= rows && AreNew(rows[|old(rows)|..], old(rows), incoming, nowMs)
      ensures signals == old(signals)
                + if rows == old(rows) then [] else [RowsInserted(|old(rows)|, IdsOf(rows[|old(rows)|..]))]
    {
      hide IndexesRows, Mirror, HasRow, FreshRow, Keyed;
      var additions := Additions(incoming, nowMs, keyToIdx, rows);
      if additions != [] {
        Signals(RowsInserted(|rows|, IdsOf(additions)));
        assert IdsOf(rows + additions) == IdsOf(rows)[..|rows|] + IdsOf(additions) + IdsOf(rows)[|rows|..];
        AppendAll(additions);
      }
      assert rows[|old(rows)|..] == additions;
    }

    method AppendAll(additions: seq<Row>)
      requires IndexesRows(keyToIdx, rows) && DistinctIds(additions)
      requires forall i :: 0 <= i < |additions| ==> !HasRow(rows, additions[i].Id())
      modifies `rows, `keyToIdx
      ensures IndexesRows(keyToIdx, rows) && rows == old(rows) + additions
    {
      for n := 0 to |additions|
        invariant rows == old(rows) + additions[..n]
        invariant IndexesRows(keyToIdx, rows)
      {
        forall i | 0 <= i < |rows| ensures rows[i].Id() != additions[n].Id() {
          if i < |old(rows)| {
            assert !HasRow(old(rows), additions[n].Id());
          }
        }
        rows := rows + [additions[n]];
        keyToIdx := keyToIdx[additions[n].Id() := |rows| - 1];
      }
    }

    static method Additions(incoming: Snapshot, nowMs: int, index: map<FlowId, nat>, rows: seq<Row>)
      returns (a: seq<Row>)
      requires IndexesRows(index, rows) && Keyed(incoming)
      ensures AreNew(a, rows, incoming, nowMs)
    {
      a := [];
      var todo := incoming.Keys;
      while todo != {}
        invariant todo <= incoming.Keys
        invariant DistinctIds(a)
        invariant forall i :: 0 <= i < |a| ==>
          && a[i].Id() in incoming && a[i] == FreshRow(incoming[a[i].Id()], nowMs)
          && a[i].Id() !in index && a[i].Id() !in todo
        invariant forall k :: k in incoming && k !in todo && k !in index ==> HasRow(a, k)
      {
        var k :| k in todo;
        todo := todo - {k};
        if k !in index {
          ghost var before := a;
          a := a + [FreshRow(incoming[k], nowMs)];
          assert a[|a| - 1].Id() == k;
          forall x | x in incoming && x !in todo && x !in index ensures HasRow(a, x) {
            if x != k {
              var i :| 0 <= i < |before| && before[i].Id() == x;
              assert a[i].Id() == x;
            }
          }
        }
      }
      forall k ensures k in index <==> HasRow(rows, k) {
        IndexDecides(index, rows, k);
      }
    }

    // ---- patches, window, references ----------------------------------------------------------

    /** Refined attribution for rows that are still there; rates and counters stay. */
    method ApplyAttributionPatch(patch: seq<Connection>) returns (any: bool)
      requires Valid()
      modifies `rows
      ensures Valid() && rows == PatchAll(old(rows), patch)
      ensures OnlyAttribution(old(TableNow()), TableNow()) && BetweenTicks(old(TableNow()), TableNow())
      ensures !any ==> rows == old(rows)
    {
      hide Consistent, AllDigest, PeersInStep, HistoryInStep, WindowExact, PatchedWith, OnlyAttribution, SameStanding;
      any := false;
      for n := 0 to |patch|
        invariant rows == PatchAll(old(rows), patch[..n]) && IdsOf(rows) == IdsOf(old(rows))
        invariant IndexesRows(keyToIdx, rows)
        invariant !any ==> rows == old(rows)
      {
        assert patch[..n + 1][..n] == patch[..n];
        var p := patch[n];
        PatchHitsOne(keyToIdx, rows, p);
        if p.Id() in keyToIdx {
          var i := keyToIdx[p.Id()];
          var patched := PatchedWith(rows[i].current, p);
          any := any || patched != rows[i].current;
          rows := rows[i := rows[i].(current := patched)];
        }
      }
      assert patch[..|patch|] == patch;
      PatchOnlyAttribution(old(TableNow()), patch);
      PatchedStanding(old(TableNow()), TableNow());
      StandingKeeps(old(TableNow()), TableNow(), keyToIdx, udpAgg);
      PatchedRemembers(old(TableNow()), TableNow(), histories, settings.windowMs);
    }

    /** Shrinking the window drops what it no longer covers at once when it is on show;
        what an enlarged window would have covered is gone until time refills it. */
    method SetThroughputWindowMs(ms: int)
      requires Valid()
      modifies `settings, `rows, `histories, `windowFixed
      ensures Valid() && settings == old(settings).(windowMs := if ms < 1000 then 1000 else ms)
      ensures windowFixed == (old(windowFixed) && settings == old(settings))
      ensures SameSamples(old(histories), histories)
      ensures IdsOf(rows) == IdsOf(old(rows)) && BetweenTicks(old(TableNow()), TableNow())
      ensures forall i :: 0 <= i < |rows| && rows[i].Id() in histories && windowed && settings != old(settings) ==>
        histories[rows[i].Id()].horizonMs >= lastElapsedMs - settings.windowMs
    {
      var clamped := if ms < 1000 then 1000 else ms;
      if clamped == settings.windowMs { return; }
      settings := settings.(windowMs := clamped);
      windowFixed := false;
      if rows != [] && windowed {
        hide Consistent, UdpValid;
        TrimRows(lastElapsedMs - clamped);
      }
    }

    method TrimRows(cutoffMs: int)
      requires Consistent(TableNow()) && IndexesRows(keyToIdx, rows) && Mirror(signals) == Some(IdsOf(rows))
        && UdpValid()
      requires HistoryInStep(rows, histories, lastElapsedMs) && !windowFixed && cutoffMs <= lastElapsedMs
      modifies `rows, `histories
      ensures Valid() && IdsOf(rows) == IdsOf(old(rows)) && BetweenTicks(old(TableNow()), TableNow())
      ensures forall i :: 0 <= i < |rows| ==> histories[rows[i].Id()].horizonMs >= cutoffMs
      ensures SameSamples(old(histories), histories)
    {
      hide Consistent, IndexesRows, Mirror, AllDigest, PeersInStep, Trimmed;
      ghost var was := rows;
      for i := 0 to |rows|
        invariant |rows| == |was| && histories == old(histories)
        invariant forall j :: 0 <= j < i ==> rows[j] == TrimmedRow(was[j], cutoffMs)
        invariant forall j :: i <= j < |was| ==> rows[j] == was[j]
      {
        var rx := Trim(rows[i].rx.samples, cutoffMs);
        var tx := Trim(rows[i].tx.samples, cutoffMs);
        rows := rows[i := rows[i].(rx := rows[i].rx.(samples := rx), tx := rows[i].tx.(samples := tx))];
      }
      StandingKeeps(old(TableNow()), TableNow(), keyToIdx, udpAgg);
      TrimmedRemembers(was, rows, histories, lastElapsedMs, cutoffMs);
      histories := Narrowed(histories, cutoffMs);
    }

    /** The reference a row's gauge is drawn against: the maximum of the row's history over
        its window, or the mean of its whole history. */
    method RxReference(i: nat) returns (m: real)
      requires Valid() && i < |rows|
      ensures IsReference(m, windowed, histories[rows[i].Id()].rx, histories[rows[i].Id()].horizonMs)
      ensures windowFixed ==> histories[rows[i].Id()].horizonMs == rows[i].lastSeenMs - settings.windowMs
    {
      hide Consistent, UdpValid;
      ghost var h := histories[rows[i].Id()];
      assert RowRemembers(rows[i], h, lastElapsedMs);
      if !windowed {
        return if rows[i].samples > 0 then rows[i].rx.sum / rows[i].samples as real else 0.0;
      }
      m := WindowedMax(rows[i].rx, h.rx, h.horizonMs);
    }

    method TxReference(i: nat) returns (m: real)
      requires Valid() && i < |rows|
      ensures IsReference(m, windowed, histories[rows[i].Id()].tx, histories[rows[i].Id()].horizonMs)
      ensures windowFixed ==> histories[rows[i].Id()].horizonMs == rows[i].lastSeenMs - settings.windowMs
    {
      hide Consistent, UdpValid;
      ghost var h := histories[rows[i].Id()];
      assert RowRemembers(rows[i], h, lastElapsedMs);
      if !windowed {
        return if rows[i].samples > 0 then rows[i].tx.sum / rows[i].samples as real else 0.0;
      }
      m := WindowedMax(rows[i].tx, h.tx, h.horizonMs);
    }

    /** A peer row's totals are the final readings of every epoch its log records. */
    lemma PeerRowIsSumOfEpochs(i: nat)
      requires Valid() && udpAggregateByPeer && i < |rows| && IsFoldedId(rows[i].Id())
      ensures rows[i].Id() in logs
      ensures rows[i].current.counters == EpochSum(logs[rows[i].Id()], |logs[rows[i].Id()]|)
    {
      assert RowMatchesPeer(rows[i], udpAgg);
      assert Digests(udpAgg[rows[i].Id()], logs[rows[i].Id()]);
    }
  }
}
