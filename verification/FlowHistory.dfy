/** Every row's window and running sum against the full history of its raw rates. */
module FlowHistory {
  import opened Connections
  import opened RateHistory
  import opened FlowTable

  /** All raw rates a row has shown, and how far back its window still reaches. */
  datatype History = History(rx: seq<RateSample>, tx: seq<RateSample>, horizonMs: int)

  ghost function Extended(h: History, rxRaw: real, txRaw: real, nowMs: int, windowMs: nat): History {
    History(h.rx + [RateSample(nowMs, rxRaw)], h.tx + [RateSample(nowMs, txRaw)],
            if h.horizonMs > nowMs - windowMs then h.horizonMs else nowMs - windowMs)
  }

  ghost predicate NoneAfter(s: seq<RateSample>, timeMs: int) {
    forall i :: 0 <= i < |s| ==> s[i].timeMs <= timeMs
  }

  ghost predicate RowRemembers(r: Row, h: History, lastMs: int) {
    && Remembers(r.rx, h.rx, h.horizonMs) && Remembers(r.tx, h.tx, h.horizonMs)
    && |h.rx| == |h.tx| == r.samples
    && h.horizonMs <= lastMs && NoneAfter(h.rx, lastMs) && NoneAfter(h.tx, lastMs)
  }

  ghost predicate HistoryInStep(rows: seq<Row>, histories: map<FlowId, History>, lastMs: int) {
    forall i :: 0 <= i < |rows| ==> rows[i].Id() in histories && RowRemembers(rows[i], histories[rows[i].Id()], lastMs)
  }

  /** The window of every row reaches back exactly windowMs from its last update. */
  ghost predicate WindowExact(rows: seq<Row>, histories: map<FlowId, History>, windowMs: nat) {
    forall i :: 0 <= i < |rows| ==>
      rows[i].Id() in histories && histories[rows[i].Id()].horizonMs == rows[i].lastSeenMs - windowMs
  }

  ghost function Ids(rows: seq<Row>): set<FlowId> {
    set i | 0 <= i < |rows| :: rows[i].Id()
  }

  /** History is kept by identity alone: a flow of the snapshot adds one sample computed
      from the two snapshots, an absent flow adds none, a new row starts empty. */
  ghost function NextHistory(histories: map<FlowId, History>, t: Table, incoming: Snapshot, nowMs: int, windowMs: nat,
                             k: FlowId): History
  {
    if !HasRow(t.rows, k) || k !in histories then History([], [], nowMs - windowMs)
    else if k in incoming then
      Extended(histories[k],
               RawRate(RxBefore(t.prev, k), incoming[k].counters.rxBytes, nowMs - t.lastMs),
               RawRate(TxBefore(t.prev, k), incoming[k].counters.txBytes, nowMs - t.lastMs), nowMs, windowMs)
    else histories[k]
  }

  ghost function NextHistories(histories: map<FlowId, History>, t: Table, incoming: Snapshot, nowMs: int,
                               windowMs: nat, rows: seq<Row>): map<FlowId, History>
  {
    map k | k in Ids(rows) :: NextHistory(histories, t, incoming, nowMs, windowMs, k)
  }

  lemma UpdatedRemembers(r: Row, h: History, incoming: Snapshot, prev: Snapshot, lastMs: int, nowMs: int, windowMs: nat)
    requires RowRemembers(r, h, lastMs) && nowMs >= lastMs
    ensures var h' := if r.Id() in incoming then
                        Extended(h, RawRate(RxBefore(prev, r.Id()), incoming[r.Id()].counters.rxBytes, nowMs - lastMs),
                                 RawRate(TxBefore(prev, r.Id()), incoming[r.Id()].counters.txBytes, nowMs - lastMs),
                                 nowMs, windowMs)
                      else h;
            RowRemembers(Updated(r, incoming, prev, nowMs, nowMs - lastMs, windowMs), h', nowMs)
  {
    if r.Id() in incoming {
      var c := incoming[r.Id()].counters;
      PushRemembers(r.rx, h.rx, h.horizonMs, nowMs,
                    RawRate(RxBefore(prev, r.Id()), c.rxBytes, nowMs - lastMs), nowMs - windowMs);
      PushRemembers(r.tx, h.tx, h.horizonMs, nowMs,
                    RawRate(TxBefore(prev, r.Id()), c.txBytes, nowMs - lastMs), nowMs - windowMs);
    }
  }

  lemma RowHistoryTick(histories: map<FlowId, History>, t: Table, incoming: Snapshot, nowMs: int, s: Settings,
                       t': Table, i: nat)
    requires Consistent(t) && HistoryInStep(t.rows, histories, t.lastMs) && nowMs >= t.lastMs
    requires Keyed(incoming) && Ticked(t, incoming, nowMs, s, t') && i < |t'.rows|
    ensures RowRemembers(t'.rows[i], NextHistory(histories, t, incoming, nowMs, s.windowMs, t'.rows[i].Id()), nowMs)
    ensures WindowExact(t.rows, histories, s.windowMs) ==>
              NextHistory(histories, t, incoming, nowMs, s.windowMs, t'.rows[i].Id()).horizonMs
              == t'.rows[i].lastSeenMs - s.windowMs
  {
    hide RawRate, Push, RowRemembers;
    var kept, k := Survivors(t, incoming, nowMs, s), t'.rows[i].Id();
    if i < |kept| {
      var j := SurvivorOrigin(t, incoming, nowMs, s, i);
      UpdatedInStep(t.rows[j], incoming, t.prev, t.lastMs, nowMs, s.windowMs);
      assert HasRow(t.rows, k);
      UpdatedRemembers(t.rows[j], histories[k], incoming, t.prev, t.lastMs, nowMs, s.windowMs);
    } else {
      assert t'.rows[i] == t'.rows[|kept|..][i - |kept|];
      NewRowIsNew(t, incoming, nowMs, s, k);
      FreshRemembers(incoming[k], nowMs, s.windowMs);
    }
  }

  lemma FreshRemembers(c: Connection, nowMs: int, windowMs: nat)
    ensures RowRemembers(FreshRow(c, nowMs), History([], [], nowMs - windowMs), nowMs)
  {
  }

  lemma NewRowIsNew(t: Table, incoming: Snapshot, nowMs: int, s: Settings, k: FlowId)
    requires Consistent(t) && Keyed(incoming) && nowMs >= t.lastMs && k in incoming
    requires !HasRow(Survivors(t, incoming, nowMs, s), k)
    ensures !HasRow(t.rows, k)
  {
    if HasRow(t.rows, k) {
      PresentSurvives(t, incoming, nowMs, s, k);
    }
  }

  /** Whatever the ticks, each window is the history filtered to its horizon and each sum
      is the sum of the history; with a fixed window the horizon is exactly the window. */
  lemma HistoryTick(histories: map<FlowId, History>, t: Table, incoming: Snapshot, nowMs: int, s: Settings, t': Table)
    requires Consistent(t) && HistoryInStep(t.rows, histories, t.lastMs) && nowMs >= t.lastMs
    requires Keyed(incoming) && Ticked(t, incoming, nowMs, s, t')
    ensures var next := NextHistories(histories, t, incoming, nowMs, s.windowMs, t'.rows);
            && HistoryInStep(t'.rows, next, nowMs)
            && (WindowExact(t.rows, histories, s.windowMs) ==> WindowExact(t'.rows, next, s.windowMs))
  {
    hide Consistent, Ticked, NextHistory, RowRemembers;
    var next := NextHistories(histories, t, incoming, nowMs, s.windowMs, t'.rows);
    forall i | 0 <= i < |t'.rows|
      ensures t'.rows[i].Id() in next && RowRemembers(t'.rows[i], next[t'.rows[i].Id()], nowMs)
      ensures WindowExact(t.rows, histories, s.windowMs) ==>
        next[t'.rows[i].Id()].horizonMs == t'.rows[i].lastSeenMs - s.windowMs
    {
      assert t'.rows[i].Id() in Ids(t'.rows);
      RowHistoryTick(histories, t, incoming, nowMs, s, t', i);
    }
  }
}
