/** Attribution patches, and rates over whole runs of ticks and patches. */
module FlowRuns {
  import opened Connections
  import opened RateHistory
  import opened FlowTable

  // ---- attribution patches --------------------------------------------------------------

  /** Towards more information only; counters and identity are not touched. */
  function PatchedWith(cur: Connection, p: Connection): (r: Connection)
    ensures r.Id() == cur.Id() && r.counters == cur.counters
  {
    var a := if p.process.IsValid() && cur.process != p.process
             then cur.(process := p.process, reason := p.reason) else cur;
    var b := if p.container.IsValid() && a.container != p.container then a.(container := p.container) else a;
    if p.containerChain != [] && b.containerChain != p.containerChain
    then b.(containerChain := p.containerChain) else b
  }

  /** What a patch brings is taken, field by field; what it lacks stays. */
  lemma PatchTakes(cur: Connection, p: Connection)
    ensures PatchedWith(cur, p).process == if p.process.pid > 0 then p.process else cur.process
    ensures PatchedWith(cur, p).reason ==
      if p.process.pid > 0 && cur.process != p.process then p.reason else cur.reason
    ensures PatchedWith(cur, p).container ==
      if p.container.runtime != "" && p.container.id != "" then p.container else cur.container
    ensures PatchedWith(cur, p).containerChain ==
      if p.containerChain != [] then p.containerChain else cur.containerChain
  {
  }

  function PatchRows(rows: seq<Row>, p: Connection): (r: seq<Row>)
    ensures |r| == |rows|
  {
    seq(|rows|, i requires 0 <= i < |rows| =>
      if rows[i].Id() == p.Id() then rows[i].(current := PatchedWith(rows[i].current, p)) else rows[i])
  }

  function PatchAll(rows: seq<Row>, patch: seq<Connection>): seq<Row> {
    if patch == [] then rows else PatchRows(PatchAll(rows, patch[..|patch| - 1]), patch[|patch| - 1])
  }

  /** Everything a patch must leave alone. */
  ghost predicate SameButAttribution(r: Row, r': Row) {
    r' == r.(current := r.current.(process := r'.current.process, container := r'.current.container,
                                   containerChain := r'.current.containerChain, reason := r'.current.reason))
  }

  ghost predicate OnlyAttribution(t: Table, t': Table) {
    && t'.prev == t.prev && t'.lastMs == t.lastMs
    && |t'.rows| == |t.rows|
    && forall i :: 0 <= i < |t.rows| ==> SameButAttribution(t.rows[i], t'.rows[i])
  }

  /** A refinement arriving between polls perturbs no counter, rate, sample or timestamp. */
  lemma {:induction false} PatchOnlyAttribution(t: Table, patch: seq<Connection>)
    ensures OnlyAttribution(t, t.(rows := PatchAll(t.rows, patch)))
  {
    if patch != [] {
      PatchOnlyAttribution(t, patch[..|patch| - 1]);
      var before, p := PatchAll(t.rows, patch[..|patch| - 1]), patch[|patch| - 1];
      var rows := PatchAll(t.rows, patch);
      forall i | 0 <= i < |t.rows| ensures SameButAttribution(t.rows[i], rows[i]) {
        assert SameButAttribution(t.rows[i], before[i]);
        assert rows[i] == if before[i].Id() == p.Id()
                          then before[i].(current := PatchedWith(before[i].current, p)) else before[i];
      }
    }
  }

  /** All of a row that the table's bookkeeping depends on. */
  ghost predicate SameStanding(r: Row, r': Row) {
    && r'.Id() == r.Id() && r'.stale == r.stale && r'.lastSeenMs == r.lastSeenMs
    && r'.current.counters == r.current.counters && r'.rx.raw == r.rx.raw && r'.tx.raw == r.tx.raw
  }

  /** What may happen to the table between ticks: patches and changes of the window. */
  ghost predicate BetweenTicks(t: Table, t': Table) {
    && t'.prev == t.prev && t'.lastMs == t.lastMs
    && |t'.rows| == |t.rows|
    && forall i :: 0 <= i < |t.rows| ==> SameStanding(t.rows[i], t'.rows[i])
  }

  lemma PatchedStanding(t: Table, t': Table)
    requires OnlyAttribution(t, t')
    ensures BetweenTicks(t, t')
  {
    forall i | 0 <= i < |t.rows| ensures SameStanding(t.rows[i], t'.rows[i]) {
      assert SameButAttribution(t.rows[i], t'.rows[i]);
    }
  }

  lemma StandingConsistent(t: Table, t': Table)
    requires Consistent(t) && BetweenTicks(t, t')
    ensures Consistent(t')
  {
    forall i | 0 <= i < |t.rows|
      ensures t'.rows[i].Id() == t.rows[i].Id() && RowInStep(t'.rows[i], t'.prev, t'.lastMs)
    {
      assert SameStanding(t.rows[i], t'.rows[i]);
      assert RowInStep(t.rows[i], t.prev, t.lastMs);
    }
    hide SameStanding, RowInStep;
    forall k | k in t'.prev ensures HasRow(t'.rows, k) {
      var i :| 0 <= i < |t.rows| && t.rows[i].Id() == k;
      assert t'.rows[i].Id() == k;
    }
  }

  // ---- rates ------------------------------------------------------------------------------

  /** Bytes per second between two readings some milliseconds apart: none across a drop, and
      the bare difference if no time has passed. */
  ghost predicate IsBytesPerSecond(rate: real, was: nat, now: nat, deltaMs: int) {
    && (now < was ==> rate == 0.0)
    && (now >= was && deltaMs > 0 ==> rate * deltaMs as real == 1000.0 * (now - was) as real)
    && (now >= was && deltaMs <= 0 ==> rate == (now - was) as real)
  }

  lemma RawRateExactly(was: nat, now: nat, deltaMs: int)
    ensures IsBytesPerSecond(RawRate(Some(was), now, deltaMs), was, now, deltaMs)
  {
    if now >= was && deltaMs > 0 {
      var d, n := deltaMs as real, (now - was) as real;
      assert RawRate(Some(was), now, deltaMs) == n / (d / 1000.0);
      QuotientOfQuotient(n, d);
    }
  }

  lemma QuotientOfQuotient(n: real, d: real)
    requires d > 0.0
    ensures d / 1000.0 > 0.0 && n / (d / 1000.0) * d == 1000.0 * n
  {
    var q := d / 1000.0;
    assert q * 1000.0 == d;
    assert n / q * d == n / q * q * 1000.0;
  }

  /** The raw rate of every flow in a snapshot is fixed by that snapshot and the one
      before, however the row got there; it is 0 on the first tick after a gap. */
  lemma RateAfterTick(t: Table, incoming: Snapshot, nowMs: int, s: Settings, t': Table, i: nat)
    requires Consistent(t) && Keyed(incoming) && nowMs >= t.lastMs && Ticked(t, incoming, nowMs, s, t')
    requires i < |t'.rows| && t'.rows[i].Id() in incoming
    ensures var k := t'.rows[i].Id();
            && t'.rows[i].rx.raw == RawRate(RxBefore(t.prev, k), incoming[k].counters.rxBytes, nowMs - t.lastMs)
            && t'.rows[i].tx.raw == RawRate(TxBefore(t.prev, k), incoming[k].counters.txBytes, nowMs - t.lastMs)
    ensures t'.rows[i].Id() !in t.prev ==> t'.rows[i].rx.raw == 0.0 && t'.rows[i].tx.raw == 0.0
    ensures t'.rows[i].Id() in t.prev ==>
      var was, now := t.prev[t'.rows[i].Id()].counters, incoming[t'.rows[i].Id()].counters;
      && IsBytesPerSecond(t'.rows[i].rx.raw, was.rxBytes, now.rxBytes, nowMs - t.lastMs)
      && IsBytesPerSecond(t'.rows[i].tx.raw, was.txBytes, now.txBytes, nowMs - t.lastMs)
  {
    var kept, k := Survivors(t, incoming, nowMs, s), t'.rows[i].Id();
    if k in t.prev {
      RawRateExactly(t.prev[k].counters.rxBytes, incoming[k].counters.rxBytes, nowMs - t.lastMs);
      RawRateExactly(t.prev[k].counters.txBytes, incoming[k].counters.txBytes, nowMs - t.lastMs);
    }
    hide IsBytesPerSecond, RawRate;
    if i < |kept| {
      var j := SurvivorOrigin(t, incoming, nowMs, s, i);
      UpdatedInStep(t.rows[j], incoming, t.prev, t.lastMs, nowMs, s.windowMs);
    } else {
      assert t'.rows[i] == t'.rows[|kept|..][i - |kept|];
      if k in t.prev {
        PresentSurvives(t, incoming, nowMs, s, k);
      }
    }
  }

  /** One tick of a run: the table before, what came in, and the table after. */
  datatype Stage = Stage(pre: Table, incoming: Snapshot, nowMs: int, settings: Settings, post: Table)

  /** A run: ticks with any patches and window changes in between, time never going back. */
  ghost predicate IsRun(run: seq<Stage>) {
    && (run != [] ==> Consistent(run[0].pre))
    && (forall m :: 0 <= m < |run| ==>
          && Keyed(run[m].incoming) && run[m].nowMs >= run[m].pre.lastMs
          && Ticked(run[m].pre, run[m].incoming, run[m].nowMs, run[m].settings, run[m].post))
    && (forall m :: 0 <= m < |run| - 1 ==> BetweenTicks(run[m].post, run[m + 1].pre))
  }

  lemma {:induction false} RunConsistent(run: seq<Stage>, m: nat)
    requires IsRun(run) && m < |run|
    ensures Consistent(run[m].pre) && Consistent(run[m].post)
  {
    hide Consistent, Ticked, BetweenTicks, Keyed;
    if m > 0 {
      RunConsistent(run, m - 1);
      StandingConsistent(run[m - 1].post, run[m].pre);
    }
    TickConsistent(run[m].pre, run[m].incoming, run[m].nowMs, run[m].settings, run[m].post);
  }

  datatype Way = Rx | Tx

  function BytesOf(c: Connection, way: Way): nat {
    if way.Rx? then c.counters.rxBytes else c.counters.txBytes
  }

  function RawOf(r: Row, way: Way): real {
    if way.Rx? then r.rx.raw else r.tx.raw
  }

  /** The flow k is in every snapshot of the run, at row at[m] after tick m; its counter
      does not drop and the clock advances. */
  ghost predicate Steady(run: seq<Stage>, k: FlowId, at: seq<nat>, way: Way) {
    && |at| == |run|
    && (forall m :: 0 <= m < |run| ==>
          at[m] < |run[m].post.rows| && run[m].post.rows[at[m]].Id() == k && k in run[m].incoming)
    && (forall m :: 0 <= m < |run| - 1 ==>
          && run[m].nowMs < run[m + 1].nowMs
          && BytesOf(run[m].incoming[k], way) <= BytesOf(run[m + 1].incoming[k], way))
  }

  /** The rates the flow showed over ticks 1..n-1, each times its interval in seconds, summed. */
  ghost function RateIntegral(run: seq<Stage>, k: FlowId, at: seq<nat>, way: Way, n: nat): real
    requires Steady(run, k, at, way) && n <= |run|
  {
    if n <= 1 then 0.0
    else RateIntegral(run, k, at, way, n - 1)
         + RawOf(run[n - 1].post.rows[at[n - 1]], way) * ((run[n - 1].nowMs - run[n - 2].nowMs) as real / 1000.0)
  }

  lemma TickedLeaves(t: Table, incoming: Snapshot, nowMs: int, s: Settings, t': Table)
    requires Ticked(t, incoming, nowMs, s, t')
    ensures t'.prev == incoming && t'.lastMs == nowMs
  {
  }

  lemma RateOfStage(run: seq<Stage>, k: FlowId, at: seq<nat>, way: Way, m: nat)
    requires IsRun(run) && Steady(run, k, at, way) && m + 1 < |run|
    ensures RawOf(run[m + 1].post.rows[at[m + 1]], way) * ((run[m + 1].nowMs - run[m].nowMs) as real / 1000.0)
            == (BytesOf(run[m + 1].incoming[k], way) - BytesOf(run[m].incoming[k], way)) as real
  {
    hide Consistent, Ticked, RawRate, SameStanding;
    RunConsistent(run, m + 1);
    var was, now := run[m], run[m + 1];
    TickedLeaves(was.pre, was.incoming, was.nowMs, was.settings, was.post);
    assert BetweenTicks(was.post, now.pre);
    RateAfterTick(now.pre, now.incoming, now.nowMs, now.settings, now.post, at[m + 1]);
    RateTimesInterval(RawOf(now.post.rows[at[m + 1]], way), BytesOf(was.incoming[k], way),
                      BytesOf(now.incoming[k], way), now.nowMs - was.nowMs);
  }

  /** Rate times interval adds up to exactly the bytes between the ends. */
  lemma {:induction false} RatesIntegrateToBytes(run: seq<Stage>, k: FlowId, at: seq<nat>, way: Way, n: nat)
    requires IsRun(run) && Steady(run, k, at, way) && 1 <= n <= |run|
    ensures RateIntegral(run, k, at, way, n)
            == (BytesOf(run[n - 1].incoming[k], way) - BytesOf(run[0].incoming[k], way)) as real
  {
    hide IsRun;
    if n > 1 {
      RatesIntegrateToBytes(run, k, at, way, n - 1);
      RateOfStage(run, k, at, way, n - 2);
    }
  }

  lemma RateTimesInterval(rate: real, was: nat, now: nat, deltaMs: int)
    requires was <= now && deltaMs > 0 && IsBytesPerSecond(rate, was, now, deltaMs)
    ensures rate * (deltaMs as real / 1000.0) == (now - was) as real
  {
    var d := deltaMs as real;
    assert rate * (d / 1000.0) == (rate * d) / 1000.0;
  }
}
