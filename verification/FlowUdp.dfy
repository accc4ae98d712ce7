/** Accumulators and their rows live and die together, so a peer row's byte totals are
    those of its whole log and never shrink while the row is in the table. */
module FlowUdp {
  import opened Connections
  import opened FlowTable
  import opened FlowRuns
  import opened UdpPeers
  import opened UdpTable

  predicate IsFoldedId(k: FlowId) {
    k.proto.Udp? && !k.direction.UnknownDirection?
  }

  /** A folded row against its accumulator. */
  ghost predicate RowMatchesPeer(r: Row, peers: Peers) {
    && r.Id() in peers
    && r.lastSeenMs == peers[r.Id()].lastSeenMs
    && r.current.counters == PeerTotal(peers[r.Id()])
  }

  ghost predicate PeersInStep(rows: seq<Row>, peers: Peers) {
    && (forall i :: 0 <= i < |rows| && IsFoldedId(rows[i].Id()) ==> RowMatchesPeer(rows[i], peers))
    && (forall k :: k in peers ==> IsFoldedId(k) && HasRow(rows, k))
  }

  /** A tick with folding on. */
  ghost predicate FoldedTick(t: Table, peers: Peers, conns: seq<Connection>, nowMs: int, s: Settings, peers': Peers,
                             t': Table)
  {
    && peers' == SweptAll(ObserveAll(peers, conns, nowMs), nowMs, s.staleUdpMs)
    && FoldedRows(conns).Keys <= peers'.Keys
    && Ticked(t, FoldedSnapshot(conns, peers'), nowMs, s, t')
  }

  /** Expiry moves readings to the base, member by member, and loses none. */
  lemma {:induction false} SweptTotal(p: Peer, nowMs: int, retentionMs: nat)
    ensures PeerTotal(Swept(p, nowMs, retentionMs)) == PeerTotal(p)
    decreases |p.members|
  {
    hide PeerTotal, Swept;
    if id :| id in p.members && !IsLive(p.members[id], nowMs, retentionMs) {
      assert (p.members - {id}).Keys == p.members.Keys - {id};
      SweptTotal(Retire(p, id), nowMs, retentionMs);
      RetireKeepsSweep(p, id, nowMs, retentionMs);
      RetireDigests(p, [], id);
    } else {
      SweptAlready(p, nowMs, retentionMs);
    }
  }

  lemma FoldedSnapshotKeyed(conns: seq<Connection>, peers: Peers, k: FlowId)
    requires FoldedRows(conns).Keys <= peers.Keys
    ensures k in FoldedSnapshot(conns, peers) ==> FoldedSnapshot(conns, peers)[k].Id() == k
    ensures IsFoldedId(k) ==> (k in FoldedSnapshot(conns, peers) <==> k in FoldedRows(conns))
    ensures k in FoldedRows(conns) ==>
              IsFoldedId(k) && FoldedSnapshot(conns, peers)[k].counters == PeerTotal(peers[k])
  {
    IndexKeyed(Passthrough(conns), k);
    if k in FoldedRows(conns) {
      FoldedRowsAreKeyed(conns, k);
    }
    if k in IndexById(Passthrough(conns)) {
      PassthroughIsNotFolded(conns, IndexById(Passthrough(conns))[k]);
    }
  }

  /** What one tick does to one peer's accumulator. */
  lemma PeerAfterTick(peers: Peers, conns: seq<Connection>, nowMs: int, s: Settings, k: FlowId)
    ensures var peers' := SweptAll(ObserveAll(peers, conns, nowMs), nowMs, s.staleUdpMs);
            && (k in FoldedRows(conns) ==> k in peers' && peers'[k].lastSeenMs == nowMs)
            && (k !in FoldedRows(conns) ==>
                  (k in peers' <==> k in peers && nowMs - peers[k].lastSeenMs <= s.staleUdpMs))
            && (k !in FoldedRows(conns) && k in peers' ==>
                  peers'[k].lastSeenMs == peers[k].lastSeenMs && PeerTotal(peers'[k]) == PeerTotal(peers[k]))
            && (k in peers && k in peers' ==>
                  && BytesAtLeast(PeerTotal(peers'[k]), PeerTotal(peers[k]))
                  && PacketsMovedBy(PeerTotal(peers[k]), PeerTotal(peers'[k]), PacketsGained(peers, conns, nowMs, k)))
  {
    hide PeerTotal, PacketsMovedBy, PacketsGained;
    ObserveAllFacts(peers, conns, nowMs, k);
    if k in peers {
      ObserveAllPackets(peers, conns, nowMs, k);
    }
    var seen := ObserveAll(peers, conns, nowMs);
    if k in seen {
      SweptTotal(seen[k], nowMs, s.staleUdpMs);
    }
  }

  lemma FoldedRowAfterTick(t: Table, peers: Peers, conns: seq<Connection>, nowMs: int, s: Settings, peers': Peers,
                           t': Table, i: nat)
    requires Consistent(t) && PeersInStep(t.rows, peers) && nowMs >= t.lastMs
    requires FoldedTick(t, peers, conns, nowMs, s, peers', t') && Keyed(FoldedSnapshot(conns, peers'))
    requires i < |t'.rows| && IsFoldedId(t'.rows[i].Id())
    ensures RowMatchesPeer(t'.rows[i], peers')
  {
    hide Consistent, Swept, SweptAll, ObserveAll, FoldedSnapshot, PeerTotal, FoldedRows;
    var incoming, k := FoldedSnapshot(conns, peers'), t'.rows[i].Id();
    RowAfterTick(t, incoming, nowMs, s, t', i);
    FoldedSnapshotKeyed(conns, peers', k);
    PeerAfterTick(peers, conns, nowMs, s, k);
    if k !in FoldedRows(conns) {
      UnseenIsSurvivor(t, incoming, nowMs, s, t', i);
      var j := SurvivorOrigin(t, incoming, nowMs, s, i);
      UpdatedKeepsId(t.rows[j], incoming, t.prev, nowMs, nowMs - t.lastMs, s.windowMs);
      assert RowMatchesPeer(t.rows[j], peers);
    }
  }

  lemma UnseenIsSurvivor(t: Table, incoming: Snapshot, nowMs: int, s: Settings, t': Table, i: nat)
    requires Ticked(t, incoming, nowMs, s, t') && i < |t'.rows| && t'.rows[i].Id() !in incoming
    ensures i < |Survivors(t, incoming, nowMs, s)| && t'.rows[i] == Survivors(t, incoming, nowMs, s)[i]
  {
    var added := t'.rows[|Survivors(t, incoming, nowMs, s)|..];
    assert forall j :: 0 <= j < |added| ==> added[j].Id() in incoming;
  }

  lemma UpdatedKeepsId(r: Row, incoming: Snapshot, prev: Snapshot, nowMs: int, deltaMs: int, windowMs: nat)
    requires Keyed(incoming)
    ensures Updated(r, incoming, prev, nowMs, deltaMs, windowMs).Id() == r.Id()
    ensures r.Id() !in incoming ==>
              Updated(r, incoming, prev, nowMs, deltaMs, windowMs).lastSeenMs == r.lastSeenMs
              && Updated(r, incoming, prev, nowMs, deltaMs, windowMs).current == r.current
  {
  }

  /** An accumulator that is still there has its row: both go by the same clock. */
  lemma PeerKeepsRow(t: Table, peers: Peers, conns: seq<Connection>, nowMs: int, s: Settings, peers': Peers,
                     t': Table, k: FlowId)
    requires Consistent(t) && PeersInStep(t.rows, peers) && nowMs >= t.lastMs
    requires FoldedTick(t, peers, conns, nowMs, s, peers', t') && Keyed(FoldedSnapshot(conns, peers'))
    requires k in peers'
    ensures IsFoldedId(k) && HasRow(t'.rows, k)
  {
    hide Swept, SweptAll, ObserveAll, FoldedSnapshot, PeerTotal, FoldedRows;
    var incoming := FoldedSnapshot(conns, peers');
    FoldedSnapshotKeyed(conns, peers', k);
    PeerAfterTick(peers, conns, nowMs, s, k);
    TickConsistent(t, incoming, nowMs, s, t');
    if k !in FoldedRows(conns) {
      var i :| 0 <= i < |t.rows| && t.rows[i].Id() == k;
      assert RowMatchesPeer(t.rows[i], peers);
      var updated := UpdatedAll(t.rows, incoming, t.prev, nowMs, nowMs - t.lastMs, s.windowMs);
      UpdatedKeepsId(t.rows[i], incoming, t.prev, nowMs, nowMs - t.lastMs, s.windowMs);
      var j := KeptHas(updated, nowMs, s, i);
      assert t'.rows[j] == Survivors(t, incoming, nowMs, s)[j];
    }
  }

  /** What a tick does to the counters of a peer row that is there before and after: bytes
      never go down, packets move by what the snapshot's readings add. */
  ghost predicate PeerRowsMove(rows: seq<Row>, rows': seq<Row>, peers: Peers, conns: seq<Connection>, nowMs: int) {
    forall i, j :: 0 <= i < |rows| && 0 <= j < |rows'| && rows[i].Id() == rows'[j].Id() && IsFoldedId(rows[i].Id()) ==>
      && BytesAtLeast(rows'[j].current.counters, rows[i].current.counters)
      && PacketsMovedBy(rows[i].current.counters, rows'[j].current.counters,
                        PacketsGained(peers, conns, nowMs, rows[i].Id()))
  }

  /** A tick keeps accumulators and rows in step, and moves the peer rows' counters as told. */
  lemma PeersTick(t: Table, peers: Peers, conns: seq<Connection>, nowMs: int, s: Settings, peers': Peers, t': Table)
    requires Consistent(t) && PeersInStep(t.rows, peers) && nowMs >= t.lastMs
    requires FoldedTick(t, peers, conns, nowMs, s, peers', t') && Keyed(FoldedSnapshot(conns, peers'))
    ensures PeersInStep(t'.rows, peers')
    ensures PeerRowsMove(t.rows, t'.rows, peers, conns, nowMs)
  {
    hide Consistent, FoldedTick, Keyed, PeerTotal, HasRow, PacketsGained, PacketsMovedBy;
    forall i | 0 <= i < |t'.rows| && IsFoldedId(t'.rows[i].Id()) ensures RowMatchesPeer(t'.rows[i], peers') {
      FoldedRowAfterTick(t, peers, conns, nowMs, s, peers', t', i);
    }
    forall k | k in peers' ensures IsFoldedId(k) && HasRow(t'.rows, k) {
      PeerKeepsRow(t, peers, conns, nowMs, s, peers', t', k);
    }
    forall i, j | 0 <= i < |t.rows| && 0 <= j < |t'.rows| && t.rows[i].Id() == t'.rows[j].Id()
        && IsFoldedId(t.rows[i].Id())
      ensures BytesAtLeast(t'.rows[j].current.counters, t.rows[i].current.counters)
      ensures PacketsMovedBy(t.rows[i].current.counters, t'.rows[j].current.counters,
                             PacketsGained(peers, conns, nowMs, t.rows[i].Id()))
    {
      FoldedTickPeers(t, peers, conns, nowMs, s, peers', t');
      PeerAfterTick(peers, conns, nowMs, s, t.rows[i].Id());
      assert RowMatchesPeer(t.rows[i], peers) && RowMatchesPeer(t'.rows[j], peers');
    }
  }

  lemma FoldedTickPeers(t: Table, peers: Peers, conns: seq<Connection>, nowMs: int, s: Settings, peers': Peers,
                        t': Table)
    requires FoldedTick(t, peers, conns, nowMs, s, peers', t')
    ensures peers' == SweptAll(ObserveAll(peers, conns, nowMs), nowMs, s.staleUdpMs)
  {
  }

  /** A peer row's packets go down at a tick exactly when the snapshot's readings take more
      away than they add. */
  lemma PeerRowPacketsShrink(t: Table, peers: Peers, conns: seq<Connection>, nowMs: int, s: Settings, peers': Peers,
                             t': Table, i: nat, j: nat)
    requires Consistent(t) && PeersInStep(t.rows, peers) && nowMs >= t.lastMs
    requires FoldedTick(t, peers, conns, nowMs, s, peers', t')
    requires i < |t.rows| && j < |t'.rows| && t.rows[i].Id() == t'.rows[j].Id() && IsFoldedId(t.rows[i].Id())
    ensures t'.rows[j].current.counters.rxPackets < t.rows[i].current.counters.rxPackets <==>
              PacketsGained(peers, conns, nowMs, t.rows[i].Id()).0 < 0
    ensures t'.rows[j].current.counters.txPackets < t.rows[i].current.counters.txPackets <==>
              PacketsGained(peers, conns, nowMs, t.rows[i].Id()).1 < 0
  {
    hide Consistent, PeersInStep, PacketsGained;
    SnapshotIsKeyed(t, peers, conns, nowMs, s, peers', t');
    hide FoldedTick;
    PeersTick(t, peers, conns, nowMs, s, peers', t');
  }

  lemma SnapshotIsKeyed(t: Table, peers: Peers, conns: seq<Connection>, nowMs: int, s: Settings, peers': Peers,
                        t': Table)
    requires FoldedTick(t, peers, conns, nowMs, s, peers', t')
    ensures FoldedRows(conns).Keys <= peers'.Keys
    ensures Keyed(FoldedSnapshot(conns, peers')) && Ticked(t, FoldedSnapshot(conns, peers'), nowMs, s, t')
  {
    hide Ticked, FoldedSnapshot, SweptAll, ObserveAll, FoldedRows;
    forall k | k in FoldedSnapshot(conns, peers') ensures FoldedSnapshot(conns, peers')[k].Id() == k {
      FoldedSnapshotKeyed(conns, peers', k);
    }
  }

  // ---- over runs ------------------------------------------------------------------------------

  lemma StandingKeepsPeers(a: seq<Row>, b: seq<Row>, peers: Peers)
    requires |a| == |b| && forall i :: 0 <= i < |a| ==> SameStanding(a[i], b[i])
    ensures PeersInStep(a, peers) ==> PeersInStep(b, peers)
  {
    hide PeerTotal;
    forall k | HasRow(a, k) ensures HasRow(b, k) {
      var i :| 0 <= i < |a| && a[i].Id() == k;
      assert SameStanding(a[i], b[i]) && b[i].Id() == k;
    }
    if PeersInStep(a, peers) {
      forall i | 0 <= i < |b| && IsFoldedId(b[i].Id()) ensures RowMatchesPeer(b[i], peers) {
        assert SameStanding(a[i], b[i]) && RowMatchesPeer(a[i], peers);
      }
    }
  }

  /** One folded tick of a run. */
  datatype FoldedStage = FoldedStage(
    pre: Table, prePeers: Peers, conns: seq<Connection>, nowMs: int, settings: Settings, post: Table, postPeers: Peers)

  /** A run with folding on: ticks, with any patches and window changes in between. */
  ghost predicate IsFoldedRun(run: seq<FoldedStage>) {
    && (run != [] ==> Consistent(run[0].pre) && PeersInStep(run[0].pre.rows, run[0].prePeers))
    && (forall m :: 0 <= m < |run| ==> StageTicks(run[m]))
    && (forall m :: 0 <= m < |run| - 1 ==>
          BetweenTicks(run[m].post, run[m + 1].pre) && run[m + 1].prePeers == run[m].postPeers)
  }

  ghost predicate StageTicks(g: FoldedStage) {
    && g.nowMs >= g.pre.lastMs
    && FoldedTick(g.pre, g.prePeers, g.conns, g.nowMs, g.settings, g.postPeers, g.post)
  }

  lemma StageInStep(g: FoldedStage)
    requires StageTicks(g) && Consistent(g.pre) && PeersInStep(g.pre.rows, g.prePeers)
    ensures Consistent(g.post) && PeersInStep(g.post.rows, g.postPeers)
    ensures PeerRowsMove(g.pre.rows, g.post.rows, g.prePeers, g.conns, g.nowMs)
  {
    hide Consistent, PeersInStep, FoldedTick, PeerRowsMove, Ticked, IsExpired;
    SnapshotIsKeyed(g.pre, g.prePeers, g.conns, g.nowMs, g.settings, g.postPeers, g.post);
    PeersTick(g.pre, g.prePeers, g.conns, g.nowMs, g.settings, g.postPeers, g.post);
    TickConsistent(g.pre, FoldedSnapshot(g.conns, g.postPeers), g.nowMs, g.settings, g.post);
  }

  /** Accumulators and rows stay in step over every run. */
  lemma {:induction false} FoldedRunInStep(run: seq<FoldedStage>, m: nat)
    requires IsFoldedRun(run) && m < |run|
    ensures Consistent(run[m].pre) && PeersInStep(run[m].pre.rows, run[m].prePeers)
    ensures Consistent(run[m].post) && PeersInStep(run[m].post.rows, run[m].postPeers)
  {
    hide Consistent, PeersInStep, StageTicks, PeerRowsMove, BetweenTicks;
    if m > 0 {
      FoldedRunInStep(run, m - 1);
      assert BetweenTicks(run[m - 1].post, run[m - 1 + 1].pre);
      StandingConsistent(run[m - 1].post, run[m].pre);
      LinkKeepsPeers(run[m - 1].post, run[m].pre, run[m].prePeers);
    }
    StageInStep(run[m]);
  }

  lemma LinkKeepsPeers(t: Table, t': Table, peers: Peers)
    requires BetweenTicks(t, t') && PeersInStep(t.rows, peers)
    ensures PeersInStep(t'.rows, peers)
  {
    hide PeersInStep;
    StandingKeepsPeers(t.rows, t'.rows, peers);
  }

  /** The peer k has a row after every tick of a stretch of the run, at at[i] after tick i. */
  ghost predicate Stays(run: seq<FoldedStage>, k: FlowId, at: seq<nat>, m: nat, n: nat) {
    && m <= n < |run| == |at|
    && forall i :: m <= i <= n ==> at[i] < |run[i].post.rows| && run[i].post.rows[at[i]].Id() == k
  }

  /** Bytes of a peer row never go down while it is in the table, over any stretch of any run. */
  lemma {:induction false} PeerRowBytesNeverDrop(run: seq<FoldedStage>, k: FlowId, at: seq<nat>, m: nat, n: nat)
    requires IsFoldedRun(run) && IsFoldedId(k) && Stays(run, k, at, m, n)
    ensures BytesAtLeast(run[n].post.rows[at[n]].current.counters, run[m].post.rows[at[m]].current.counters)
    decreases n
  {
    hide IsFoldedRun;
    if m < n {
      PeerRowBytesNeverDrop(run, k, at, m, n - 1);
      StageKeepsBytes(run, k, n - 1, at[n - 1], at[n]);
    }
  }

  lemma StageKeepsBytes(run: seq<FoldedStage>, k: FlowId, m: nat, i: nat, j: nat)
    requires IsFoldedRun(run) && IsFoldedId(k) && m + 1 < |run|
    requires i < |run[m].post.rows| && run[m].post.rows[i].Id() == k
    requires j < |run[m + 1].post.rows| && run[m + 1].post.rows[j].Id() == k
    ensures BytesAtLeast(run[m + 1].post.rows[j].current.counters, run[m].post.rows[i].current.counters)
  {
    hide Consistent, PeersInStep, StageTicks, PacketsMovedBy, PacketsGained;
    FoldedRunInStep(run, m + 1);
    StageInStep(run[m + 1]);
    assert BetweenTicks(run[m].post, run[m + 1].pre);
    assert SameStanding(run[m].post.rows[i], run[m + 1].pre.rows[i]);
  }
}
