/** One tick of UDP folding over all peers. */
module UdpTable {
  import opened Connections
  import opened UdpPeers

  type Peers = map<FlowId, Peer>
  type Logs = map<FlowId, seq<PeerEvent>>

  // ---- observing a snapshot -----------------------------------------------------------

  function PeerId(c: Connection): FlowId { PeerRow(c).Id() }

  function ObserveOne(peers: Peers, c: Connection, nowMs: int): Peers {
    if !IsFolded(c) then peers
    else
      var k := PeerId(c);
      peers[k := Observe(if k in peers then peers[k] else NEW_PEER, c.Id(), c.counters, nowMs)]
  }

  function ObserveAll(peers: Peers, conns: seq<Connection>, nowMs: int): Peers {
    if conns == [] then peers
    else ObserveOne(ObserveAll(peers, conns[..|conns| - 1], nowMs), conns[|conns| - 1], nowMs)
  }

  /** The row fields each peer takes: those of its first flow in the snapshot. */
  function FoldedRows(conns: seq<Connection>): map<FlowId, Connection> {
    if conns == [] then map[]
    else
      var rows, c := FoldedRows(conns[..|conns| - 1]), conns[|conns| - 1];
      if !IsFolded(c) || PeerId(c) in rows then rows else rows[PeerId(c) := PeerRow(c)]
  }

  function Passthrough(conns: seq<Connection>): seq<Connection> {
    if conns == [] then []
    else
      var c := conns[|conns| - 1];
      Passthrough(conns[..|conns| - 1]) + (if IsFolded(c) then [] else [c])
  }

  /** Which flows share a peer: outbound ones those from one host to one remote endpoint,
      inbound ones those from one host to one local endpoint, and never across. */
  lemma SamePeerExactly(a: Connection, b: Connection)
    requires IsFolded(a) && IsFolded(b)
    ensures a.direction.Outbound? && b.direction.Outbound? ==>
      (PeerId(a) == PeerId(b) <==> a.local.address == b.local.address && a.remote == b.remote)
    ensures a.direction.Inbound? && b.direction.Inbound? ==>
      (PeerId(a) == PeerId(b) <==> a.remote.address == b.remote.address && a.local == b.local)
    ensures a.direction != b.direction ==> PeerId(a) != PeerId(b)
  {
  }

  /** The first flow of a snapshot that folds into peer k. */
  ghost predicate IsFirstOfPeer(conns: seq<Connection>, k: FlowId, i: nat) {
    && i < |conns| && IsFolded(conns[i]) && PeerId(conns[i]) == k
    && forall j :: 0 <= j < i && IsFolded(conns[j]) ==> PeerId(conns[j]) != k
  }

  /** A peer's row is its first flow with the port that varies set to 0. */
  lemma {:induction false} PeerRowIsFirstFlow(conns: seq<Connection>, k: FlowId, i: nat)
    requires IsFirstOfPeer(conns, k, i)
    ensures k in FoldedRows(conns)
    ensures conns[i].direction.Outbound? ==>
      FoldedRows(conns)[k] == conns[i].(local := Endpoint(conns[i].local.address, 0))
    ensures conns[i].direction.Inbound? ==>
      FoldedRows(conns)[k] == conns[i].(remote := Endpoint(conns[i].remote.address, 0))
  {
    var front := conns[..|conns| - 1];
    if i < |front| {
      assert IsFirstOfPeer(front, k, i);
      PeerRowIsFirstFlow(front, k, i);
    } else {
      NoRowYet(front, k);
    }
  }

  lemma {:induction false} NoRowYet(conns: seq<Connection>, k: FlowId)
    requires forall j :: 0 <= j < |conns| && IsFolded(conns[j]) ==> PeerId(conns[j]) != k
    ensures k !in FoldedRows(conns)
  {
    if conns != [] {
      NoRowYet(conns[..|conns| - 1], k);
    }
  }

  lemma {:induction false} FoldedRowsAreKeyed(conns: seq<Connection>, k: FlowId)
    requires k in FoldedRows(conns)
    ensures FoldedRows(conns)[k].Id() == k && IsFolded(FoldedRows(conns)[k])
  {
    var front, c := conns[..|conns| - 1], conns[|conns| - 1];
    if k in FoldedRows(front) {
      FoldedRowsAreKeyed(front, k);
    }
  }

  lemma {:induction false} PassthroughIsNotFolded(conns: seq<Connection>, c: Connection)
    requires c in Passthrough(conns)
    ensures !IsFolded(c) && c in conns
  {
    var front := conns[..|conns| - 1];
    if c in Passthrough(front) {
      PassthroughIsNotFolded(front, c);
    }
  }

  ghost predicate BytesAtLeast(a: Counters, b: Counters) {
    a.rxBytes >= b.rxBytes && a.txBytes >= b.txBytes
  }

  /** A peer is touched exactly when some flow of the snapshot folds into it, and its
      byte total never shrinks. */
  lemma {:induction false} ObserveAllFacts(peers: Peers, conns: seq<Connection>, nowMs: int, k: FlowId)
    ensures k in ObserveAll(peers, conns, nowMs) <==> k in peers || k in FoldedRows(conns)
    ensures k in FoldedRows(conns) ==> ObserveAll(peers, conns, nowMs)[k].lastSeenMs == nowMs
    ensures k in peers && k !in FoldedRows(conns) ==> ObserveAll(peers, conns, nowMs)[k] == peers[k]
    ensures k in peers ==> BytesAtLeast(PeerTotal(ObserveAll(peers, conns, nowMs)[k]), PeerTotal(peers[k]))
  {
    hide PeerTotal;
    if conns != [] {
      var front, c := conns[..|conns| - 1], conns[|conns| - 1];
      ObserveAllFacts(peers, front, nowMs, k);
      if IsFolded(c) && PeerId(c) == k && k in ObserveAll(peers, front, nowMs) {
        ObserveGrows(ObserveAll(peers, front, nowMs)[k], c.Id(), c.counters, nowMs);
      }
    }
  }

  /** After a snapshot each of its folded flows is a member of its peer, by its last reading,
      seen now. */
  lemma {:induction false} SeenNow(peers: Peers, conns: seq<Connection>, nowMs: int, i: nat)
    requires i < |conns| && IsFolded(conns[i])
    requires forall j :: i < j < |conns| ==> conns[j].Id() != conns[i].Id()
    ensures var k, all := PeerId(conns[i]), ObserveAll(peers, conns, nowMs);
            && k in all && conns[i].Id() in all[k].members
            && all[k].members[conns[i].Id()] == Member(conns[i].counters, nowMs)
  {
    if i < |conns| - 1 {
      SeenNow(peers, conns[..|conns| - 1], nowMs, i);
    }
  }

  /** A member that is not in the snapshot is left as it was. */
  lemma {:induction false} UnseenStays(peers: Peers, conns: seq<Connection>, nowMs: int, k: FlowId, id: FlowId)
    requires k in peers && id in peers[k].members && forall j :: 0 <= j < |conns| ==> conns[j].Id() != id
    ensures var all := ObserveAll(peers, conns, nowMs);
            k in all && id in all[k].members && all[k].members[id] == peers[k].members[id]
  {
    if conns != [] {
      UnseenStays(peers, conns[..|conns| - 1], nowMs, k, id);
    }
  }

  /** The packets a snapshot adds to a peer: those its flows add one after the other, each
      judged by the reading before it. */
  function PacketsGained(peers: Peers, conns: seq<Connection>, nowMs: int, k: FlowId): (int, int) {
    if conns == [] then (0, 0)
    else
      var front, c := conns[..|conns| - 1], conns[|conns| - 1];
      var g, seen := PacketsGained(peers, front, nowMs, k), ObserveAll(peers, front, nowMs);
      if !IsFolded(c) || PeerId(c) != k then g
      else
        var d := PacketGrowth(if k in seen then seen[k] else NEW_PEER, c.Id(), c.counters);
        (g.0 + d.0, g.1 + d.1)
  }

  ghost predicate PacketsMovedBy(a: Counters, b: Counters, gained: (int, int)) {
    b.rxPackets == a.rxPackets + gained.0 && b.txPackets == a.txPackets + gained.1
  }

  lemma {:induction false} ObserveAllPackets(peers: Peers, conns: seq<Connection>, nowMs: int, k: FlowId)
    requires k in peers
    ensures k in ObserveAll(peers, conns, nowMs)
    ensures PacketsMovedBy(PeerTotal(peers[k]), PeerTotal(ObserveAll(peers, conns, nowMs)[k]),
                           PacketsGained(peers, conns, nowMs, k))
  {
    hide PeerTotal;
    if conns != [] {
      var front, c := conns[..|conns| - 1], conns[|conns| - 1];
      ObserveAllPackets(peers, front, nowMs, k);
      if IsFolded(c) && PeerId(c) == k {
        ObserveGrows(ObserveAll(peers, front, nowMs)[k], c.Id(), c.counters, nowMs);
        hide PacketGrowth;
      }
    }
  }

  /** Flows whose packets do not drop on their own take nothing away. */
  lemma {:induction false} PacketsOnlyGained(peers: Peers, conns: seq<Connection>, nowMs: int, k: FlowId)
    requires forall i :: 0 <= i < |conns| && IsFolded(conns[i]) && PeerId(conns[i]) == k ==>
      var seen := ObserveAll(peers, conns[..i], nowMs);
      k in seen ==> !PacketsAloneDrop(seen[k], conns[i].Id(), conns[i].counters, true)
                    && !PacketsAloneDrop(seen[k], conns[i].Id(), conns[i].counters, false)
    ensures PacketsGained(peers, conns, nowMs, k).0 >= 0 && PacketsGained(peers, conns, nowMs, k).1 >= 0
  {
    if conns != [] {
      var front := conns[..|conns| - 1];
      forall i | 0 <= i < |front| ensures front[..i] == conns[..i] && front[i] == conns[i] {
      }
      hide ObserveAll;
      PacketsOnlyGained(peers, front, nowMs, k);
    }
  }

  // ---- expiry ---------------------------------------------------------------------------

  predicate IsLive(m: Member, nowMs: int, retentionMs: nat) {
    nowMs - m.lastSeenMs <= retentionMs
  }

  ghost function LivePart(p: Peer, nowMs: int, retentionMs: nat): map<FlowId, Member> {
    map id | id in p.members && IsLive(p.members[id], nowMs, retentionMs) :: p.members[id]
  }

  ghost function DeadPart(p: Peer, nowMs: int, retentionMs: nat): map<FlowId, Member> {
    map id | id in p.members && !IsLive(p.members[id], nowMs, retentionMs) :: p.members[id]
  }

  /** Members unseen for too long leave, their readings stay in the base. */
  ghost function Swept(p: Peer, nowMs: int, retentionMs: nat): Peer {
    Peer(p.base.Plus(SumMembers(DeadPart(p, nowMs, retentionMs))), LivePart(p, nowMs, retentionMs), p.lastSeenMs)
  }

  /** A member stays exactly as long as its retention, with its reading. */
  lemma MemberStaysExactly(p: Peer, nowMs: int, retentionMs: nat, id: FlowId)
    ensures id in Swept(p, nowMs, retentionMs).members <==>
      id in p.members && nowMs - p.members[id].lastSeenMs <= retentionMs
    ensures id in Swept(p, nowMs, retentionMs).members ==>
      Swept(p, nowMs, retentionMs).members[id] == p.members[id]
  {
  }

  ghost function SweptAll(peers: Peers, nowMs: int, retentionMs: nat): Peers {
    map k | k in peers && nowMs - peers[k].lastSeenMs <= retentionMs :: Swept(peers[k], nowMs, retentionMs)
  }

  lemma RetireKeepsSweep(p: Peer, id: FlowId, nowMs: int, retentionMs: nat)
    requires id in p.members && !IsLive(p.members[id], nowMs, retentionMs)
    ensures Swept(Retire(p, id), nowMs, retentionMs) == Swept(p, nowMs, retentionMs)
  {
    hide SumMembers;
    var q := Retire(p, id);
    SumTakeOut(DeadPart(p, nowMs, retentionMs), id);
    assert DeadPart(q, nowMs, retentionMs) == DeadPart(p, nowMs, retentionMs) - {id};
    assert LivePart(q, nowMs, retentionMs) == LivePart(p, nowMs, retentionMs);
  }

  lemma SweptAlready(p: Peer, nowMs: int, retentionMs: nat)
    requires forall id :: id in p.members ==> IsLive(p.members[id], nowMs, retentionMs)
    ensures Swept(p, nowMs, retentionMs) == p
  {
    assert DeadPart(p, nowMs, retentionMs) == map[];
    assert LivePart(p, nowMs, retentionMs) == p.members;
  }

  ghost predicate OnlyExpiries(log: seq<PeerEvent>) {
    forall i :: 0 <= i < |log| ==> log[i].Expired?
  }

  method Sweep(p: Peer, nowMs: int, retentionMs: nat, ghost log: seq<PeerEvent>)
    returns (q: Peer, ghost tail: seq<PeerEvent>)
    requires Digests(p, log)
    ensures q == Swept(p, nowMs, retentionMs)
    ensures PeerTotal(q) == PeerTotal(p)
    ensures Digests(q, log + tail) && OnlyExpiries(tail)
  {
    hide Digests, PeerTotal, Swept;
    q, tail := p, [];
    assert log + tail == log;
    var todo := p.members.Keys;
    while todo != {}
      invariant todo <= q.members.Keys
      invariant forall id :: id in q.members && id !in todo ==> IsLive(q.members[id], nowMs, retentionMs)
      invariant Swept(q, nowMs, retentionMs) == Swept(p, nowMs, retentionMs)
      invariant PeerTotal(q) == PeerTotal(p)
      invariant Digests(q, log + tail) && OnlyExpiries(tail)
    {
      var id :| id in todo;
      todo := todo - {id};
      if !IsLive(q.members[id], nowMs, retentionMs) {
        RetireKeepsSweep(q, id, nowMs, retentionMs);
        RetireDigests(q, log + tail, id);
        assert log + (tail + [Expired(id)]) == log + tail + [Expired(id)];
        tail := tail + [Expired(id)];
        q := Retire(q, id);
      }
    }
    SweptAlready(q, nowMs, retentionMs);
  }

  // ---- the whole table ----------------------------------------------------------------

  ghost predicate AllDigest(peers: Peers, logs: Logs) {
    peers.Keys == logs.Keys && forall k :: k in peers ==> Digests(peers[k], logs[k])
  }

  /** Every folded flow leaves one entry in its peer's log, in snapshot order. */
  ghost function ObserveLogs(logs: Logs, conns: seq<Connection>): Logs {
    if conns == [] then logs
    else
      var before, c := ObserveLogs(logs, conns[..|conns| - 1]), conns[|conns| - 1];
      if !IsFolded(c) then before
      else
        var k := PeerId(c);
        before[k := (if k in before then before[k] else []) + [Seen(c.Id(), c.counters)]]
  }

  lemma {:induction false} ObserveAllDigests(peers: Peers, logs: Logs, conns: seq<Connection>, nowMs: int)
    requires AllDigest(peers, logs)
    ensures AllDigest(ObserveAll(peers, conns, nowMs), ObserveLogs(logs, conns))
  {
    hide Digests;
    if conns != [] {
      var front, c := conns[..|conns| - 1], conns[|conns| - 1];
      ObserveAllDigests(peers, logs, front, nowMs);
      var ps, ls := ObserveAll(peers, front, nowMs), ObserveLogs(logs, front);
      if IsFolded(c) {
        var k := PeerId(c);
        var p, l := if k in ps then ps[k] else NEW_PEER, if k in ls then ls[k] else [];
        if k !in ps {
          NewPeerDigests(p, l);
        }
        ObserveDigests(p, l, c.Id(), c.counters, nowMs);
      }
    }
  }

  method ObserveSnapshot(peers: Peers, conns: seq<Connection>, nowMs: int)
    returns (seen: Peers, rows: map<FlowId, Connection>, rest: seq<Connection>)
    ensures seen == ObserveAll(peers, conns, nowMs)
    ensures rows == FoldedRows(conns)
    ensures rest == Passthrough(conns)
  {
    seen, rows, rest := peers, map[], [];
    for i := 0 to |conns|
      invariant seen == ObserveAll(peers, conns[..i], nowMs)
      invariant rows == FoldedRows(conns[..i])
      invariant rest == Passthrough(conns[..i])
    {
      var c := conns[i];
      assert conns[..i + 1][..i] == conns[..i];
      if !IsFolded(c) {
        rest := rest + [c];
      } else {
        var k := PeerId(c);
        seen := ObserveOne(seen, c, nowMs);
        if k !in rows {
          rows := rows[k := PeerRow(c)];
        }
      }
    }
    assert conns[..|conns|] == conns;
  }

  method SweepAll(peers: Peers, nowMs: int, retentionMs: nat, ghost logs: Logs)
    returns (kept: Peers, ghost logs': Logs)
    requires AllDigest(peers, logs)
    ensures kept == SweptAll(peers, nowMs, retentionMs)
    ensures AllDigest(kept, logs')
    ensures forall k :: k in kept ==> PeerTotal(kept[k]) == PeerTotal(peers[k])
    ensures forall k :: k in kept ==> logs[k] <= logs'[k] && OnlyExpiries(logs'[k][|logs[k]|..])
  {
    hide Digests, PeerTotal, Swept;
    kept, logs' := map[], map[];
    var todo := peers.Keys;
    while todo != {}
      invariant todo <= peers.Keys
      invariant kept == map k | k in peers && k !in todo && nowMs - peers[k].lastSeenMs <= retentionMs ::
                          Swept(peers[k], nowMs, retentionMs)
      invariant AllDigest(kept, logs')
      invariant forall k :: k in kept ==> PeerTotal(kept[k]) == PeerTotal(peers[k])
      invariant forall k :: k in kept ==> logs[k] <= logs'[k] && OnlyExpiries(logs'[k][|logs[k]|..])
    {
      var k :| k in todo;
      todo := todo - {k};
      if nowMs - peers[k].lastSeenMs <= retentionMs {
        var p;
        ghost var tail;
        p, tail := Sweep(peers[k], nowMs, retentionMs, logs[k]);
        kept := kept[k := p];
        logs' := logs'[k := logs[k] + tail];
        assert (logs[k] + tail)[|logs[k]|..] == tail;
      }
    }
  }

  /** The peers' rows with their accumulated counters. */
  ghost function PeerRows(rows: map<FlowId, Connection>, peers: Peers): map<FlowId, Connection>
    requires rows.Keys <= peers.Keys
  {
    map k | k in rows :: rows[k].(counters := PeerTotal(peers[k]))
  }

  method FillTotals(rows: map<FlowId, Connection>, peers: Peers) returns (filled: map<FlowId, Connection>)
    requires rows.Keys <= peers.Keys
    ensures filled == PeerRows(rows, peers)
  {
    hide PeerTotal;
    filled := rows;
    var todo := rows.Keys;
    while todo != {}
      invariant todo <= rows.Keys
      invariant filled == map k | k in rows ::
                            if k in todo then rows[k] else rows[k].(counters := PeerTotal(peers[k]))
    {
      var k :| k in todo;
      todo := todo - {k};
      var t := Total(peers[k]);
      filled := filled[k := rows[k].(counters := t)];
    }
  }

  // ---- indexing a snapshot by identity -------------------------------------------------

  /** Later entries replace earlier ones with the same identity. */
  function IndexById(conns: seq<Connection>): map<FlowId, Connection> {
    if conns == [] then map[]
    else IndexById(conns[..|conns| - 1])[conns[|conns| - 1].Id() := conns[|conns| - 1]]
  }

  ghost predicate Lists(list: seq<Connection>, m: map<FlowId, Connection>) {
    && (forall i :: 0 <= i < |list| ==> list[i].Id() in m && m[list[i].Id()] == list[i])
    && (forall k :: k in m ==> m[k] in list)
  }

  method ListValues(m: map<FlowId, Connection>) returns (list: seq<Connection>)
    requires forall k :: k in m ==> m[k].Id() == k
    ensures Lists(list, m)
  {
    list := [];
    var todo := m.Keys;
    while todo != {}
      invariant todo <= m.Keys
      invariant forall i :: 0 <= i < |list| ==> list[i].Id() in m && m[list[i].Id()] == list[i]
      invariant forall k :: k in m && k !in todo ==> m[k] in list
    {
      var k :| k in todo;
      todo := todo - {k};
      list := list + [m[k]];
      assert list[|list| - 1] == m[k];
    }
  }

  lemma {:induction false} IndexKeyed(conns: seq<Connection>, k: FlowId)
    ensures k in IndexById(conns) <==> exists i :: 0 <= i < |conns| && conns[i].Id() == k
    ensures k in IndexById(conns) ==> IndexById(conns)[k].Id() == k && IndexById(conns)[k] in conns
  {
    if conns != [] {
      var front, c := conns[..|conns| - 1], conns[|conns| - 1];
      IndexKeyed(front, k);
      assert conns == front + [c];
      if c.Id() == k {
        assert conns[|conns| - 1].Id() == k;
      } else if k in IndexById(front) {
        var i :| 0 <= i < |front| && front[i].Id() == k;
        assert conns[i].Id() == k;
      }
    }
  }

  lemma {:induction false} IndexConcat(a: seq<Connection>, b: seq<Connection>)
    ensures IndexById(a + b) == IndexById(a) + IndexById(b)
  {
    if b == [] {
      assert a + b == a;
    } else {
      IndexConcat(a, b[..|b| - 1]);
      assert (a + b)[..|a + b| - 1] == a + b[..|b| - 1];
    }
  }

  lemma IndexOfListed(list: seq<Connection>, m: map<FlowId, Connection>)
    requires Lists(list, m) && forall k :: k in m ==> m[k].Id() == k
    ensures IndexById(list) == m
  {
    forall k ensures k in IndexById(list) <==> k in m
      ensures k in m ==> IndexById(list)[k] == m[k]
    {
      IndexKeyed(list, k);
      if k in m {
        var i :| 0 <= i < |list| && list[i] == m[k];
        assert list[i].Id() == k;
        var j :| 0 <= j < |list| && list[j] == IndexById(list)[k];
      }
    }
  }

  /** The snapshot after folding: unfolded flows as they are, and one row per peer. */
  ghost function FoldedSnapshot(conns: seq<Connection>, peers: Peers): map<FlowId, Connection>
    requires FoldedRows(conns).Keys <= peers.Keys
  {
    IndexById(Passthrough(conns)) + PeerRows(FoldedRows(conns), peers)
  }

  /** What the snapshot after folding shows of a peer: its first flow with the port that varies
      set to 0, and the accumulated counters. */
  lemma FoldedSnapshotRow(conns: seq<Connection>, peers: Peers, k: FlowId, i: nat)
    requires FoldedRows(conns).Keys <= peers.Keys && IsFirstOfPeer(conns, k, i)
    ensures k in FoldedSnapshot(conns, peers) && k in peers
    ensures var row, c := FoldedSnapshot(conns, peers)[k], conns[i];
            row == if c.direction.Outbound?
                   then c.(local := Endpoint(c.local.address, 0), counters := PeerTotal(peers[k]))
                   else c.(remote := Endpoint(c.remote.address, 0), counters := PeerTotal(peers[k]))
  {
    hide PeerTotal;
    PeerRowIsFirstFlow(conns, k, i);
  }

  /** Of entries with one identity the last one counts. */
  lemma {:induction false} LastEntryCounts(conns: seq<Connection>, i: nat)
    requires i < |conns| && forall j :: i < j < |conns| ==> conns[j].Id() != conns[i].Id()
    ensures conns[i].Id() in IndexById(conns) && IndexById(conns)[conns[i].Id()] == conns[i]
  {
    if i < |conns| - 1 {
      LastEntryCounts(conns[..|conns| - 1], i);
    }
  }

  /** Each surviving peer's log has grown by its flows of the snapshot, in order, and then
      at most by expiries. */
  ghost predicate LogsExtend(logs: Logs, conns: seq<Connection>, logs': Logs) {
    forall k :: k in logs' ==>
      && k in ObserveLogs(logs, conns) && ObserveLogs(logs, conns)[k] <= logs'[k]
      && OnlyExpiries(logs'[k][|ObserveLogs(logs, conns)[k]|..])
  }

  /** Folding one snapshot: the accumulators move as specified, their logs record every
      flow of the snapshot, and the resulting rows carry the accumulated totals. */
  method FoldUdp(peers: Peers, conns: seq<Connection>, nowMs: int, retentionMs: nat, ghost logs: Logs)
    returns (peers': Peers, ghost logs': Logs, conns': seq<Connection>)
    requires AllDigest(peers, logs)
    ensures peers' == SweptAll(ObserveAll(peers, conns, nowMs), nowMs, retentionMs)
    ensures FoldedRows(conns).Keys <= peers'.Keys
    ensures AllDigest(peers', logs')
    ensures LogsExtend(logs, conns, logs')
    ensures IndexById(conns') == FoldedSnapshot(conns, peers')
    ensures forall k :: k in peers' ==> PeerTotal(peers'[k]) == PeerTotal(ObserveAll(peers, conns, nowMs)[k])
  {
    hide Digests, PeerTotal, Swept;
    var seen, rows, rest := ObserveSnapshot(peers, conns, nowMs);
    ObserveAllDigests(peers, logs, conns, nowMs);
    peers', logs' := SweepAll(seen, nowMs, retentionMs, ObserveLogs(logs, conns));
    forall k | k in rows ensures k in peers' && rows[k].Id() == k {
      ObserveAllFacts(peers, conns, nowMs, k);
      FoldedRowsAreKeyed(conns, k);
    }
    var filled := FillTotals(rows, peers');
    var list := ListValues(filled);
    conns' := rest + list;
    IndexConcat(rest, list);
    IndexOfListed(list, filled);
  }
}
