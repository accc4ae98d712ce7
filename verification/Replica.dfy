/** The agent and a client connected by an in-order bus: the client's table follows the
    agent's published flows through every interleaving of snapshots, refinements and
    deliveries. A client that folds UDP flows into peer rows follows all the others. */
module Replica {
  import opened Connections
  import opened Wire
  import opened DeepWorker
  import opened Service
  import opened FlowTable
  import opened FlowRuns
  import opened UdpTable
  import opened FlowUdp
  import opened ConnectionAggregation

  // ---- agreement --------------------------------------------------------------------------------------

  /** Does a flow of this identity have a row of its own, or is it folded into its peer's? */
  predicate Stands(k: FlowId, fold: bool) {
    !fold || !IsFoldedId(k)
  }

  /** A live row showing exactly this flow. */
  ghost predicate ShowsLive(rows: seq<Row>, f: Connection) {
    exists j :: 0 <= j < |rows| && !rows[j].stale && rows[j].current == f
  }

  ghost predicate IsPublished(f: Connection, view: seq<Connection>) {
    exists i :: 0 <= i < |view| && f == AcrossTheBus(view[i])
  }

  /** The live rows are the published flows, as they look from across the bus; flows and rows
      of folded identities aside. */
  ghost predicate Agree(rows: seq<Row>, view: seq<Connection>, fold: bool) {
    && (forall i :: 0 <= i < |view| && Stands(view[i].Id(), fold) ==> ShowsLive(rows, AcrossTheBus(view[i])))
    && (forall j :: 0 <= j < |rows| && !rows[j].stale && Stands(rows[j].Id(), fold) ==>
          IsPublished(rows[j].current, view))
  }

  ghost predicate DistinctFlows(view: seq<Connection>) {
    forall i, j :: 0 <= i < j < |view| ==> view[i].Id() != view[j].Id()
  }

  /** The client keeps the directions it is sent: they are known, or it cannot tell either. */
  ghost predicate DirectionsStand(view: seq<Connection>, ctx: HostContext) {
    forall i :: 0 <= i < |view| ==> WithDirection(AcrossTheBus(view[i]), ctx) == AcrossTheBus(view[i])
  }

  /** Entries that look alike to the client do not contradict each other. */
  ghost predicate NoConflict(view: seq<Connection>, fold: bool) {
    forall i, j :: 0 <= i < |view| && 0 <= j < |view| && view[i].Id() == view[j].Id() && Stands(view[i].Id(), fold)
      ==> AcrossTheBus(view[i]) == AcrossTheBus(view[j])
  }

  // ---- a snapshot arrives --------------------------------------------------------------------------------

  /** What the client makes of records off the wire. */
  function Received(x: AddressCodec, dtos: seq<ConnectionDto>): (r: seq<Connection>)
    ensures |r| == |dtos|
  {
    seq(|dtos|, i requires 0 <= i < |dtos| => FromDto(x, Known(dtos[i], ALL_FIELDS)))
  }

  lemma ReceivedView(x: AddressCodec, view: seq<Connection>, i: nat)
    requires x.Inverse() && i < |view|
    ensures Received(x, ToDtos(x, view))[i] == AcrossTheBus(view[i])
  {
    TransportKeepsFlow(x, ToDto(x, view[i]));
    RoundTrip(x, view[i]);
  }

  lemma AcrossKeepsId(c: Connection)
    ensures AcrossTheBus(c).Id() == c.Id() && AcrossTheBus(c).counters == c.counters
  {
  }

  /** The flows a client with this context sees in a published view. */
  ghost predicate IsSeenAs(view: seq<Connection>, ctx: HostContext, conns: seq<Connection>) {
    |conns| == |view| && forall i :: 0 <= i < |view| ==> conns[i] == WithDirection(AcrossTheBus(view[i]), ctx)
  }

  lemma SeenView(x: AddressCodec, view: seq<Connection>, ctx: HostContext)
    requires x.Inverse()
    ensures IsSeenAs(view, ctx, WithDirections(Received(x, ToDtos(x, view)), ctx))
  {
    hide AcrossTheBus, InferDirection;
    forall i | 0 <= i < |view| ensures Received(x, ToDtos(x, view))[i] == AcrossTheBus(view[i]) {
      ReceivedView(x, view, i);
    }
  }

  /** One tick of either kind of client. */
  ghost predicate Absorbs(fold: bool, t: Table, peers: Peers, conns: seq<Connection>, nowMs: int, s: Settings,
                          peers': Peers, t': Table)
  {
    if fold then FoldedTick(t, peers, conns, nowMs, s, peers', t')
    else peers' == map[] && Ticked(t, IndexById(conns), nowMs, s, t')
  }

  ghost function Applied(fold: bool, conns: seq<Connection>, peers: Peers): FlowTable.Snapshot
    requires fold ==> FoldedRows(conns).Keys <= peers.Keys
  {
    if fold then FoldedSnapshot(conns, peers) else IndexById(conns)
  }

  lemma {:induction false} PassesThrough(conns: seq<Connection>, i: nat)
    requires i < |conns| && !IsFoldedId(conns[i].Id())
    ensures conns[i] in Passthrough(conns)
  {
    if i < |conns| - 1 {
      PassesThrough(conns[..|conns| - 1], i);
    }
  }

  /** What is applied under an identity that stands: an entry with that identity, if any. */
  lemma AppliedFacts(fold: bool, conns: seq<Connection>, peers: Peers, k: FlowId)
    requires fold ==> FoldedRows(conns).Keys <= peers.Keys
    ensures var a := Applied(fold, conns, peers);
            && (k in a ==> a[k].Id() == k)
            && (k in a && Stands(k, fold) ==> a[k] in conns)
            && (Stands(k, fold) && (exists i :: 0 <= i < |conns| && conns[i].Id() == k) ==> k in a)
  {
    if !fold {
      IndexKeyed(conns, k);
    } else {
      FoldedSnapshotKeyed(conns, peers, k);
      var rest := Passthrough(conns);
      IndexKeyed(rest, k);
      if k in IndexById(rest) {
        PassthroughIsNotFolded(conns, IndexById(rest)[k]);
      }
      if i :| 0 <= i < |conns| && conns[i].Id() == k && !IsFoldedId(k) {
        PassesThrough(conns, i);
        var j :| 0 <= j < |rest| && rest[j] == conns[i];
      }
    }
  }

  /** The table after a snapshot: consistent, peers in step, and what stands is the snapshot's. */
  ghost predicate ShowsSnapshot(fold: bool, conns: seq<Connection>, t: Table) {
    && Consistent(t)
    && (forall j :: 0 <= j < |t.rows| && !t.rows[j].stale && Stands(t.rows[j].Id(), fold) ==>
          t.rows[j].current in conns)
    && (forall i :: 0 <= i < |conns| && Stands(conns[i].Id(), fold) ==> HasLiveRow(t.rows, conns[i].Id()))
  }

  ghost predicate HasLiveRow(rows: seq<Row>, k: FlowId) {
    exists j :: 0 <= j < |rows| && !rows[j].stale && rows[j].Id() == k
  }

  lemma AbsorbedShows(fold: bool, t: Table, peers: Peers, conns: seq<Connection>, nowMs: int, s: Settings,
                      peers': Peers, t': Table)
    requires Consistent(t) && nowMs >= t.lastMs && Absorbs(fold, t, peers, conns, nowMs, s, peers', t')
    ensures ShowsSnapshot(fold, conns, t')
    ensures fold && PeersInStep(t.rows, peers) ==> PeersInStep(t'.rows, peers')
  {
    hide Ticked, IsExpired, FoldedSnapshot, IndexById, PeersInStep, SweptAll, ObserveAll, FoldedRows, PeerRowsMove;
    var incoming := Applied(fold, conns, peers');
    forall k
      ensures k in incoming ==> incoming[k].Id() == k
      ensures k in incoming && Stands(k, fold) ==> incoming[k] in conns
      ensures Stands(k, fold) && (exists i :: 0 <= i < |conns| && conns[i].Id() == k) ==> k in incoming
    {
      AppliedFacts(fold, conns, peers', k);
    }
    TickConsistent(t, incoming, nowMs, s, t');
    TickedLeaves(t, incoming, nowMs, s, t');
    if fold && PeersInStep(t.rows, peers) {
      PeersTick(t, peers, conns, nowMs, s, peers', t');
    }
    ConsistentShows(fold, conns, incoming, t');
  }

  lemma ConsistentShows(fold: bool, conns: seq<Connection>, incoming: FlowTable.Snapshot, t: Table)
    requires Consistent(t) && t.prev == incoming
    requires forall j :: 0 <= j < |t.rows| && t.rows[j].Id() in incoming ==>
      t.rows[j].current == incoming[t.rows[j].Id()]
    requires forall k :: k in incoming && Stands(k, fold) ==> incoming[k] in conns
    requires forall k :: Stands(k, fold) && (exists i :: 0 <= i < |conns| && conns[i].Id() == k) ==> k in incoming
    ensures ShowsSnapshot(fold, conns, t)
  {
    forall i | 0 <= i < |conns| && Stands(conns[i].Id(), fold) ensures HasLiveRow(t.rows, conns[i].Id()) {
      var k := conns[i].Id();
      assert k in incoming && HasRow(t.rows, k);
      var j :| 0 <= j < |t.rows| && t.rows[j].Id() == k;
      assert RowInStep(t.rows[j], t.prev, t.lastMs);
    }
    forall j | 0 <= j < |t.rows| && !t.rows[j].stale && Stands(t.rows[j].Id(), fold)
      ensures t.rows[j].current in conns
    {
      assert RowInStep(t.rows[j], t.prev, t.lastMs);
    }
  }

  /** After a snapshot the client agrees with it exactly when the snapshot does not name one
      flow twice with different contents (as it may, since the client's identity leaves the
      interface out) and leaves no direction open that the client would settle. */
  lemma SnapshotBringsAgreement(x: AddressCodec, view: seq<Connection>, ctx: HostContext, fold: bool,
                                t: Table, peers: Peers, nowMs: int, s: Settings, peers': Peers, t': Table)
    requires x.Inverse() && Consistent(t) && nowMs >= t.lastMs
    requires Absorbs(fold, t, peers, WithDirections(Received(x, ToDtos(x, view)), ctx), nowMs, s, peers', t')
    ensures Consistent(t') && (fold && PeersInStep(t.rows, peers) ==> PeersInStep(t'.rows, peers'))
    ensures Agree(t'.rows, view, fold) <==> NoConflict(view, fold) && DirectionsStand(view, ctx)
  {
    hide *;
    var conns := WithDirections(Received(x, ToDtos(x, view)), ctx);
    SeenView(x, view, ctx);
    AbsorbedShows(fold, t, peers, conns, nowMs, s, peers', t');
    ShownIsConsistent(fold, conns, t');
    if NoConflict(view, fold) && DirectionsStand(view, ctx) {
      LiveRowsAgree(fold, t', view, ctx, conns);
    }
    if Agree(t'.rows, view, fold) {
      AgreedDirections(fold, t', view, ctx, conns);
      AgreedContents(fold, t', view);
    }
  }

  lemma ShownIsConsistent(fold: bool, conns: seq<Connection>, t: Table)
    requires ShowsSnapshot(fold, conns, t)
    ensures Consistent(t)
  {
  }

  lemma LiveRowsAgree(fold: bool, t: Table, view: seq<Connection>, ctx: HostContext, conns: seq<Connection>)
    requires ShowsSnapshot(fold, conns, t) && IsSeenAs(view, ctx, conns)
    requires NoConflict(view, fold) && DirectionsStand(view, ctx)
    ensures Agree(t.rows, view, fold)
  {
    hide AcrossTheBus, WithDirection, Consistent, IsFoldedId;
    forall i | 0 <= i < |view| ensures conns[i] == AcrossTheBus(view[i]) && conns[i].Id() == view[i].Id() {
      AcrossKeepsId(view[i]);
    }
    forall i | 0 <= i < |view| && Stands(view[i].Id(), fold) ensures ShowsLive(t.rows, AcrossTheBus(view[i])) {
      assert HasLiveRow(t.rows, conns[i].Id());
      var j :| 0 <= j < |t.rows| && !t.rows[j].stale && t.rows[j].Id() == conns[i].Id();
      var m :| 0 <= m < |conns| && conns[m] == t.rows[j].current;
      assert view[m].Id() == view[i].Id();
      assert AcrossTheBus(view[i]) == AcrossTheBus(view[m]);
    }
    forall j | 0 <= j < |t.rows| && !t.rows[j].stale && Stands(t.rows[j].Id(), fold)
      ensures IsPublished(t.rows[j].current, view)
    {
      var m :| 0 <= m < |conns| && conns[m] == t.rows[j].current;
      assert t.rows[j].current == AcrossTheBus(view[m]);
    }
  }

  lemma WithDirectionSettles(c: Connection, ctx: HostContext)
    ensures !c.direction.UnknownDirection? ==> WithDirection(c, ctx) == c
    ensures WithDirection(c, ctx).direction.UnknownDirection? ==> WithDirection(c, ctx) == c
  {
  }

  /** A row that shows an open direction stands for an entry whose direction stood. */
  lemma ShownDirection(fold: bool, t: Table, view: seq<Connection>, ctx: HostContext, conns: seq<Connection>,
                       f: Connection)
    requires ShowsSnapshot(fold, conns, t) && IsSeenAs(view, ctx, conns) && ShowsLive(t.rows, f)
    requires f.direction.UnknownDirection?
    ensures WithDirection(f, ctx) == f
  {
    hide AcrossTheBus, WithDirection, Consistent, HasLiveRow;
    var j :| 0 <= j < |t.rows| && !t.rows[j].stale && t.rows[j].current == f;
    assert Stands(t.rows[j].Id(), fold);
    var m :| 0 <= m < |conns| && conns[m] == f;
    WithDirectionSettles(AcrossTheBus(view[m]), ctx);
  }

  /** A flow the client settled the direction of is not shown as it was sent. */
  lemma AgreedDirections(fold: bool, t: Table, view: seq<Connection>, ctx: HostContext, conns: seq<Connection>)
    requires ShowsSnapshot(fold, conns, t) && IsSeenAs(view, ctx, conns) && Agree(t.rows, view, fold)
    ensures DirectionsStand(view, ctx)
  {
    hide AcrossTheBus, WithDirection, ShowsSnapshot, IsSeenAs, ShowsLive, IsPublished;
    forall i | 0 <= i < |view| ensures WithDirection(AcrossTheBus(view[i]), ctx) == AcrossTheBus(view[i]) {
      var f := AcrossTheBus(view[i]);
      AcrossKeepsId(view[i]);
      WithDirectionSettles(f, ctx);
      if f.direction.UnknownDirection? {
        ShownDirection(fold, t, view, ctx, conns, f);
      }
    }
  }

  lemma AgreedContents(fold: bool, t: Table, view: seq<Connection>)
    requires Consistent(t) && Agree(t.rows, view, fold)
    ensures NoConflict(view, fold)
  {
    hide AcrossTheBus;
    forall i, j | 0 <= i < |view| && 0 <= j < |view| && view[i].Id() == view[j].Id() && Stands(view[i].Id(), fold)
      ensures AcrossTheBus(view[i]) == AcrossTheBus(view[j])
    {
      AcrossKeepsId(view[i]);
      AcrossKeepsId(view[j]);
      assert ShowsLive(t.rows, AcrossTheBus(view[i])) && ShowsLive(t.rows, AcrossTheBus(view[j]));
      var a :| 0 <= a < |t.rows| && !t.rows[a].stale && t.rows[a].current == AcrossTheBus(view[i]);
      var b :| 0 <= b < |t.rows| && !t.rows[b].stale && t.rows[b].current == AcrossTheBus(view[j]);
      assert t.rows[a].Id() == t.rows[b].Id();
    }
  }

  /** A flow for the examples: host 1 talking from an ephemeral port to host 2. */
  const SAMPLE := Connection(Endpoint(IPv4(1), 40000), Endpoint(IPv4(2), 443), Tcp, ZERO, "eth0", 1,
                             Outbound, Established, NoLocalSocket, NO_PROCESS, NO_CONTAINER, [])

  /** One flow seen on two interfaces with different counters leaves the client with one of
      the two, whichever it is. */
  lemma TwoInterfacesDisagree(x: AddressCodec, ctx: HostContext, fold: bool, t: Table, peers: Peers, nowMs: int,
                              s: Settings, peers': Peers, t': Table)
    requires x.Inverse() && Consistent(t) && nowMs >= t.lastMs
    requires var view := [SAMPLE, SAMPLE.(ifIndex := 2, counters := Counters(9, 9, 1, 1))];
             Absorbs(fold, t, peers, WithDirections(Received(x, ToDtos(x, view)), ctx), nowMs, s, peers', t')
    ensures !Agree(t'.rows, [SAMPLE, SAMPLE.(ifIndex := 2, counters := Counters(9, 9, 1, 1))], fold)
  {
    hide Absorbs, Consistent, Agree;
    var view := [SAMPLE, SAMPLE.(ifIndex := 2, counters := Counters(9, 9, 1, 1))];
    SnapshotBringsAgreement(x, view, ctx, fold, t, peers, nowMs, s, peers', t');
    assert view[0].Id() == view[1].Id() && AcrossTheBus(view[0]).counters != AcrossTheBus(view[1]).counters;
  }

  /** A direction the agent could not tell and the client can: the client's row has another
      identity than the flow that was sent. */
  lemma OpenDirectionDisagrees(x: AddressCodec, fold: bool, t: Table, peers: Peers, nowMs: int,
                               s: Settings, peers': Peers, t': Table)
    requires x.Inverse() && Consistent(t) && nowMs >= t.lastMs
    requires var ctx := HostContext({}, {}, 32768, 60999);
             var view := [SAMPLE.(direction := UnknownDirection)];
             Absorbs(fold, t, peers, WithDirections(Received(x, ToDtos(x, view)), ctx), nowMs, s, peers', t')
    ensures !Agree(t'.rows, [SAMPLE.(direction := UnknownDirection)], fold)
  {
    hide Absorbs, Consistent, Agree;
    var view, ctx := [SAMPLE.(direction := UnknownDirection)], HostContext({}, {}, 32768, 60999);
    SnapshotBringsAgreement(x, view, ctx, fold, t, peers, nowMs, s, peers', t');
    assert WithDirection(AcrossTheBus(view[0]), ctx).direction == Outbound;
  }

  // ---- a refinement arrives -----------------------------------------------------------------------------------

  /** The heart of it: the agent fills gaps in its flow, the client patches its row with the
      resulting record, and they look the same again -- although the two sides decide by
      different rules what to take over. */
  lemma PatchReproduces(c: Connection, u: Update)
    ensures PatchedWith(AcrossTheBus(c), AcrossTheBus(RefinedWith(c, u))) == AcrossTheBus(RefinedWith(c, u))
  {
  }

  /** Patching a row that stands, while all others stay as they are. */
  lemma PatchStanding(rows: seq<Row>, view: seq<Connection>, fold: bool, i: nat, c': Connection, p: Connection)
    requires DistinctIds(rows) && DistinctFlows(view) && Agree(rows, view, fold) && i < |view|
    requires c'.Id() == view[i].Id() && p == AcrossTheBus(c') && PatchedWith(AcrossTheBus(view[i]), p) == p
    requires Stands(view[i].Id(), fold)
    ensures Agree(PatchRows(rows, p), view[i := c'], fold)
  {
    var view', rows' := view[i := c'], PatchRows(rows, p);
    forall k | 0 <= k < |view| ensures AcrossTheBus(view[k]).Id() == view[k].Id() { AcrossKeepsId(view[k]); }
    AcrossKeepsId(c');
    hide AcrossTheBus, PatchedWith, IsFoldedId;
    assert ShowsLive(rows, AcrossTheBus(view[i]));
    var at :| 0 <= at < |rows| && !rows[at].stale && rows[at].current == AcrossTheBus(view[i]);
    assert rows'[at].current == p;
    forall j | 0 <= j < |rows| && j != at ensures rows'[j] == rows[j] {
      assert rows[j].Id() != rows[at].Id();
    }
    forall k | 0 <= k < |view'| && Stands(view'[k].Id(), fold) ensures ShowsLive(rows', AcrossTheBus(view'[k])) {
      if k == i {
        assert !rows'[at].stale && rows'[at].current == AcrossTheBus(view'[k]);
      } else {
        assert ShowsLive(rows, AcrossTheBus(view[k]));
        var j :| 0 <= j < |rows| && !rows[j].stale && rows[j].current == AcrossTheBus(view[k]);
        assert j != at;
        assert !rows'[j].stale && rows'[j].current == AcrossTheBus(view'[k]);
      }
    }
    forall j | 0 <= j < |rows'| && !rows'[j].stale && Stands(rows'[j].Id(), fold)
      ensures IsPublished(rows'[j].current, view')
    {
      if j == at {
        assert rows'[j].current == AcrossTheBus(view'[i]);
      } else {
        var k :| 0 <= k < |view| && rows[j].current == AcrossTheBus(view[k]);
        assert k != i;
        assert rows'[j].current == AcrossTheBus(view'[k]);
      }
    }
  }

  /** A record of a folded flow leaves every row that stands alone. */
  lemma PatchFolded(rows: seq<Row>, view: seq<Connection>, fold: bool, i: nat, c': Connection, p: Connection)
    requires Agree(rows, view, fold) && i < |view| && c'.Id() == view[i].Id() == p.Id() && !Stands(p.Id(), fold)
    ensures Agree(PatchRows(rows, p), view[i := c'], fold)
  {
    var view', rows' := view[i := c'], PatchRows(rows, p);
    forall k | 0 <= k < |view| ensures AcrossTheBus(view[k]).Id() == view[k].Id() { AcrossKeepsId(view[k]); }
    hide AcrossTheBus, PatchedWith, IsFoldedId;
    forall j | 0 <= j < |rows| && Stands(rows[j].Id(), fold) ensures rows'[j] == rows[j] {
    }
    forall k | 0 <= k < |view'| && Stands(view'[k].Id(), fold) ensures ShowsLive(rows', AcrossTheBus(view'[k])) {
      assert k != i && ShowsLive(rows, AcrossTheBus(view[k]));
      var j :| 0 <= j < |rows| && !rows[j].stale && rows[j].current == AcrossTheBus(view[k]);
      assert !rows'[j].stale && rows'[j].current == AcrossTheBus(view'[k]);
    }
    forall j | 0 <= j < |rows'| && !rows'[j].stale && Stands(rows'[j].Id(), fold)
      ensures IsPublished(rows'[j].current, view')
    {
      assert rows'[j] == rows[j];
      var k :| 0 <= k < |view| && rows[j].current == AcrossTheBus(view[k]);
      assert k != i;
      assert rows'[j].current == AcrossTheBus(view'[k]);
    }
  }

  lemma PatchOneAgrees(x: AddressCodec, rows: seq<Row>, view: seq<Connection>, fold: bool, i: nat, u: Update)
    requires x.Inverse() && DistinctIds(rows) && DistinctFlows(view) && Agree(rows, view, fold) && i < |view|
    ensures var view' := view[i := RefinedWith(view[i], u)];
            Agree(PatchRows(rows, FromDto(x, Known(ToDto(x, view'[i]), ALL_FIELDS))), view', fold)
  {
    hide Agree, DistinctIds, DistinctFlows, PatchRows;
    var c' := RefinedWith(view[i], u);
    TransportKeepsFlow(x, ToDto(x, c'));
    RoundTrip(x, c');
    PatchReproduces(view[i], u);
    RefinedKeepsKnown(view[i], u);
    AcrossKeepsId(c');
    hide ToDto, FromDto, Known, AcrossTheBus, RefinedWith, PatchedWith;
    if Stands(view[i].Id(), fold) {
      PatchStanding(rows, view, fold, i, c', AcrossTheBus(c'));
    } else {
      PatchFolded(rows, view, fold, i, c', AcrossTheBus(c'));
    }
  }

  lemma RefineKeepsFlows(view: seq<Connection>, index: KeyIndex, updates: seq<Update>)
    ensures forall i :: 0 <= i < |view| ==> RefineAll(view, index, updates)[i].Id() == view[i].Id()
    ensures DistinctFlows(view) ==> DistinctFlows(RefineAll(view, index, updates))
  {
    hide RefineAll;
    forall i | 0 <= i < |view| ensures RefineAll(view, index, updates)[i].Id() == view[i].Id() {
      BatchKeepsKnown(view, index, updates, i);
    }
  }

  lemma PatchRowsDistinct(rows: seq<Row>, p: Connection)
    requires DistinctIds(rows)
    ensures DistinctIds(PatchRows(rows, p))
  {
    var rows' := PatchRows(rows, p);
    assert forall i :: 0 <= i < |rows| ==> rows'[i].Id() == rows[i].Id();
  }

  /** Applying all records of a refinement batch brings the client to the refined flows. */
  lemma {:induction false} PatchesBringAgreement(x: AddressCodec, rows: seq<Row>, view: seq<Connection>, fold: bool,
                                                 index: KeyIndex, updates: seq<Update>)
    requires x.Inverse() && DistinctIds(rows) && DistinctFlows(view) && Agree(rows, view, fold)
    ensures var rows' := PatchAll(rows, Received(x, PatchesOf(x, view, index, updates)));
            Agree(rows', RefineAll(view, index, updates), fold) && DistinctIds(rows')
  {
    if updates == [] {
      assert Received(x, PatchesOf(x, view, index, updates)) == [];
    } else {
      var front, u := updates[..|updates| - 1], updates[|updates| - 1];
      PatchesBringAgreement(x, rows, view, fold, index, front);
      RefineKeepsFlows(view, index, front);
      hide ToDto, FromDto, Known, AcrossTheBus, RefinedWith, Refines, Agree, DistinctIds, DistinctFlows;
      var before := RefineAll(view, index, front);
      var ps := PatchesOf(x, view, index, front);
      var rows1 := PatchAll(rows, Received(x, ps));
      if Hits(before, index, u) {
        var i := index[u.key];
        var d := ToDto(x, RefineOne(before, index, u)[i]);
        var got := FromDto(x, Known(d, ALL_FIELDS));
        assert PatchesOf(x, view, index, updates) == ps + [d];
        assert Received(x, ps + [d]) == Received(x, ps) + [got];
        assert (Received(x, ps) + [got])[..|ps|] == Received(x, ps);
        assert PatchAll(rows, Received(x, ps) + [got]) == PatchRows(rows1, got);
        PatchOneAgrees(x, rows1, before, fold, i, u);
        PatchRowsDistinct(rows1, got);
      } else {
        assert PatchesOf(x, view, index, updates) == ps + [] == ps;
      }
    }
  }

  // ---- the two-party system --------------------------------------------------------------------------------------

  /** What both ends are set up with. */
  datatype Setup = Setup(codec: AddressCodec, clientCtx: HostContext, fold: bool)

  /** The agent's published flows, the messages under way, the client's table and peers, and
      -- as a history -- what the agent had published at the last delivery and after each
      message still under way. */
  datatype System = System(
    agent: seq<Connection>, channel: seq<Message>, client: Table, peers: Peers, views: seq<seq<Connection>>)

  datatype Action =
    | Publish(kept: seq<Connection>)
    | Refine(index: KeyIndex, updates: seq<Update>)
    | Deliver(nowMs: int, settings: Settings)

  /** A client that has heard nothing of an agent that has said nothing. */
  ghost predicate Initial(s: System) {
    s.agent == [] && s.channel == [] && s.client == Table([], map[], 0) && s.peers == map[] && s.views == [[]]
  }

  ghost predicate Receives(e: Setup, t: Table, peers: Peers, msg: Message, nowMs: int, settings: Settings,
                           peers': Peers, t': Table)
  {
    match msg
    case Snapshot(dtos) =>
      && nowMs >= t.lastMs
      && Absorbs(e.fold, t, peers, WithDirections(Received(e.codec, dtos), e.clientCtx), nowMs, settings, peers', t')
    case Patch(dtos) =>
      t' == t.(rows := PatchAll(t.rows, Received(e.codec, dtos))) && peers' == peers
  }

  ghost predicate Step(e: Setup, s: System, a: Action, s': System) {
    match a
    case Publish(kept) =>
      && DistinctFlows(kept) && DirectionsStand(kept, e.clientCtx)
      && s' == s.(agent := kept, channel := s.channel + [Snapshot(ToDtos(e.codec, kept))], views := s.views + [kept])
    case Refine(index, updates) =>
      var patches, refined := PatchesOf(e.codec, s.agent, index, updates), RefineAll(s.agent, index, updates);
      if patches == [] then s' == s.(agent := refined)
      else s' == s.(agent := refined, channel := s.channel + [Patch(patches)], views := s.views + [refined])
    case Deliver(nowMs, settings) =>
      && s.channel != [] && |s.views| >= 1
      && s'.agent == s.agent && s'.channel == s.channel[1..] && s'.views == s.views[1..]
      && Receives(e, s.client, s.peers, s.channel[0], nowMs, settings, s'.peers, s'.client)
  }

  /** A message that takes a client from one published view to the next. */
  ghost predicate Leads(e: Setup, msg: Message, v: seq<Connection>, v': seq<Connection>) {
    match msg
    case Snapshot(dtos) => dtos == ToDtos(e.codec, v') && DirectionsStand(v', e.clientCtx)
    case Patch(dtos) =>
      exists index, updates :: v' == RefineAll(v, index, updates) && dtos == PatchesOf(e.codec, v, index, updates)
  }

  /** The client's table is consistent, agrees with a view, and has its peer rows in step. */
  ghost predicate Follows(e: Setup, t: Table, peers: Peers, view: seq<Connection>) {
    && Consistent(t) && Agree(t.rows, view, e.fold)
    && (e.fold ==> PeersInStep(t.rows, peers))
  }

  ghost predicate InSync(e: Setup, s: System) {
    && |s.views| == |s.channel| + 1
    && s.views[|s.channel|] == s.agent
    && (forall i :: 0 <= i < |s.views| ==> DistinctFlows(s.views[i]))
    && (forall i :: 0 <= i < |s.channel| ==> Leads(e, s.channel[i], s.views[i], s.views[i + 1]))
    && Follows(e, s.client, s.peers, s.views[0])
  }

  lemma DeliveryKeepsAgreement(e: Setup, t: Table, peers: Peers, msg: Message, nowMs: int, settings: Settings,
                               peers': Peers, t': Table, v: seq<Connection>, v': seq<Connection>)
    requires e.codec.Inverse() && Follows(e, t, peers, v) && DistinctFlows(v) && DistinctFlows(v')
    requires Leads(e, msg, v, v') && Receives(e, t, peers, msg, nowMs, settings, peers', t')
    ensures Follows(e, t', peers', v')
  {
    match msg {
      case Snapshot(dtos) =>
        assert NoConflict(v', e.fold);
        hide Consistent, Agree, Absorbs, NoConflict, DirectionsStand, PeersInStep;
        SnapshotBringsAgreement(e.codec, v', e.clientCtx, e.fold, t, peers, nowMs, settings, peers', t');
      case Patch(dtos) =>
        var index, updates :| v' == RefineAll(v, index, updates) && dtos == PatchesOf(e.codec, v, index, updates);
        PatchReceived(e, t, peers, t', v, index, updates);
    }
  }

  lemma PatchReceived(e: Setup, t: Table, peers: Peers, t': Table, v: seq<Connection>, index: KeyIndex,
                      updates: seq<Update>)
    requires e.codec.Inverse() && Follows(e, t, peers, v) && DistinctFlows(v)
    requires t' == t.(rows := PatchAll(t.rows, Received(e.codec, PatchesOf(e.codec, v, index, updates))))
    ensures Follows(e, t', peers, RefineAll(v, index, updates))
  {
    assert DistinctIds(t.rows);
    PatchOnlyAttribution(t, Received(e.codec, PatchesOf(e.codec, v, index, updates)));
    hide Agree, OnlyAttribution, DistinctFlows, DistinctIds, PeersInStep, RefineAll, SameStanding, Consistent;
    PatchedStanding(t, t');
    StandingConsistent(t, t');
    StandingKeepsPeers(t.rows, t'.rows, peers);
    PatchesBringAgreement(e.codec, t.rows, v, e.fold, index, updates);
  }

  lemma Appended(e: Setup, s: System, msg: Message, v: seq<Connection>)
    requires InSync(e, s) && DistinctFlows(v) && Leads(e, msg, s.agent, v)
    ensures InSync(e, s.(agent := v, channel := s.channel + [msg], views := s.views + [v]))
  {
    hide Leads, Follows, DistinctFlows;
    var s' := s.(agent := v, channel := s.channel + [msg], views := s.views + [v]);
    forall i | 0 <= i < |s'.channel| ensures Leads(e, s'.channel[i], s'.views[i], s'.views[i + 1]) {
      if i < |s.channel| {
        assert Leads(e, s.channel[i], s.views[i], s.views[i + 1]);
      }
    }
  }

  lemma DeliveredInSync(e: Setup, s: System, nowMs: int, settings: Settings, s': System)
    requires e.codec.Inverse() && InSync(e, s) && Step(e, s, Deliver(nowMs, settings), s')
    ensures InSync(e, s')
  {
    hide Leads, Follows, DistinctFlows, Receives;
    assert Leads(e, s.channel[0], s.views[0], s.views[0 + 1]);
    DeliveryKeepsAgreement(e, s.client, s.peers, s.channel[0], nowMs, settings, s'.peers, s'.client,
                           s.views[0], s.views[1]);
    forall i | 0 <= i < |s'.channel| ensures Leads(e, s'.channel[i], s'.views[i], s'.views[i + 1]) {
      assert Leads(e, s.channel[i + 1], s.views[i + 1], s.views[i + 1 + 1]);
    }
  }

  /** Every step of either party or of the bus keeps the system in sync. */
  lemma StepInSync(e: Setup, s: System, a: Action, s': System)
    requires e.codec.Inverse() && InSync(e, s) && Step(e, s, a, s')
    ensures InSync(e, s')
  {
    match a {
      case Publish(kept) =>
        Appended(e, s, Snapshot(ToDtos(e.codec, kept)), kept);
      case Refine(index, updates) =>
        var patches := PatchesOf(e.codec, s.agent, index, updates);
        if patches == [] {
          AnnouncedExactlyOnChange(e.codec, s.agent, index, updates);
        } else {
          assert DistinctFlows(s.views[|s.channel|]);
          RefineKeepsFlows(s.agent, index, updates);
          Appended(e, s, Patch(patches), RefineAll(s.agent, index, updates));
        }
      case Deliver(nowMs, settings) =>
        DeliveredInSync(e, s, nowMs, settings, s');
    }
  }

  ghost predicate IsRun(e: Setup, states: seq<System>, actions: seq<Action>) {
    && |states| == |actions| + 1 && Initial(states[0])
    && forall n :: 0 <= n < |actions| ==> Step(e, states[n], actions[n], states[n + 1])
  }

  /** Replica agreement: in every interleaving, the client's live rows are the flows the
      agent had published as of the last message delivered, attribution included; once
      nothing is under way, they are the agent's current ones. In a client that folds, this
      holds of all flows it does not fold, and the peer rows carry their totals. */
  lemma {:induction false} ReplicaAgrees(e: Setup, states: seq<System>, actions: seq<Action>, n: nat)
    requires e.codec.Inverse() && IsRun(e, states, actions) && n < |states|
    ensures InSync(e, states[n])
    ensures states[n].channel == [] ==> Agree(states[n].client.rows, states[n].agent, e.fold)
    ensures e.fold ==> PeersInStep(states[n].client.rows, states[n].peers)
  {
    hide Step;
    if n == 0 {
      InitialInSync(e, states[0]);
    } else {
      hide InSync;
      ReplicaAgrees(e, states, actions, n - 1);
      assert Step(e, states[n - 1], actions[n - 1], states[n - 1 + 1]);
      StepInSync(e, states[n - 1], actions[n - 1], states[n]);
      QuietAgrees(e, states[n]);
    }
  }

  lemma InitialInSync(e: Setup, s: System)
    requires Initial(s)
    ensures InSync(e, s)
  {
  }

  lemma QuietAgrees(e: Setup, s: System)
    requires InSync(e, s)
    ensures s.channel == [] ==> Agree(s.client.rows, s.agent, e.fold)
    ensures e.fold ==> PeersInStep(s.client.rows, s.peers)
  {
  }

  /** A delivered refinement touches no counter, rate, sample or timestamp at the client. */
  lemma PatchDeliveryKeepsRates(e: Setup, s: System, nowMs: int, settings: Settings, s': System)
    requires Step(e, s, Deliver(nowMs, settings), s') && s.channel[0].Patch?
    ensures OnlyAttribution(s.client, s'.client)
  {
    PatchOnlyAttribution(s.client, Received(e.codec, s.channel[0].dtos));
  }
}
