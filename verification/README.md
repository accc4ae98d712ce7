# A verified model of qiftop's flow pipeline

qiftop is a network monitor in two halves. A privileged agent reads the kernel's
flow table, attributes flows to processes and containers, and publishes snapshots on
a message bus; clients keep a table of flows over time and show it flat or grouped.
This project models the stateful parts in between, each of which keeps a fast or
incremental form that has to agree with a simple one, and proves that agreement.

* **The group tree** (`GroupKeys`, `GroupTree`, `GroupEvents`, `GroupTotals`, `SortRoles`,
  `ConnectionGroups`, `GroupRuns`). The grouped view follows inserts, removals,
  re-keyings and re-sorts of its flat source without a reset: each inserted, removed or
  re-keyed row is announced on its own, and only a change of the view mode resets. After
  any run it holds the same keys with the same rows as a rebuild; a view that replays
  nothing but the announced events holds the same tree; two rows share a group exactly when
  their flows belong together; a kept-up sort is the order of the column's own field; the
  reverse index is exact; held
  indexes keep naming what they named; header totals add up to the flat total modulo
  2^64.
* **The flow table over time** (`RateHistory`, `RowRuns`, `FlowTable`, `FlowRuns`,
  `FlowHistory`, `UdpPeers`, `UdpTable`, `FlowUdp`, `ConnectionAggregation`). Keyed
  rows, stale retention, rates from successive snapshots, sliding windows, and UDP
  accumulators that survive counter resets and the expiry of their members.
* **Deferred attribution** (`Wire`, `Attribution`, `DeepQueue`, `DeepWorker`,
  `Service`, `Replica`). The agent publishes, queues what it could not attribute,
  retries a bounded number of times, patches its own copy and streams the patches; in
  every interleaving the client's rows are the agent's flows as of the last delivery,
  UDP flows that the client folds into peer rows aside.
* **Hints and cadence** (`AttributionHints`, `Cadence`). Two small state machines over
  client wishes with a time to live, over every run.

`Sequences` and `Sorting` hold shared helpers. Where the source iterates a hash table
or uses an unstable sort, the model's contracts leave the order open. Time is a
parameter, signals are ghost logs, and the bus is a sequence of messages delivered in
order. `Connections` holds the record types and the two notions of identity: a row is
keyed by protocol, direction and endpoints, a deferred request by these and the
interface index.

Where code and comments of the repository disagree, the model follows the code:

* rows of the aggregator are not sorted by key (`src/aggregate/ConnectionAggregator.h:137`):
  of two flows whichever came first stays first (`FirstComeFirst`);
* source rows of a group are not ascending (`src/ui/ConnectionGroupProxy.h:139`): an
  appended row keeps them so exactly when it exceeds the last one, and a re-keyed row need
  not (`RegroupBreaksAscending`). Agreement with a rebuild is therefore by row set;
* a request carries the generation of its snapshot in order that a stale refinement may be
  discarded (`src/backend/DeepAttribution.h:63-65`), but no generation is ever compared
  (`src/agent/ConnectionsService.cpp:342-381`);
* the UDP reset test looks at byte counters only
  (`src/aggregate/ConnectionAggregator.cpp:293`), packets are taken along;
* the queue orders by a 64-bit sum that wraps (`WrappedRanksLow`), the snapshot cap by an
  exact one.

Some properties hold only under a condition, which is proved exact; the lemmas named in
brackets give failing inputs:

* in every run the cadence only slows while nothing happens, if and only if the
  schedule is not `Disorderly`. Ordered slow intervals alone do not suffice without a
  positive floor (`FloorMatters`), and whether a hint can upset a schedule depends on
  its lifetime (`LifetimeMatters`). The agent's configuration loader keeps the floor at
  10 ms or more (`src/agent/Config.cpp:89`, `src/agent/Config.cpp:123-130`), so the floor
  matters only for a direct construction;
* a snapshot brings the client to the agent's flows if and only if no two entries that
  look alike to the client differ (its identity leaves the interface out:
  `TwoInterfacesDisagree`) and no direction is left open that the client would settle
  (`OpenDirectionDisagrees`);
* a peer's packet total shrinks at a reading if and only if packets drop while bytes do
  not (`PacketsCanShrink`), and a peer row's at a tick if and only if the readings of the
  snapshot take more away than they add; byte totals never shrink;
* a refinement changes the published flows if and only if it hits one of them, whatever
  its generation (`StaleRefinementApplies`);
* the queue ranks two requests by their true byte totals if and only if both sums fit in 64
  bits, or neither does, or the one that wraps stays on its side of the other;
* two flows share a group by process if and only if pid and command agree or neither has a
  process, by interface if and only if the interfaces agree or one is unnamed and the other
  is literally called "(unattributed)", and by container if and only if runtime and id (or
  name) agree or a slash inside them lets one text be read in two ways (`SlashConfuses`);
* a group's title is that of each of its rows by interface and by process, but not by
  container (`ContainerTitleDrifts`);
* a record survives the bus unchanged if and only if its pid is not negative, the
  on-demand process fields are empty and its container chain is within 16 links.

## Model

| member | source | states |
|---|---|---|
| `GroupKeys.GroupKey` | src/ui/ConnectionGroupProxy.cpp:612-634 | In every grouped mode a row's key is non-empty, which is what later keeps held indexes from being lost. |
| `GroupKeys.SameKeyExactly` | src/ui/ConnectionGroupProxy.cpp:612-634 | Two flows have the same key exactly when they belong together, said in terms of their interfaces, pids and commands, or runtimes and ids or names. |
| `GroupKeys.SlashConfuses` | src/ui/ConnectionGroupProxy.cpp:620-624 | Two different containers whose keys are one text because of a slash in the runtime. |
| `GroupKeys.TitleFollowsKey` | src/ui/ConnectionGroupProxy.cpp:636-661 | By interface and by process flows with one key bring one title. |
| `GroupKeys.ContainerTitleDrifts` | src/ui/ConnectionGroupProxy.cpp:643-650 | By container rows that share an id may bring different titles. |
| `GroupKeys.TitlesRead` | src/ui/ConnectionGroupProxy.cpp:636-661 | How the titles of each mode read. |
| `GroupTree.FilingDeterminesGroups` | src/ui/ConnectionGroupProxy.cpp:402-427 | Any list of groups with distinct keys that files every row once under its key has exactly the key-to-row-set map a rebuild has. |
| `GroupTree.OnePlace` | src/ui/ConnectionGroupProxy.cpp:1047-1059 | A row stands at one position of the tree only. |
| `GroupTree.AppendChildFiled` | src/ui/ConnectionGroupProxy.cpp:170-181 | Appending an unfiled row to the group of its key files it and disturbs no other. |
| `GroupTree.AppendKeepsAscending` | src/ui/ConnectionGroupProxy.cpp:170-176 | Appending a row keeps the rows of a group ascending exactly when it exceeds the last one. |
| `GroupTree.RegroupBreaksAscending` | src/ui/ConnectionGroupProxy.cpp:357-395 | A re-keyed row 0 that joins the group of row 1 leaves that group out of order. |
| `GroupTree.AddGroupFiled` | src/ui/ConnectionGroupProxy.cpp:182-192 | A new group arriving with its first child files that row; keys stay distinct. |
| `GroupTree.RemoveChildFiled` | src/ui/ConnectionGroupProxy.cpp:245-262 | Taking a child out unfiles exactly that row. |
| `GroupTree.RemoveGroupFiled` | src/ui/ConnectionGroupProxy.cpp:271-278 | Dropping an emptied group changes the filing of no row. |
| `GroupTree.ShiftGroupsUpFiled` | src/ui/ConnectionGroupProxy.cpp:150-155 | Renumbering for inserted rows keeps every old row under its key, with a gap where the new ones go. |
| `GroupTree.ShiftGroupsDownFiled` | src/ui/ConnectionGroupProxy.cpp:264-269 | Renumbering behind removed rows files the remaining rows by the shortened source. |
| `GroupTree.InverseCoversFiling` | src/ui/ConnectionGroupProxy.cpp:1047-1059 | An exact reverse index knows exactly the filed rows. |
| `GroupEvents.TreeAppendChild` | src/ui/ConnectionGroupProxy.cpp:170-181 | The child-insert event fits the view's tree at that moment and turns it into the new tree. |
| `GroupEvents.TreeAddGroup` | src/ui/ConnectionGroupProxy.cpp:182-192 | Likewise for a group arriving with its child. |
| `GroupEvents.TreeRemoveChild` | src/ui/ConnectionGroupProxy.cpp:245-262 | Likewise for a child removal. |
| `GroupEvents.TreeRemoveGroup` | src/ui/ConnectionGroupProxy.cpp:271-278 | Likewise for the removal of an emptied group. |
| `GroupEvents.TreeShiftDown` | src/ui/ConnectionGroupProxy.cpp:264-269 | Renumbering source rows is invisible in the tree of row identities, so it needs no event. |
| `GroupEvents.TreeReordered` | src/ui/ConnectionGroupProxy.cpp:476-558 | A layout change only reorders groups and children of the view's tree. |
| `GroupEvents.ReorderedFiled` | src/ui/ConnectionGroupProxy.cpp:436-474 | Permuting children and then groups files every row as before and leaves no empty group. |
| `SortRoles.ComparatorsAreStrictWeak` | src/ui/ConnectionGroupProxy.cpp:438-446 | The row and header comparisons are strict weak orders in both directions, as the sort requires of them. |
| `SortRoles.TextOrderExactly` | src/ui/ConnectionGroupProxy.cpp:438-446 | The text comparison is the order by the first difference. |
| `SortRoles.OrderedRows` | src/ui/ConnectionModel.cpp:141-160 | Rows in comparator order are in the order of the column: interface, remote address, rates, byte counters, references, unsigned pid, or container text; ascending or descending as asked. |
| `SortRoles.OrderedHeaders` | src/ui/ConnectionGroupProxy.cpp:1008-1022 | Headers in comparator order are in the order of their titles, sizes, or the sums over their flows. |
| `ConnectionGroups.SortGroups` | src/ui/ConnectionGroupProxy.cpp:436-474 | Children are permuted into comparator order in every group; groups keep their order under sort-within-groups and are permuted into aggregate order otherwise. |
| `ConnectionGroups.GroupByKey` | src/ui/ConnectionGroupProxy.cpp:402-424 | Grouping from scratch files every row once under its key, with distinct keys and no empty group. |
| `ConnectionGroups.ConnectionGroupProxy.Rebuild` | src/ui/ConnectionGroupProxy.cpp:402-427 | Establishes the whole invariant, sorted if a sort is set; exactly one reset event, carrying the tree, is announced. |
| `ConnectionGroups.ConnectionGroupProxy.SetViewMode` | src/ui/ConnectionGroupProxy.cpp:89-93 | A change of the mode announces exactly one reset, and the same mode nothing. |
| `ConnectionGroups.ConnectionGroupProxy.RefreshSrcIndex` | src/ui/ConnectionGroupProxy.cpp:1047-1059 | The index becomes the exact inverse of the groups. |
| `ConnectionGroups.ConnectionGroupProxy.OnSourceRowsInserted` | src/ui/ConnectionGroupProxy.cpp:137-203 | Inserting any span keeps tree, index and replayed events in step with the longer source, sorted if a sort is set. Announced are one insertion for each new row, in order, and at most one layout change; every held index shows the same group or row as before. |
| `ConnectionGroups.InsertionHoldsStill` | src/ui/ConnectionGroupProxy.cpp:137-203 | Shifting, appending and re-sorting each leave every held index showing what it showed. |
| `ConnectionGroups.ConnectionGroupProxy.OnSourceRowsRemoved` | src/ui/ConnectionGroupProxy.cpp:224-298 | Removing any span does the same for the shorter source. Announced are one removal for each row, one for each group that is gone, and at most one layout change. |
| `ConnectionGroups.ConnectionGroupProxy.OnSourceDataChanged` | src/ui/ConnectionGroupProxy.cpp:300-333 | Changing any span re-files the rows whose key changed and keeps everything in step. At most three events for each row and one layout change are announced, no reset, and nothing if no key changed. |
| `ConnectionGroups.ConnectionGroupProxy.RegroupSourceRow` | src/ui/ConnectionGroupProxy.cpp:335-400 | One row moves to the group of its current key exactly when that key differs from the one it stood under. The resulting groups are given exactly; announced are its removal, that of its group if it was the last, and its arrival; or nothing if it stays. |
| `ConnectionGroups.ConnectionGroupProxy.DropEmptied` | src/ui/ConnectionGroupProxy.cpp:271-278 | Exactly the emptied groups are removed, the others keeping their order and titles; exactly one removal for each is announced, each index good when announced. |
| `ConnectionGroups.SameName` | src/ui/ConnectionGroupProxy.cpp:506-553 | An index noted before a reorder and located afterwards names the same group key, or the same group key and source row, and the same column; none is lost. |
| `ConnectionGroups.ConnectionGroupProxy.InstallOrder` | src/ui/ConnectionGroupProxy.cpp:498-557 | The layout-change protocol keeps the invariant and every held index's name. |
| `ConnectionGroups.ConnectionGroupProxy.ResortGroupsPreservingIndexes` | src/ui/ConnectionGroupProxy.cpp:476-558 | The result is arranged, a reordering of what was there, with group order untouched under sort-within-groups and all held indexes keeping their names; at most one layout change is announced, and nothing if nothing changed. |
| `ConnectionGroups.ConnectionGroupProxy.SortBy` | src/ui/ConnectionGroupProxy.cpp:560-610 | After a sort request in a grouped mode the request is remembered and the tree is a reordering of itself arranged by that column and order, and all held indexes keep their names; a request for no column changes nothing. |
| `ConnectionGroups.ConnectionGroupProxy.SetSortWithinGroups` | src/ui/ConnectionGroupProxy.cpp:758-768 | Switching the sort scope leaves a reordering of the tree, arranged under the new scope if a sort is set, with every held index keeping its name. |
| `ConnectionGroups.ConnectionGroupProxy.MappingsAreInverse` | src/ui/ConnectionGroupProxy.cpp:671-698 | The two mappings are mutual inverses between child indexes and all source rows, and undefined elsewhere. |
| `ConnectionGroups.ConnectionGroupProxy.AgreesWithRebuild` | src/ui/ConnectionGroupProxy.cpp:137-427 | Whatever the handlers did, keys and row sets are those of grouping the current source afresh. |
| `ConnectionGroups.ConnectionGroupProxy.OneGroupExactly` | src/ui/ConnectionGroupProxy.cpp:612-634 | In every state two source rows stand in one group exactly when their flows belong together. |
| `ConnectionGroups.ConnectionGroupProxy.SortedByField` | src/ui/ConnectionGroupProxy.cpp:436-474 | In every arranged state the children of each group are in the order of the column, and the headers too unless sorting stays within groups. |
| `ConnectionGroups.ConnectionGroupProxy.TitlesAgreeWithRebuild` | src/ui/ConnectionGroupProxy.cpp:636-661 | By interface and by process the title of a group is that of each of its rows, in every state. |
| `GroupTotals.AggregateBytes` | src/ui/ConnectionGroupProxy.cpp:954-966 | The loop of the header computes the sums of its flows' byte counters modulo 2^64, both directions. |
| `GroupTotals.HeaderTotalsConserve` | src/ui/ConnectionGroupProxy.cpp:954-966 | For any filing of all rows, header totals sum to the flat total modulo 2^64. |
| `ConnectionGroups.ConnectionGroupProxy.HeaderTotalsAgree` | src/ui/ConnectionGroupProxy.cpp:954-966 | The same of the proxy in every state, for both directions. |
| `GroupRuns.Drive` | src/ui/ConnectionGroupProxy.cpp:137-610 | After any sequence of inserts, removals, changes, sorts and mode switches: rebuild agreement, replay agreement with exactly one reset at the start and one for each real change of the mode, and conserved totals in both directions. |
| `GroupRuns.Perform` | src/ui/ConnectionGroupProxy.cpp:137-610 | One operation: the invariant is kept, the log only grows, and it resets exactly when the mode changes. |
| `RowRuns.RowUpdateRuns.Add` | src/aggregate/ConnectionAggregator.cpp:15-30 | Announced runs and the open one together cover exactly the rows handed in, in order, and no two neighbours could be merged. |
| `RowRuns.RowUpdateRuns.Flush` | src/aggregate/ConnectionAggregator.cpp:32-40 | After the flush the announced runs alone cover exactly the rows handed in. |
| `RateHistory.Trim` | src/aggregate/ConnectionAggregator.cpp:396-399 | Popping old samples from the front leaves the longest suffix that starts within the cutoff. |
| `RateHistory.TrimmedSince` | src/aggregate/ConnectionAggregator.cpp:396-399 | Because time never goes back, popping from the front is filtering the history by time. |
| `RateHistory.PushRemembers` | src/aggregate/ConnectionAggregator.cpp:394-402 | After each sample the deque is the full history filtered to the window and the sum is the sum of the full history. |
| `RateHistory.WindowedMax` | src/aggregate/ConnectionAggregator.cpp:131-147 | The reference is the true maximum over the window of the full history. |
| `FlowTable.TickConsistent` | src/aggregate/ConnectionAggregator.cpp:343-468 | After every tick: one row per identity, live rows exactly the snapshot's flows with its counters, stale rows within their protocol's budget, no negative rate. |
| `FlowTable.RowAfterTick` | src/aggregate/ConnectionAggregator.cpp:349-466 | Every row after a tick is an old one updated or the first row of a flow that had none; it shows the snapshot entry if there is one and is within its budget. |
| `FlowTable.AbsentRowStays` | src/aggregate/ConnectionAggregator.cpp:404-440 | A row whose flow is gone stays as it was for exactly the retention of its protocol. |
| `FlowTable.FirstComeFirst` | src/aggregate/ConnectionAggregator.cpp:445-466 | Of two flows the one seen first has the first row, whichever they are, so rows are in no order of their keys. |
| `FlowRuns.RateAfterTick` | src/aggregate/ConnectionAggregator.cpp:352-367 | A live row's rate is fixed by two successive snapshots: bytes per second times elapsed milliseconds is 1000 times the byte difference, 0 across a counter drop, the bare difference if no time passed, and 0 on the first tick after a gap. |
| `FlowRuns.RunConsistent` | src/aggregate/ConnectionAggregator.cpp:261-500 | Over every run of ticks, attribution patches and window changes the table stays consistent. |
| `FlowRuns.RatesIntegrateToBytes` | src/aggregate/ConnectionAggregator.cpp:352-367 | Over any stretch with the flow present, counters not dropping and the clock advancing, rate times elapsed seconds sums to the byte difference of the ends, whatever patches and window changes come between. |
| `FlowRuns.PatchOnlyAttribution` | src/aggregate/ConnectionAggregator.cpp:471-500 | Patches change only process, container, chain and reason; no counter, rate, sample or timestamp. |
| `FlowRuns.PatchTakes` | src/aggregate/ConnectionAggregator.cpp:471-500 | Field by field, what a patch brings is taken and what it lacks stays. |
| `FlowHistory.HistoryTick` | src/aggregate/ConnectionAggregator.cpp:349-427 | A tick keeps every row's window equal to its history since the horizon, and with a fixed window the horizon is exactly the window. |
| `UdpPeers.ObserveGrows` | src/aggregate/ConnectionAggregator.cpp:290-299 | An observation adds the counter growth, or all of it after a reset or for a new member, to each of the four totals; for bytes that is never negative. |
| `UdpPeers.PacketsShrinkExactly` | src/aggregate/ConnectionAggregator.cpp:293-299 | A peer packet total shrinks at a reading exactly when its packets drop while its bytes do not. |
| `UdpPeers.PacketsCanShrink` | src/aggregate/ConnectionAggregator.cpp:293-299 | Such a reading: 10 packets, then 4, with the same bytes. |
| `UdpPeers.Total` | src/aggregate/ConnectionAggregator.cpp:322-333 | Summing base and members in any order gives the peer's total. |
| `UdpPeers.ObserveDigests` | src/aggregate/ConnectionAggregator.cpp:290-299 | The accumulator's total stays the sum of the final readings of all epochs ever observed, an epoch ending at a counter drop, an expiry or the present. |
| `UdpPeers.RetireDigests` | src/aggregate/ConnectionAggregator.cpp:310-318 | Retiring an expired member changes no total and ends its epoch. |
| `UdpTable.FoldUdp` | src/aggregate/ConnectionAggregator.cpp:275-341 | Folding a snapshot: passthrough flows are kept, every peer seen becomes one row with its total, accumulators stay digests of their logs, swept ones are gone. |
| `UdpTable.SamePeerExactly` | src/aggregate/ConnectionAggregator.cpp:281-289 | Two folded flows share a peer exactly when both are outbound from one host to one remote endpoint, or both inbound from one host to one local endpoint. |
| `UdpTable.FoldedSnapshotRow` | src/aggregate/ConnectionAggregator.cpp:285-338 | A peer row is its first flow of the snapshot with the varying port set to 0 and the accumulated counters. |
| `UdpTable.SeenNow` | src/aggregate/ConnectionAggregator.cpp:290-299 | Each folded flow of a snapshot is then a member of its peer, with its last reading, seen now. |
| `UdpTable.MemberStaysExactly` | src/aggregate/ConnectionAggregator.cpp:310-318 | A member stays with its reading exactly as long as its retention. |
| `UdpTable.LastEntryCounts` | src/aggregate/ConnectionAggregator.cpp:343-347 | Of entries with one identity the last one is applied. |
| `UdpTable.ObserveAllPackets` | src/aggregate/ConnectionAggregator.cpp:280-302 | A snapshot moves a peer packet total by exactly what its readings add, each judged by the reading before it. |
| `UdpTable.PacketsOnlyGained` | src/aggregate/ConnectionAggregator.cpp:280-302 | That is not negative when no reading drops in packets alone. |
| `FlowUdp.PeersTick` | src/aggregate/ConnectionAggregator.cpp:276-440 | Accumulators and peer rows live and expire on the same tick; while a peer row is in the table its bytes never decrease and its packets move by what the readings add. |
| `FlowUdp.PeerRowPacketsShrink` | src/aggregate/ConnectionAggregator.cpp:276-440 | A peer row loses packets at a tick exactly when the readings of the snapshot take more away than they add. |
| `FlowUdp.FoldedRunInStep` | src/aggregate/ConnectionAggregator.cpp:276-440 | Over every run of folded ticks with patches and window changes between, accumulators and peer rows stay in step. |
| `FlowUdp.PeerRowBytesNeverDrop` | src/aggregate/ConnectionAggregator.cpp:276-440 | Over any stretch of such a run in which a peer row is in the table its bytes never go down. |
| `ConnectionAggregation.UpdateRows` | src/aggregate/ConnectionAggregator.cpp:349-427 | Every row becomes its updated form, and the announced runs cover exactly the refreshed and newly stale rows. |
| `ConnectionAggregation.ConnectionAggregator.PruneRows` | src/aggregate/ConnectionAggregator.cpp:429-440 | Exactly the expired rows go; exactly one removal for each is signalled, and replaying the signals on a copy follows. |
| `ConnectionAggregation.ConnectionAggregator.AppendNew` | src/aggregate/ConnectionAggregator.cpp:445-466 | Exactly the flows of the snapshot without a row are appended, each once; exactly one insertion naming them is signalled, or none; the index and a replayed copy follow. |
| `ConnectionAggregation.ConnectionAggregator.UpdateConnections` | src/aggregate/ConnectionAggregator.cpp:261-469 | The whole tick: index exact, replayed signals give the rows, live rows show the post-aggregation snapshot, stale ones are within budget, peer rows lose no bytes and move in packets as read, windows follow their histories. The signal log only grows: by maximal runs covering exactly the refreshed and newly stale rows, then removals, then at most one insertion. |
| `ConnectionAggregation.ConnectionAggregator.ApplyAttributionPatch` | src/aggregate/ConnectionAggregator.cpp:471-500 | The rows become the patched rows, only attribution changes, everything else stays valid; an unchanged return means unchanged rows. |
| `ConnectionAggregation.ConnectionAggregator.SetThroughputWindowMs` | src/aggregate/ConnectionAggregator.cpp:112-129 | The clamped window is installed; windowed rows forget at once what it no longer covers; histories and sums survive, and nothing else of the table changes. |
| `ConnectionAggregation.ConnectionAggregator.RxReference` | src/aggregate/ConnectionAggregator.cpp:131-138 | The maximum over the window of the row's full history, or the mean of that history. |
| `ConnectionAggregation.ConnectionAggregator.TxReference` | src/aggregate/ConnectionAggregator.cpp:140-147 | The same for the other direction. |
| `ConnectionAggregation.ConnectionAggregator.PeerRowIsSumOfEpochs` | src/aggregate/ConnectionAggregator.cpp:276-338 | In every state a peer row's counters are the sum of the final readings of all epochs in its log. |
| `Wire.RoundTrip` | src/dbus/Types.cpp:198-272 | A flow across the bus keeps all but the on-demand fields, a negative pid and links beyond the clamp; it is unchanged exactly under the stated condition. |
| `Wire.RecordSays` | src/dbus/Types.cpp:198-227 | The record carries the IANA protocol number and the address family of each end. |
| `Wire.UnknownCodes` | src/dbus/Types.cpp:229-272 | Codes out of range mean unknown. |
| `Wire.ResendIsIdempotent` | src/dbus/Types.cpp:198-272 | Converting any record, even out of range, to a flow and back is idempotent. |
| `Wire.Argument.Write` | src/dbus/Types.cpp:71-89 | The writer appends all 23 fields in wire order. |
| `Wire.Argument.Read` | src/dbus/Types.cpp:91-125 | From any field-boundary prefix of at least 13 fields the reader gets the sent values on present fields, defaults on the rest and a clamped chain, and stops at the end. |
| `Wire.Ship` | src/dbus/Types.cpp:71-125 | Writing, cutting at any such boundary and reading gives the record an agent of that version would have meant. |
| `Wire.TransportKeepsFlow` | src/dbus/Types.cpp:91-272 | Clamping while reading and while converting amounts to clamping once. |
| `Connections.IdentityExactly` | src/backend/Connection.h:197-204 | Two flows are one row when protocol, direction and both ends agree, and one request when the interface agrees too. |
| `Connections.OutboundExactly` | src/util/ConnectionHeuristics.h:67-86 | A TCP or UDP flow is outbound exactly when its local port is the only ephemeral one or, ports not telling, its local address the only one of this host. |
| `Connections.DirectionIsMirrored` | src/util/ConnectionHeuristics.h:67-86 | Seen from the other end a flow has the other direction. |
| `Connections.ReasonExactly` | src/util/ConnectionHeuristics.h:37-59 | When a flow counts as resolved, forwarded or orphaned. |
| `Attribution.AttributeFlow` | src/backend/Attribution.cpp:48-91 | One flow through the memo tables gets the answers given when its (pid, start time) was first met. |
| `Attribution.AttributeFlows` | src/backend/Attribution.cpp:28-92 | Under any resolver each flow carries the answers given at the first flow of the same process, with exactly one enrichment for each (pid, start time) met and no other; under a stable one the pass is exactly the unmemoised one. |
| `DeepQueue.LoudnessIsTrueTotal` | src/backend/DeepAttributionQueue.h:86-94 | The wrapped 64-bit sum is the true total exactly when that fits in 64 bits. |
| `DeepQueue.LouderMeansMoreBytes` | src/backend/DeepAttributionQueue.h:86-94 | The queue ranks two requests by their true totals exactly when both sums fit, or neither does, or the one that wraps stays on its side. |
| `DeepQueue.WrappedRanksLow` | src/backend/DeepAttributionQueue.h:86-94 | A flow of 2^64 bytes ranks below a flow of one byte. |
| `DeepQueue.KeepsTrulyLoudest` | src/backend/DeepAttributionQueue.h:97-118 | Where no sum wraps, nothing dropped has more bytes than anything kept. |
| `DeepQueue.TakesTrulyLoudest` | src/backend/DeepAttributionQueue.h:58-79 | Where no sum wraps, requests come out by true totals, and none that is left has more bytes. |
| `DeepQueue.MergeFacts` | src/backend/DeepAttributionQueue.h:37-51 | Merging adds the new keys, loses none, and never lowers a queued key's attempts or generation. |
| `DeepQueue.NewestIsQueued` | src/backend/DeepAttributionQueue.h:44-50 | Of the requests for one key the last observation is the one queued. |
| `DeepQueue.DeepAttributionQueue.Enqueue` | src/backend/DeepAttributionQueue.h:37-54 | The kept entries are part of the merged ones, as many as fit, none quieter than a dropped one; the count returned is the number dropped. |
| `DeepQueue.DeepAttributionQueue.Dequeue` | src/backend/DeepAttributionQueue.h:58-79 | The returned entries are the loudest, in order and distinct; the rest is exactly what was not returned. |
| `DeepQueue.DeepAttributionQueue.EnforceCap` | src/backend/DeepAttributionQueue.h:97-118 | Exactly the excess is dropped, no dropped entry louder than a kept one. |
| `DeepQueue.DeepAttributionQueue.SetCapacity` | src/backend/DeepAttributionQueue.h:32-32 | Resizing keeps the loudest that fit the clamped capacity. |
| `DeepQueue.QueueDiscipline` | src/backend/DeepAttributionQueue.h:32-118 | Over any operation sequence the size is within capacity and a queued key's attempts and generation never decrease. |
| `DeepWorker.TickHolds` | src/backend/ResolverDeepWorker.cpp:57-122 | In a tick every request stays, is retried with one more attempt, is refined, or has used up its attempts; at least one is not merely kept, and retries fit without evicting any. |
| `DeepWorker.QuietRunDrains` | src/backend/ResolverDeepWorker.cpp:57-122 | With no arrivals and an arbitrary time-varying resolver the queue is empty after the sum of max(1, maxAttempts - attempts) ticks. |
| `DeepWorker.RemainingOfOne` | src/backend/ResolverDeepWorker.cpp:96-103 | A request counts in that bound for the attempts it has left, and for one when it has none. |
| `DeepWorker.LeavesForAReason` | src/backend/ResolverDeepWorker.cpp:57-122 | A request leaves only refined or after exhausting its attempts. |
| `DeepWorker.ResolverDeepWorker.Process` | src/backend/ResolverDeepWorker.cpp:57-122 | One call is such a tick: loudest batch out, refinements announced, retries merged back whole; inactive or without a resolver it clears the queue. |
| `DeepWorker.ResolverDeepWorker.Enqueue` | src/backend/ResolverDeepWorker.cpp:28-34 | Requests are merged when active; pending work always has the timer running. |
| `DeepWorker.ResolverDeepWorker.SetActive` | src/backend/ResolverDeepWorker.cpp:36-43 | Switching off empties the queue and stops the timer. |
| `DeepWorker.ResolverDeepWorker.SetTuning` | src/backend/ResolverDeepWorker.cpp:17-26 | Limits are at least one, the capacity at least zero, the scan flag as given; a smaller queue keeps the loudest. |
| `Service.CarryComparisonIsExact` | src/agent/ConnectionsService.cpp:50-71 | The carry-pair comparison agrees with comparing unbounded sums for all 64-bit counters. |
| `Service.CapSnapshot` | src/agent/ConnectionsService.cpp:255-279 | Kept and dropped flows are the snapshot, min(4096, n) are kept, and each kept true total is at least each dropped one. |
| `Service.ConnectionsService.OnConnectionsUpdated` | src/agent/ConnectionsService.cpp:247-340 | The published records are the loudest 4096 flows with direction inferred, attributed by the resolver (shared answers per process, the plain pass when it is stable) and explained; the key index fits; the weak ones are merged into the queue. |
| `Service.ConnectionsService.OnDeepRefined` | src/agent/ConnectionsService.cpp:342-381 | Mirror and records are refined alike. Field by field each flow has what it had, or what the first update for it brought, or still nothing; one patch message carries exactly the changed records, and it is sent exactly when a flow changed. |
| `Service.RefinedKeepsKnown` | src/agent/ConnectionsService.cpp:354-376 | One refinement keeps key, identity, counters and whatever attribution is known, and applies exactly when it fills a gap. |
| `Service.GapTakesUpdate` | src/agent/ConnectionsService.cpp:358-371 | What fills a gap is the value of the update, process with reason, container and chain; what is no gap stays. |
| `Service.BatchFills` | src/agent/ConnectionsService.cpp:342-381 | Over a batch: the known value, or that of the first update with it, or still missing. |
| `Service.AnswerRefines` | src/backend/ResolverDeepWorker.cpp:69-94 | The worker announces an answer exactly when it refines the flow asked about, and the refined flow shows the answer. |
| `Service.UpdatesAreAnswers` | src/backend/ResolverDeepWorker.cpp:69-94 | Every announced update is the answer to a request of the batch and refines its flow. |
| `Service.BatchKeepsKnown` | src/agent/ConnectionsService.cpp:342-381 | The same over a whole batch: a flow that changed had a gap filled. |
| `Service.AnnouncedExactlyOnChange` | src/agent/ConnectionsService.cpp:342-381 | A batch is announced exactly when it leaves the flows different. |
| `Service.RefinementTakesEffect` | src/agent/ConnectionsService.cpp:346-372 | A refinement changes the current flows exactly when it hits one, and its generation makes no difference. |
| `Service.StaleRefinementApplies` | src/agent/ConnectionsService.cpp:346-372 | A refinement of generation 1 names the process of whatever flow has its key by then. |
| `Replica.SnapshotBringsAgreement` | src/aggregate/ConnectionAggregator.cpp:343-468 | For a client of either kind, applying a received snapshot makes the live rows the agent flows exactly when the snapshot has no conflicting entries and no direction the client settles; peer rows stay in step. |
| `Replica.TwoInterfacesDisagree` | src/aggregate/ConnectionAggregator.cpp:343-347 | One flow on two interfaces with different counters leaves the client in disagreement. |
| `Replica.OpenDirectionDisagrees` | src/aggregate/ConnectionAggregator.cpp:268-273 | So does a flow sent without a direction that the client can tell. |
| `Replica.PatchReproduces` | src/aggregate/ConnectionAggregator.cpp:471-500 | Patching the client's row with the refined record reproduces the agent's refined flow, although both sides decide by different rules. |
| `Replica.PatchesBringAgreement` | src/agent/ConnectionsService.cpp:342-381 | Applying a whole batch brings the client to the refined flows. |
| `Replica.StepInSync` | src/agent/ConnectionsService.cpp:305-381 | Publishing, refining and delivering each keep the two-party invariant. |
| `Replica.ReplicaAgrees` | src/agent/ConnectionsService.cpp:305-381 | In every interleaving the live rows of the client are the flows published as of the last delivery, and the current ones of the agent when nothing is under way; in a client that folds UDP flows this holds of all it does not fold, and its peer rows carry their accumulated totals. |
| `Replica.PatchDeliveryKeepsRates` | src/aggregate/ConnectionAggregator.cpp:471-500 | Delivering a patch touches no counter, rate, sample or timestamp. |
| `AttributionHints.PruningIsInvisible` | src/agent/AttributionHintManager.cpp:129-148 | Dropping expired hints never changes the effective mode. |
| `AttributionHints.RunIsGood` | src/agent/AttributionHintManager.cpp:59-148 | Over every run the table holds at most 64 senders, announcements are transitions only, a config of off announces nothing, and after an evaluation the last announced mode is the three-rule one. |
| `AttributionHints.HintSurvives` | src/agent/AttributionHintManager.cpp:59-127 | A live hint ends only by its sender's call, its disconnect or its time; no other client evicts it. |
| `AttributionHints.HintTakesEffect` | src/agent/AttributionHintManager.cpp:96-116 | An accepted hint is stored as asked for its lifetime, and the mode is at once at least as eager unless the config is off. |
| `AttributionHints.WithdrawnHintIsGone` | src/agent/AttributionHintManager.cpp:59-127 | A cleared or disconnected hint is gone. |
| `AttributionHints.LifetimeExactly` | src/agent/AttributionHintManager.cpp:129-148 | An evaluation keeps exactly the hints whose time is not up. |
| `AttributionHints.AttributionHintManager.EffectiveMode` | src/agent/AttributionHintManager.cpp:74-94 | The scan gives the three-rule mode in whatever order the table yields. |
| `AttributionHints.AttributionHintManager.Evaluate` | src/agent/AttributionHintManager.cpp:129-148 | Pruning and announcing take the state to the evaluated one of the run model. |
| `AttributionHints.AttributionHintManager.SetHint` | src/agent/AttributionHintManager.cpp:96-116 | The call is a step of the run model; it is refused exactly for an empty sender or a full table. |
| `AttributionHints.AttributionHintManager.ClearHint` | src/agent/AttributionHintManager.cpp:118-127 | The call is a step of the run model. |
| `AttributionHints.AttributionHintManager.OnNameOwnerChanged` | src/agent/AttributionHintManager.cpp:59-72 | A disconnect is a step of the run model; other ownership changes are none. |
| `Cadence.SlowsExactlyWhenOrderly` | src/agent/IdleManager.cpp:53-142 | Every run from construction only slows over every stretch without activity and new positive hints, if and only if the schedule is not disorderly. |
| `Cadence.DisorderlyStepsDown` | src/agent/IdleManager.cpp:77-142 | On a disorderly schedule that polls, a run: a hint given (or, where none lasts, time passing) just before the second slow step, and the step speeds polling up. |
| `Cadence.DisorderlyStartsPolling` | src/agent/IdleManager.cpp:108-142 | On one whose active interval is no polling, a run in which idleness alone starts polling. |
| `Cadence.LifetimeMatters` | src/agent/IdleManager.cpp:98-122 | A schedule only a lasting hint can upset: orderly when hints expire at once, disorderly when they last. |
| `Cadence.FloorMatters` | src/agent/IdleManager.cpp:108-142 | A configuration with ordered slow steps and no positive floor is disorderly: idleness starts a poll that was off. |
| `Cadence.RunIsGood` | src/agent/IdleManager.cpp:53-142 | Over every run the applied interval is 0 or at least the floor, and is what the schedule said when last consulted. |
| `Cadence.QuietStretchSlows` | src/agent/IdleManager.cpp:53-142 | Over any stretch without activity and new positive hints the cadence only slows, paused being slowest. |
| `Cadence.HintTakesEffect` | src/agent/IdleManager.cpp:98-122 | An accepted hint is stored floored, and the active interval is at most that. |
| `Cadence.LifetimeExactly` | src/agent/IdleManager.cpp:108-122 | An evaluation keeps exactly the hints whose time is not up. |
| `Cadence.IdleManager.EffectiveActiveIntervalMs` | src/agent/IdleManager.cpp:108-122 | The scan gives the least of the configured and live hinted intervals, floored, and drops exactly the expired hints. |
| `Cadence.IdleManager.Evaluate` | src/agent/IdleManager.cpp:124-142 | The applied interval becomes the schedule's. |
| `Cadence.IdleManager.NoteActivity` | src/agent/IdleManager.cpp:69-75 | The call is a step of the run model. |
| `Cadence.IdleManager.SetClientHint` | src/agent/IdleManager.cpp:77-106 | The call is a step of the run model; it is refused exactly for an empty sender or a new positive hint on a full table. |
| `Cadence.IdleManager.OnNameOwnerChanged` | src/agent/IdleManager.cpp:53-67 | A disconnect is a step of the run model; other ownership changes are none. |

## Left out

- The flat view mode of the group proxy, which passes indexes through, and the repaint-only signals of group headers.
- Group titles by container: which row the title is taken from depends on the order of changes, and only that some flow with the key brings it is kept; a process name with a percent marker in it, which the text formatting would expand, is taken literally.
- The framework's own adjustment of held indexes on removals; insertions are at the ends and need none, and the proxy's remapping on a layout change is modelled.
- The sorting routines are modelled by what they promise (a permutation in comparator order, a partial sort), not by the library's algorithm.
- Smoothing of displayed rates, the tween between ticks and the display text of endpoints.
- Floating-point rounding: rates, windows and averages are over reals.
- `UdpPeers.Total`: UDP totals are unbounded naturals and do not wrap at 64 bits.
- `ConnectionAggregation.ConnectionAggregator.UpdateConnections`: whether UDP flows are folded is fixed for an aggregator's lifetime; the settings switch that flips it mid-run is not modelled.
- `Replica.ReplicaAgrees`: every published snapshot meets the exact condition of `Replica.SnapshotBringsAgreement`, with distinct identities; of flows the client folds only the peer totals are followed.
- `Replica.ReplicaAgrees`: several clients are independent copies of the one modelled; bus failures and reconnects are not modelled.
- Address printing and parsing: a parameter of which only that parsing undoes printing is assumed.
- The resolver's own lookups: a parameter that may answer differently at every moment.
- Timers, clocks, bus registration and logging: time is an argument, a running timer is a flag, and a demand for a scan is a returned flag.
- Interface statistics and their records, process-detail queries, configuration files, filters, exporters, name resolution and all user interfaces: easy next to the parts above, or drivers.
