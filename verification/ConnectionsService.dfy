/** The agent's side: capping, publishing and refining snapshots. */
module Service {
  import opened Connections
  import opened Attribution
  import opened Sorting
  import opened Wire
  import opened DeepQueue
  import opened DeepWorker

  const MAX_CONNECTIONS := 4096

  // ---- top talkers --------------------------------------------------------------------------------

  /** A 65-bit total as a wrapped 64-bit sum and its carry. */
  datatype ByteTotal = ByteTotal(low: nat, carry: bool)

  function TotalBytes(c: Connection): ByteTotal {
    ByteTotal((c.counters.rxBytes + c.counters.txBytes) % TWO64,
              c.counters.rxBytes > TWO64 - 1 - c.counters.txBytes)
  }

  predicate HasGreaterTotalBytes(a: Connection, b: Connection) {
    var at, bt := TotalBytes(a), TotalBytes(b);
    if at.carry != bt.carry then at.carry else at.low > bt.low
  }

  /** Comparing carry and wrapped sum is comparing the true sums, overflow or not. */
  lemma CarryComparisonIsExact(a: Connection, b: Connection)
    requires Fits64(a) && Fits64(b)
    ensures HasGreaterTotalBytes(a, b) <==> TrueTotal(a) > TrueTotal(b)
  {
    WrapsOnce(TrueTotal(a));
    WrapsOnce(TrueTotal(b));
  }

  lemma WrapsOnce(n: nat)
    requires n < 2 * TWO64
    ensures n % TWO64 == if n < TWO64 then n else n - TWO64
  {
  }

  function ByTotal(): (Connection, Connection) -> bool {
    (a: Connection, b: Connection) => HasGreaterTotalBytes(a, b)
  }

  lemma ByTotalIsStrictWeak()
    ensures StrictWeak(ByTotal())
  {
  }

  /** Together the whole, and nothing left out carries more bytes than anything kept. */
  ghost predicate IsLoudestPart(kept: seq<Connection>, dropped: seq<Connection>, whole: seq<Connection>) {
    && multiset(kept) + multiset(dropped) == multiset(whole)
    && (forall i, j :: 0 <= i < |kept| && 0 <= j < |dropped| ==> TrueTotal(dropped[j]) <= TrueTotal(kept[i]))
  }

  /** The kept flows are part of the snapshot, as many as the cap allows, and every one of
      them carries at least as many bytes as every one left out. */
  ghost predicate IsCapped(kept: seq<Connection>, conns: seq<Connection>) {
    && |kept| == (if |conns| < 4096 then |conns| else 4096)
    && (exists dropped :: IsLoudestPart(kept, dropped, conns))
    && (|conns| <= MAX_CONNECTIONS ==> kept == conns)
  }

  method CapSnapshot(conns: seq<Connection>) returns (kept: seq<Connection>)
    requires forall i :: 0 <= i < |conns| ==> Fits64(conns[i])
    ensures IsCapped(kept, conns)
  {
    if |conns| <= MAX_CONNECTIONS {
      assert IsLoudestPart(conns, [], conns);
      return conns;
    }
    ByTotalIsStrictWeak();
    var top := PartialSort(conns, MAX_CONNECTIONS, ByTotal());
    kept := top[..MAX_CONNECTIONS];
    ghost var dropped := top[MAX_CONNECTIONS..];
    assert top == kept + dropped;
    hide Fits64, TrueTotal, HasGreaterTotalBytes;
    forall i | 0 <= i < |top| ensures Fits64(top[i]) {
      SameElements(conns, top, top[i]);
    }
    forall i, j | 0 <= i < |kept| && 0 <= j < |dropped| ensures TrueTotal(dropped[j]) <= TrueTotal(kept[i]) {
      assert !ByTotal()(top[MAX_CONNECTIONS + j], top[i]);
      CarryComparisonIsExact(top[MAX_CONNECTIONS + j], top[i]);
    }
    assert IsLoudestPart(kept, dropped, conns);
  }

  // ---- refinement -----------------------------------------------------------------------------------

  /** Only towards more information: what a flow already has is never replaced. */
  function RefinedWith(c: Connection, u: Update): Connection {
    var a := if u.process.IsValid() && !c.process.IsValid() then c.(process := u.process, reason := u.reason) else c;
    var b := if u.container.IsValid() && !a.container.IsValid() then a.(container := u.container) else a;
    if u.containerChain != [] && b.containerChain == [] then b.(containerChain := u.containerChain) else b
  }

  predicate Refines(c: Connection, u: Update) {
    || (u.process.IsValid() && !c.process.IsValid())
    || (u.container.IsValid() && !c.container.IsValid())
    || (u.containerChain != [] && c.containerChain == [])
  }

  type KeyIndex = map<FlowKey, nat>

  predicate Hits(conns: seq<Connection>, index: KeyIndex, u: Update) {
    u.key in index && index[u.key] < |conns| && Refines(conns[index[u.key]], u)
  }

  function RefineOne(conns: seq<Connection>, index: KeyIndex, u: Update): (r: seq<Connection>)
    ensures |r| == |conns|
  {
    if Hits(conns, index, u) then conns[index[u.key] := RefinedWith(conns[index[u.key]], u)] else conns
  }

  function RefineAll(conns: seq<Connection>, index: KeyIndex, updates: seq<Update>): (r: seq<Connection>)
    ensures |r| == |conns|
  {
    if updates == [] then conns
    else RefineOne(RefineAll(conns, index, updates[..|updates| - 1]), index, updates[|updates| - 1])
  }

  /** The records announced: each changed flow as it is right after its change. */
  function PatchesOf(x: AddressCodec, conns: seq<Connection>, index: KeyIndex,
                     updates: seq<Update>): seq<ConnectionDto>
  {
    if updates == [] then []
    else
      var front, u := updates[..|updates| - 1], updates[|updates| - 1];
      var before := RefineAll(conns, index, front);
      PatchesOf(x, conns, index, front)
      + (if Hits(before, index, u) then [ToDto(x, RefineOne(before, index, u)[index[u.key]])] else [])
  }

  /** What a flow already has is never replaced. */
  ghost predicate KeepsKnown(c: Connection, c': Connection) {
    && c'.Key() == c.Key() && c'.Id() == c.Id() && c'.counters == c.counters
    && c' == c.(process := c'.process, reason := c'.reason, container := c'.container,
                containerChain := c'.containerChain)
    && (c.process.IsValid() ==> c'.process == c.process && c'.reason == c.reason)
    && (c.container.IsValid() ==> c'.container == c.container)
    && (c.containerChain != [] ==> c'.containerChain == c.containerChain)
  }

  /** Something that was missing is there. */
  predicate FillsGap(c: Connection, c': Connection) {
    || (!c.process.IsValid() && c'.process.IsValid())
    || (!c.container.IsValid() && c'.container.IsValid())
    || (c.containerChain == [] && c'.containerChain != [])
  }

  lemma RefinedKeepsKnown(c: Connection, u: Update)
    ensures KeepsKnown(c, RefinedWith(c, u))
    ensures Refines(c, u) <==> FillsGap(c, RefinedWith(c, u))
  {
  }

  /** What fills a gap is the update's own value, and what is no gap stays. */
  lemma GapTakesUpdate(c: Connection, u: Update)
    ensures c.process.pid <= 0 && u.process.pid > 0 ==>
      RefinedWith(c, u).process == u.process && RefinedWith(c, u).reason == u.reason
    ensures c.process.pid > 0 || u.process.pid <= 0 ==>
      RefinedWith(c, u).process == c.process && RefinedWith(c, u).reason == c.reason
    ensures RefinedWith(c, u).container ==
      if (c.container.runtime == "" || c.container.id == "") && u.container.runtime != "" && u.container.id != ""
      then u.container else c.container
    ensures RefinedWith(c, u).containerChain ==
      if c.containerChain == [] && u.containerChain != [] then u.containerChain else c.containerChain
  {
  }

  datatype Aspect = ProcessAspect | ContainerAspect | ChainAspect

  /** Does update n of a batch bring flow i something of this kind? */
  ghost predicate Brings(index: KeyIndex, updates: seq<Update>, i: nat, n: nat, what: Aspect) {
    && n < |updates| && updates[n].key in index && index[updates[n].key] == i
    && match what
       case ProcessAspect => updates[n].process.IsValid()
       case ContainerAspect => updates[n].container.IsValid()
       case ChainAspect => updates[n].containerChain != []
  }

  ghost predicate IsFirstToBring(index: KeyIndex, updates: seq<Update>, i: nat, n: nat, what: Aspect) {
    Brings(index, updates, i, n, what) && forall m :: 0 <= m < n ==> !Brings(index, updates, i, m, what)
  }

  ghost predicate NoneBrings(index: KeyIndex, updates: seq<Update>, i: nat, what: Aspect) {
    forall n :: 0 <= n < |updates| ==> !Brings(index, updates, i, n, what)
  }

  /** Flow i after a batch, field by field: what it had, or what the first update for it
      brought, or still nothing. */
  ghost predicate ProcessFilled(c: Connection, index: KeyIndex, updates: seq<Update>, i: nat, c': Connection) {
    && (c.process.IsValid() || NoneBrings(index, updates, i, ProcessAspect) ==>
          c'.process == c.process && c'.reason == c.reason)
    && (forall n: nat :: !c.process.IsValid() && IsFirstToBring(index, updates, i, n, ProcessAspect) ==>
          c'.process == updates[n].process && c'.reason == updates[n].reason)
  }

  ghost predicate ContainerFilled(c: Connection, index: KeyIndex, updates: seq<Update>, i: nat, c': Connection) {
    && (c.container.IsValid() || NoneBrings(index, updates, i, ContainerAspect) ==> c'.container == c.container)
    && (forall n: nat :: !c.container.IsValid() && IsFirstToBring(index, updates, i, n, ContainerAspect) ==>
          c'.container == updates[n].container)
  }

  ghost predicate ChainFilled(c: Connection, index: KeyIndex, updates: seq<Update>, i: nat, c': Connection) {
    && (c.containerChain != [] || NoneBrings(index, updates, i, ChainAspect) ==> c'.containerChain == c.containerChain)
    && (forall n: nat :: c.containerChain == [] && IsFirstToBring(index, updates, i, n, ChainAspect) ==>
          c'.containerChain == updates[n].containerChain)
  }

  ghost predicate IsFilled(c: Connection, index: KeyIndex, updates: seq<Update>, i: nat, c': Connection) {
    && ProcessFilled(c, index, updates, i, c')
    && ContainerFilled(c, index, updates, i, c')
    && ChainFilled(c, index, updates, i, c')
  }

  /** Whether something was brought, as a batch grows by one. */
  lemma BringsOneMore(index: KeyIndex, front: seq<Update>, u: Update, i: nat, what: Aspect)
    ensures forall n :: 0 <= n < |front| ==>
      (Brings(index, front + [u], i, n, what) <==> Brings(index, front, i, n, what))
    ensures forall n :: 0 <= n < |front| ==>
      (IsFirstToBring(index, front + [u], i, n, what) <==> IsFirstToBring(index, front, i, n, what))
    ensures NoneBrings(index, front + [u], i, what) <==>
      NoneBrings(index, front, i, what) && !Brings(index, front + [u], i, |front|, what)
    ensures IsFirstToBring(index, front + [u], i, |front|, what) <==>
      NoneBrings(index, front, i, what) && Brings(index, front + [u], i, |front|, what)
  {
    var all := front + [u];
    forall n | 0 <= n < |front| ensures Brings(index, all, i, n, what) <==> Brings(index, front, i, n, what) {
      assert all[n] == front[n];
    }
    hide Brings;
  }

  lemma {:induction false} BatchFills(conns: seq<Connection>, index: KeyIndex, updates: seq<Update>, i: nat)
    requires i < |conns|
    ensures IsFilled(conns[i], index, updates, i, RefineAll(conns, index, updates)[i])
  {
    hide RefinedWith, Refines, RefineOne, IsFilled;
    if updates == [] {
      NothingBrought(conns[i], index, updates, i);
    } else {
      var front, u := updates[..|updates| - 1], updates[|updates| - 1];
      assert updates == front + [u];
      BatchFills(conns, index, front, i);
      FillsOneMore(conns[i], index, front, u, i, RefineAll(conns, index, front)[i]);
      MissesNothing(RefineAll(conns, index, front), index, u, i);
    }
  }

  lemma NothingBrought(c: Connection, index: KeyIndex, updates: seq<Update>, i: nat)
    requires updates == []
    ensures IsFilled(c, index, updates, i, c)
  {
  }

  /** A flow no update can refine is what refining it would give. */
  lemma MissesNothing(conns: seq<Connection>, index: KeyIndex, u: Update, i: nat)
    requires i < |conns|
    ensures RefineOne(conns, index, u)[i] ==
      if u.key in index && index[u.key] == i then RefinedWith(conns[i], u) else conns[i]
  {
    GapTakesUpdate(conns[i], u);
  }

  lemma ProcessFilledOneMore(c: Connection, index: KeyIndex, front: seq<Update>, u: Update, i: nat, mid: Connection)
    requires ProcessFilled(c, index, front, i, mid)
    ensures ProcessFilled(c, index, front + [u], i,
              if u.key in index && index[u.key] == i then RefinedWith(mid, u) else mid)
  {
    BringsOneMore(index, front, u, i, ProcessAspect);
    SomeFirst(index, front, i, ProcessAspect);
    GapTakesUpdate(mid, u);
    assert (front + [u])[|front|] == u;
    assert forall n :: 0 <= n < |front| ==> (front + [u])[n] == front[n];
    FirstHasValue(index, front, i, ProcessAspect);
    hide RefinedWith, NoneBrings, IsFirstToBring;
  }

  lemma ContainerFilledOneMore(c: Connection, index: KeyIndex, front: seq<Update>, u: Update, i: nat, mid: Connection)
    requires ContainerFilled(c, index, front, i, mid)
    ensures ContainerFilled(c, index, front + [u], i,
              if u.key in index && index[u.key] == i then RefinedWith(mid, u) else mid)
  {
    BringsOneMore(index, front, u, i, ContainerAspect);
    SomeFirst(index, front, i, ContainerAspect);
    GapTakesUpdate(mid, u);
    assert (front + [u])[|front|] == u;
    assert forall n :: 0 <= n < |front| ==> (front + [u])[n] == front[n];
    FirstHasValue(index, front, i, ContainerAspect);
    hide RefinedWith, NoneBrings, IsFirstToBring;
  }

  lemma ChainFilledOneMore(c: Connection, index: KeyIndex, front: seq<Update>, u: Update, i: nat, mid: Connection)
    requires ChainFilled(c, index, front, i, mid)
    ensures ChainFilled(c, index, front + [u], i,
              if u.key in index && index[u.key] == i then RefinedWith(mid, u) else mid)
  {
    BringsOneMore(index, front, u, i, ChainAspect);
    SomeFirst(index, front, i, ChainAspect);
    GapTakesUpdate(mid, u);
    assert (front + [u])[|front|] == u;
    assert forall n :: 0 <= n < |front| ==> (front + [u])[n] == front[n];
    FirstHasValue(index, front, i, ChainAspect);
    hide RefinedWith, NoneBrings, IsFirstToBring;
  }

  lemma FillsOneMore(c: Connection, index: KeyIndex, front: seq<Update>, u: Update, i: nat, mid: Connection)
    requires IsFilled(c, index, front, i, mid)
    ensures IsFilled(c, index, front + [u], i,
                     if u.key in index && index[u.key] == i then RefinedWith(mid, u) else mid)
  {
    hide ProcessFilled, ContainerFilled, ChainFilled, RefinedWith;
    ProcessFilledOneMore(c, index, front, u, i, mid);
    ContainerFilledOneMore(c, index, front, u, i, mid);
    ChainFilledOneMore(c, index, front, u, i, mid);
  }

  lemma FirstHasValue(index: KeyIndex, updates: seq<Update>, i: nat, what: Aspect)
    ensures forall n: nat :: IsFirstToBring(index, updates, i, n, what) ==>
      n < |updates| && Brings(index, updates, i, n, what)
  {
  }

  /** If any update brings it, one is the first to. */
  lemma {:induction false} SomeFirst(index: KeyIndex, updates: seq<Update>, i: nat, what: Aspect)
    ensures NoneBrings(index, updates, i, what) || exists n :: IsFirstToBring(index, updates, i, n, what)
  {
    if updates != [] {
      var front, u := updates[..|updates| - 1], updates[|updates| - 1];
      assert updates == front + [u];
      SomeFirst(index, front, i, what);
      BringsOneMore(index, front, u, i, what);
      if n :| IsFirstToBring(index, front, i, n, what) {
        assert IsFirstToBring(index, updates, i, n, what);
      }
    }
  }

  /** A batch replaces nothing that was known, and changes a flow exactly by filling a gap. */
  lemma {:induction false} BatchKeepsKnown(conns: seq<Connection>, index: KeyIndex, updates: seq<Update>, i: nat)
    requires i < |conns|
    ensures KeepsKnown(conns[i], RefineAll(conns, index, updates)[i])
    ensures RefineAll(conns, index, updates)[i] != conns[i] ==> FillsGap(conns[i], RefineAll(conns, index, updates)[i])
  {
    if updates != [] {
      var front, u := updates[..|updates| - 1], updates[|updates| - 1];
      BatchKeepsKnown(conns, index, front, i);
      RefinedKeepsKnown(RefineAll(conns, index, front)[i], u);
      hide RefinedWith, Refines;
    }
  }

  /** The worker announces an answer exactly when it refines the flow it was asked about, and
      what the refined flow then shows is the answer. */
  lemma AnswerRefines(req: Request, got: Connection)
    ensures Improved(req, got) <==> Refines(req.flow, UpdateFor(req, got))
    ensures UpdateFor(req, got).key == req.key && UpdateFor(req, got).generation == req.generation
    ensures var c := RefinedWith(req.flow, UpdateFor(req, got));
            && (!req.flow.process.IsValid() && got.process.IsValid() ==>
                  c.process == got.process && c.reason == Resolved)
            && (!req.flow.container.IsValid() && got.container.IsValid() ==> c.container == got.container)
            && (req.flow.containerChain == [] && got.containerChain != [] ==> c.containerChain == got.containerChain)
  {
  }

  /** Every announced update is the answer to a request of the batch, and refines its flow. */
  lemma {:induction false} UpdatesAreAnswers(batch: seq<Request>, at: Moments, n: nat, m: nat) returns (o: nat)
    requires n <= |batch| && m < |UpdatesOf(batch, at, n)|
    ensures o < n && UpdatesOf(batch, at, n)[m] == UpdateFor(batch[o], Got(at, o, batch[o]))
    ensures Refines(batch[o].flow, UpdatesOf(batch, at, n)[m])
  {
    hide Improved, Refines, UpdateFor;
    if m < |UpdatesOf(batch, at, n - 1)| {
      o := UpdatesAreAnswers(batch, at, n - 1, m);
    } else {
      o := n - 1;
      AnswerRefines(batch[o], Got(at, o, batch[o]));
    }
  }

  /** An update changes the current flows exactly when it hits one of them -- whatever the
      generation of the snapshot it was made for. */
  lemma RefinementTakesEffect(conns: seq<Connection>, index: KeyIndex, u: Update, generation: nat)
    ensures RefineOne(conns, index, u) != conns <==> Hits(conns, index, u)
    ensures RefineOne(conns, index, u.(generation := generation)) == RefineOne(conns, index, u)
  {
    if Hits(conns, index, u) {
      RefinedKeepsKnown(conns[index[u.key]], u);
      assert RefineOne(conns, index, u)[index[u.key]] != conns[index[u.key]];
    }
  }

  /** A batch is announced exactly when it changes the flows. */
  lemma {:induction false} AnnouncedExactlyOnChange(x: AddressCodec, conns: seq<Connection>, index: KeyIndex,
                                                    updates: seq<Update>)
    ensures PatchesOf(x, conns, index, updates) == [] <==> RefineAll(conns, index, updates) == conns
  {
    if updates != [] {
      var front, u := updates[..|updates| - 1], updates[|updates| - 1];
      AnnouncedExactlyOnChange(x, conns, index, front);
      var before := RefineAll(conns, index, front);
      hide RefinedWith, Refines;
      if Hits(before, index, u) {
        var i := index[u.key];
        BatchKeepsKnown(conns, index, front, i);
        RefinedKeepsKnown(before[i], u);
        assert RefineAll(conns, index, updates)[i] != conns[i];
      } else if before != conns {
        assert RefineAll(conns, index, updates) == before;
      }
    }
  }

  /** A late answer for an old snapshot lands on whatever flow has its key now: in any later
      generation, a flow that has taken over the key is given the process that the answer of
      generation 1 names. */
  lemma StaleRefinementApplies()
    ensures var e := Endpoint(IPv4(1), 5000);
            var c := Connection(e, e, Tcp, ZERO, "", 0, Outbound, NoState, NoLocalSocket, NO_PROCESS, NO_CONTAINER, []);
            var u := Update(c.Key(), 1, ProcessInfo(7, "old", "", "", 0), NO_CONTAINER, [], Resolved);
            && IndexesKeys(map[c.Key() := 0], [c])
            && RefineAll([c], map[c.Key() := 0], [u]) == [c.(process := u.process, reason := Resolved)]
  {
    var e := Endpoint(IPv4(1), 5000);
    var c := Connection(e, e, Tcp, ZERO, "", 0, Outbound, NoState, NoLocalSocket, NO_PROCESS, NO_CONTAINER, []);
    var u := Update(c.Key(), 1, ProcessInfo(7, "old", "", "", 0), NO_CONTAINER, [], Resolved);
    assert [u][..0] == [];
    assert RefineAll([c], map[c.Key() := 0], []) == [c];
  }

  // ---- publishing -------------------------------------------------------------------------------------

  datatype Message = Snapshot(dtos: seq<ConnectionDto>) | Patch(dtos: seq<ConnectionDto>)

  function ToDtos(x: AddressCodec, conns: seq<Connection>): (r: seq<ConnectionDto>)
    ensures |r| == |conns|
  {
    seq(|conns|, i requires 0 <= i < |conns| => ToDto(x, conns[i]))
  }

  method ConvertAll(x: AddressCodec, conns: seq<Connection>) returns (r: seq<ConnectionDto>)
    ensures r == ToDtos(x, conns)
  {
    r := [];
    for i := 0 to |conns|
      invariant |r| == i && forall j :: 0 <= j < i ==> r[j] == ToDto(x, conns[j])
    {
      r := r + [ToDto(x, conns[i])];
    }
  }

  /** Flows worth retrying: no process yet, though not by design. */
  predicate IsWeak(c: Connection) {
    !c.process.IsValid() && !c.reason.Forwarded?
  }

  function RequestsFor(conns: seq<Connection>, generation: nat, nowMs: nat, wantChain: bool): seq<Request> {
    if conns == [] then []
    else
      var c := conns[|conns| - 1];
      RequestsFor(conns[..|conns| - 1], generation, nowMs, wantChain)
      + (if IsWeak(c) then [Request(c.Key(), c, generation, nowMs, wantChain, 0)] else [])
  }

  /** index finds, for every flow's key, a flow with that key. */
  ghost predicate IndexesKeys(index: KeyIndex, conns: seq<Connection>) {
    && (forall k :: k in index ==> index[k] < |conns| && conns[index[k]].Key() == k)
    && (forall i :: 0 <= i < |conns| ==> conns[i].Key() in index)
  }

  class ConnectionsService {
    const codec: AddressCodec
    const wantChain: bool
    var last: seq<ConnectionDto>
    var lastConns: seq<Connection>
    var keyIndex: KeyIndex
    var generation: nat
    ghost var messages: seq<Message>

    ghost predicate Valid()
      reads this
    {
      last == ToDtos(codec, lastConns) && IndexesKeys(keyIndex, lastConns)
    }

    constructor (codec: AddressCodec, wantChain: bool)
      ensures Valid() && lastConns == [] && messages == [] && generation == 0
      ensures this.codec == codec && this.wantChain == wantChain
    {
      this.codec, this.wantChain := codec, wantChain;
      last, lastConns, keyIndex, generation, messages := [], [], map[], 0, [];
    }

    /** A monitor snapshot: cap, infer directions, attribute, explain, publish, enqueue. */
    method OnConnectionsUpdated(conns: seq<Connection>, ctx: HostContext, resolver: Option<Resolver>, nowMs: nat,
                                worker: ResolverDeepWorker?) returns (ghost kept: seq<Connection>)
      requires Valid() && forall i :: 0 <= i < |conns| ==> Fits64(conns[i])
      requires worker != null ==> worker.Valid()
      modifies this, worker, if worker == null then {} else {worker.queue}
      ensures Valid() && generation == old(generation) + 1
      ensures messages == old(messages) + [Snapshot(last)]
      ensures IsCapped(kept, conns) && IsEnrichedBy(kept, ctx, resolver, wantChain, lastConns)
      ensures worker != null ==> worker.Valid()
      ensures worker != null && worker.active && RequestsFor(lastConns, generation, nowMs, wantChain) != [] ==>
        KeepsLoudest(MergedAll(old(worker.queue.byKey), RequestsFor(lastConns, generation, nowMs, wantChain)),
                     worker.queue.byKey, worker.queue.cap)
    {
      hide Fits64, IsCapped, IsEnrichedBy, KeepsLoudest, IsWeak;
      var top := CapSnapshot(conns);
      kept := top;
      lastConns := Enrich(top, ctx, resolver);
      last := ConvertAll(codec, lastConns);
      messages := messages + [Snapshot(last)];
      generation := generation + 1;
      RebuildIndex();
      if worker != null {
        var reqs := CollectWeak(lastConns, generation, nowMs, wantChain);
        if reqs != [] {
          worker.Enqueue(reqs);
        }
      }
    }

    method Enrich(top: seq<Connection>, ctx: HostContext, resolver: Option<Resolver>) returns (r: seq<Connection>)
      ensures IsEnrichedBy(top, ctx, resolver, wantChain, r)
    {
      hide InferDirection, ReasonFor, SharedAnswers, NaivePass, Resolver.Stable;
      var flows := new Connection[|top|](i requires 0 <= i < |top| =>
        top[i].(direction := InferDirection(top[i], ctx)));
      assert flows[..] == Directed(top, ctx);
      var _ := AttributeFlows(flows, resolver, wantChain);
      forall i | 0 <= i < |top| ensures OnlyAttributed(Directed(top, ctx)[i], flows[i]) {
        if resolver.Some? {
          AttributionOnly(resolver.value, Directed(top, ctx), flows[..], wantChain, i);
        }
      }
      r := [];
      for i := 0 to flows.Length
        invariant |r| == i && forall j :: 0 <= j < i ==> r[j] == flows[j].(reason := ReasonFor(flows[j], ctx))
      {
        r := r + [flows[i].(reason := ReasonFor(flows[i], ctx))];
      }
      forall i | 0 <= i < |top| ensures r[i].reason == ReasonFor(r[i], ctx) {
        ReasonIgnoresReason(flows[i], r[i], ctx);
      }
      assert Unexplained(top, r) == flows[..];
    }

    method RebuildIndex()
      modifies `keyIndex
      ensures IndexesKeys(keyIndex, lastConns)
    {
      keyIndex := map[];
      for i := 0 to |lastConns|
        invariant IndexesKeys(keyIndex, lastConns[..i])
      {
        keyIndex := keyIndex[lastConns[i].Key() := i];
      }
      assert lastConns[..|lastConns|] == lastConns;
    }

    static method CollectWeak(conns: seq<Connection>, generation: nat, nowMs: nat, wantChain: bool)
      returns (reqs: seq<Request>)
      ensures reqs == RequestsFor(conns, generation, nowMs, wantChain)
    {
      reqs := [];
      for i := 0 to |conns|
        invariant reqs == RequestsFor(conns[..i], generation, nowMs, wantChain)
      {
        var c := conns[i];
        assert conns[..i + 1][..i] == conns[..i];
        if !c.process.IsValid() && !c.reason.Forwarded? {
          reqs := reqs + [Request(c.Key(), c, generation, nowMs, wantChain, 0)];
        }
      }
      assert conns[..|conns|] == conns;
    }

    /** A batch of refinements: patch the mirror, the records and the wire alike. */
    method OnDeepRefined(updates: seq<Update>)
      requires Valid()
      modifies `last, `lastConns, `messages
      ensures Valid() && lastConns == RefineAll(old(lastConns), keyIndex, updates)
      ensures messages == old(messages)
                + (if PatchesOf(codec, old(lastConns), keyIndex, updates) == [] then []
                   else [Patch(PatchesOf(codec, old(lastConns), keyIndex, updates))])
      ensures forall i :: 0 <= i < |lastConns| ==>
        KeepsKnown(old(lastConns)[i], lastConns[i]) && IsFilled(old(lastConns)[i], keyIndex, updates, i, lastConns[i])
      ensures messages == old(messages) <==> lastConns == old(lastConns)
    {
      hide ToDto, RefinedWith, Refines;
      var patched: seq<ConnectionDto> := [];
      for n := 0 to |updates|
        invariant lastConns == RefineAll(old(lastConns), keyIndex, updates[..n])
        invariant last == ToDtos(codec, lastConns) && IndexesKeys(keyIndex, lastConns)
        invariant patched == PatchesOf(codec, old(lastConns), keyIndex, updates[..n])
        invariant messages == old(messages)
      {
        assert updates[..n + 1][..n] == updates[..n];
        var u := updates[n];
        if u.key in keyIndex {
          var idx := keyIndex[u.key];
          if idx < |lastConns| && Refines(lastConns[idx], u) {
            RefinedKeepsKnown(lastConns[idx], u);
            lastConns := lastConns[idx := RefinedWith(lastConns[idx], u)];
            last := last[idx := ToDto(codec, lastConns[idx])];
            patched := patched + [last[idx]];
          }
        }
      }
      assert updates[..|updates|] == updates;
      if patched != [] {
        messages := messages + [Patch(patched)];
      }
      AnnouncedExactlyOnChange(codec, old(lastConns), keyIndex, updates);
      hide IsFilled;
      forall i | 0 <= i < |lastConns|
        ensures KeepsKnown(old(lastConns)[i], lastConns[i])
        ensures IsFilled(old(lastConns)[i], keyIndex, updates, i, lastConns[i])
      {
        BatchKeepsKnown(old(lastConns), keyIndex, updates, i);
        BatchFills(old(lastConns), keyIndex, updates, i);
      }
    }
  }

  /** Attribution changes only the attribution fields. */
  ghost predicate OnlyAttributed(c: Connection, c': Connection) {
    c' == c.(process := c'.process, container := c'.container, containerChain := c'.containerChain)
  }

  function Directed(flows: seq<Connection>, ctx: HostContext): (r: seq<Connection>)
    ensures |r| == |flows|
  {
    seq(|flows|, i requires 0 <= i < |flows| => flows[i].(direction := InferDirection(flows[i], ctx)))
  }

  function Unexplained(flows: seq<Connection>, now: seq<Connection>): (r: seq<Connection>)
    requires |now| == |flows|
    ensures |r| == |flows|
  {
    seq(|now|, i requires 0 <= i < |now| => now[i].(reason := flows[i].reason))
  }

  /** What is published of the kept flows: each with its direction inferred, attributed by
      the resolver if there is one, and the outcome explained. */
  ghost predicate IsEnrichedBy(flows: seq<Connection>, ctx: HostContext, resolver: Option<Resolver>, wantChain: bool,
                               now: seq<Connection>)
  {
    && |now| == |flows|
    && (resolver.None? ==> Unexplained(flows, now) == Directed(flows, ctx))
    && (resolver.Some? ==>
          && SharedAnswers(resolver.value, Directed(flows, ctx), Unexplained(flows, now), wantChain)
          && (resolver.value.Stable() ==>
                NaivePass(resolver.value, Directed(flows, ctx), Unexplained(flows, now), wantChain)))
    && (forall i :: 0 <= i < |now| ==> now[i].reason == ReasonFor(now[i], ctx))
  }

  lemma ReasonIgnoresReason(a: Connection, b: Connection, ctx: HostContext)
    requires b == a.(reason := b.reason)
    ensures ReasonFor(a, ctx) == ReasonFor(b, ctx)
  {
  }

  lemma {:induction false} FirstAlikeExists(r: Resolver, flows: seq<Connection>, i: nat, n: nat) returns (j: nat)
    requires i < |flows| && r.PidAt(i, flows[i]) > 0 && n <= i
    requires forall k :: 0 <= k < n && r.PidAt(k, flows[k]) > 0 ==> r.KeyAt(k, flows[k]) != r.KeyAt(i, flows[i])
    ensures FirstAlike(r, flows, j, i)
    decreases i - n
  {
    hide Resolver.PidAt, Resolver.KeyAt;
    if r.PidAt(n, flows[n]) > 0 && r.KeyAt(n, flows[n]) == r.KeyAt(i, flows[i]) {
      j := n;
    } else {
      j := FirstAlikeExists(r, flows, i, n + 1);
    }
  }

  lemma AttributionOnly(r: Resolver, was: seq<Connection>, now: seq<Connection>, wantChain: bool, i: nat)
    requires SharedAnswers(r, was, now, wantChain) && i < |was|
    ensures OnlyAttributed(was[i], now[i])
  {
    if r.PidAt(i, was[i]) > 0 {
      var j := FirstAlikeExists(r, was, i, 0);
      hide FirstAlike;
    }
  }
}
