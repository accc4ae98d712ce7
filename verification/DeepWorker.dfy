/** The worker that retries weakly attributed flows against the resolver. */
module DeepWorker {
  import opened Connections
  import opened Attribution
  import opened DeepQueue

  datatype Update = Update(
    key: FlowKey,
    generation: nat,
    process: ProcessInfo,
    container: ContainerInfo,
    containerChain: seq<ContainerInfo>,
    reason: AttributionReason)

  datatype Tuning = Tuning(deepBatchMax: int, deepMaxAttempts: int, deepQueueMax: int, demandScan: bool)

  // ---- one request ------------------------------------------------------------------------------

  /** The resolver as it stands when request i of a batch is retried. */
  type Moments = nat -> Resolver

  function Got(at: Moments, i: nat, req: Request): Connection {
    at(i).Naive(0, req.flow, req.wantChain)
  }

  predicate Improved(req: Request, got: Connection) {
    || (got.process.IsValid() && !req.flow.process.IsValid())
    || (got.container.IsValid() && !req.flow.container.IsValid())
    || (got.containerChain != [] && req.flow.containerChain == [])
  }

  function UpdateFor(req: Request, got: Connection): Update {
    Update(req.key, req.generation, got.process, got.container, got.containerChain,
           if got.process.IsValid() then Resolved else req.flow.reason)
  }

  function UpdatesOf(batch: seq<Request>, at: Moments, n: nat): seq<Update>
    requires n <= |batch|
  {
    if n == 0 then []
    else
      var req, got := batch[n - 1], Got(at, n - 1, batch[n - 1]);
      UpdatesOf(batch, at, n - 1) + (if Improved(req, got) then [UpdateFor(req, got)] else [])
  }

  predicate RetriedAt(batch: seq<Request>, at: Moments, maxAttempts: int, i: nat)
    requires i < |batch|
  {
    !Improved(batch[i], Got(at, i, batch[i])) && batch[i].attempts + 1 < maxAttempts
  }

  function RetriesOf(batch: seq<Request>, at: Moments, maxAttempts: int, n: nat): seq<Request>
    requires n <= |batch|
  {
    if n == 0 then []
    else RetriesOf(batch, at, maxAttempts, n - 1)
         + (if RetriedAt(batch, at, maxAttempts, n - 1)
            then [batch[n - 1].(attempts := batch[n - 1].attempts + 1)] else [])
  }

  ghost predicate UpdatedKey(updates: seq<Update>, k: FlowKey) {
    exists i :: 0 <= i < |updates| && updates[i].key == k
  }

  lemma {:induction false} EachIsSettled(batch: seq<Request>, at: Moments, maxAttempts: int, n: nat, i: nat)
    requires i < n <= |batch|
    ensures Improved(batch[i], Got(at, i, batch[i])) ==> UpdatedKey(UpdatesOf(batch, at, n), batch[i].key)
    ensures RetriedAt(batch, at, maxAttempts, i) ==>
              batch[i].(attempts := batch[i].attempts + 1) in RetriesOf(batch, at, maxAttempts, n)
  {
    hide Improved, Got;
    if i < n - 1 {
      EachIsSettled(batch, at, maxAttempts, n - 1, i);
      if UpdatedKey(UpdatesOf(batch, at, n - 1), batch[i].key) {
        var m :| 0 <= m < |UpdatesOf(batch, at, n - 1)| && UpdatesOf(batch, at, n - 1)[m].key == batch[i].key;
        assert UpdatesOf(batch, at, n)[m].key == batch[i].key;
      }
    } else if Improved(batch[i], Got(at, i, batch[i])) {
      var us := UpdatesOf(batch, at, n);
      assert us[|us| - 1].key == batch[i].key;
    }
  }

  lemma {:induction false} RetryOrigin(batch: seq<Request>, at: Moments, maxAttempts: int, n: nat, m: nat)
    returns (i: nat)
    requires n <= |batch| && m < |RetriesOf(batch, at, maxAttempts, n)|
    ensures i < n && RetriedAt(batch, at, maxAttempts, i)
    ensures RetriesOf(batch, at, maxAttempts, n)[m] == batch[i].(attempts := batch[i].attempts + 1)
  {
    if m < |RetriesOf(batch, at, maxAttempts, n - 1)| {
      i := RetryOrigin(batch, at, maxAttempts, n - 1, m);
    } else {
      i := n - 1;
    }
  }

  // ---- one tick ------------------------------------------------------------------------------------

  /** What a tick may do to the queue: entries are left alone, retried with one more attempt
      and attempts to spare, or leave -- refined, or out of attempts. Something happens. */
  ghost predicate WorkerTick(q: Queue, maxAttempts: int, updates: seq<Update>, q': Queue) {
    && (forall k :: k in q' ==>
          && k in q
          && (q'[k] == q[k] || (q[k].attempts + 1 < maxAttempts && q'[k] == q[k].(attempts := q[k].attempts + 1))))
    && (forall k :: k in q && k !in q' ==> UpdatedKey(updates, k) || q[k].attempts + 1 >= maxAttempts)
    && (q != map[] ==> exists k :: k in q && (k !in q' || q'[k] != q[k]))
  }

  ghost predicate KeysDiffer(s: seq<Request>) {
    forall i, j :: 0 <= i < j < |s| ==> s[i].key != s[j].key
  }

  /** Re-enqueuing what was just taken off collides with nothing. */
  lemma {:induction false} MergeApart(mid: Queue, reqs: seq<Request>)
    requires forall i :: 0 <= i < |reqs| ==> reqs[i].key !in mid
    requires KeysDiffer(reqs)
    ensures MergedAll(mid, reqs).Keys == mid.Keys + KeysOf(reqs)
    ensures forall k :: k in mid ==> MergedAll(mid, reqs)[k] == mid[k]
    ensures forall i :: 0 <= i < |reqs| ==> MergedAll(mid, reqs)[reqs[i].key] == reqs[i]
  {
    if reqs != [] {
      var front, r := reqs[..|reqs| - 1], reqs[|reqs| - 1];
      MergeApart(mid, front);
      assert KeysOf(reqs) == KeysOf(front) + {r.key};
      forall i | 0 <= i < |front| ensures MergedAll(mid, front)[reqs[i].key] == reqs[i] && reqs[i].key != r.key {
        assert front[i] == reqs[i];
      }
      assert r.key !in KeysOf(front);
    }
  }

  lemma FitsWhole(all: Queue, kept: Queue, cap: int)
    requires KeepsLoudest(all, kept, cap) && |all| <= (if cap <= 0 then 0 else cap)
    ensures kept == all
  {
    assert kept.Keys <= all.Keys;
    FewerKeys(kept.Keys, all.Keys);
  }

  lemma RetriesApart(q: Queue, batchMax: int, batch: seq<Request>, mid: Queue, at: Moments, maxAttempts: int)
    requires TakesLoudest(q, batchMax, batch, mid)
    ensures var retries := RetriesOf(batch, at, maxAttempts, |batch|);
            && (forall i :: 0 <= i < |retries| ==> retries[i].key !in mid)
            && KeysDiffer(retries)
  {
    hide Loudness, RetriedAt;
    var retries := RetriesOf(batch, at, maxAttempts, |batch|);
    forall i | 0 <= i < |retries| ensures retries[i].key !in mid {
      var o := RetryOrigin(batch, at, maxAttempts, |batch|, i);
      assert batch[o].key in (set x | 0 <= x < |batch| :: batch[x].key);
    }
    RetriesDistinct(batch, at, maxAttempts, |batch|);
  }

  lemma {:induction false} RetriesDistinct(batch: seq<Request>, at: Moments, maxAttempts: int, n: nat)
    requires n <= |batch| && forall i, j :: 0 <= i < j < |batch| ==> batch[i].key != batch[j].key
    ensures KeysDiffer(RetriesOf(batch, at, maxAttempts, n))
  {
    hide RetriedAt;
    if n > 0 {
      RetriesDistinct(batch, at, maxAttempts, n - 1);
      var front := RetriesOf(batch, at, maxAttempts, n - 1);
      forall i | 0 <= i < |front| ensures front[i].key != batch[n - 1].key {
        var o := RetryOrigin(batch, at, maxAttempts, n - 1, i);
      }
    }
  }

  /** Which key of the queue went where in a tick. */
  lemma KeyAfterTick(q: Queue, batchMax: int, batch: seq<Request>, mid: Queue, at: Moments, maxAttempts: int,
                     k: FlowKey)
    requires TakesLoudest(q, batchMax, batch, mid)
    ensures var q' := MergedAll(mid, RetriesOf(batch, at, maxAttempts, |batch|));
            && (k in q' ==>
                  && k in q
                  && (q'[k] == q[k]
                      || (q[k].attempts + 1 < maxAttempts && q'[k] == q[k].(attempts := q[k].attempts + 1))))
            && (k in q && k !in q' ==> UpdatedKey(UpdatesOf(batch, at, |batch|), k) || q[k].attempts + 1 >= maxAttempts)
            && (k in q && k !in mid ==> k !in q' || q'[k] != q[k])
  {
    hide Loudness, Improved, Got, UpdatedKey;
    var retries := RetriesOf(batch, at, maxAttempts, |batch|);
    RetriesApart(q, batchMax, batch, mid, at, maxAttempts);
    MergeApart(mid, retries);
    if k in MergedAll(mid, retries) && k !in mid {
      var m :| 0 <= m < |retries| && retries[m].key == k;
      var o := RetryOrigin(batch, at, maxAttempts, |batch|, m);
    }
    if k in q && k !in mid {
      assert k in (set x | 0 <= x < |batch| :: batch[x].key);
      var o :| 0 <= o < |batch| && batch[o].key == k;
      EachIsSettled(batch, at, maxAttempts, |batch|, o);
      if RetriedAt(batch, at, maxAttempts, o) {
        var m :| 0 <= m < |retries| && retries[m] == batch[o].(attempts := batch[o].attempts + 1);
        assert retries[m].key == k;
      }
    }
  }

  lemma TickHolds(q: Queue, batchMax: int, batch: seq<Request>, mid: Queue, at: Moments, maxAttempts: int)
    requires TakesLoudest(q, batchMax, batch, mid) && batchMax >= 1 && Keyed(q)
    ensures var q' := MergedAll(mid, RetriesOf(batch, at, maxAttempts, |batch|));
            && WorkerTick(q, maxAttempts, UpdatesOf(batch, at, |batch|), q')
            && |q'| <= |q| && Keyed(q')
  {
    hide MergedAll, RetriesOf, UpdatesOf, UpdatedKey, Loudness;
    var q' := MergedAll(mid, RetriesOf(batch, at, maxAttempts, |batch|));
    forall k
      ensures k in q' ==>
        && k in q
        && (q'[k] == q[k] || (q[k].attempts + 1 < maxAttempts && q'[k] == q[k].(attempts := q[k].attempts + 1)))
      ensures k in q && k !in q' ==> UpdatedKey(UpdatesOf(batch, at, |batch|), k) || q[k].attempts + 1 >= maxAttempts
      ensures k in q && k !in mid ==> k !in q' || q'[k] != q[k]
    {
      KeyAfterTick(q, batchMax, batch, mid, at, maxAttempts, k);
    }
    FewerKeys(q'.Keys, q.Keys);
    if q != map[] {
      assert |batch| >= 1 by {
        assert |q.Keys| != 0;
      }
      var k := batch[0].key;
      assert k in (set x | 0 <= x < |batch| :: batch[x].key);
      assert k in q && k !in mid;
    }
  }

  // ---- draining --------------------------------------------------------------------------------------

  function Weight(r: Request, maxAttempts: int): nat {
    if maxAttempts - r.attempts > 1 then maxAttempts - r.attempts else 1
  }

  /** The ticks a queue can still take: each entry's remaining attempts, at least one. */
  ghost function Remaining(q: Queue, maxAttempts: int): nat {
    if q == map[] then 0
    else
      var k :| k in q;
      Weight(q[k], maxAttempts) + Remaining(q - {k}, maxAttempts)
  }

  /** A single request counts for the attempts it has left, and for one when it has none. */
  lemma RemainingOfOne(k: FlowKey, r: Request, maxAttempts: int)
    ensures Remaining(map[k := r], maxAttempts) ==
      if maxAttempts - r.attempts >= 1 then maxAttempts - r.attempts else 1
  {
    RemainingTakeOut(map[k := r], maxAttempts, k);
    assert map[k := r] - {k} == map[];
  }

  lemma {:induction false} RemainingTakeOut(q: Queue, maxAttempts: int, k: FlowKey)
    requires k in q
    ensures Remaining(q, maxAttempts) == Weight(q[k], maxAttempts) + Remaining(q - {k}, maxAttempts)
    decreases |q|
  {
    var first :| first in q
      && Remaining(q, maxAttempts) == Weight(q[first], maxAttempts) + Remaining(q - {first}, maxAttempts);
    if first != k {
      assert (q - {first}).Keys == q.Keys - {first} && (q - {k}).Keys == q.Keys - {k};
      RemainingTakeOut(q - {first}, maxAttempts, k);
      RemainingTakeOut(q - {k}, maxAttempts, first);
      assert q - {first} - {k} == q - {k} - {first};
    }
  }

  lemma {:induction false} RemainingMonotone(q: Queue, q': Queue, maxAttempts: int)
    requires forall k :: k in q' ==> k in q && Weight(q'[k], maxAttempts) <= Weight(q[k], maxAttempts)
    ensures Remaining(q', maxAttempts) <= Remaining(q, maxAttempts)
    decreases |q'|
  {
    hide Weight;
    if q' != map[] {
      var k :| k in q';
      RemainingTakeOut(q, maxAttempts, k);
      RemainingTakeOut(q', maxAttempts, k);
      assert (q' - {k}).Keys == q'.Keys - {k};
      RemainingMonotone(q - {k}, q' - {k}, maxAttempts);
    }
  }

  /** Every tick on a non-empty queue uses up at least one. */
  lemma TickDecreases(q: Queue, maxAttempts: int, updates: seq<Update>, q': Queue)
    requires WorkerTick(q, maxAttempts, updates, q') && q != map[]
    ensures Remaining(q', maxAttempts) < Remaining(q, maxAttempts)
  {
    hide UpdatedKey;
    var k :| k in q && (k !in q' || q'[k] != q[k]);
    RemainingTakeOut(q, maxAttempts, k);
    if k in q' {
      RemainingTakeOut(q', maxAttempts, k);
      RemainingMonotone(q - {k}, q' - {k}, maxAttempts);
    } else {
      RemainingMonotone(q - {k}, q', maxAttempts);
    }
  }

  /** A run of ticks with nothing enqueued in between; the resolver may answer as it likes. */
  ghost predicate QuietRun(queues: seq<Queue>, maxAttempts: int, updates: seq<seq<Update>>) {
    && |queues| == |updates| + 1
    && forall i :: 0 <= i < |updates| ==> WorkerTick(queues[i], maxAttempts, updates[i], queues[i + 1])
  }

  /** The queue empties within the sum of its entries' remaining attempts. */
  lemma {:induction false} QuietRunDrains(queues: seq<Queue>, maxAttempts: int, updates: seq<seq<Update>>, n: nat)
    requires QuietRun(queues, maxAttempts, updates) && n <= |updates|
    ensures queues[n] == map[] || Remaining(queues[n], maxAttempts) + n <= Remaining(queues[0], maxAttempts)
    ensures n >= Remaining(queues[0], maxAttempts) ==> queues[n] == map[]
  {
    hide WorkerTick;
    if n > 0 {
      QuietRunDrains(queues, maxAttempts, updates, n - 1);
      assert WorkerTick(queues[n - 1], maxAttempts, updates[n - 1], queues[n - 1 + 1]);
      if queues[n - 1] == map[] {
        EmptyStaysEmpty(queues[n - 1], maxAttempts, updates[n - 1], queues[n]);
      } else {
        TickDecreases(queues[n - 1], maxAttempts, updates[n - 1], queues[n]);
      }
    }
    if queues[n] != map[] {
      SomethingRemains(queues[n], maxAttempts);
    }
  }

  lemma EmptyStaysEmpty(q: Queue, maxAttempts: int, updates: seq<Update>, q': Queue)
    requires q == map[] && WorkerTick(q, maxAttempts, updates, q')
    ensures q' == map[]
  {
  }

  lemma SomethingRemains(q: Queue, maxAttempts: int)
    requires q != map[]
    ensures Remaining(q, maxAttempts) >= 1
  {
  }

  /** A request is in the queue until it is refined or has used up its attempts. */
  lemma {:induction false} LeavesForAReason(queues: seq<Queue>, maxAttempts: int, updates: seq<seq<Update>>,
                                            k: FlowKey, n: nat)
    requires QuietRun(queues, maxAttempts, updates) && n <= |updates| && k in queues[0]
    ensures k in queues[n]
            || (exists i :: 0 <= i < n &&
                  k in queues[i] && (UpdatedKey(updates[i], k) || queues[i][k].attempts + 1 >= maxAttempts))
  {
    hide UpdatedKey;
    if n > 0 {
      LeavesForAReason(queues, maxAttempts, updates, k, n - 1);
      assert WorkerTick(queues[n - 1], maxAttempts, updates[n - 1], queues[n - 1 + 1]);
    }
  }

  // ---- the worker ---------------------------------------------------------------------------------------

  class ResolverDeepWorker {
    const queue: DeepAttributionQueue
    var active: bool
    var batchMax: int
    var maxAttempts: int
    var demandScan: bool
    var timerRunning: bool

    ghost predicate Valid()
      reads this, queue
    {
      && queue.Valid() && batchMax >= 1 && maxAttempts >= 1
      // pending work always has a tick coming
      && (queue.byKey != map[] ==> timerRunning)
    }

    constructor (capacity: int)
      ensures Valid() && fresh(queue) && queue.byKey == map[] && active && batchMax == 256 && maxAttempts == 12
    {
      queue := new DeepAttributionQueue(capacity);
      active, batchMax, maxAttempts, demandScan, timerRunning := true, 256, 12, false, false;
    }

    method SetTuning(t: Tuning)
      requires Valid()
      modifies this, queue
      ensures Valid() && active == old(active)
      ensures batchMax == (if t.deepBatchMax > 0 then t.deepBatchMax else 1)
      ensures maxAttempts == (if t.deepMaxAttempts > 0 then t.deepMaxAttempts else 1)
      ensures demandScan == t.demandScan && timerRunning == old(timerRunning)
      ensures queue.cap == (if t.deepQueueMax > 0 then t.deepQueueMax else 0)
      ensures KeepsLoudest(old(queue.byKey), queue.byKey, queue.cap)
    {
      batchMax := if t.deepBatchMax > 0 then t.deepBatchMax else 1;
      maxAttempts := if t.deepMaxAttempts > 0 then t.deepMaxAttempts else 1;
      demandScan := t.demandScan;
      queue.SetCapacity(t.deepQueueMax);
    }

    method Enqueue(reqs: seq<Request>)
      requires Valid()
      modifies `timerRunning, queue
      ensures Valid() && queue.cap == old(queue.cap)
      ensures !active || reqs == [] ==> queue.byKey == old(queue.byKey)
      ensures active && reqs != [] ==> KeepsLoudest(MergedAll(old(queue.byKey), reqs), queue.byKey, queue.cap)
    {
      if !active || reqs == [] { return; }
      var _ := queue.Enqueue(reqs);
      if !timerRunning && queue.byKey != map[] { timerRunning := true; }
    }

    method SetActive(on: bool)
      requires Valid()
      modifies `active, `timerRunning, queue
      ensures Valid() && active == on
      ensures queue.byKey == if on then old(queue.byKey) else map[]
      ensures timerRunning == (on && old(timerRunning)) && queue.cap == old(queue.cap)
    {
      active := on;
      if !on {
        queue.Clear();
        timerRunning := false;
      }
    }

    /** One coalescing tick. */
    method Process(resolver: Option<Moments>)
      returns (updates: seq<Update>, scan: bool, ghost batch: seq<Request>, ghost mid: Queue)
      requires Valid()
      modifies `timerRunning, queue
      ensures Valid() && queue.cap == old(queue.cap)
      ensures !active || resolver.None? ==> queue.byKey == map[] && updates == [] && !timerRunning
      ensures active && resolver.Some? ==>
        && TakesLoudest(old(queue.byKey), batchMax, batch, mid)
        && updates == UpdatesOf(batch, resolver.value, |batch|)
        && queue.byKey == MergedAll(mid, RetriesOf(batch, resolver.value, maxAttempts, |batch|))
        && WorkerTick(old(queue.byKey), maxAttempts, updates, queue.byKey)
        && scan == (demandScan && RetriesOf(batch, resolver.value, maxAttempts, |batch|) != [])
        && (timerRunning ==> queue.byKey != map[] || !old(timerRunning))
    {
      hide TakesLoudest, KeepsLoudest, WorkerTick, MergedAll, UpdatesOf, RetriesOf, Keyed;
      scan, updates, batch, mid := false, [], [], map[];
      if !active || resolver.None? {
        queue.Clear();
        timerRunning := false;
        return;
      }
      var at := resolver.value;
      var taken := queue.Dequeue(batchMax);
      batch, mid := taken, queue.byKey;
      TickHolds(old(queue.byKey), batchMax, batch, mid, at, maxAttempts);
      var retry := [];
      updates, retry := RetryBatch(taken, at);
      if retry != [] {
        var _ := queue.Enqueue(retry);
        FitsWhole(MergedAll(mid, retry), queue.byKey, queue.cap);
        scan := demandScan;
      } else {
        MergedNothing(mid);
      }
      if queue.byKey == map[] { timerRunning := false; }
    }

    static lemma MergedNothing(q: Queue)
      ensures MergedAll(q, []) == q
    {
    }

    method RetryBatch(batch: seq<Request>, at: Moments) returns (updates: seq<Update>, retry: seq<Request>)
      ensures updates == UpdatesOf(batch, at, |batch|)
      ensures retry == RetriesOf(batch, at, maxAttempts, |batch|)
    {
      hide Improved, UpdateFor, Resolver.Naive;
      updates, retry := [], [];
      for i := 0 to |batch|
        invariant updates == UpdatesOf(batch, at, i)
        invariant retry == RetriesOf(batch, at, maxAttempts, i)
      {
        var req := batch[i];
        var got := AttributeOne(at(i), req.flow, req.wantChain);
        if Improved(req, got) {
          updates := updates + [UpdateFor(req, got)];
        } else if req.attempts + 1 < maxAttempts {
          retry := retry + [req.(attempts := req.attempts + 1)];
        }
      }
    }
  }

  /** The attribution pass on a private copy of one flow. */
  method AttributeOne(r: Resolver, flow: Connection, wantChain: bool) returns (got: Connection)
    ensures got == r.Naive(0, flow, wantChain)
  {
    hide Resolver.Attributed, Resolver.Stable;
    var one := new Connection[1](_ => flow);
    var _ := AttributeFlows(one, Some(r), wantChain);
    if r.PidAt(0, flow) > 0 {
      assert FirstAlike(r, [flow], 0, 0);
    }
    got := one[0];
  }
}
