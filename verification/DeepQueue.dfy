/** The bounded, deduplicating queue of flows awaiting deeper attribution. */
module DeepQueue {
  import opened Connections
  import opened Sequences
  import opened Sorting

  datatype Request = Request(
    key: FlowKey,
    flow: Connection,
    generation: nat,
    queuedMs: nat,
    wantChain: bool,
    attempts: int)

  type Queue = map<FlowKey, Request>

  // ---- priority -----------------------------------------------------------------------------

  /** Total bytes as the queue computes them: a 64-bit sum, which wraps. */
  function Loudness(r: Request): nat {
    TrueTotal(r.flow) % TWO64
  }

  function Louder(): (Request, Request) -> bool {
    (a: Request, b: Request) => Loudness(a) > Loudness(b)
  }

  lemma LouderIsStrictWeak()
    ensures StrictWeak(Louder())
  {
  }

  /** The wrapped sum is the true one exactly when it fits in 64 bits. */
  lemma LoudnessIsTrueTotal(r: Request)
    requires Fits64(r.flow)
    ensures Loudness(r) == TrueTotal(r.flow) <==> TrueTotal(r.flow) < TWO64
    ensures Loudness(r) == if TrueTotal(r.flow) < TWO64 then TrueTotal(r.flow) else TrueTotal(r.flow) - TWO64
  {
  }

  /** The two sums both fit, or neither does, or the one that wraps stays on its side. */
  predicate RanksTruly(a: Request, b: Request) {
    if TrueTotal(a.flow) < TWO64 <= TrueTotal(b.flow) then TrueTotal(a.flow) <= TrueTotal(b.flow) - TWO64
    else if TrueTotal(b.flow) < TWO64 <= TrueTotal(a.flow) then TrueTotal(b.flow) < TrueTotal(a.flow) - TWO64
    else true
  }

  /** The queue ranks two requests by their true totals exactly when they rank truly. */
  lemma LouderMeansMoreBytes(a: Request, b: Request)
    requires Fits64(a.flow) && Fits64(b.flow)
    ensures (Louder()(a, b) <==> TrueTotal(a.flow) > TrueTotal(b.flow)) <==> RanksTruly(a, b)
  {
    LoudnessIsTrueTotal(a);
    LoudnessIsTrueTotal(b);
  }

  /** A flow whose sum just wraps ranks below a flow of one byte. */
  lemma WrappedRanksLow(loud: Request, quiet: Request)
    requires loud.flow.counters == Counters(TWO64 - 1, 1, 1, 1) && quiet.flow.counters == Counters(1, 0, 1, 0)
    ensures Louder()(quiet, loud) && TrueTotal(quiet.flow) < TrueTotal(loud.flow) && !RanksTruly(quiet, loud)
  {
    LoudnessIsTrueTotal(loud);
    LoudnessIsTrueTotal(quiet);
  }

  // ---- merging ----------------------------------------------------------------------------------

  /** The newer observation replaces the flow, but attempts and generation never go back. */
  function Merged(q: Queue, r: Request): Queue {
    if r.key !in q then q[r.key := r]
    else q[r.key := r.(generation := Max(q[r.key].generation, r.generation),
                       attempts := Max(q[r.key].attempts, r.attempts))]
  }

  function MergedAll(q: Queue, reqs: seq<Request>): Queue {
    if reqs == [] then q else Merged(MergedAll(q, reqs[..|reqs| - 1]), reqs[|reqs| - 1])
  }

  ghost predicate Keyed(q: Queue) {
    forall k :: k in q ==> q[k].key == k
  }

  /** Nothing already queued is lost or set back by merging, and only the requests' own
      keys are added. */
  lemma {:induction false} MergeFacts(q: Queue, reqs: seq<Request>, k: FlowKey)
    requires Keyed(q)
    ensures Keyed(MergedAll(q, reqs))
    ensures k in MergedAll(q, reqs) <==> k in q || exists i :: 0 <= i < |reqs| && reqs[i].key == k
    ensures k in q ==>
      && MergedAll(q, reqs)[k].attempts >= q[k].attempts
      && MergedAll(q, reqs)[k].generation >= q[k].generation
  {
    if reqs != [] {
      var front, r := reqs[..|reqs| - 1], reqs[|reqs| - 1];
      MergeFacts(q, front, k);
      assert reqs == front + [r];
      if r.key == k {
        assert reqs[|reqs| - 1].key == k;
      } else if k in MergedAll(q, reqs) && k !in q {
        var i :| 0 <= i < |front| && front[i].key == k;
        assert reqs[i].key == k;
      }
    }
  }

  /** Of the requests for one key the last observation is the one that is queued. */
  lemma {:induction false} NewestIsQueued(q: Queue, reqs: seq<Request>, i: nat)
    requires i < |reqs| && forall j :: i < j < |reqs| ==> reqs[j].key != reqs[i].key
    ensures reqs[i].key in MergedAll(q, reqs)
    ensures var e := MergedAll(q, reqs)[reqs[i].key];
            e == reqs[i].(generation := e.generation, attempts := e.attempts)
  {
    if i < |reqs| - 1 {
      NewestIsQueued(q, reqs[..|reqs| - 1], i);
    }
  }

  // ---- capacity and order ---------------------------------------------------------------------

  /** kept is part of all, as large as the cap allows, and no dropped entry is louder than a
      kept one. */
  ghost predicate KeepsLoudest(all: Queue, kept: Queue, cap: int) {
    && (forall k :: k in kept ==> k in all && kept[k] == all[k])
    && |kept| == (if cap <= 0 then 0 else if |all| < cap then |all| else cap)
    && (forall k, d :: k in kept && d in all && d !in kept ==> Loudness(all[d]) <= Loudness(kept[k]))
  }

  /** out is taken off the top of q, loudest first, leaving rest. */
  ghost predicate TakesLoudest(q: Queue, batch: int, out: seq<Request>, rest: Queue) {
    && |out| == (if batch <= 0 then 0 else if |q| < batch then |q| else batch)
    && (forall i :: 0 <= i < |out| ==> out[i].key in q && q[out[i].key] == out[i])
    && (forall i, j :: 0 <= i < j < |out| ==> out[i].key != out[j].key && Loudness(out[j]) <= Loudness(out[i]))
    && rest == q - (set i | 0 <= i < |out| :: out[i].key)
    && (forall i, k :: 0 <= i < |out| && k in rest ==> Loudness(rest[k]) <= Loudness(out[i]))
  }

  ghost predicate AllFit(q: Queue) {
    forall k :: k in q ==> TrueTotal(q[k].flow) < TWO64
  }

  /** Where no sum wraps, nothing dropped has more bytes than anything kept. */
  lemma KeepsTrulyLoudest(all: Queue, kept: Queue, cap: int)
    requires KeepsLoudest(all, kept, cap) && AllFit(all)
    ensures forall k, d :: k in kept && d in all && d !in kept ==> TrueTotal(all[d].flow) <= TrueTotal(kept[k].flow)
  {
    forall k, d | k in kept && d in all && d !in kept ensures TrueTotal(all[d].flow) <= TrueTotal(kept[k].flow) {
      LoudnessIsTrueTotal(all[d]);
      LoudnessIsTrueTotal(kept[k]);
    }
  }

  /** Likewise for what is taken: most bytes first, and no more bytes are left than taken. */
  lemma TakesTrulyLoudest(q: Queue, batch: int, out: seq<Request>, rest: Queue)
    requires TakesLoudest(q, batch, out, rest) && AllFit(q)
    ensures forall i, j :: 0 <= i < j < |out| ==> TrueTotal(out[j].flow) <= TrueTotal(out[i].flow)
    ensures forall i, k :: 0 <= i < |out| && k in rest ==> TrueTotal(rest[k].flow) <= TrueTotal(out[i].flow)
  {
    forall i | 0 <= i < |out| ensures Loudness(out[i]) == TrueTotal(out[i].flow) {
      assert q[out[i].key] == out[i];
      LoudnessIsTrueTotal(out[i]);
    }
    forall k | k in rest ensures Loudness(rest[k]) == TrueTotal(rest[k].flow) {
      LoudnessIsTrueTotal(rest[k]);
    }
    hide Loudness, TrueTotal;
  }

  /** A listing of the queue's entries, each once, in any order. */
  ghost predicate IsListing(list: seq<Request>, q: Queue) {
    && Keyed(q) && NoDuplicates(list) && |list| == |q|
    && (forall i :: 0 <= i < |list| ==> list[i].key in q && q[list[i].key] == list[i])
    && (forall k :: k in q ==> q[k] in list)
  }

  method ListEntries(q: Queue) returns (list: seq<Request>)
    requires Keyed(q)
    ensures IsListing(list, q)
  {
    list := [];
    var rest := q;
    while rest != map[]
      invariant rest.Keys <= q.Keys && forall k :: k in rest ==> rest[k] == q[k]
      invariant NoDuplicates(list) && |list| + |rest| == |q|
      invariant forall i :: 0 <= i < |list| ==> list[i].key in q && list[i].key !in rest && q[list[i].key] == list[i]
      invariant forall k :: k in q && k !in rest ==> q[k] in list
      decreases |rest|
    {
      var k :| k in rest;
      ghost var before := list;
      list := list + [rest[k]];
      assert list[|before|] == q[k];
      assert (rest - {k}).Keys == rest.Keys - {k};
      rest := rest - {k};
    }
  }

  lemma ListingPermuted(list: seq<Request>, sorted: seq<Request>, q: Queue)
    requires IsListing(list, q) && multiset(list) == multiset(sorted)
    ensures IsListing(sorted, q)
  {
    PermutationNoDuplicates(list, sorted);
    SameLength(list, sorted);
    forall i | 0 <= i < |sorted| ensures sorted[i].key in q && q[sorted[i].key] == sorted[i] {
      assert sorted[i] in list;
      var j :| 0 <= j < |list| && list[j] == sorted[i];
    }
  }

  ghost function KeysOf(s: seq<Request>): set<FlowKey> {
    set i | 0 <= i < |s| :: s[i].key
  }

  lemma {:induction false} KeysCount(s: seq<Request>)
    requires forall i, j :: 0 <= i < j < |s| ==> s[i].key != s[j].key
    ensures |KeysOf(s)| == |s|
  {
    if s != [] {
      var front, last := s[..|s| - 1], s[|s| - 1];
      KeysCount(front);
      assert KeysOf(s) == KeysOf(front) + {last.key};
      assert last.key !in KeysOf(front);
    }
  }

  lemma ListingKeysDistinct(list: seq<Request>, q: Queue)
    requires IsListing(list, q)
    ensures forall i, j :: 0 <= i < j < |list| ==> list[i].key != list[j].key
  {
  }

  lemma KeyInListing(list: seq<Request>, q: Queue, k: FlowKey) returns (m: nat)
    requires IsListing(list, q) && k in q
    ensures m < |list| && list[m] == q[k] && list[m].key == k
  {
    assert q[k] in list;
    m :| 0 <= m < |list| && list[m] == q[k];
  }

  lemma KeysApart(a: seq<Request>, b: seq<Request>)
    requires forall i, j :: 0 <= i < |a| && 0 <= j < |b| ==> a[i].key != b[j].key
    ensures KeysOf(a) !! KeysOf(b)
  {
  }

  lemma KeysOfParts(list: seq<Request>, n: nat)
    requires n <= |list|
    ensures KeysOf(list[..n]) + KeysOf(list[n..]) == KeysOf(list)
  {
    forall i | 0 <= i < |list| ensures list[i].key in KeysOf(list[..n]) + KeysOf(list[n..]) {
      if i < n {
        assert list[..n][i].key == list[i].key;
      } else {
        assert list[n..][i - n].key == list[i].key;
      }
    }
  }

  lemma KeysOfListing(list: seq<Request>, q: Queue)
    requires IsListing(list, q)
    ensures KeysOf(list) == q.Keys
  {
    forall k | k in q ensures k in KeysOf(list) {
      var _ := KeyInListing(list, q, k);
    }
  }

  /** Cutting a listing in two cuts the queue's keys in two. */
  lemma CutListing(list: seq<Request>, q: Queue, n: nat)
    requires IsListing(list, q) && n <= |list|
    ensures KeysOf(list[..n]) !! KeysOf(list[n..]) && KeysOf(list[..n]) + KeysOf(list[n..]) == q.Keys
    ensures |KeysOf(list[..n])| == n
  {
    ListingKeysDistinct(list, q);
    hide IsListing, KeysOf;
    KeysCount(list[..n]);
    KeysApart(list[..n], list[n..]);
    KeysOfParts(list, n);
    KeysOfListing(list, q);
  }

  /** The first n entries are in order, and nothing behind them is louder. */
  ghost predicate LoudestFirst(sorted: seq<Request>, n: nat) {
    && n <= |sorted|
    && (forall i, j :: 0 <= i < j < n ==> Loudness(sorted[j]) <= Loudness(sorted[i]))
    && (forall i, j :: 0 <= i < n <= j < |sorted| ==> Loudness(sorted[j]) <= Loudness(sorted[i]))
  }

  lemma PartialSortIsLoudestFirst(all: seq<Request>, sorted: seq<Request>, n: nat)
    requires IsPartialSortOf(Louder(), n, all, sorted)
    ensures LoudestFirst(sorted, n)
  {
    forall i, j | 0 <= i < j < n ensures Loudness(sorted[j]) <= Loudness(sorted[i]) {
      assert !Louder()(sorted[..n][j], sorted[..n][i]);
    }
    forall i, j | 0 <= i < n <= j < |sorted| ensures Loudness(sorted[j]) <= Loudness(sorted[i]) {
      assert !Louder()(sorted[j], sorted[i]);
    }
  }

  lemma BehindIsQuieter(sorted: seq<Request>, q: Queue, n: nat, i: nat, k: FlowKey)
    requires IsListing(sorted, q) && LoudestFirst(sorted, n) && i < n && k in q && k !in KeysOf(sorted[..n])
    ensures Loudness(q[k]) <= Loudness(sorted[i])
  {
    var m := KeyInListing(sorted, q, k);
    assert forall j :: 0 <= j < n ==> sorted[..n][j].key in KeysOf(sorted[..n]);
  }

  lemma TakesNothing(q: Queue, batch: int)
    requires batch <= 0 || q == map[]
    ensures TakesLoudest(q, batch, [], q)
  {
    assert q == q - {};
  }

  lemma RestIsAQueue(q: Queue, gone: set<FlowKey>)
    requires Keyed(q)
    ensures Keyed(q - gone) && |q - gone| <= |q|
  {
    assert (q - gone).Keys == q.Keys - gone;
  }

  lemma TakesFront(q: Queue, sorted: seq<Request>, n: nat, batch: int)
    requires IsListing(sorted, q) && LoudestFirst(sorted, n)
    requires n == if batch <= 0 then 0 else if |q| < batch then |q| else batch
    ensures TakesLoudest(q, batch, sorted[..n], q - KeysOf(sorted[..n]))
  {
    ListingKeysDistinct(sorted, q);
    hide Loudness, NoDuplicates;
    forall i, k | 0 <= i < n && k in q - KeysOf(sorted[..n])
      ensures Loudness(q[k]) <= Loudness(sorted[i])
    {
      BehindIsQuieter(sorted, q, n, i, k);
    }
  }

  lemma KeptIsLouder(q: Queue, sorted: seq<Request>, cap: nat, k: FlowKey, d: FlowKey)
    requires IsListing(sorted, q) && LoudestFirst(sorted, cap)
    requires k in KeysOf(sorted[..cap]) && d in q && d !in KeysOf(sorted[..cap])
    ensures k in q && Loudness(q[d]) <= Loudness(q[k])
  {
    var i :| 0 <= i < |sorted[..cap]| && sorted[..cap][i].key == k;
    assert q[k] == sorted[i];
    BehindIsQuieter(sorted, q, cap, i, d);
  }

  lemma KeepsFront(q: Queue, sorted: seq<Request>, cap: nat)
    requires IsListing(sorted, q) && 0 < cap < |sorted| && LoudestFirst(sorted, cap)
    ensures KeepsLoudest(q, q - KeysOf(sorted[cap..]), cap)
  {
    hide Loudness, LoudestFirst, KeysOf;
    var front, back := KeysOf(sorted[..cap]), KeysOf(sorted[cap..]);
    CutListing(sorted, q, cap);
    var kept := q - back;
    assert kept.Keys == front;
    forall k, d | k in kept && d in q && d !in kept ensures Loudness(q[d]) <= Loudness(kept[k]) {
      KeptIsLouder(q, sorted, cap, k, d);
    }
  }

  // ---- the queue --------------------------------------------------------------------------------

  class DeepAttributionQueue {
    var byKey: Queue
    var cap: int

    ghost predicate Valid()
      reads this
    {
      Keyed(byKey) && |byKey| <= (if cap <= 0 then 0 else cap)
    }

    constructor (capacity: int)
      ensures Valid() && byKey == map[] && cap == capacity
    {
      byKey, cap := map[], capacity;
    }

    method SetCapacity(c: int)
      requires Valid()
      modifies this
      ensures Valid() && cap == (if c > 0 then c else 0)
      ensures KeepsLoudest(old(byKey), byKey, cap)
    {
      cap := if c > 0 then c else 0;
      var _ := EnforceCap();
    }

    /** Merge the requests in; what does not fit is dropped, quietest first. */
    method Enqueue(reqs: seq<Request>) returns (dropped: nat)
      requires Valid()
      modifies `byKey
      ensures Valid() && KeepsLoudest(MergedAll(old(byKey), reqs), byKey, cap)
      ensures dropped == |MergedAll(old(byKey), reqs)| - |byKey|
    {
      for i := 0 to |reqs|
        invariant byKey == MergedAll(old(byKey), reqs[..i]) && Keyed(byKey)
      {
        assert reqs[..i + 1][..i] == reqs[..i];
        var r := reqs[i];
        if r.key !in byKey {
          byKey := byKey[r.key := r];
        } else {
          var was := byKey[r.key];
          byKey := byKey[r.key := r.(generation := Max(was.generation, r.generation),
                                     attempts := Max(was.attempts, r.attempts))];
        }
      }
      assert reqs[..|reqs|] == reqs;
      dropped := EnforceCap();
    }

    method EnforceCap() returns (dropped: nat)
      requires Keyed(byKey)
      modifies `byKey
      ensures Valid() && KeepsLoudest(old(byKey), byKey, cap)
      ensures dropped == |old(byKey)| - |byKey|
    {
      if cap <= 0 {
        dropped := |byKey|;
        byKey := map[];
        return;
      }
      if |byKey| <= cap { return 0; }
      var all := ListEntries(byKey);
      LouderIsStrictWeak();
      var sorted := PartialSort(all, cap, Louder());
      ListingPermuted(all, sorted, byKey);
      PartialSortIsLoudestFirst(all, sorted, cap);
      KeepsFront(byKey, sorted, cap);
      dropped := |sorted| - cap;
      RemoveAll(sorted[cap..]);
    }

    method RemoveAll(gone: seq<Request>)
      modifies `byKey
      ensures byKey == old(byKey) - KeysOf(gone)
    {
      for i := 0 to |gone|
        invariant byKey == old(byKey) - KeysOf(gone[..i])
      {
        assert KeysOf(gone[..i + 1]) == KeysOf(gone[..i]) + {gone[i].key};
        byKey := byKey - {gone[i].key};
      }
      assert gone[..|gone|] == gone;
    }

    /** Remove and return the loudest, at most `batch` of them. */
    method Dequeue(batch: int) returns (out: seq<Request>)
      requires Valid()
      modifies `byKey
      ensures Valid() && TakesLoudest(old(byKey), batch, out, byKey)
    {
      hide TakesLoudest, Loudness, Keyed, LoudestFirst, StrictWeak;
      if batch <= 0 || byKey == map[] {
        TakesNothing(byKey, batch);
        return [];
      }
      var all := ListEntries(byKey);
      var n := if batch < |all| then batch else |all|;
      LouderIsStrictWeak();
      var sorted := PartialSort(all, n, Louder());
      ListingPermuted(all, sorted, byKey);
      PartialSortIsLoudestFirst(all, sorted, n);
      TakesFront(byKey, sorted, n, batch);
      out := sorted[..n];
      RestIsAQueue(byKey, KeysOf(out));
      RemoveAll(out);
    }

    method Clear()
      modifies `byKey
      ensures byKey == map[] && Valid()
    {
      byKey := map[];
    }
  }

  // ---- any sequence of operations -----------------------------------------------------------------

  datatype QueueState = QueueState(q: Queue, cap: int)

  datatype QueueOp = Put(reqs: seq<Request>) | Take(batch: int, out: seq<Request>) | Resize(c: int) | Wipe

  /** What each operation may do, as the methods promise it. */
  ghost predicate QueueStep(a: QueueState, op: QueueOp, b: QueueState) {
    match op
    case Put(reqs) => b.cap == a.cap && KeepsLoudest(MergedAll(a.q, reqs), b.q, a.cap)
    case Take(batch, out) => b.cap == a.cap && TakesLoudest(a.q, batch, out, b.q)
    case Resize(c) => b.cap == (if c > 0 then c else 0) && KeepsLoudest(a.q, b.q, b.cap)
    case Wipe => b.cap == a.cap && b.q == map[]
  }

  ghost predicate WithinCap(s: QueueState) {
    Keyed(s.q) && |s.q| <= (if s.cap <= 0 then 0 else s.cap)
  }

  lemma QueueStepFacts(a: QueueState, op: QueueOp, b: QueueState, k: FlowKey)
    requires WithinCap(a) && QueueStep(a, op, b)
    ensures WithinCap(b)
    ensures k in a.q && k in b.q ==> b.q[k].attempts >= a.q[k].attempts && b.q[k].generation >= a.q[k].generation
  {
    hide Loudness;
    match op {
      case Put(reqs) =>
        MergeFacts(a.q, reqs, k);
        forall x | x in b.q ensures b.q[x].key == x { MergeFacts(a.q, reqs, x); }
      case Take(_, out) =>
        assert b.q.Keys <= a.q.Keys;
        FewerKeys(b.q.Keys, a.q.Keys);
      case Resize(_) =>
      case Wipe =>
    }
  }

  lemma FewerKeys(a: set<FlowKey>, b: set<FlowKey>)
    requires a <= b
    ensures |a| <= |b| && (|a| == |b| ==> a == b)
  {
    assert b == a + (b - a);
  }

  ghost predicate QueueRun(states: seq<QueueState>, ops: seq<QueueOp>) {
    && |states| == |ops| + 1 && WithinCap(states[0])
    && forall i :: 0 <= i < |ops| ==> QueueStep(states[i], ops[i], states[i + 1])
  }

  /** Over any run the queue stays within its capacity, and while a key stays queued its
      attempts and generation never decrease. */
  lemma {:induction false} QueueDiscipline(states: seq<QueueState>, ops: seq<QueueOp>, k: FlowKey, i: nat, j: nat)
    requires QueueRun(states, ops) && i <= j < |states|
    ensures WithinCap(states[j])
    ensures (forall m :: i <= m <= j ==> k in states[m].q) ==>
              && states[j].q[k].attempts >= states[i].q[k].attempts
              && states[j].q[k].generation >= states[i].q[k].generation
    decreases j
  {
    hide QueueStep;
    if j > 0 {
      if i < j {
        QueueDiscipline(states, ops, k, i, j - 1);
      } else {
        QueueDiscipline(states, ops, k, j - 1, j - 1);
      }
      QueueStepFacts(states[j - 1], ops[j - 1], states[j], k);
    }
  }
}
