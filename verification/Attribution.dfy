/** The attribution pass over a snapshot, with per-pass memo tables keyed by
    (pid, start time), against a pass without any memo. */
module Attribution {
  import opened Connections
  import opened Sequences

  /** A process, as far as a pid can tell: pids are recycled, start times tell them apart. */
  datatype PidKey = PidKey(pid: int32, startTime: nat)

  /** A resolver's answers at the successive flows of a pass; the first argument is the
      position of the flow being attributed, so answers may change along the way. */
  datatype Resolver = Resolver(
    resolvePid: (nat, Connection) -> int32,
    startTime: (nat, int32) -> nat,
    enrichPid: (nat, int32) -> Option<ProcessInfo>,
    containerForPid: (nat, int32) -> Option<ContainerInfo>,
    chainForPid: (nat, int32) -> seq<ContainerInfo>)
  {
    function PidAt(i: nat, c: Connection): int32 { resolvePid(i, c) }

    function KeyAt(i: nat, c: Connection): PidKey {
      PidKey(PidAt(i, c), startTime(i, PidAt(i, c)))
    }

    function ProcessAt(j: nat, pid: int32): ProcessInfo {
      var p := enrichPid(j, pid);
      if p.Some? && p.value.IsValid() then p.value else NO_PROCESS
    }

    function ContainerAt(j: nat, pid: int32): ContainerInfo {
      var c := containerForPid(j, pid);
      if c.Some? then c.value else NO_CONTAINER
    }

    /** What a flow owned by `pid` becomes on the answers given at position j. */
    function Attributed(j: nat, pid: int32, c: Connection, wantChain: bool): Connection {
      var p := ProcessAt(j, pid);
      if !p.IsValid() then c.(process := p)
      else
        c.(process := p, container := ContainerAt(j, pid),
           containerChain := if wantChain then chainForPid(j, pid) else c.containerChain)
    }

    /** The pass without memo tables: every flow on the answers of its own moment. */
    function Naive(i: nat, c: Connection, wantChain: bool): Connection {
      if PidAt(i, c) <= 0 then c else Attributed(i, PidAt(i, c), c, wantChain)
    }

    /** Answers depend only on which process the pid names, that is on its start time. */
    ghost predicate Stable() {
      forall i, j, pid :: startTime(i, pid) == startTime(j, pid) ==>
        && enrichPid(i, pid) == enrichPid(j, pid)
        && containerForPid(i, pid) == containerForPid(j, pid)
        && chainForPid(i, pid) == chainForPid(j, pid)
    }
  }

  datatype Memo = Memo(
    process: map<PidKey, ProcessInfo>,
    container: map<PidKey, ContainerInfo>,
    chain: map<PidKey, seq<ContainerInfo>>)

  /** Each table holds the answers given when its key was first met, at position first[key]. */
  ghost predicate Remembers(m: Memo, r: Resolver, first: map<PidKey, nat>, wantChain: bool) {
    && m.process.Keys == first.Keys
    && (forall k :: k in first ==> m.process[k] == r.ProcessAt(first[k], k.pid))
    && (forall k :: k in m.container <==> k in first && m.process[k].IsValid())
    && (forall k :: k in m.container ==> m.container[k] == r.ContainerAt(first[k], k.pid))
    && (forall k :: k in m.chain <==> wantChain && k in m.container)
    && (forall k :: k in m.chain ==> m.chain[k] == r.chainForPid(first[k], k.pid))
  }

  method LookUpProcess(r: Resolver, i: nat, key: PidKey, table: map<PidKey, ProcessInfo>)
    returns (p: ProcessInfo, table': map<PidKey, ProcessInfo>, calls: seq<PidKey>)
    ensures key in table ==> p == table[key] && table' == table && calls == []
    ensures key !in table ==> p == r.ProcessAt(i, key.pid) && table' == table[key := p] && calls == [key]
  {
    if key in table { return table[key], table, []; }
    var info := NO_PROCESS;
    var answer := r.enrichPid(i, key.pid);
    if answer.Some? && answer.value.IsValid() { info := answer.value; }
    return info, table[key := info], [key];
  }

  method LookUpContainer(r: Resolver, i: nat, key: PidKey, table: map<PidKey, ContainerInfo>)
    returns (ci: ContainerInfo, table': map<PidKey, ContainerInfo>)
    ensures key in table ==> ci == table[key] && table' == table
    ensures key !in table ==> ci == r.ContainerAt(i, key.pid) && table' == table[key := ci]
  {
    if key in table { return table[key], table; }
    ci := NO_CONTAINER;
    var found := r.containerForPid(i, key.pid);
    if found.Some? { ci := found.value; }
    table' := table[key := ci];
  }

  method LookUpChain(r: Resolver, i: nat, key: PidKey, table: map<PidKey, seq<ContainerInfo>>)
    returns (chain: seq<ContainerInfo>, table': map<PidKey, seq<ContainerInfo>>)
    ensures key in table ==> chain == table[key] && table' == table
    ensures key !in table ==> chain == r.chainForPid(i, key.pid) && table' == table[key := chain]
  {
    if key in table { return table[key], table; }
    chain := r.chainForPid(i, key.pid);
    table' := table[key := chain];
  }

  lemma KnownKey(m: Memo, r: Resolver, first: map<PidKey, nat>, wantChain: bool, key: PidKey)
    requires Remembers(m, r, first, wantChain)
    ensures key in m.process <==> key in first
    ensures key in first ==>
      && m.process[key] == r.ProcessAt(first[key], key.pid)
      && (m.process[key].IsValid() ==> key in m.container && m.container[key] == r.ContainerAt(first[key], key.pid))
      && (m.process[key].IsValid() && wantChain ==>
          key in m.chain && m.chain[key] == r.chainForPid(first[key], key.pid))
    ensures key !in first ==> key !in m.container && key !in m.chain
  {
  }

  lemma NewKey(m: Memo, r: Resolver, first: map<PidKey, nat>, wantChain: bool, key: PidKey, i: nat)
    requires Remembers(m, r, first, wantChain) && key !in first
    ensures var valid := r.ProcessAt(i, key.pid).IsValid();
            Remembers(Memo(m.process[key := r.ProcessAt(i, key.pid)],
                           if valid then m.container[key := r.ContainerAt(i, key.pid)] else m.container,
                           if valid && wantChain then m.chain[key := r.chainForPid(i, key.pid)] else m.chain),
                      r, first[key := i], wantChain)
  {
  }

  /** Where each process was first met, once flow i has been looked at. */
  ghost function FirstAfter(r: Resolver, i: nat, c: Connection, first: map<PidKey, nat>): map<PidKey, nat> {
    if r.PidAt(i, c) <= 0 || r.KeyAt(i, c) in first then first else first[r.KeyAt(i, c) := i]
  }

  /** One flow, through the memo tables. */
  method AttributeFlow(r: Resolver, i: nat, c: Connection, wantChain: bool, memo: Memo, ghost first: map<PidKey, nat>)
    returns (c': Connection, memo': Memo, calls: seq<PidKey>)
    requires Remembers(memo, r, first, wantChain)
    ensures Remembers(memo', r, FirstAfter(r, i, c, first), wantChain)
    ensures r.PidAt(i, c) <= 0 ==> c' == c && calls == []
    ensures r.PidAt(i, c) > 0 ==>
      && calls == (if r.KeyAt(i, c) in first then [] else [r.KeyAt(i, c)])
      && c' == r.Attributed(FirstAfter(r, i, c, first)[r.KeyAt(i, c)], r.PidAt(i, c), c, wantChain)
  {
    hide Remembers, Resolver.ProcessAt, Resolver.ContainerAt;
    var pid := r.PidAt(i, c);
    if pid <= 0 { return c, memo, []; }
    var key := PidKey(pid, r.startTime(i, pid));
    KnownKey(memo, r, first, wantChain, key);
    if key !in first {
      NewKey(memo, r, first, wantChain, key, i);
    }
    var p, processes, containers, chains := NO_PROCESS, memo.process, memo.container, memo.chain;
    p, processes, calls := LookUpProcess(r, i, key, processes);
    c' := c.(process := p);
    if p.IsValid() {
      var ci;
      ci, containers := LookUpContainer(r, i, key, containers);
      c' := c'.(container := ci);
      if wantChain {
        var chain;
        chain, chains := LookUpChain(r, i, key, chains);
        c' := c'.(containerChain := chain);
      }
    }
    memo' := Memo(processes, containers, chains);
  }

  /** Position j is the first of the pass whose flow has the same process as flow i's. */
  ghost predicate FirstAlike(r: Resolver, flows: seq<Connection>, j: nat, i: nat) {
    && j <= i < |flows|
    && r.PidAt(j, flows[j]) > 0 && r.KeyAt(j, flows[j]) == r.KeyAt(i, flows[i])
    && forall k :: 0 <= k < j && r.PidAt(k, flows[k]) > 0 ==> r.KeyAt(k, flows[k]) != r.KeyAt(i, flows[i])
  }

  /** Does some flow of the pass belong to this process? */
  ghost predicate IsMet(r: Resolver, flows: seq<Connection>, k: PidKey) {
    exists i :: 0 <= i < |flows| && r.PidAt(i, flows[i]) > 0 && r.KeyAt(i, flows[i]) == k
  }

  /** first[k] is where key k was first met among the first n flows. */
  ghost predicate IsFirstMap(first: map<PidKey, nat>, r: Resolver, flows: seq<Connection>, n: nat)
    requires n <= |flows|
  {
    && (forall k :: k in first ==>
        first[k] < n && r.PidAt(first[k], flows[first[k]]) > 0 && r.KeyAt(first[k], flows[first[k]]) == k)
    && (forall i :: 0 <= i < n && r.PidAt(i, flows[i]) > 0 ==>
          r.KeyAt(i, flows[i]) in first && first[r.KeyAt(i, flows[i])] <= i)
  }

  lemma FirstMapStep(first: map<PidKey, nat>, r: Resolver, flows: seq<Connection>, n: nat)
    requires n < |flows| && IsFirstMap(first, r, flows, n)
    ensures IsFirstMap(if r.PidAt(n, flows[n]) <= 0 || r.KeyAt(n, flows[n]) in first then first
                       else first[r.KeyAt(n, flows[n]) := n], r, flows, n + 1)
  {
    hide Resolver.PidAt, Resolver.KeyAt;
  }

  /** What the first n flows have become: each on the answers given at first[its key]. */
  ghost predicate DoneOn(r: Resolver, was: seq<Connection>, now: seq<Connection>, first: map<PidKey, nat>, n: nat,
                         wantChain: bool)
  {
    && n <= |was| == |now|
    && (forall j :: 0 <= j < n && r.PidAt(j, was[j]) <= 0 ==> now[j] == was[j])
    && (forall j :: 0 <= j < n && r.PidAt(j, was[j]) > 0 ==>
          r.KeyAt(j, was[j]) in first
          && now[j] == r.Attributed(first[r.KeyAt(j, was[j])], r.PidAt(j, was[j]), was[j], wantChain))
  }

  /** The pass in place. Whatever the resolver does, each flow gets the answers given at the
      first flow of the same process; no process is looked up twice. If answers depend only
      on the process, that is exactly the pass without memo tables. */
  method AttributeFlows(flows: array<Connection>, resolver: Option<Resolver>, wantChain: bool)
    returns (enrichCalls: seq<PidKey>)
    modifies flows
    ensures resolver.None? ==> flows[..] == old(flows[..]) && enrichCalls == []
    ensures resolver.Some? ==> SharedAnswers(resolver.value, old(flows[..]), flows[..], wantChain)
    ensures resolver.Some? && resolver.value.Stable() ==>
      NaivePass(resolver.value, old(flows[..]), flows[..], wantChain)
    ensures NoDuplicates(enrichCalls)
    ensures resolver.Some? ==> forall x :: x in enrichCalls <==> IsMet(resolver.value, old(flows[..]), x)
  {
    hide Remembers, IsFirstMap, DoneOn, OncePerProcess, SharedAnswers, NaivePass;
    hide Resolver.PidAt, Resolver.KeyAt, Resolver.Attributed, Resolver.Stable;
    enrichCalls := [];
    if resolver.None? { return; }
    var r := resolver.value;
    ghost var was := flows[..];
    NothingYet(r, was, wantChain);
    var memo := Memo(map[], map[], map[]);
    ghost var first: map<PidKey, nat> := map[];
    for i := 0 to flows.Length
      invariant Remembers(memo, r, first, wantChain) && IsFirstMap(first, r, was, i)
      invariant forall j :: i <= j < flows.Length ==> flows[j] == was[j]
      invariant DoneOn(r, was, flows[..], first, i, wantChain)
      invariant OncePerProcess(enrichCalls, first)
    {
      var c, memo', calls;
      ghost var first', now := FirstAfter(r, i, was[i], first), flows[..];
      c, memo', calls := AttributeFlow(r, i, flows[i], wantChain, memo, first);
      FirstMapStep(first, r, was, i);
      DoneStep(r, was, now, first, i, wantChain, c, first');
      OnceMore(enrichCalls, first, r.KeyAt(i, was[i]), i);
      flows[i] := c;
      assert flows[..] == now[i := c];
      assert enrichCalls + [] == enrichCalls;
      memo, first, enrichCalls := memo', first', enrichCalls + calls;
    }
    PassEnds(r, was, flows[..], first, wantChain);
    OncePerKey(enrichCalls, first, r, was);
  }

  lemma NothingYet(r: Resolver, was: seq<Connection>, wantChain: bool)
    ensures Remembers(Memo(map[], map[], map[]), r, map[], wantChain) && IsFirstMap(map[], r, was, 0)
    ensures DoneOn(r, was, was, map[], 0, wantChain) && OncePerProcess([], map[])
  {
  }

  lemma OncePerKey(calls: seq<PidKey>, first: map<PidKey, nat>, r: Resolver, flows: seq<Connection>)
    requires OncePerProcess(calls, first) && IsFirstMap(first, r, flows, |flows|)
    ensures NoDuplicates(calls) && forall x :: x in calls <==> IsMet(r, flows, x)
  {
    hide Resolver.PidAt, Resolver.KeyAt;
    forall x ensures x in first <==> IsMet(r, flows, x) {
      if x in first {
        assert r.KeyAt(first[x], flows[first[x]]) == x;
      }
    }
  }

  ghost predicate OncePerProcess(calls: seq<PidKey>, first: map<PidKey, nat>) {
    NoDuplicates(calls) && forall x :: x in calls <==> x in first
  }

  lemma OnceMore(calls: seq<PidKey>, first: map<PidKey, nat>, key: PidKey, i: nat)
    requires OncePerProcess(calls, first)
    ensures key !in first ==> OncePerProcess(calls + [key], first[key := i])
  {
  }

  lemma DoneStep(r: Resolver, was: seq<Connection>, now: seq<Connection>, first: map<PidKey, nat>, n: nat,
                 wantChain: bool,
                 c: Connection, first': map<PidKey, nat>)
    requires DoneOn(r, was, now, first, n, wantChain) && n < |was|
    requires r.PidAt(n, was[n]) <= 0 ==> c == was[n] && first' == first
    requires r.PidAt(n, was[n]) > 0 ==>
      && first' == (if r.KeyAt(n, was[n]) in first then first else first[r.KeyAt(n, was[n]) := n])
      && c == r.Attributed(first'[r.KeyAt(n, was[n])], r.PidAt(n, was[n]), was[n], wantChain)
    ensures DoneOn(r, was, now[n := c], first', n + 1, wantChain)
  {
    hide Resolver.PidAt, Resolver.KeyAt, Resolver.Attributed;
  }

  /** Every flow carries the answers given at the first flow of the same process. */
  ghost predicate SharedAnswers(r: Resolver, was: seq<Connection>, now: seq<Connection>, wantChain: bool) {
    && |now| == |was|
    && (forall i :: 0 <= i < |was| && r.PidAt(i, was[i]) <= 0 ==> now[i] == was[i])
    && (forall i, j :: 0 <= i < |was| && FirstAlike(r, was, j, i) ==>
          now[i] == r.Attributed(j, r.PidAt(i, was[i]), was[i], wantChain))
  }

  ghost predicate NaivePass(r: Resolver, was: seq<Connection>, now: seq<Connection>, wantChain: bool) {
    |now| == |was| && forall i :: 0 <= i < |was| ==> now[i] == r.Naive(i, was[i], wantChain)
  }

  lemma PassEnds(r: Resolver, was: seq<Connection>, now: seq<Connection>, first: map<PidKey, nat>, wantChain: bool)
    requires IsFirstMap(first, r, was, |was|) && DoneOn(r, was, now, first, |was|, wantChain)
    ensures SharedAnswers(r, was, now, wantChain)
    ensures r.Stable() ==> NaivePass(r, was, now, wantChain)
  {
    hide Resolver.Attributed, Resolver.Stable, Resolver.PidAt;
    forall i, j: nat | 0 <= i < |was| && FirstAlike(r, was, j, i)
      ensures now[i] == r.Attributed(j, r.PidAt(i, was[i]), was[i], wantChain)
    {
      assert first[r.KeyAt(i, was[i])] == j;
    }
    if r.Stable() {
      forall i | 0 <= i < |was| ensures now[i] == r.Naive(i, was[i], wantChain) {
        if r.PidAt(i, was[i]) > 0 {
          SameAnswers(r, first[r.KeyAt(i, was[i])], i, was, wantChain);
        }
      }
    }
  }

  lemma SameAnswers(r: Resolver, j: nat, i: nat, flows: seq<Connection>, wantChain: bool)
    requires r.Stable() && j < |flows| && i < |flows| && r.KeyAt(j, flows[j]) == r.KeyAt(i, flows[i])
    ensures r.Attributed(j, r.PidAt(i, flows[i]), flows[i], wantChain)
      == r.Attributed(i, r.PidAt(i, flows[i]), flows[i], wantChain)
  {
    var pid := r.PidAt(i, flows[i]);
    assert r.startTime(j, pid) == r.startTime(i, pid);
  }
}
