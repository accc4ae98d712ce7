/** UDP flows folded into one row per peer: accumulators that survive counter
    resets and the expiry of members, against a log of everything observed. */
module UdpPeers {
  import opened Connections

  datatype Member = Member(counters: Counters, lastSeenMs: int)

  datatype Peer = Peer(base: Counters, members: map<FlowId, Member>, lastSeenMs: int)

  const NEW_PEER := Peer(ZERO, map[], 0)

  predicate IsFolded(c: Connection) {
    c.proto.Udp? && !c.direction.UnknownDirection?
  }

  /** The row a folded flow lends its fields to: its own port is dropped. */
  function PeerRow(c: Connection): Connection {
    if c.direction.Outbound? then c.(local := c.local.(port := 0)) else c.(remote := c.remote.(port := 0))
  }

  /** A reset shows as a drop of either byte counter; packets are not looked at. */
  predicate Dropped(now: Counters, was: Counters) {
    now.rxBytes < was.rxBytes || now.txBytes < was.txBytes
  }

  function Observe(p: Peer, id: FlowId, c: Counters, nowMs: int): Peer {
    var was := if id in p.members then p.members[id].counters else ZERO;
    Peer(if Dropped(c, was) then p.base.Plus(was) else p.base, p.members[id := Member(c, nowMs)], nowMs)
  }

  // ---- totals -----------------------------------------------------------------------

  ghost function SumMembers(m: map<FlowId, Member>): Counters {
    if m == map[] then ZERO
    else
      var id :| id in m;
      m[id].counters.Plus(SumMembers(m - {id}))
  }

  ghost function PeerTotal(p: Peer): Counters {
    p.base.Plus(SumMembers(p.members))
  }

  lemma SumFirst(m: map<FlowId, Member>) returns (first: FlowId)
    requires m != map[]
    ensures first in m && SumMembers(m) == m[first].counters.Plus(SumMembers(m - {first}))
  {
    hide Counters.Plus;
    first :| first in m && SumMembers(m) == m[first].counters.Plus(SumMembers(m - {first}));
  }

  lemma {:induction false} SumTakeOut(m: map<FlowId, Member>, id: FlowId)
    requires id in m
    ensures SumMembers(m) == m[id].counters.Plus(SumMembers(m - {id}))
    decreases |m|
  {
    hide Counters.Plus, SumMembers;
    var first := SumFirst(m);
    if first != id {
      assert |m - {first}| < |m| && |m - {id}| < |m| by {
        assert (m - {first}).Keys == m.Keys - {first} && (m - {id}).Keys == m.Keys - {id};
      }
      SumTakeOut(m - {first}, id);
      SumTakeOut(m - {id}, first);
      assert m - {first} - {id} == m - {id} - {first};
      PlusSwaps(m[first].counters, m[id].counters, SumMembers(m - {first} - {id}));
    }
  }

  lemma PlusSwaps(a: Counters, b: Counters, c: Counters)
    ensures a.Plus(b.Plus(c)) == b.Plus(a.Plus(c))
  {
  }

  lemma SumPut(m: map<FlowId, Member>, id: FlowId, x: Member)
    ensures SumMembers(m[id := x]) == x.counters.Plus(SumMembers(m - {id}))
  {
    SumTakeOut(m[id := x], id);
    assert m[id := x] - {id} == m - {id};
  }

  /** The bytes an observation adds: the growth of the counter, or all of it when
      the flow is new or was reset. Never negative. */
  function Growth(p: Peer, id: FlowId, c: Counters): (r: (int, int))
    ensures r.0 >= 0 && r.1 >= 0
  {
    if id in p.members && !Dropped(c, p.members[id].counters)
    then (c.rxBytes - p.members[id].counters.rxBytes, c.txBytes - p.members[id].counters.txBytes)
    else (c.rxBytes, c.txBytes)
  }

  /** The packets an observation adds, by the same rule. Packets do not show a reset, so this
      is negative when they alone drop. */
  function PacketGrowth(p: Peer, id: FlowId, c: Counters): (int, int) {
    if id in p.members && !Dropped(c, p.members[id].counters)
    then (c.rxPackets - p.members[id].counters.rxPackets, c.txPackets - p.members[id].counters.txPackets)
    else (c.rxPackets, c.txPackets)
  }

  lemma ObserveGrows(p: Peer, id: FlowId, c: Counters, nowMs: int)
    ensures PeerTotal(Observe(p, id, c, nowMs)).rxBytes == PeerTotal(p).rxBytes + Growth(p, id, c).0
    ensures PeerTotal(Observe(p, id, c, nowMs)).txBytes == PeerTotal(p).txBytes + Growth(p, id, c).1
    ensures PeerTotal(Observe(p, id, c, nowMs)).rxPackets == PeerTotal(p).rxPackets + PacketGrowth(p, id, c).0
    ensures PeerTotal(Observe(p, id, c, nowMs)).txPackets == PeerTotal(p).txPackets + PacketGrowth(p, id, c).1
  {
    SumPut(p.members, id, Member(c, nowMs));
    if id in p.members {
      SumTakeOut(p.members, id);
    } else {
      assert p.members - {id} == p.members;
    }
  }

  /** A reading whose packets have dropped although its bytes have not. */
  predicate PacketsAloneDrop(p: Peer, id: FlowId, c: Counters, rx: bool) {
    && id in p.members && !Dropped(c, p.members[id].counters)
    && (if rx then c.rxPackets < p.members[id].counters.rxPackets else c.txPackets < p.members[id].counters.txPackets)
  }

  /** A peer's packet total shrinks at an observation exactly when packets alone drop. */
  lemma PacketsShrinkExactly(p: Peer, id: FlowId, c: Counters, nowMs: int)
    ensures PeerTotal(Observe(p, id, c, nowMs)).rxPackets < PeerTotal(p).rxPackets <==>
              PacketsAloneDrop(p, id, c, true)
    ensures PeerTotal(Observe(p, id, c, nowMs)).txPackets < PeerTotal(p).txPackets <==>
              PacketsAloneDrop(p, id, c, false)
  {
    ObserveGrows(p, id, c, nowMs);
  }

  /** Such a reading: packets go from 10 to 4 while bytes stay, and so does the total. */
  lemma PacketsCanShrink(id: FlowId)
    ensures var p := Observe(NEW_PEER, id, Counters(100, 0, 10, 0), 1);
            && PeerTotal(p).rxPackets == 10
            && PeerTotal(Observe(p, id, Counters(100, 0, 4, 0), 2)).rxPackets == 4
  {
    var p := Observe(NEW_PEER, id, Counters(100, 0, 10, 0), 1);
    ObserveGrows(NEW_PEER, id, Counters(100, 0, 10, 0), 1);
    ObserveGrows(p, id, Counters(100, 0, 4, 0), 2);
  }

  /** Summing the members by iteration, in whatever order the table yields them. */
  method Total(p: Peer) returns (t: Counters)
    ensures t == PeerTotal(p)
  {
    t := p.base;
    var rest := p.members;
    while rest != map[]
      invariant t.Plus(SumMembers(rest)) == PeerTotal(p)
      decreases |rest|
    {
      var id :| id in rest;
      SumTakeOut(rest, id);
      t := t.Plus(rest[id].counters);
      assert (rest - {id}).Keys == rest.Keys - {id};
      rest := rest - {id};
    }
  }

  // ---- the log of observations --------------------------------------------------------

  datatype PeerEvent =
    | Seen(member: FlowId, counters: Counters)
    | Expired(member: FlowId)

  /** Position of the next event of the same member at or after j, or the end. */
  ghost function Next(log: seq<PeerEvent>, i: nat, j: nat): nat
    requires i < |log|
    decreases |log| - j
  {
    if j >= |log| || log[j].member == log[i].member then j else Next(log, i, j + 1)
  }

  /** Is this the final reading of its epoch? An epoch of a member ends at a counter
      drop, at its expiry, or is still open at the end of the log. */
  ghost predicate EndsEpoch(log: seq<PeerEvent>, i: nat)
    requires i < |log|
  {
    log[i].Seen? &&
    var n := Next(log, i, i + 1);
    n >= |log| || log[n].Expired? || Dropped(log[n].counters, log[i].counters)
  }

  ghost function EpochSum(log: seq<PeerEvent>, n: nat): Counters
    requires n <= |log|
  {
    if n == 0 then ZERO
    else EpochSum(log, n - 1).Plus(EpochEnd(log, n - 1))
  }

  ghost function EpochEnd(log: seq<PeerEvent>, i: nat): Counters
    requires i < |log|
  {
    if EndsEpoch(log, i) then log[i].counters else ZERO
  }

  /** What the log last said of a member: its reading, or nothing if never seen or expired. */
  ghost function Latest(log: seq<PeerEvent>, id: FlowId): Option<Counters> {
    if log == [] then None
    else
      var e := log[|log| - 1];
      if e.member == id then (if e.Seen? then Some(e.counters) else None)
      else Latest(log[..|log| - 1], id)
  }

  /** The accumulator is a faithful digest of the log: open epochs are the members,
      and the total is the sum of the final readings of all epochs ever. */
  ghost predicate Digests(p: Peer, log: seq<PeerEvent>) {
    && (forall id :: id in p.members <==> Latest(log, id).Some?)
    && (forall id :: id in p.members ==> p.members[id].counters == Latest(log, id).value)
    && PeerTotal(p) == EpochSum(log, |log|)
  }

  lemma {:induction false} NextAppended(log: seq<PeerEvent>, e: PeerEvent, i: nat, j: nat)
    requires i < |log| && j <= |log|
    ensures Next(log, i, j) < |log| ==> Next(log + [e], i, j) == Next(log, i, j)
    ensures Next(log, i, j) >= |log| ==>
              Next(log + [e], i, j) == (if e.member == log[i].member then |log| else |log| + 1)
    decreases |log| - j
  {
    if j < |log| && log[j].member != log[i].member {
      NextAppended(log, e, i, j + 1);
    }
  }

  lemma NextPastEnd(log: seq<PeerEvent>, i: nat)
    requires i + 1 == |log|
    ensures Next(log, i, i + 1) == |log|
  {
  }

  /** The only reading of a member that no later event of it follows, if it has one, is at
      `open`. */
  ghost predicate SoleOpen(log: seq<PeerEvent>, id: FlowId, open: nat) {
    && (open < |log| ==> log[open].Seen? && log[open].member == id && Next(log, open, open + 1) >= |log|)
    && (forall i :: 0 <= i < |log| && i != open && log[i].member == id && log[i].Seen? ==> Next(log, i, i + 1) < |log|)
  }

  ghost predicate NextGrew(log: seq<PeerEvent>, e: PeerEvent, i: nat)
    requires i < |log|
  {
    Next(log + [e], i, i + 1) ==
    if Next(log, i, i + 1) < |log| then Next(log, i, i + 1)
    else if e.member == log[i].member then |log| else |log| + 1
  }

  lemma SoleOpenAppended(log: seq<PeerEvent>, e: PeerEvent, id: FlowId, open: nat)
    requires SoleOpen(log, id, open)
    ensures SoleOpen(log + [e], id,
                     if e.member == id then (if e.Seen? then |log| else |log| + 1)
                     else if open < |log| then open else |log| + 1)
  {
    hide Next;
    NextPastEnd(log + [e], |log|);
    forall i | 0 <= i < |log| ensures NextGrew(log, e, i) {
      NextAppended(log, e, i, i + 1);
    }
    assert forall i :: 0 <= i < |log| ==> log[i] == (log + [e])[i] && NextGrew(log, e, i);
  }

  /** The position still open for a member, if there is one, is unique. */
  lemma {:induction false} OpenPosition(log: seq<PeerEvent>, id: FlowId) returns (open: nat)
    ensures SoleOpen(log, id, open)
    ensures Latest(log, id).Some? ==> open < |log| && log[open] == Seen(id, Latest(log, id).value)
    ensures Latest(log, id).None? ==> open >= |log|
  {
    if log == [] {
      return 0;
    }
    hide Next, SoleOpen, Latest;
    var front, e := log[..|log| - 1], log[|log| - 1];
    assert log == front + [e];
    var was := OpenPosition(front, id);
    SoleOpenAppended(front, e, id, was);
    LatestAppended(front, e, id);
    if e.member == id {
      open := if e.Seen? then |front| else |log|;
    } else {
      open := if was < |front| then was else |log|;
    }
  }

  lemma EndAppended(log: seq<PeerEvent>, e: PeerEvent, open: nat, i: nat)
    requires i < |log| && SoleOpen(log, e.member, open)
    ensures EndsEpoch(log + [e], i) ==
            (EndsEpoch(log, i) && !(i == open && e.Seen? && !Dropped(e.counters, log[i].counters)))
    ensures i == open ==> EndsEpoch(log, i)
    ensures EndsEpoch(log, i) ==> log[i].Seen?
  {
    NextAppended(log, e, i, i + 1);
    hide Next;
    assert (log + [e])[i] == log[i];
  }

  /** What an event un-ends: the open reading of its member, when it continues it. */
  ghost function Undone(log: seq<PeerEvent>, e: PeerEvent, open: nat): Counters {
    if open < |log| && log[open].Seen? && e.Seen? && !Dropped(e.counters, log[open].counters)
    then log[open].counters else ZERO
  }

  lemma EpochEndAppended(log: seq<PeerEvent>, e: PeerEvent, open: nat, i: nat)
    requires i < |log| && SoleOpen(log, e.member, open)
    ensures EpochEnd(log, i) == EpochEnd(log + [e], i).Plus(if i == open then Undone(log, e, open) else ZERO)
  {
    EndAppended(log, e, open, i);
    hide SoleOpen, Dropped, Next, EndsEpoch, Counters.Plus;
    assert (log + [e])[i] == log[i];
    if EndsEpoch(log, i) {
      PlusPairs(log[i].counters, ZERO, ZERO, ZERO);
    } else {
      PlusPairs(ZERO, ZERO, ZERO, ZERO);
    }
  }

  lemma PlusPairs(a: Counters, x: Counters, b: Counters, y: Counters)
    ensures a.Plus(x).Plus(b.Plus(y)) == a.Plus(b).Plus(x.Plus(y))
    ensures a.Plus(ZERO) == a && ZERO.Plus(a) == a
  {
  }

  /** One more event changes the sum of epoch ends only by un-ending the member's open
      epoch, when the event continues it. */
  lemma {:induction false} EpochSumAppended(log: seq<PeerEvent>, e: PeerEvent, open: nat, n: nat)
    requires n <= |log| && SoleOpen(log, e.member, open)
    ensures EpochSum(log, n) == EpochSum(log + [e], n).Plus(if open < n then Undone(log, e, open) else ZERO)
  {
    hide EpochEnd, SoleOpen, Undone, Counters.Plus;
    PlusPairs(ZERO, ZERO, ZERO, ZERO);
    if n > 0 {
      EpochSumAppended(log, e, open, n - 1);
      EpochEndAppended(log, e, open, n - 1);
      var x := if open < n - 1 then Undone(log, e, open) else ZERO;
      var y := if n - 1 == open then Undone(log, e, open) else ZERO;
      PlusPairs(EpochSum(log + [e], n - 1), x, EpochEnd(log + [e], n - 1), y);
      PlusPairs(x, ZERO, y, ZERO);
      PlusPairs(y, ZERO, x, ZERO);
    }
  }

  lemma LatestAppended(log: seq<PeerEvent>, e: PeerEvent, id: FlowId)
    ensures Latest(log + [e], id) ==
            if e.member == id then (if e.Seen? then Some(e.counters) else None) else Latest(log, id)
  {
    assert (log + [e])[..|log|] == log;
  }

  lemma EpochSumLast(log: seq<PeerEvent>, e: PeerEvent)
    ensures EpochSum(log + [e], |log| + 1)
            == EpochSum(log + [e], |log|).Plus(if e.Seen? then e.counters else ZERO)
  {
    assert (log + [e])[|log|] == e;
  }

  /** Observing a flow keeps the accumulator a digest of the log. */
  lemma ObserveDigests(p: Peer, log: seq<PeerEvent>, id: FlowId, c: Counters, nowMs: int)
    requires Digests(p, log)
    ensures Digests(Observe(p, id, c, nowMs), log + [Seen(id, c)])
  {
    hide Latest, EpochSum, SumMembers;
    ObserveTotals(p, log, id, c, nowMs);
    forall x ensures Latest(log + [Seen(id, c)], x) == if x == id then Some(c) else Latest(log, x) {
      LatestAppended(log, Seen(id, c), x);
    }
  }

  lemma ObserveTotals(p: Peer, log: seq<PeerEvent>, id: FlowId, c: Counters, nowMs: int)
    requires Digests(p, log)
    ensures PeerTotal(Observe(p, id, c, nowMs)) == EpochSum(log + [Seen(id, c)], |log| + 1)
  {
    hide Latest, EpochSum, SumMembers;
    var e := Seen(id, c);
    var open := OpenPosition(log, id);
    assert id in p.members <==> Latest(log, id).Some?;
    EpochSumAppended(log, e, open, |log|);
    EpochSumLast(log, e);
    SumPut(p.members, id, Member(c, nowMs));
    if id in p.members {
      SumTakeOut(p.members, id);
    } else {
      assert p.members - {id} == p.members;
    }
  }

  function Retire(p: Peer, id: FlowId): Peer
    requires id in p.members
  {
    p.(base := p.base.Plus(p.members[id].counters), members := p.members - {id})
  }

  /** Retiring an expired member moves its reading to the base; no byte is lost. */
  lemma RetireDigests(p: Peer, log: seq<PeerEvent>, id: FlowId)
    requires id in p.members
    ensures PeerTotal(Retire(p, id)) == PeerTotal(p)
    ensures Digests(p, log) ==> Digests(Retire(p, id), log + [Expired(id)])
  {
    hide Latest, EpochSum, SumMembers;
    SumTakeOut(p.members, id);
    if Digests(p, log) {
      assert id in p.members <==> Latest(log, id).Some?;
      var e := Expired(id);
      var open := OpenPosition(log, id);
      EpochSumAppended(log, e, open, |log|);
      EpochSumLast(log, e);
      forall x ensures Latest(log + [e], x) == if x == id then None else Latest(log, x) {
        LatestAppended(log, e, x);
      }
    }
  }

  lemma NothingLogged(log: seq<PeerEvent>, p: Peer)
    requires log == [] && p.base == ZERO && p.members == map[]
    ensures PeerTotal(p) == EpochSum(log, |log|)
  {
    assert |log| == 0;
    hide EpochEnd, EndsEpoch;
    assert SumMembers(p.members) == ZERO;
    assert EpochSum(log, 0) == ZERO;
  }

  lemma {:induction false} NewPeerDigests(p: Peer, log: seq<PeerEvent>)
    requires log == [] && p.base == ZERO && p.members == map[]
    ensures Digests(p, log)
  {
    hide SumMembers, EpochSum, PeerTotal;
    NothingLogged(log, p);
  }
}
