/** Polling cadence: fast while clients are active, slower and finally paused when not,
    with per-client hints in between. An interval of 0 means paused. */
module Cadence {
  import opened Connections

  datatype Config = Config(
    activeIntervalMs: int, slow1IntervalMs: int, slow2IntervalMs: int,
    activeWindowMs: int, slow1WindowMs: int, slow2WindowMs: int, idleTimeoutMs: int,
    minIntervalMs: int, hintTtlMs: int)

  datatype Hint = Hint(ms: int, expiresAtMs: int)

  type Hints = map<string, Hint>

  const MAX_HINTS := 64

  predicate IsLive(h: Hint, nowMs: int) { h.expiresAtMs > nowMs }

  // ---- the interval ---------------------------------------------------------------------------------

  ghost predicate IsLeast(s: set<int>, m: int) {
    m in s && forall x :: x in s ==> m <= x
  }

  lemma {:induction false} LeastExists(s: set<int>, some: int)
    requires some in s
    ensures exists m :: IsLeast(s, m)
    decreases |s|
  {
    if IsLeast(s, some) {
    } else {
      var x :| x in s && x < some;
      LeastExists(s - {some}, x);
      var m :| IsLeast(s - {some}, m);
      assert x in s - {some};
      forall y | y in s ensures m <= y {
        assert y == some || y in s - {some};
      }
      assert IsLeast(s, m);
    }
  }

  ghost function Least(base: int, others: set<int>): (m: int)
    ensures IsLeast({base} + others, m)
  {
    LeastExists({base} + others, base);
    var m :| IsLeast({base} + others, m);
    m
  }

  ghost function LiveIntervals(hints: Hints, nowMs: int): set<int> {
    set s | s in hints && IsLive(hints[s], nowMs) :: hints[s].ms
  }

  ghost function Pruned(hints: Hints, nowMs: int): Hints {
    map s | s in hints && IsLive(hints[s], nowMs) :: hints[s]
  }

  /** The fastest anyone wants, not below the floor. */
  ghost function ActiveMs(cfg: Config, hints: Hints, nowMs: int): int {
    Max(Least(cfg.activeIntervalMs, LiveIntervals(hints, nowMs)), cfg.minIntervalMs)
  }

  predicate IsPaused(cfg: Config, elapsedMs: int) {
    || (cfg.idleTimeoutMs > 0 && elapsedMs >= cfg.idleTimeoutMs)
    || (cfg.slow2WindowMs > 0 && elapsedMs >= cfg.slow2WindowMs)
  }

  /** A window of 0 switches its step off. */
  function Target(cfg: Config, elapsedMs: int, activeMs: int): int {
    if IsPaused(cfg, elapsedMs) then 0
    else if cfg.slow1WindowMs > 0 && elapsedMs >= cfg.slow1WindowMs then Max(cfg.slow2IntervalMs, activeMs)
    else if cfg.activeWindowMs > 0 && elapsedMs >= cfg.activeWindowMs then Max(cfg.slow1IntervalMs, activeMs)
    else activeMs
  }

  /** Slower or the same, paused being slowest. */
  predicate NotFaster(before: int, after: int) {
    after <= 0 || 0 < before <= after
  }

  /** The shortest and the longest active interval that hints, all positive, can bring about. */
  function Shortest(cfg: Config): int {
    Max(if cfg.activeIntervalMs < 1 then cfg.activeIntervalMs else 1, cfg.minIntervalMs)
  }

  function Longest(cfg: Config): int { Max(cfg.activeIntervalMs, cfg.minIntervalMs) }

  /** The shortest active interval that can outlast a moment: a hint counts for this only if
      it is still live a millisecond after it was given. */
  function Lasting(cfg: Config): int { if cfg.hintTtlMs > 1 then Shortest(cfg) else Longest(cfg) }

  /** A schedule that speeds up by itself. Normally: its second slow step is reachable and
      faster than its first. When even the active interval is no polling at all: a slow
      step that polls is reachable. */
  predicate Disorderly(cfg: Config) {
    if Longest(cfg) > 0 then
      && 0 < cfg.activeWindowMs < cfg.slow1WindowMs
      && !IsPaused(cfg, cfg.slow1WindowMs)
      && cfg.slow1IntervalMs > Max(cfg.slow2IntervalMs, Lasting(cfg))
    else
      || (cfg.activeWindowMs > 0 && !IsPaused(cfg, cfg.activeWindowMs) && cfg.slow1IntervalMs > 0
          && (cfg.slow1WindowMs <= 0 || cfg.activeWindowMs < cfg.slow1WindowMs))
      || (cfg.slow1WindowMs > 0 && !IsPaused(cfg, cfg.slow1WindowMs) && cfg.slow2IntervalMs > 0)
  }

  /** Later is never faster on an orderly schedule, as long as the active interval only grows
      and, when time does pass, ends up one that can last. */
  lemma OrderlySlows(cfg: Config, e: int, e': int, a: int, a': int)
    requires !Disorderly(cfg) && 0 <= e <= e' && Shortest(cfg) <= a <= a' <= Longest(cfg)
    requires e < e' ==> Lasting(cfg) <= a'
    ensures NotFaster(Target(cfg, e, a), Target(cfg, e', a'))
  {
  }

  /** With slow steps in order and a positive floor, as configured by default, nothing is
      disorderly. */
  lemma OrderedStepsAreOrderly(cfg: Config)
    requires cfg.slow1IntervalMs <= cfg.slow2IntervalMs && cfg.minIntervalMs > 0
    ensures !Disorderly(cfg)
  {
  }

  /** With no positive floor, ordered slow steps are not enough: idleness starts a poll that
      was never on. The agent's configuration loader keeps the floor at 10 ms or more, so
      only a direct construction can meet this. */
  lemma FloorMatters()
    ensures var cfg := Config(0, 2000, 5000, 30000, 45000, 60000, 60000, 0, 10000);
            && cfg.slow1IntervalMs <= cfg.slow2IntervalMs && Disorderly(cfg)
            && !NotFaster(Target(cfg, 0, 0), Target(cfg, 30000, 0))
  {
  }

  // ---- the state machine as values ---------------------------------------------------------------------

  /** evaluatedMs is the time of the last evaluation or activity, a history value. */
  datatype State = State(hints: Hints, sinceMs: int, currentMs: int, evaluatedMs: int)

  datatype Call =
    | NoteActivity
    | SetClientHint(sender: string, ms: int)
    | OwnerChanged(name: string, oldOwner: string, newOwner: string)
    | Tick

  ghost function Evaluated(cfg: Config, s: State, nowMs: int): State {
    State(Pruned(s.hints, nowMs), s.sinceMs, Target(cfg, nowMs - s.sinceMs, ActiveMs(cfg, s.hints, nowMs)), nowMs)
  }

  ghost function Activated(cfg: Config, s: State, nowMs: int): State {
    State(Pruned(s.hints, nowMs), nowMs, ActiveMs(cfg, s.hints, nowMs), nowMs)
  }

  ghost function Start(cfg: Config, nowMs: int): State {
    State(map[], nowMs, Max(cfg.activeIntervalMs, cfg.minIntervalMs), nowMs)
  }

  ghost function After(cfg: Config, s: State, call: Call, nowMs: int): State {
    match call
    case NoteActivity => Activated(cfg, s, nowMs)
    case Tick => Evaluated(cfg, s, nowMs)
    case SetClientHint(sender, ms) =>
      if sender == "" then s
      else if ms <= 0 then (if sender in s.hints then Evaluated(cfg, s.(hints := s.hints - {sender}), nowMs) else s)
      else if sender !in s.hints && |s.hints| >= MAX_HINTS then s
      else
        var hint := Hint(Max(ms, cfg.minIntervalMs), nowMs + cfg.hintTtlMs);
        Evaluated(cfg, s.(hints := s.hints[sender := hint]), nowMs)
    case OwnerChanged(name, oldOwner, newOwner) =>
      if newOwner == "" && oldOwner != "" && name in s.hints
      then Evaluated(cfg, s.(hints := s.hints - {name}), nowMs) else s
  }

  // ---- over every run ----------------------------------------------------------------------------------------

  ghost predicate AllPositive(hints: Hints) {
    forall s :: s in hints ==> hints[s].ms > 0
  }

  lemma ActiveWithinRange(cfg: Config, hints: Hints, nowMs: int)
    requires AllPositive(hints)
    ensures Shortest(cfg) <= ActiveMs(cfg, hints, nowMs) <= Longest(cfg)
  {
  }

  ghost predicate NoneOutlives(hints: Hints, timeMs: int) {
    forall s :: s in hints ==> hints[s].expiresAtMs <= timeMs
  }

  /** The applied interval is what the schedule said when it was last consulted, the hints
      have not changed since, and none was given later than that. */
  ghost predicate GoodState(cfg: Config, s: State) {
    && |s.hints| <= MAX_HINTS && AllPositive(s.hints) && NoneOutlives(s.hints, s.evaluatedMs + cfg.hintTtlMs)
    && s.sinceMs <= s.evaluatedMs
    && s.currentMs == Target(cfg, s.evaluatedMs - s.sinceMs, ActiveMs(cfg, s.hints, s.evaluatedMs))
  }

  lemma PrunedSameIntervals(hints: Hints, nowMs: int)
    ensures LiveIntervals(Pruned(hints, nowMs), nowMs) == LiveIntervals(hints, nowMs)
    ensures |Pruned(hints, nowMs)| <= |hints|
  {
    assert hints.Keys == Pruned(hints, nowMs).Keys + (hints.Keys - Pruned(hints, nowMs).Keys);
    forall ms | ms in LiveIntervals(hints, nowMs) ensures ms in LiveIntervals(Pruned(hints, nowMs), nowMs) {
      var s :| s in hints && IsLive(hints[s], nowMs) && hints[s].ms == ms;
      assert s in Pruned(hints, nowMs) && Pruned(hints, nowMs)[s].ms == ms;
    }
  }

  /** Whatever the configuration, polling is paused or no faster than the floor. */
  lemma NeverBelowFloor(cfg: Config, s: State)
    requires GoodState(cfg, s)
    ensures (s.currentMs == 0 || s.currentMs >= cfg.minIntervalMs) && |s.hints| <= 64
  {
  }

  lemma EvaluationIsGood(cfg: Config, s: State, nowMs: int)
    requires |s.hints| <= MAX_HINTS && AllPositive(s.hints) && NoneOutlives(s.hints, nowMs + cfg.hintTtlMs)
    requires s.sinceMs <= nowMs
    ensures GoodState(cfg, Evaluated(cfg, s, nowMs)) && Evaluated(cfg, s, nowMs).evaluatedMs == nowMs
    ensures GoodState(cfg, Activated(cfg, s, nowMs)) && Activated(cfg, s, nowMs).evaluatedMs == nowMs
  {
    hide Least;
    PrunedSameIntervals(s.hints, nowMs);
  }

  lemma CallKeepsGood(cfg: Config, s: State, call: Call, nowMs: int)
    requires GoodState(cfg, s) && s.evaluatedMs <= nowMs
    ensures GoodState(cfg, After(cfg, s, call, nowMs)) && After(cfg, s, call, nowMs).evaluatedMs <= nowMs
  {
    hide ActiveMs, Target, Pruned, Evaluated, Activated;
    match call {
      case NoteActivity => EvaluationIsGood(cfg, s, nowMs);
      case Tick => EvaluationIsGood(cfg, s, nowMs);
      case SetClientHint(sender, ms) =>
        if ms <= 0 {
          WithoutIsGood(cfg, s, sender, nowMs);
        } else if sender in s.hints || |s.hints| < MAX_HINTS {
          WithIsGood(cfg, s, sender, Hint(Max(ms, cfg.minIntervalMs), nowMs + cfg.hintTtlMs), nowMs);
        }
      case OwnerChanged(name, _, _) =>
        WithoutIsGood(cfg, s, name, nowMs);
    }
  }

  lemma WithoutIsGood(cfg: Config, s: State, sender: string, nowMs: int)
    requires GoodState(cfg, s) && s.evaluatedMs <= nowMs
    ensures GoodState(cfg, Evaluated(cfg, s.(hints := s.hints - {sender}), nowMs))
    ensures Evaluated(cfg, s.(hints := s.hints - {sender}), nowMs).evaluatedMs == nowMs
  {
    assert (s.hints - {sender}).Keys == s.hints.Keys - {sender};
    EvaluationIsGood(cfg, s.(hints := s.hints - {sender}), nowMs);
  }

  lemma WithIsGood(cfg: Config, s: State, sender: string, h: Hint, nowMs: int)
    requires GoodState(cfg, s) && s.evaluatedMs <= nowMs && (sender in s.hints || |s.hints| < MAX_HINTS)
    requires h.ms > 0 && h.expiresAtMs == nowMs + cfg.hintTtlMs
    ensures GoodState(cfg, Evaluated(cfg, s.(hints := s.hints[sender := h]), nowMs))
    ensures Evaluated(cfg, s.(hints := s.hints[sender := h]), nowMs).evaluatedMs == nowMs
  {
    assert s.hints[sender := h].Keys == s.hints.Keys + {sender};
    EvaluationIsGood(cfg, s.(hints := s.hints[sender := h]), nowMs);
  }

  /** A run from construction on: any calls at any times, time never going back. */
  ghost predicate IsRun(cfg: Config, states: seq<State>, calls: seq<(int, Call)>) {
    && |states| == |calls| + 1 && states[0] == Start(cfg, states[0].sinceMs)
    && (calls != [] ==> states[0].sinceMs <= calls[0].0)
    && (forall i :: 0 <= i < |calls| - 1 ==> calls[i].0 <= calls[i + 1].0)
    && (forall i :: 0 <= i < |calls| ==> states[i + 1] == After(cfg, states[i], calls[i].1, calls[i].0))
  }

  lemma StartIsGood(cfg: Config, nowMs: int)
    ensures GoodState(cfg, Start(cfg, nowMs))
  {
    assert LiveIntervals(map[], nowMs) == {};
  }

  /** Over every run the table stays bounded, and the applied interval is what the schedule
      said when last consulted: 0 or at least the floor. */
  lemma {:induction false} RunIsGood(cfg: Config, states: seq<State>, calls: seq<(int, Call)>, n: nat)
    requires IsRun(cfg, states, calls) && n < |states|
    ensures GoodState(cfg, states[n]) && |states[n].hints| <= 64
    ensures states[n].currentMs == 0 || states[n].currentMs >= cfg.minIntervalMs
    ensures n > 0 ==> states[n].evaluatedMs <= calls[n - 1].0
    ensures n < |calls| ==> states[n].evaluatedMs <= calls[n].0
  {
    hide GoodState, After;
    if n > 0 {
      RunIsGood(cfg, states, calls, n - 1);
      CallKeepsGood(cfg, states[n - 1], calls[n - 1].1, calls[n - 1].0);
      assert n < |calls| ==> calls[n - 1].0 <= calls[n - 1 + 1].0;
    } else {
      StartIsGood(cfg, states[0].sinceMs);
    }
    NeverBelowFloor(cfg, states[n]);
  }

  /** No activity and no new wish to go faster. */
  predicate IsQuiet(call: Call) {
    match call
    case NoteActivity => false
    case SetClientHint(_, ms) => ms <= 0
    case _ => true
  }

  lemma FewerHintsSlower(cfg: Config, hints: Hints, nowMs: int, fewer: Hints, laterMs: int)
    requires nowMs <= laterMs && forall s :: s in fewer ==> s in hints && fewer[s] == hints[s]
    ensures ActiveMs(cfg, hints, nowMs) <= ActiveMs(cfg, fewer, laterMs)
  {
    var few := {cfg.activeIntervalMs} + LiveIntervals(fewer, laterMs);
    forall ms | ms in few ensures ms in {cfg.activeIntervalMs} + LiveIntervals(hints, nowMs) {
      if ms != cfg.activeIntervalMs {
        var s :| s in fewer && IsLive(fewer[s], laterMs) && fewer[s].ms == ms;
        assert s in hints && IsLive(hints[s], nowMs);
      }
    }
  }

  /** Hints all over, only the configured interval is left. */
  lemma NoHintsLeft(cfg: Config, hints: Hints, nowMs: int)
    requires NoneOutlives(hints, nowMs)
    ensures ActiveMs(cfg, hints, nowMs) == Longest(cfg)
  {
    assert LiveIntervals(hints, nowMs) == {};
  }

  lemma QuietCallSlows(cfg: Config, s: State, call: Call, nowMs: int)
    requires !Disorderly(cfg) && GoodState(cfg, s) && s.evaluatedMs <= nowMs && IsQuiet(call)
    ensures NotFaster(s.currentMs, After(cfg, s, call, nowMs).currentMs)
  {
    var s' := After(cfg, s, call, nowMs);
    if s' != s {
      var hints := match call
        case SetClientHint(sender, _) => s.hints - {sender}
        case OwnerChanged(name, _, _) => s.hints - {name}
        case _ => s.hints;
      FewerHintsSlower(cfg, s.hints, s.evaluatedMs, hints, nowMs);
      ActiveWithinRange(cfg, s.hints, s.evaluatedMs);
      ActiveWithinRange(cfg, hints, nowMs);
      if s.evaluatedMs < nowMs && cfg.hintTtlMs <= 1 {
        NoHintsLeft(cfg, hints, nowMs);
      }
      hide LiveIntervals, Pruned, Least, ActiveMs;
      OrderlySlows(cfg, s.evaluatedMs - s.sinceMs, nowMs - s.sinceMs,
                   ActiveMs(cfg, s.hints, s.evaluatedMs), ActiveMs(cfg, hints, nowMs));
    }
  }

  /** An accepted hint is stored floored, and while it lives the active interval is at most
      that. */
  lemma HintTakesEffect(cfg: Config, s: State, sender: string, ms: int, nowMs: int)
    requires sender != "" && ms > 0 && (sender in s.hints || |s.hints| < MAX_HINTS) && cfg.hintTtlMs > 0
    ensures var s' := After(cfg, s, SetClientHint(sender, ms), nowMs);
            && sender in s'.hints
            && s'.hints[sender] == Hint(if ms < cfg.minIntervalMs then cfg.minIntervalMs else ms, nowMs + cfg.hintTtlMs)
            && ActiveMs(cfg, s'.hints, nowMs) <= (if ms < cfg.minIntervalMs then cfg.minIntervalMs else ms)
  {
    var s' := After(cfg, s, SetClientHint(sender, ms), nowMs);
    assert s'.hints[sender].ms in LiveIntervals(s'.hints, nowMs);
  }

  /** An evaluation keeps exactly the hints whose time is not up. */
  lemma LifetimeExactly(cfg: Config, s: State, nowMs: int, sender: string)
    ensures sender in Evaluated(cfg, s, nowMs).hints <==> sender in s.hints && nowMs < s.hints[sender].expiresAtMs
    ensures sender in Evaluated(cfg, s, nowMs).hints ==> Evaluated(cfg, s, nowMs).hints[sender] == s.hints[sender]
  {
  }

  ghost predicate QuietFrom(calls: seq<(int, Call)>, i: nat, j: nat)
    requires i <= j <= |calls|
  {
    forall k :: i <= k < j ==> IsQuiet(calls[k].1)
  }

  /** Over every stretch without activity and without new hints, the cadence only slows. */
  ghost predicate SlowsWhenQuiet(states: seq<State>, calls: seq<(int, Call)>)
    requires |states| == |calls| + 1
  {
    forall i, j :: 0 <= i <= j <= |calls| && QuietFrom(calls, i, j) ==>
      NotFaster(states[i].currentMs, states[j].currentMs)
  }

  lemma {:induction false} QuietStretchSlows(cfg: Config, states: seq<State>, calls: seq<(int, Call)>, i: nat, j: nat)
    requires IsRun(cfg, states, calls) && i <= j < |states|
    requires !Disorderly(cfg) && QuietFrom(calls, i, j)
    ensures NotFaster(states[i].currentMs, states[j].currentMs)
  {
    hide GoodState, After, Disorderly;
    if i < j {
      QuietStretchSlows(cfg, states, calls, i, j - 1);
      RunIsGood(cfg, states, calls, j - 1);
      QuietCallSlows(cfg, states[j - 1], calls[j - 1].1, calls[j - 1].0);
    }
  }

  /** Where the configuration means no polling, the first slow step that polls is a speed-up. */
  lemma DisorderlyStartsPolling(cfg: Config) returns (states: seq<State>, calls: seq<(int, Call)>)
    requires Disorderly(cfg) && Longest(cfg) <= 0
    ensures IsRun(cfg, states, calls) && !SlowsWhenQuiet(states, calls)
  {
    var s0 := Start(cfg, 0);
    var w := if cfg.slow1WindowMs > 0 && !IsPaused(cfg, cfg.slow1WindowMs) && cfg.slow2IntervalMs > 0
             then cfg.slow1WindowMs else cfg.activeWindowMs;
    NoHintsLeft(cfg, s0.hints, w);
    hide ActiveMs;
    states, calls := [s0, After(cfg, s0, Tick, w)], [(w, Tick)];
    assert QuietFrom(calls, 0, 1);
    assert !NotFaster(states[0].currentMs, states[1].currentMs);
  }

  /** The interval the shortest hint brings about, while it is live. */
  lemma ShortestIsReached(cfg: Config, sender: string, expiresAtMs: int, nowMs: int)
    requires Longest(cfg) > 0 && nowMs < expiresAtMs
    ensures ActiveMs(cfg, map[sender := Hint(Max(1, cfg.minIntervalMs), expiresAtMs)], nowMs) == Shortest(cfg)
  {
    var hints := map[sender := Hint(Max(1, cfg.minIntervalMs), expiresAtMs)];
    assert hints[sender].ms in LiveIntervals(hints, nowMs);
    assert LiveIntervals(hints, nowMs) == {Max(1, cfg.minIntervalMs)};
  }

  /** A hint given just before the second slow step, or just time passing where no hint
      lasts, shows the step down from the first slow interval. */
  lemma DisorderlyStepsDown(cfg: Config) returns (states: seq<State>, calls: seq<(int, Call)>)
    requires Disorderly(cfg) && Longest(cfg) > 0
    ensures IsRun(cfg, states, calls) && !SlowsWhenQuiet(states, calls)
  {
    var s0, w := Start(cfg, 0), cfg.slow1WindowMs;
    var first := if cfg.hintTtlMs > 1 then SetClientHint("a", 1) else Tick;
    var s1 := After(cfg, s0, first, w - 1);
    var s2 := After(cfg, s1, Tick, w);
    if cfg.hintTtlMs > 1 {
      ShortestIsReached(cfg, "a", w - 1 + cfg.hintTtlMs, w - 1);
      ShortestIsReached(cfg, "a", w - 1 + cfg.hintTtlMs, w);
      var hints := map["a" := Hint(Max(1, cfg.minIntervalMs), w - 1 + cfg.hintTtlMs)];
      assert s0.hints["a" := hints["a"]] == hints && Pruned(hints, w - 1) == hints;
    } else {
      assert Pruned(map[], w - 1) == map[];
      NoHintsLeft(cfg, map[], w - 1);
      NoHintsLeft(cfg, map[], w);
    }
    hide ActiveMs, Pruned;
    states, calls := [s0, s1, s2], [(w - 1, first), (w, Tick)];
    assert QuietFrom(calls, 1, 2);
    assert s1.currentMs == Target(cfg, w - 1, Lasting(cfg)) && s2.currentMs == Target(cfg, w, Lasting(cfg));
    assert !NotFaster(states[1].currentMs, states[2].currentMs);
  }

  /** The cadence only slows while nothing happens, in every run, exactly when the schedule
      is not disorderly. */
  lemma SlowsExactlyWhenOrderly(cfg: Config)
    ensures !Disorderly(cfg) <==> forall states, calls :: IsRun(cfg, states, calls) ==> SlowsWhenQuiet(states, calls)
  {
    hide Disorderly, After, QuietFrom;
    if Disorderly(cfg) {
      var states, calls;
      if Longest(cfg) > 0 {
        states, calls := DisorderlyStepsDown(cfg);
      } else {
        states, calls := DisorderlyStartsPolling(cfg);
      }
    } else {
      forall states, calls | IsRun(cfg, states, calls) ensures SlowsWhenQuiet(states, calls) {
        OrderlyRunSlows(cfg, states, calls);
      }
    }
  }

  lemma OrderlyRunSlows(cfg: Config, states: seq<State>, calls: seq<(int, Call)>)
    requires !Disorderly(cfg) && IsRun(cfg, states, calls)
    ensures SlowsWhenQuiet(states, calls)
  {
    hide Disorderly, QuietFrom, NotFaster;
    forall i, j | 0 <= i <= j <= |calls| && QuietFrom(calls, i, j)
      ensures NotFaster(states[i].currentMs, states[j].currentMs)
    {
      QuietStretchSlows(cfg, states, calls, i, j);
    }
  }

  /** Where no hint ever lasts, a schedule that only a hint could upset is orderly. */
  lemma LifetimeMatters()
    ensures var cfg := Config(5000, 3000, 2000, 10, 20, 0, 0, 1, 0);
            !Disorderly(cfg) && Disorderly(cfg.(hintTtlMs := 1000))
  {
  }

  // ---- the manager --------------------------------------------------------------------------------------------

  class IdleManager {
    const cfg: Config
    var hints: Hints
    var sinceMs: int
    var currentMs: int
    ghost var evaluatedMs: int

    ghost function Snapshot(): State
      reads this
    {
      State(hints, sinceMs, currentMs, evaluatedMs)
    }

    constructor (cfg: Config, nowMs: int)
      ensures Snapshot() == Start(cfg, nowMs) && this.cfg == cfg
      ensures GoodState(cfg, Snapshot())
    {
      this.cfg := cfg;
      hints, sinceMs, evaluatedMs := map[], nowMs, nowMs;
      currentMs := -1;
      new;
      var active := EffectiveActiveIntervalMs(nowMs);
      assert LiveIntervals(map[], nowMs) == {};
      currentMs := active;
    }

    /** Scans the hints, dropping the expired ones on the way. */
    method EffectiveActiveIntervalMs(nowMs: int) returns (ms: int)
      modifies `hints
      ensures ms == ActiveMs(cfg, old(hints), nowMs) && hints == Pruned(old(hints), nowMs)
    {
      var best := cfg.activeIntervalMs;
      var todo := hints.Keys;
      while todo != {}
        invariant todo <= hints.Keys
        invariant hints == map s | s in old(hints) && (s in todo || IsLive(old(hints)[s], nowMs)) :: old(hints)[s]
        invariant best in {cfg.activeIntervalMs} + LiveIntervals(old(hints), nowMs)
        invariant best <= cfg.activeIntervalMs
        invariant forall s :: s in old(hints) && s !in todo && IsLive(old(hints)[s], nowMs) ==> best <= old(hints)[s].ms
      {
        var s :| s in todo;
        todo := todo - {s};
        if !IsLive(hints[s], nowMs) {
          hints := hints - {s};
        } else if hints[s].ms < best {
          assert hints[s].ms in LiveIntervals(old(hints), nowMs);
          best := hints[s].ms;
        }
      }
      ms := Max(best, cfg.minIntervalMs);
    }

    method Evaluate(nowMs: int)
      modifies `hints, `currentMs, `evaluatedMs
      ensures Snapshot() == Evaluated(cfg, old(Snapshot()), nowMs)
    {
      var elapsed := nowMs - sinceMs;
      var active := EffectiveActiveIntervalMs(nowMs);
      var target;
      if (cfg.idleTimeoutMs > 0 && elapsed >= cfg.idleTimeoutMs)
         || (cfg.slow2WindowMs > 0 && elapsed >= cfg.slow2WindowMs) {
        target := 0;
      } else if cfg.slow1WindowMs > 0 && elapsed >= cfg.slow1WindowMs {
        target := Max(cfg.slow2IntervalMs, active);
      } else if cfg.activeWindowMs > 0 && elapsed >= cfg.activeWindowMs {
        target := Max(cfg.slow1IntervalMs, active);
      } else {
        target := active;
      }
      if target != currentMs { currentMs := target; }
      evaluatedMs := nowMs;
    }

    method NoteActivity(nowMs: int)
      modifies this
      ensures Snapshot() == After(cfg, old(Snapshot()), Call.NoteActivity, nowMs)
    {
      sinceMs := nowMs;
      var target := EffectiveActiveIntervalMs(nowMs);
      if currentMs != target { currentMs := target; }
      evaluatedMs := nowMs;
    }

    method SetClientHint(sender: string, ms: int, nowMs: int) returns (accepted: bool)
      modifies this
      ensures Snapshot() == After(cfg, old(Snapshot()), Call.SetClientHint(sender, ms), nowMs)
      ensures accepted <==> sender != "" && (ms <= 0 || sender in old(hints) || |old(hints)| < MAX_HINTS)
    {
      if sender == "" { return false; }
      if ms <= 0 {
        if sender in hints {
          hints := hints - {sender};
          Evaluate(nowMs);
        }
        return true;
      }
      if sender !in hints && |hints| >= MAX_HINTS { return false; }
      hints := hints[sender := Hint(Max(ms, cfg.minIntervalMs), nowMs + cfg.hintTtlMs)];
      Evaluate(nowMs);
      return true;
    }

    method OnNameOwnerChanged(name: string, oldOwner: string, newOwner: string, nowMs: int)
      modifies this
      ensures Snapshot() == After(cfg, old(Snapshot()), OwnerChanged(name, oldOwner, newOwner), nowMs)
    {
      if newOwner != "" || oldOwner == "" { return; }
      if name in hints {
        hints := hints - {name};
        Evaluate(nowMs);
      }
    }
  }
}
