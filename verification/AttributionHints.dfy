/** Clients' attribution-eagerness hints and the mode they add up to. */
module AttributionHints {

  datatype Eagerness = Off | Balanced | Eager {
    function Rank(): nat { match this case Off => 0 case Balanced => 1 case Eager => 2 }
  }

  datatype Hint = Hint(mode: Eagerness, expiresAtMs: int)

  type Hints = map<string, Hint>

  const MAX_HINTS := 64

  predicate IsLive(h: Hint, nowMs: int) { h.expiresAtMs > nowMs }

  // ---- the three rules ------------------------------------------------------------------------

  ghost predicate SomeoneWants(hints: Hints, nowMs: int, mode: Eagerness) {
    exists s :: s in hints && IsLive(hints[s], nowMs) && hints[s].mode == mode
  }

  ghost predicate NooneLive(hints: Hints, nowMs: int) {
    forall s :: s in hints ==> !IsLive(hints[s], nowMs)
  }

  /** Config off wins over everything; else the most eager live hint; else the config. */
  ghost function Effective(config: Eagerness, hints: Hints, nowMs: int): Eagerness {
    if config.Off? then Off
    else if NooneLive(hints, nowMs) then config
    else if SomeoneWants(hints, nowMs, Eager) then Eager
    else if SomeoneWants(hints, nowMs, Balanced) then Balanced
    else Off
  }

  function MoreEager(a: Eagerness, b: Eagerness): Eagerness {
    if a.Rank() < b.Rank() then b else a
  }

  ghost function Pruned(hints: Hints, nowMs: int): Hints {
    map s | s in hints && IsLive(hints[s], nowMs) :: hints[s]
  }

  /** Pruning expired hints never changes the mode. */
  lemma PruningIsInvisible(config: Eagerness, hints: Hints, nowMs: int)
    ensures Effective(config, Pruned(hints, nowMs), nowMs) == Effective(config, hints, nowMs)
  {
    var p := Pruned(hints, nowMs);
    assert NooneLive(p, nowMs) == NooneLive(hints, nowMs) by {
      if !NooneLive(hints, nowMs) {
        var s :| s in hints && IsLive(hints[s], nowMs);
        assert s in p;
      }
    }
    forall m: Eagerness ensures SomeoneWants(p, nowMs, m) == SomeoneWants(hints, nowMs, m) {
      if SomeoneWants(hints, nowMs, m) {
        var s :| s in hints && IsLive(hints[s], nowMs) && hints[s].mode == m;
        assert s in p && p[s].mode == m;
      }
    }
  }

  // ---- the state machine as values ----------------------------------------------------------------

  datatype Setup = Setup(config: Eagerness, ttlMs: int)

  datatype State = State(hints: Hints, lastEmitted: Eagerness, announced: seq<Eagerness>)

  datatype Call =
    | SetHint(sender: string, mode: Eagerness)
    | ClearHint(sender: string)
    | OwnerChanged(name: string, oldOwner: string, newOwner: string)
    | PruneTick

  ghost function Start(c: Setup): State {
    State(map[], c.config, [])
  }

  ghost function Evaluated(c: Setup, s: State, nowMs: int): State {
    var eff := Effective(c.config, s.hints, nowMs);
    State(Pruned(s.hints, nowMs), eff,
          if eff != s.lastEmitted then s.announced + [eff] else s.announced)
  }

  /** Does this call reach evaluate()? */
  ghost predicate Evaluates(s: State, call: Call) {
    match call
    case SetHint(sender, _) => sender != "" && (sender in s.hints || |s.hints| < MAX_HINTS)
    case ClearHint(sender) => sender != "" && sender in s.hints
    case OwnerChanged(name, oldOwner, newOwner) => newOwner == "" && oldOwner != "" && name in s.hints
    case PruneTick => true
  }

  ghost function HintsAfter(c: Setup, s: State, call: Call, nowMs: int): Hints {
    match call
    case SetHint(sender, mode) => s.hints[sender := Hint(mode, nowMs + c.ttlMs)]
    case ClearHint(sender) => s.hints - {sender}
    case OwnerChanged(name, _, _) => s.hints - {name}
    case PruneTick => s.hints
  }

  ghost function After(c: Setup, s: State, call: Call, nowMs: int): State {
    if Evaluates(s, call) then Evaluated(c, s.(hints := HintsAfter(c, s, call, nowMs)), nowMs) else s
  }

  ghost function Run(c: Setup, calls: seq<(int, Call)>): State {
    if calls == [] then Start(c)
    else After(c, Run(c, calls[..|calls| - 1]), calls[|calls| - 1].1, calls[|calls| - 1].0)
  }

  // ---- over every run ---------------------------------------------------------------------------------

  ghost predicate EachDiffers(config: Eagerness, announced: seq<Eagerness>) {
    && (announced != [] ==> announced[0] != config)
    && forall i :: 0 <= i < |announced| - 1 ==> announced[i + 1] != announced[i]
  }

  ghost predicate GoodState(c: Setup, s: State) {
    && |s.hints| <= MAX_HINTS
    && s.lastEmitted == (if s.announced == [] then c.config else s.announced[|s.announced| - 1])
    && EachDiffers(c.config, s.announced)
    && (c.config.Off? ==> s.announced == [])
  }

  lemma PrunedIsNoLarger(hints: Hints, nowMs: int)
    ensures |Pruned(hints, nowMs)| <= |hints|
  {
    var gone := hints.Keys - Pruned(hints, nowMs).Keys;
    assert hints.Keys == Pruned(hints, nowMs).Keys + gone;
  }

  lemma TableStaysBounded(c: Setup, s: State, call: Call, nowMs: int)
    requires |s.hints| <= MAX_HINTS && Evaluates(s, call)
    ensures |HintsAfter(c, s, call, nowMs)| <= MAX_HINTS
  {
    var hs := HintsAfter(c, s, call, nowMs);
    match call {
      case SetHint(sender, _) =>
        assert hs.Keys == s.hints.Keys + {sender};
      case ClearHint(sender) =>
        assert hs.Keys == s.hints.Keys - {sender};
      case OwnerChanged(name, _, _) =>
        assert hs.Keys == s.hints.Keys - {name};
      case PruneTick =>
    }
  }

  lemma EvaluationKeepsGood(c: Setup, s: State, nowMs: int)
    requires GoodState(c, s)
    ensures GoodState(c, Evaluated(c, s, nowMs))
    ensures Evaluated(c, s, nowMs).lastEmitted == Effective(c.config, Evaluated(c, s, nowMs).hints, nowMs)
  {
    PrunedIsNoLarger(s.hints, nowMs);
    PruningIsInvisible(c.config, s.hints, nowMs);
    assert c.config.Off? ==> Effective(c.config, s.hints, nowMs) == s.lastEmitted;
    hide Effective;
  }

  lemma CallKeepsGood(c: Setup, s: State, call: Call, nowMs: int)
    requires GoodState(c, s)
    ensures GoodState(c, After(c, s, call, nowMs))
    ensures Evaluates(s, call) ==>
      After(c, s, call, nowMs).lastEmitted == Effective(c.config, After(c, s, call, nowMs).hints, nowMs)
  {
    hide Effective, Evaluated, HintsAfter, EachDiffers;
    if Evaluates(s, call) {
      TableStaysBounded(c, s, call, nowMs);
      hide Evaluates;
      EvaluationKeepsGood(c, s.(hints := HintsAfter(c, s, call, nowMs)), nowMs);
    }
  }

  /** Over every run: the table stays bounded, announcements are transitions only, a config
      of off announces nothing, and whenever a call evaluates, the last announced mode is
      the one the three rules give. */
  lemma {:induction false} RunIsGood(c: Setup, calls: seq<(int, Call)>)
    ensures GoodState(c, Run(c, calls)) && |Run(c, calls).hints| <= 64
    ensures calls != [] && Evaluates(Run(c, calls[..|calls| - 1]), calls[|calls| - 1].1) ==>
              Run(c, calls).lastEmitted == Effective(c.config, Run(c, calls).hints, calls[|calls| - 1].0)
  {
    hide Effective, Evaluates, After;
    if calls != [] {
      RunIsGood(c, calls[..|calls| - 1]);
      CallKeepsGood(c, Run(c, calls[..|calls| - 1]), calls[|calls| - 1].1, calls[|calls| - 1].0);
    }
  }

  /** An accepted hint is stored as asked, for its whole lifetime, and at once the mode is at
      least as eager as it asks for, unless the config is off; a withdrawn one is gone. */
  lemma HintTakesEffect(c: Setup, s: State, sender: string, mode: Eagerness, nowMs: int)
    requires c.ttlMs >= 1 && Evaluates(s, SetHint(sender, mode))
    ensures var s' := After(c, s, SetHint(sender, mode), nowMs);
            && sender in s'.hints && s'.hints[sender] == Hint(mode, nowMs + c.ttlMs)
            && (c.config.Off? || s'.lastEmitted.Rank() >= mode.Rank())
  {
    var hints := HintsAfter(c, s, SetHint(sender, mode), nowMs);
    assert IsLive(hints[sender], nowMs);
    assert SomeoneWants(hints, nowMs, mode);
  }

  /** An evaluation keeps exactly the hints whose time is not up. */
  lemma LifetimeExactly(c: Setup, s: State, nowMs: int, sender: string)
    ensures sender in Evaluated(c, s, nowMs).hints <==> sender in s.hints && nowMs < s.hints[sender].expiresAtMs
    ensures sender in Evaluated(c, s, nowMs).hints ==> Evaluated(c, s, nowMs).hints[sender] == s.hints[sender]
  {
  }

  lemma WithdrawnHintIsGone(c: Setup, s: State, call: Call, sender: string, nowMs: int)
    requires call == ClearHint(sender) || (call.OwnerChanged? && call.name == sender)
    requires Evaluates(s, call)
    ensures sender !in After(c, s, call, nowMs).hints
  {
  }

  /** The calls that may end someone's hint other than by time. */
  ghost predicate Concerns(call: Call, sender: string) {
    match call
    case SetHint(s, _) => s == sender
    case ClearHint(s) => s == sender
    case OwnerChanged(name, oldOwner, newOwner) => name == sender && newOwner == "" && oldOwner != ""
    case PruneTick => false
  }

  /** A hint ends only by its sender's own call, its disconnect, or its time running out:
      nothing other clients do evicts it. */
  lemma {:induction false} HintSurvives(c: Setup, calls: seq<(int, Call)>, from: nat, sender: string)
    requires from <= |calls| && sender in Run(c, calls[..from]).hints
    requires forall i :: from <= i < |calls| ==>
      !Concerns(calls[i].1, sender) && IsLive(Run(c, calls[..from]).hints[sender], calls[i].0)
    ensures sender in Run(c, calls).hints && Run(c, calls).hints[sender] == Run(c, calls[..from]).hints[sender]
  {
    if from == |calls| {
      assert calls[..from] == calls;
    } else {
      var front := calls[..|calls| - 1];
      assert front[..from] == calls[..from];
      HintSurvives(c, front, from, sender);
      hide Effective, Run;
      var last := calls[|calls| - 1];
      assert !Concerns(last.1, sender);
      RunStep(c, calls);
    }
  }

  lemma RunStep(c: Setup, calls: seq<(int, Call)>)
    requires calls != []
    ensures Run(c, calls) == After(c, Run(c, calls[..|calls| - 1]), calls[|calls| - 1].1, calls[|calls| - 1].0)
  {
  }

  // ---- the manager --------------------------------------------------------------------------------------

  class AttributionHintManager {
    const configMode: Eagerness
    const hintTtlMs: int
    var lastEmitted: Eagerness
    var hints: Hints
    /** Modes announced so far. */
    ghost var announced: seq<Eagerness>

    ghost function Rules(): Setup { Setup(configMode, hintTtlMs) }

    ghost function Snapshot(): State
      reads this
    {
      State(hints, lastEmitted, announced)
    }

    constructor (configMode: Eagerness, hintTtlMs: int)
      ensures Snapshot() == Start(Rules()) && this.configMode == configMode
      ensures this.hintTtlMs == if hintTtlMs < 1 then 1 else hintTtlMs
    {
      this.configMode := configMode;
      this.hintTtlMs := if hintTtlMs < 1 then 1 else hintTtlMs;
      lastEmitted, hints, announced := configMode, map[], [];
    }

    /** A scan in whatever order the table yields. */
    method EffectiveMode(nowMs: int) returns (m: Eagerness)
      ensures m == Effective(configMode, hints, nowMs)
    {
      if configMode.Off? { return Off; }
      var any, best := false, Off;
      var todo := hints.Keys;
      while todo != {}
        invariant todo <= hints.Keys
        invariant any <==> exists s :: s in hints && s !in todo && IsLive(hints[s], nowMs)
        invariant any ==> exists s :: s in hints && s !in todo && IsLive(hints[s], nowMs) && hints[s].mode == best
        invariant forall s :: s in hints && s !in todo && IsLive(hints[s], nowMs) ==>
          hints[s].mode.Rank() <= best.Rank()
      {
        var s :| s in todo;
        todo := todo - {s};
        if IsLive(hints[s], nowMs) {
          best := if any then MoreEager(best, hints[s].mode) else hints[s].mode;
          any := true;
        }
      }
      m := if any then best else configMode;
    }

    method Evaluate(nowMs: int)
      modifies this
      ensures Snapshot() == Evaluated(Rules(), old(Snapshot()), nowMs)
    {
      var todo := hints.Keys;
      while todo != {}
        invariant todo <= hints.Keys && lastEmitted == old(lastEmitted) && announced == old(announced)
        invariant hints == map s | s in old(hints) && (s in todo || IsLive(old(hints)[s], nowMs)) :: old(hints)[s]
      {
        var s :| s in todo;
        todo := todo - {s};
        if !IsLive(hints[s], nowMs) {
          hints := hints - {s};
        }
      }
      assert hints == Pruned(old(hints), nowMs);
      PruningIsInvisible(configMode, old(hints), nowMs);
      hide Effective;
      var eff := EffectiveMode(nowMs);
      if eff != lastEmitted {
        lastEmitted := eff;
        announced := announced + [eff];
      }
    }

    method SetHint(sender: string, mode: Eagerness, nowMs: int) returns (accepted: bool)
      modifies this
      ensures Snapshot() == After(Rules(), old(Snapshot()), Call.SetHint(sender, mode), nowMs)
      ensures accepted == Evaluates(old(Snapshot()), Call.SetHint(sender, mode))
    {
      if sender == "" { return false; }
      if sender !in hints && |hints| >= MAX_HINTS { return false; }
      hints := hints[sender := Hint(mode, nowMs + hintTtlMs)];
      Evaluate(nowMs);
      return true;
    }

    method ClearHint(sender: string, nowMs: int) returns (accepted: bool)
      modifies this
      ensures Snapshot() == After(Rules(), old(Snapshot()), Call.ClearHint(sender), nowMs)
      ensures accepted == (sender != "")
    {
      if sender == "" { return false; }
      if sender in hints {
        hints := hints - {sender};
        Evaluate(nowMs);
      }
      return true;
    }

    method OnNameOwnerChanged(name: string, oldOwner: string, newOwner: string, nowMs: int)
      modifies this
      ensures Snapshot() == After(Rules(), old(Snapshot()), OwnerChanged(name, oldOwner, newOwner), nowMs)
    {
      if newOwner != "" || oldOwner == "" { return; }
      if name in hints {
        hints := hints - {name};
        Evaluate(nowMs);
      }
    }
  }
}
