/** Raw rates, sliding-window samples and the references read from them. */
module RateHistory {
  import opened Connections

  datatype RateSample = RateSample(timeMs: int, rate: real)

  /** One direction of a row: last raw rate, windowed samples, running sum. */
  datatype Channel = Channel(raw: real, samples: seq<RateSample>, sum: real)

  const SILENT := Channel(0.0, [], 0.0)

  function DeltaSecs(deltaMs: int): (r: real)
    ensures r > 0.0
  {
    if deltaMs > 0 then deltaMs as real / 1000.0 else 1.0
  }

  /** Bytes per second since the previous snapshot; nothing without one, and
      nothing across a counter drop. */
  function RawRate(previous: Option<nat>, current: nat, deltaMs: int): (r: real)
    ensures r >= 0.0
  {
    if previous.Some? && current >= previous.value
    then (current - previous.value) as real / DeltaSecs(deltaMs) else 0.0
  }

  /** Drop samples from the front while they are older than the cutoff. */
  function Trimmed(samples: seq<RateSample>, cutoffMs: int): seq<RateSample> {
    if samples != [] && samples[0].timeMs < cutoffMs then Trimmed(samples[1..], cutoffMs) else samples
  }

  method Trim(samples: seq<RateSample>, cutoffMs: int) returns (r: seq<RateSample>)
    ensures r == Trimmed(samples, cutoffMs)
  {
    r := samples;
    while r != [] && r[0].timeMs < cutoffMs
      invariant Trimmed(r, cutoffMs) == Trimmed(samples, cutoffMs)
      decreases |r|
    {
      r := r[1..];
    }
  }

  function Push(ch: Channel, nowMs: int, raw: real, cutoffMs: int): Channel {
    Channel(raw, Trimmed(ch.samples + [RateSample(nowMs, raw)], cutoffMs), ch.sum + raw)
  }

  // ---- against the full history ---------------------------------------------------

  /** The simple specification of a window: filter the whole history. */
  ghost function Since(history: seq<RateSample>, horizonMs: int): seq<RateSample> {
    if history == [] then []
    else
      var front, last := history[..|history| - 1], history[|history| - 1];
      Since(front, horizonMs) + (if last.timeMs >= horizonMs then [last] else [])
  }

  ghost predicate InTimeOrder(s: seq<RateSample>) {
    forall i, j :: 0 <= i < j < |s| ==> s[i].timeMs <= s[j].timeMs
  }

  ghost function SumRates(s: seq<RateSample>): real {
    if s == [] then 0.0 else SumRates(s[..|s| - 1]) + s[|s| - 1].rate
  }

  lemma {:induction false} SinceMembers(history: seq<RateSample>, horizonMs: int, s: RateSample)
    ensures s in Since(history, horizonMs) <==> s in history && s.timeMs >= horizonMs
  {
    if history != [] {
      var front, last := history[..|history| - 1], history[|history| - 1];
      SinceMembers(front, horizonMs, s);
      assert history == front + [last];
    }
  }

  lemma {:induction false} TrimmedConcat(a: seq<RateSample>, x: RateSample, cutoffMs: int)
    requires x.timeMs >= cutoffMs
    ensures Trimmed(a + [x], cutoffMs) == Trimmed(a, cutoffMs) + [x]
  {
    if a != [] && a[0].timeMs < cutoffMs {
      assert (a + [x])[1..] == a[1..] + [x];
      TrimmedConcat(a[1..], x, cutoffMs);
    }
  }

  lemma {:induction false} TrimmedAll(a: seq<RateSample>, cutoffMs: int)
    requires forall i :: 0 <= i < |a| ==> a[i].timeMs < cutoffMs
    ensures Trimmed(a, cutoffMs) == []
  {
    if a != [] {
      TrimmedAll(a[1..], cutoffMs);
    }
  }

  lemma {:induction false} NothingSince(a: seq<RateSample>, cutoffMs: int)
    requires forall i :: 0 <= i < |a| ==> a[i].timeMs < cutoffMs
    ensures Since(a, cutoffMs) == []
  {
    if a != [] {
      NothingSince(a[..|a| - 1], cutoffMs);
    }
  }

  /** Popping from the front is filtering, because time only moves forward. */
  lemma {:induction false} TrimmedSince(history: seq<RateSample>, horizonMs: int, cutoffMs: int)
    requires InTimeOrder(history)
    ensures Trimmed(Since(history, horizonMs), cutoffMs)
            == Since(history, if horizonMs > cutoffMs then horizonMs else cutoffMs)
  {
    if history != [] {
      var front, last := history[..|history| - 1], history[|history| - 1];
      var h := if horizonMs > cutoffMs then horizonMs else cutoffMs;
      TrimmedSince(front, horizonMs, cutoffMs);
      assert Since(front, horizonMs) + [] == Since(front, horizonMs) && Since(front, h) + [] == Since(front, h);
      if last.timeMs >= horizonMs {
        if last.timeMs >= cutoffMs {
          TrimmedConcat(Since(front, horizonMs), last, cutoffMs);
        } else {
          var kept := Since(front, horizonMs) + [last];
          forall i | 0 <= i < |kept| ensures kept[i].timeMs < cutoffMs {
            if i < |kept| - 1 {
              SinceMembers(front, horizonMs, kept[i]);
            }
          }
          TrimmedAll(kept, cutoffMs);
          NothingSince(front, cutoffMs);
        }
      }
    }
  }

  /** A channel that has kept everything since `horizonMs` of its history. */
  ghost predicate Remembers(ch: Channel, history: seq<RateSample>, horizonMs: int) {
    && InTimeOrder(history)
    && ch.samples == Since(history, horizonMs)
    && ch.sum == SumRates(history)
  }

  lemma PushRemembers(ch: Channel, history: seq<RateSample>, horizonMs: int, nowMs: int, raw: real, cutoffMs: int)
    requires Remembers(ch, history, horizonMs)
    requires horizonMs <= nowMs && forall i :: 0 <= i < |history| ==> history[i].timeMs <= nowMs
    ensures Remembers(Push(ch, nowMs, raw, cutoffMs), history + [RateSample(nowMs, raw)],
                      if horizonMs > cutoffMs then horizonMs else cutoffMs)
  {
    hide Since, Trimmed, SumRates;
    var longer := history + [RateSample(nowMs, raw)];
    SampleAdded(history, RateSample(nowMs, raw), horizonMs);
    TrimmedSince(longer, horizonMs, cutoffMs);
  }

  lemma SampleAdded(history: seq<RateSample>, s: RateSample, horizonMs: int)
    requires s.timeMs >= horizonMs
    ensures Since(history + [s], horizonMs) == Since(history, horizonMs) + [s]
    ensures SumRates(history + [s]) == SumRates(history) + s.rate
  {
    assert (history + [s])[..|history|] == history;
  }

  // ---- references -------------------------------------------------------------------

  /** The windowed reference is the true maximum over the window of the history. */
  method WindowedMax(ch: Channel, ghost history: seq<RateSample>, ghost horizonMs: int) returns (m: real)
    requires Remembers(ch, history, horizonMs)
    ensures m >= 0.0
    ensures forall s :: s in history && s.timeMs >= horizonMs ==> s.rate <= m
    ensures m == 0.0 || exists s :: s in history && s.timeMs >= horizonMs && s.rate == m
  {
    m := 0.0;
    for i := 0 to |ch.samples|
      invariant m >= 0.0
      invariant forall j :: 0 <= j < i ==> ch.samples[j].rate <= m
      invariant m == 0.0 || exists j :: 0 <= j < i && ch.samples[j].rate == m
    {
      if ch.samples[i].rate > m { m := ch.samples[i].rate; }
    }
    forall s | s in history && s.timeMs >= horizonMs ensures s.rate <= m {
      SinceMembers(history, horizonMs, s);
    }
    if m != 0.0 {
      var j :| 0 <= j < |ch.samples| && ch.samples[j].rate == m;
      SinceMembers(history, horizonMs, ch.samples[j]);
    }
  }
}
