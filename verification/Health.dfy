/** Flapping detection (controller/health.go) as the handlers drive it, with Go's
    64-bit duration arithmetic (handlers.go guards both start and stop). */
module Health {

  import opened Int64

  datatype Config = Config(window: int, threshold: int, period: int, maxPeriod: int)

  /** LastRestart is None before the first start: the zero time is further away
      than any window. */
  datatype State = State(count: int, last: LastRestart, flapping: bool, coolingUntil: int)

  datatype LastRestart = Never | At(time: int)

  const FRESH: State := State(0, Never, false, 0)

  predicate Cooling(s: State, now: int) {
    s.flapping && now < s.coolingUntil
  }

  /** The exponent is clamped at 20, the product wraps, the result is capped. */
  function CoolingDuration(count: int, cfg: Config): int
    requires count >= cfg.threshold
  {
    Min(Wrap64(Pow2(Min(count - cfg.threshold, 20)) * cfg.period), cfg.maxPeriod)
  }

  function Restarted(s: State, now: int, cfg: Config): State {
    if s.last.At? && now - s.last.time <= cfg.window then
      var count := s.count + 1;
      if count >= cfg.threshold
      then State(count, At(now), true, now + CoolingDuration(count, cfg))
      else s.(count := count, last := At(now))
    else s.(count := 1, last := At(now))
  }

  /** updateContainerHealth. */
  function Update(s: State, start: bool, now: int, cfg: Config): State {
    var t := if start then Restarted(s, now, cfg) else s;
    if t.flapping && now > t.coolingUntil then t.(flapping := false, count := 0) else t
  }

  class HealthTracker {
    var health: map<string, State>
    const cfg: Config

    constructor (cfg: Config)
      ensures this.cfg == cfg && health == map[]
    {
      this.cfg := cfg;
      health := map[];
    }

    function Of(id: string): State
      reads this
    {
      if id in health then health[id] else FRESH
    }

    /** Both isFlapping and IsCooling. */
    predicate IsFlapping(id: string, now: int)
      reads this
      ensures IsFlapping(id, now) <==> Cooling(Of(id), now)
    {
      if id !in health then false else health[id].flapping && now < health[id].coolingUntil
    }

    method UpdateContainerHealth(id: string, start: bool, now: int)
      modifies this
      ensures health == old(health)[id := Update(old(Of(id)), start, now, cfg)]
    {
      var h := if id in health then health[id] else FRESH;
      if start {
        if h.last.At? && now - h.last.time <= cfg.window {
          h := h.(count := h.count + 1);
          if h.count >= cfg.threshold {
            var shift := h.count - cfg.threshold;
            if shift > 20 {
              shift := 20;
            }
            var cooling := Min(Wrap64(Pow2(shift) * cfg.period), cfg.maxPeriod);
            h := h.(flapping := true, coolingUntil := now + cooling);
          }
        } else {
          h := h.(count := 1);
        }
        h := h.(last := At(now));
      }
      if h.flapping && now > h.coolingUntil {
        h := h.(flapping := false, count := 0);
      }
      health := health[id := h];
    }
  }

  /* ---- Whole runs ---- */

  /** One handled start or stop of a container: the cooling check, then, unless it
      is cooling, the update at a possibly later reading of the clock. */
  datatype Event = Event(start: bool, checked: int, updated: int)

  function Handle(s: State, e: Event, cfg: Config): State {
    if Cooling(s, e.checked) then s else Update(s, e.start, e.updated, cfg)
  }

  function Run(s: State, events: seq<Event>, cfg: Config): State {
    if events == [] then s else Handle(Run(s, events[..|events| - 1], cfg), events[|events| - 1], cfg)
  }

  predicate Monotone(events: seq<Event>) {
    && (forall i :: 0 <= i < |events| ==> events[i].checked <= events[i].updated)
    && (forall i, j :: 0 <= i < j < |events| ==> events[i].updated <= events[j].checked)
  }

  predicate Reasonable(cfg: Config) {
    cfg.threshold >= 2 && 0 < cfg.period <= cfg.maxPeriod && 2 * cfg.period < TWO63
  }

  ghost predicate AtMostThreshold(s: State, cfg: Config) {
    && s.count <= cfg.threshold
    && (s.count == cfg.threshold ==> s.flapping && s.last.At? && s.coolingUntil == s.last.time + cfg.period)
  }

  lemma {:induction false} CountBounded(events: seq<Event>, cfg: Config)
    requires Reasonable(cfg) && cfg.period > cfg.window && Monotone(events)
    ensures AtMostThreshold(Run(FRESH, events, cfg), cfg)
  {
    if events != [] {
      CountBounded(events[..|events| - 1], cfg);
    }
  }

  lemma FirstCooling(cfg: Config)
    requires Reasonable(cfg)
    ensures CoolingDuration(cfg.threshold, cfg) == cfg.period
  {
    assert Pow2(0) * cfg.period == cfg.period;
  }

  lemma {:induction false} QuickStarts(n: nat, cfg: Config) returns (events: seq<Event>)
    requires Reasonable(cfg) && 1 <= n <= cfg.threshold && cfg.window >= 0
    ensures Monotone(events) && |events| == n && forall i :: 0 <= i < n ==> events[i] == Event(true, 0, 0)
    ensures var s := Run(FRESH, events, cfg);
            s.count == n && s.last == At(0) && (if n == cfg.threshold then s.flapping && s.coolingUntil == cfg.period else !s.flapping)
  {
    if n == 1 {
      events := [Event(true, 0, 0)];
      assert events[..0] == [];
    } else {
      FirstCooling(cfg);
      var before := QuickStarts(n - 1, cfg);
      events := before + [Event(true, 0, 0)];
      assert events[..n - 1] == before;
    }
  }

  /** The restart count stays within the threshold over every run exactly when the
      threshold is at least 2 and the cooling period outlasts the window. Then the
      exponent is always 0: each cooling period is exactly the configured one, and the
      documented exponential back-off never happens. */
  lemma BackOffNeverGrows(cfg: Config)
    requires cfg.threshold >= 1 && 0 < cfg.period <= cfg.maxPeriod && 2 * cfg.period < TWO63 && cfg.window >= 0
    ensures (forall events :: Monotone(events) ==> Run(FRESH, events, cfg).count <= cfg.threshold)
            <==> cfg.threshold >= 2 && cfg.period > cfg.window
  {
    if cfg.threshold == 1 {
      FirstCoolingDoubles(cfg);
    } else if cfg.period > cfg.window {
      forall events | Monotone(events) ensures Run(FRESH, events, cfg).count <= cfg.threshold {
        CountBounded(events, cfg);
      }
    } else {
      var before := QuickStarts(cfg.threshold, cfg);
      var events := before + [Event(true, cfg.period, cfg.period)];
      assert events[..|before|] == before;
      assert Monotone(events);
      assert Pow2(1) == 2;
      assert Run(FRESH, events, cfg).count == cfg.threshold + 1;
    }
  }

  /** With a threshold of 1 the first start is not marked, and the second one, within
      the window, already has the exponent 1: it cools for two periods. */
  lemma FirstCoolingDoubles(cfg: Config)
    requires cfg.threshold == 1 && 0 < cfg.period <= cfg.maxPeriod && 2 * cfg.period < TWO63 && cfg.window >= 0
    ensures var events := [Event(true, 0, 0), Event(true, 0, 0)];
            var s := Run(FRESH, events, cfg);
            Monotone(events) && s.count == 2 && s.flapping && s.coolingUntil == Min(2 * cfg.period, cfg.maxPeriod)
  {
    var events := [Event(true, 0, 0), Event(true, 0, 0)];
    assert events[..1] == [Event(true, 0, 0)] && events[..1][..0] == [];
    assert Run(FRESH, events[..1], cfg) == State(1, At(0), false, 0);
    assert Pow2(1) == 2;
  }

  predicate StartedCooling(events: seq<Event>, i: int, until: int, cfg: Config) {
    0 <= i < |events| && events[i].start && until == events[i].updated + cfg.period
  }

  /** While the count stays within the threshold every cooling lasts one period. */
  lemma {:induction false} CoolingIsOnePeriod(events: seq<Event>, cfg: Config)
    requires Reasonable(cfg) && cfg.period > cfg.window && Monotone(events)
    ensures var s := Run(FRESH, events, cfg);
            s.flapping ==> exists i :: StartedCooling(events, i, s.coolingUntil, cfg)
  {
    if events != [] {
      var n := |events| - 1;
      CountBounded(events[..n], cfg);
      CoolingIsOnePeriod(events[..n], cfg);
      var before, after := Run(FRESH, events[..n], cfg), Run(FRESH, events, cfg);
      if after.flapping {
        if before.flapping && after.coolingUntil == before.coolingUntil {
          var i :| StartedCooling(events[..n], i, before.coolingUntil, cfg);
          assert StartedCooling(events, i, after.coolingUntil, cfg);
        } else {
          assert StartedCooling(events, n, after.coolingUntil, cfg);
        }
      }
    }
  }

  /** Below 2^43 ns the product never wraps, whatever the count. */
  lemma CoolingExact(count: int, cfg: Config)
    requires count >= cfg.threshold && 0 <= cfg.period < 0x800_0000_0000
    ensures CoolingDuration(count, cfg) == Min(Pow2(Min(count - cfg.threshold, 20)) * cfg.period, cfg.maxPeriod)
  {
    var n := Min(count - cfg.threshold, 20);
    Pow2Monotone(n, 20);
    Pow2Of20();
    ScaleLe(Pow2(n), 0x10_0000, cfg.period);
    assert 0x10_0000 * cfg.period < TWO63;
  }

  lemma ScaleLe(a: int, b: int, period: int)
    requires 0 <= a <= b && 0 <= period
    ensures 0 <= a * period <= b * period
  {
  }

  /* ---- What marks a container as flapping ---- */

  /** Event i was not ignored: the container was not cooling when it was checked. */
  predicate Handled(events: seq<Event>, i: int, cfg: Config) {
    0 <= i < |events| && !Cooling(Run(FRESH, events[..i], cfg), events[i].checked)
  }

  /** Event i is a start that was not ignored. */
  predicate Counted(events: seq<Event>, i: int, cfg: Config) {
    Handled(events, i, cfg) && events[i].start
  }

  /** Start i leaves its container cooling. */
  predicate Marks(events: seq<Event>, i: int, cfg: Config) {
    Counted(events, i, cfg) && Cooling(Run(FRESH, events[..i + 1], cfg), events[i].updated)
  }

  /** When the cooling that start i began ends: its time, plus the period doubled for
      every start beyond the threshold, at most 20 times and up to the maximum. */
  function EndOf(events: seq<Event>, i: int, cfg: Config): int
    requires 0 <= i < |events|
  {
    var beyond := CountAt(events, i, cfg) - cfg.threshold;
    events[i].updated + Min(Pow2(if beyond < 0 then 0 else Min(beyond, 20)) * cfg.period, cfg.maxPeriod)
  }

  /** Mark j is the one that stands before event n: none came later, and it was not
      cleared since. */
  ghost predicate InForce(events: seq<Event>, j: int, n: int, cfg: Config)
    decreases n, 0
  {
    && n <= |events| && 0 <= j < n && Marks(events, j, cfg)
    && forall l :: j < l < n ==> !Marks(events, l, cfg) && !Cleared(events, l, cfg)
  }

  /** Event i clears mark and count: it was not ignored, it does not mark again, and its
      update is later than the end of the cooling in force. */
  ghost predicate Cleared(events: seq<Event>, i: int, cfg: Config)
    decreases i, 1
  {
    && 0 <= i < |events| && Handled(events, i, cfg) && !Marks(events, i, cfg)
    && exists j :: InForce(events, j, i, cfg) && events[i].updated > EndOf(events, j, cfg)
  }

  /** Counted start i comes right after counted start j, at most one window later, with
      no clearing from j on. */
  ghost predicate Follows(events: seq<Event>, j: int, i: int, cfg: Config) {
    && Counted(events, j, cfg) && Counted(events, i, cfg) && j < i
    && events[i].updated - events[j].updated <= cfg.window
    && (forall m :: j < m < i ==> !Counted(events, m, cfg))
    && (forall m :: j <= m < i ==> !Cleared(events, m, cfg))
  }

  /** `n` counted starts in a row, the last one at i, each within a window of the one
      before: the gaps are bounded, not their sum. */
  ghost predicate Chain(events: seq<Event>, i: int, n: nat, cfg: Config)
    decreases n
  {
    Counted(events, i, cfg) && n >= 1 && (n == 1 || exists j :: Follows(events, j, i, cfg) && Chain(events, j, n - 1, cfg))
  }

  /** The count an unignored start reaches before any clearing. */
  function CountAt(events: seq<Event>, i: int, cfg: Config): int
    requires 0 <= i < |events|
  {
    Restarted(Run(FRESH, events[..i], cfg), events[i].updated, cfg).count
  }

  /** Periods for which no duration wraps. */
  predicate Plain(cfg: Config) {
    0 < cfg.period < 0x800_0000_0000 && 0 < cfg.maxPeriod
  }

  lemma CoolingPositive(count: int, cfg: Config)
    requires Plain(cfg) && count >= cfg.threshold
    ensures CoolingDuration(count, cfg) > 0
  {
    CoolingExact(count, cfg);
    var n := Min(count - cfg.threshold, 20);
    AtLeastFactor(cfg.period, Pow2(n));
  }

  lemma RunNext(events: seq<Event>, i: nat, cfg: Config)
    requires i < |events|
    ensures Run(FRESH, events[..i + 1], cfg) == Handle(Run(FRESH, events[..i], cfg), events[i], cfg)
  {
    assert events[..i + 1][..i] == events[..i];
  }

  /** The latest start lies within the window. */
  predicate Recent(s: State, now: int, cfg: Config) {
    s.last.At? && now - s.last.time <= cfg.window
  }

  /** An unignored start leaves the container cooling exactly when the one before is
      recent and the count reached the threshold. */
  lemma MarkedByCount(events: seq<Event>, i: nat, cfg: Config)
    requires Plain(cfg) && Monotone(events) && Counted(events, i, cfg)
    ensures Cooling(Run(FRESH, events[..i + 1], cfg), events[i].updated)
            <==> Recent(Run(FRESH, events[..i], cfg), events[i].updated, cfg) && CountAt(events, i, cfg) >= cfg.threshold
  {
    RunNext(events, i, cfg);
    if CountAt(events, i, cfg) >= cfg.threshold {
      CoolingPositive(CountAt(events, i, cfg), cfg);
    }
  }

  /** What the state remembers of the events: the last counted start, and the count it
      reached unless that was cleared since. */
  ghost predicate Remembers(events: seq<Event>, n: nat, s: State, cfg: Config)
    requires n <= |events|
  {
    match s.last
    case Never => s.count == 0 && forall m :: 0 <= m < n ==> !Counted(events, m, cfg)
    case At(t) => exists j :: LastCounted(events, n, j, s, cfg)
  }

  ghost predicate LastCounted(events: seq<Event>, n: nat, j: int, s: State, cfg: Config)
    requires n <= |events|
  {
    && 0 <= j < n && Counted(events, j, cfg) && s.last == At(events[j].updated)
    && (forall m :: j < m < n ==> !Counted(events, m, cfg))
    && s.count == (if exists m :: j <= m < n && Cleared(events, m, cfg) then 0 else CountAt(events, j, cfg))
  }

  lemma OneInForce(events: seq<Event>, j: int, k: int, n: int, cfg: Config)
    requires InForce(events, j, n, cfg) && InForce(events, k, n, cfg)
    ensures j == k
  {
  }

  /** The effect of one event on the flag, in terms of the mark in force. */
  lemma StepFlag(events: seq<Event>, i: nat, cfg: Config)
    requires Plain(cfg) && Monotone(events) && i < |events|
    requires ReflectsMarks(events, i, cfg)
    ensures var s, t := Run(FRESH, events[..i], cfg), Run(FRESH, events[..i + 1], cfg);
            && (Cleared(events, i, cfg) <==> s.flapping && !t.flapping)
            && (Marks(events, i, cfg) ==> t.flapping && t.coolingUntil == EndOf(events, i, cfg))
            && (!Marks(events, i, cfg) && t.flapping ==> s.flapping && t.coolingUntil == s.coolingUntil)
  {
    RunNext(events, i, cfg);
    var s := Run(FRESH, events[..i], cfg);
    if Counted(events, i, cfg) {
      MarkedByCount(events, i, cfg);
    }
    if Marks(events, i, cfg) {
      EndIsCoolingUntil(events, i, cfg);
    } else if s.flapping {
      var j :| InForce(events, j, i, cfg) && s.coolingUntil == EndOf(events, j, cfg);
      forall k | InForce(events, k, i, cfg) ensures k == j {
        OneInForce(events, j, k, i, cfg);
      }
    }
  }

  lemma InForceNext(events: seq<Event>, j: int, i: nat, cfg: Config)
    requires i < |events|
    ensures InForce(events, j, i + 1, cfg)
            <==> if j == i then Marks(events, i, cfg) else InForce(events, j, i, cfg) && !Marks(events, i, cfg) && !Cleared(events, i, cfg)
  {
  }

  lemma StepMarks(events: seq<Event>, i: nat, cfg: Config)
    requires Plain(cfg) && Monotone(events) && i < |events|
    requires ReflectsMarks(events, i, cfg)
    ensures ReflectsMarks(events, i + 1, cfg)
  {
    StepFlag(events, i, cfg);
    var s, t := Run(FRESH, events[..i], cfg), Run(FRESH, events[..i + 1], cfg);
    if Marks(events, i, cfg) {
      assert InForce(events, i, i + 1, cfg);
    } else if t.flapping {
      var j :| InForce(events, j, i, cfg) && s.coolingUntil == EndOf(events, j, cfg);
      InForceNext(events, j, i, cfg);
    } else {
      var n := i + 1;
      if j :| InForce(events, j, n, cfg) {
        InForceNext(events, j, i, cfg);
        assert false;
      }
    }
  }

  /** The state's mark is the one in force. */
  ghost predicate ReflectsMarks(events: seq<Event>, n: int, cfg: Config)
    requires 0 <= n <= |events|
  {
    var s := Run(FRESH, events[..n], cfg);
    && (s.flapping ==> exists j :: InForce(events, j, n, cfg) && s.coolingUntil == EndOf(events, j, cfg))
    && (!s.flapping ==> forall j :: !InForce(events, j, n, cfg))
  }

  lemma EndIsCoolingUntil(events: seq<Event>, i: nat, cfg: Config)
    requires Plain(cfg) && Monotone(events) && Marks(events, i, cfg)
    ensures Run(FRESH, events[..i + 1], cfg).flapping && Run(FRESH, events[..i + 1], cfg).coolingUntil == EndOf(events, i, cfg)
  {
    RunNext(events, i, cfg);
    MarkedByCount(events, i, cfg);
    CoolingExact(CountAt(events, i, cfg), cfg);
    CoolingPositive(CountAt(events, i, cfg), cfg);
  }

  lemma {:induction false} MarksReflected(events: seq<Event>, n: nat, cfg: Config)
    requires Plain(cfg) && Monotone(events) && n <= |events|
    ensures ReflectsMarks(events, n, cfg)
    decreases n
  {
    if n > 0 {
      MarksReflected(events, n - 1, cfg);
      StepMarks(events, n - 1, cfg);
    }
  }

  /** Over every run the flag is taken back by exactly the events that clear, read off
      the times: the cooling in force is over, and the event does not mark again. */
  lemma ClearedByTime(events: seq<Event>, i: nat, cfg: Config)
    requires Plain(cfg) && Monotone(events) && i < |events|
    ensures Cleared(events, i, cfg) <==> Run(FRESH, events[..i], cfg).flapping && !Run(FRESH, events[..i + 1], cfg).flapping
  {
    MarksReflected(events, i, cfg);
    StepFlag(events, i, cfg);
  }

  /** And an event is ignored exactly when it is checked before the end of the cooling in
      force. */
  lemma IgnoredByTime(events: seq<Event>, i: nat, cfg: Config)
    requires Plain(cfg) && Monotone(events) && i < |events|
    ensures !Handled(events, i, cfg) <==> exists j :: InForce(events, j, i, cfg) && events[i].checked < EndOf(events, j, cfg)
  {
    MarksReflected(events, i, cfg);
    var s := Run(FRESH, events[..i], cfg);
    if j :| InForce(events, j, i, cfg) && events[i].checked < EndOf(events, j, cfg) {
      var k :| InForce(events, k, i, cfg) && s.coolingUntil == EndOf(events, k, cfg);
      OneInForce(events, j, k, i, cfg);
    }
  }

  /** Clearing sets the count back; otherwise a counted start leaves its count. */
  lemma ClearedIff(events: seq<Event>, i: nat, cfg: Config)
    requires Plain(cfg) && Monotone(events) && i < |events|
    ensures var s, t := Run(FRESH, events[..i], cfg), Run(FRESH, events[..i + 1], cfg);
            && (Cleared(events, i, cfg) ==> t.count == 0)
            && (!Cleared(events, i, cfg) ==> t.count == if Counted(events, i, cfg) then CountAt(events, i, cfg) else s.count)
            && t.last == if Counted(events, i, cfg) then At(events[i].updated) else s.last
  {
    ClearedByTime(events, i, cfg);
    RunNext(events, i, cfg);
    var s, e := Run(FRESH, events[..i], cfg), events[i];
    if Counted(events, i, cfg) && CountAt(events, i, cfg) >= cfg.threshold {
      CoolingPositive(CountAt(events, i, cfg), cfg);
    }
  }

  lemma {:induction false} RunRemembers(events: seq<Event>, n: nat, cfg: Config)
    requires Plain(cfg) && Monotone(events) && n <= |events|
    ensures Remembers(events, n, Run(FRESH, events[..n], cfg), cfg)
    decreases n
  {
    if n > 0 {
      RunRemembers(events, n - 1, cfg);
      if Counted(events, n - 1, cfg) {
        NewLast(events, n - 1, cfg);
      } else {
        OldLast(events, n - 1, cfg);
      }
    }
  }

  lemma OldLast(events: seq<Event>, i: nat, cfg: Config)
    requires Plain(cfg) && Monotone(events) && i < |events| && !Counted(events, i, cfg)
    requires Remembers(events, i, Run(FRESH, events[..i], cfg), cfg)
    ensures Remembers(events, i + 1, Run(FRESH, events[..i + 1], cfg), cfg)
  {
    var s := Run(FRESH, events[..i], cfg);
    RunNext(events, i, cfg);
    if s.last.At? {
      var j :| LastCounted(events, i, j, s, cfg);
      StillLast(events, i, j, cfg);
    } else {
      NeverFlapping(events, i, cfg);
    }
  }

  lemma NewLast(events: seq<Event>, i: nat, cfg: Config)
    requires Plain(cfg) && Monotone(events) && Counted(events, i, cfg)
    ensures LastCounted(events, i + 1, i, Run(FRESH, events[..i + 1], cfg), cfg)
  {
    ClearedIff(events, i, cfg);
  }

  lemma StillLast(events: seq<Event>, i: nat, j: int, cfg: Config)
    requires Plain(cfg) && Monotone(events) && i < |events| && !Counted(events, i, cfg)
    requires LastCounted(events, i, j, Run(FRESH, events[..i], cfg), cfg)
    ensures LastCounted(events, i + 1, j, Run(FRESH, events[..i + 1], cfg), cfg)
  {
    ClearedIff(events, i, cfg);
    if m :| j <= m < i && Cleared(events, m, cfg) {
      assert j <= m < i + 1;
    }
  }

  /** Before any counted start there is no mark to clear. */
  lemma {:induction false} NeverFlapping(events: seq<Event>, n: nat, cfg: Config)
    requires n <= |events| && Run(FRESH, events[..n], cfg).last == Never
    ensures Run(FRESH, events[..n], cfg) == FRESH
    decreases n
  {
    if n > 0 {
      RunNext(events, n - 1, cfg);
      NeverFlapping(events, n - 1, cfg);
    }
  }

  lemma CountPositive(events: seq<Event>, i: nat, cfg: Config)
    requires Plain(cfg) && Monotone(events) && i < |events|
    ensures CountAt(events, i, cfg) >= 1
  {
    CountNonNegative(events, i, cfg);
  }

  lemma {:induction false} CountNonNegative(events: seq<Event>, n: nat, cfg: Config)
    requires n <= |events|
    ensures Run(FRESH, events[..n], cfg).count >= 0
    decreases n
  {
    if n > 0 {
      RunNext(events, n - 1, cfg);
      CountNonNegative(events, n - 1, cfg);
    }
  }

  /** The count of a start is the length of the longest chain it ends. */
  lemma {:induction false} CountIsChain(events: seq<Event>, i: nat, n: nat, cfg: Config)
    requires Plain(cfg) && Monotone(events) && Counted(events, i, cfg) && n >= 1
    ensures CountAt(events, i, cfg) >= n <==> Chain(events, i, n, cfg)
    decreases n
  {
    CountPositive(events, i, cfg);
    if n > 1 {
      RunRemembers(events, i, cfg);
      var s := Run(FRESH, events[..i], cfg);
      if s.last.At? {
        var j :| LastCounted(events, i, j, s, cfg);
        CountIsChain(events, j, n - 1, cfg);
        ChainThrough(events, j, i, n, cfg);
      }
    }
  }

  lemma ChainThrough(events: seq<Event>, j: nat, i: nat, n: nat, cfg: Config)
    requires n > 1 && i < |events| && LastCounted(events, i, j, Run(FRESH, events[..i], cfg), cfg) && Counted(events, i, cfg)
    ensures Chain(events, i, n, cfg) <==> Follows(events, j, i, cfg) && Chain(events, j, n - 1, cfg)
  {
    forall k | Follows(events, k, i, cfg) ensures k == j {
    }
  }

  /** A start marks its container exactly when it ends a chain of `threshold` counted
      starts, each within a window of the one before. */
  lemma MarkedIff(events: seq<Event>, i: nat, cfg: Config)
    requires Plain(cfg) && cfg.threshold >= 2 && Monotone(events) && Counted(events, i, cfg)
    ensures Cooling(Run(FRESH, events[..i + 1], cfg), events[i].updated) <==> Chain(events, i, cfg.threshold, cfg)
  {
    MarkedByCount(events, i, cfg);
    CountIsChain(events, i, cfg.threshold, cfg);
  }

  /** With a threshold of 1 or less, exactly when the previous counted start is within
      a window: the first start is never marked. */
  lemma MarkedLowThreshold(events: seq<Event>, i: nat, cfg: Config)
    requires Plain(cfg) && cfg.threshold <= 1 && Monotone(events) && Counted(events, i, cfg)
    ensures Cooling(Run(FRESH, events[..i + 1], cfg), events[i].updated)
            <==> exists j :: 0 <= j < i && Counted(events, j, cfg) && events[i].updated - events[j].updated <= cfg.window
  {
    MarkedByCount(events, i, cfg);
    CountPositive(events, i, cfg);
    RunRemembers(events, i, cfg);
  }

  /** Starts one window apart. */
  function Spaced(n: nat, cfg: Config): (events: seq<Event>)
    ensures |events| == n && forall i :: 0 <= i < n ==> events[i] == Event(true, i * cfg.window, i * cfg.window)
  {
    seq(n, i => Event(true, i * cfg.window, i * cfg.window))
  }

  lemma {:induction false} SpacedRun(n: nat, cfg: Config)
    requires Plain(cfg) && cfg.window >= 0 && 1 <= n <= cfg.threshold && cfg.threshold >= 2
    ensures var s := Run(FRESH, Spaced(n, cfg), cfg);
            && s.count == n && s.last == At((n - 1) * cfg.window) && (s.flapping <==> n == cfg.threshold)
            && (s.flapping ==> Cooling(s, (n - 1) * cfg.window))
  {
    var events := Spaced(n, cfg);
    if n == 1 {
      assert events[..0] == [];
    } else {
      assert events[..n - 1] == Spaced(n - 1, cfg);
      SpacedRun(n - 1, cfg);
      assert (n - 1) * cfg.window - (n - 2) * cfg.window == cfg.window;
      if n == cfg.threshold {
        CoolingPositive(n, cfg);
      }
    }
  }

  lemma SpacedApart(i: nat, j: nat, window: int)
    requires i < j && window > 0
    ensures i * window <= j * window
    ensures j * window - i * window <= window ==> j == i + 1
  {
    assert j * window - i * window == (j - i) * window;
    if j - i >= 2 {
      assert (j - i) * window >= 2 * window;
    }
  }

  lemma SpacedTimes(cfg: Config)
    requires cfg.window > 0 && cfg.threshold >= 0
    ensures var events := Spaced(cfg.threshold, cfg);
            && Monotone(events)
            && forall i, j :: 0 <= i < j < |events| && events[j].updated - events[i].updated <= cfg.window ==> j == i + 1
  {
    var events := Spaced(cfg.threshold, cfg);
    forall i, j | 0 <= i < j < |events|
      ensures events[i].updated <= events[j].checked
      ensures events[j].updated - events[i].updated <= cfg.window ==> j == i + 1
    {
      SpacedApart(i, j, cfg.window);
    }
  }

  /** For every threshold from 2 on, exactly `threshold` starts, one window apart, mark
      the container, although no window holds more than two of them. */
  lemma SpacedStartsAreMarked(cfg: Config)
    requires Plain(cfg) && cfg.window > 0 && cfg.threshold >= 2
    ensures var events := Spaced(cfg.threshold, cfg);
            && Monotone(events)
            && Cooling(Run(FRESH, events, cfg), events[cfg.threshold - 1].updated)
            && forall i, j :: 0 <= i < j < |events| && events[j].updated - events[i].updated <= cfg.window ==> j == i + 1
  {
    SpacedRun(cfg.threshold, cfg);
    SpacedTimes(cfg);
  }

  /* ---- The documented rule ---- */

  /** The counted starts of the window that ends with start i. */
  function InWindow(events: seq<Event>, i: int, cfg: Config): set<int>
    requires 0 <= i < |events|
  {
    set j | 0 <= j <= i && Counted(events, j, cfg) && events[i].updated - events[j].updated <= cfg.window
  }

  /** Start i is treated as documented: marked exactly when more than `threshold`
      restarts fall within the window. */
  ghost predicate AsDocumented(events: seq<Event>, i: nat, cfg: Config)
    requires i < |events|
  {
    Cooling(Run(FRESH, events[..i + 1], cfg), events[i].updated) <==> |InWindow(events, i, cfg)| > cfg.threshold
  }

  ghost predicate FollowsDocumentation(cfg: Config) {
    forall events: seq<Event>, i: nat :: i < |events| && Monotone(events) && Counted(events, i, cfg) ==> AsDocumented(events, i, cfg)
  }

  lemma Element<T>(s: set<T>) returns (x: T)
    requires s != {}
    ensures x in s
  {
    x :| x in s;
  }

  lemma {:induction false} SmallSet(s: set<int>, n: nat)
    requires forall x :: x in s ==> 0 <= x < n
    ensures |s| <= n
  {
    if n > 0 {
      SmallSet(s - {n - 1}, n - 1);
      assert |s| <= |s - {n - 1}| + 1;
    } else if s != {} {
      var x := Element(s);
      assert false;
    }
  }

  lemma TwoOrMore<T>(s: set<T>, x: T)
    requires x in s
    ensures |s| > 1 <==> exists y :: y in s && y != x
  {
    var rest := s - {x};
    assert |rest| == |s| - 1;
    if rest != {} {
      var y := Element(rest);
      assert y in s && y != x;
    }
    if y :| y in s && y != x {
      assert y in rest;
    }
  }

  lemma DocumentedAtOne(events: seq<Event>, i: nat, cfg: Config)
    requires Plain(cfg) && cfg.threshold == 1 && cfg.window >= 0 && Monotone(events) && Counted(events, i, cfg)
    ensures AsDocumented(events, i, cfg)
  {
    MarkedLowThreshold(events, i, cfg);
    var near := InWindow(events, i, cfg);
    assert i in near;
    TwoOrMore(near, i);
    assert (exists j :: j in near && j != i) <==>
      exists j :: 0 <= j < i && Counted(events, j, cfg) && events[i].updated - events[j].updated <= cfg.window by {
      if j :| 0 <= j < i && Counted(events, j, cfg) && events[i].updated - events[j].updated <= cfg.window {
        assert j in near;
      }
    }
  }

  lemma SpacedMonotone(cfg: Config)
    requires cfg.window >= 0 && cfg.threshold >= 0
    ensures Monotone(Spaced(cfg.threshold, cfg))
  {
    if cfg.window > 0 {
      SpacedTimes(cfg);
    }
  }

  lemma NotDocumentedAbove(cfg: Config)
    requires Plain(cfg) && cfg.threshold >= 2 && cfg.window >= 0
    ensures !FollowsDocumentation(cfg)
  {
    var events, i := Spaced(cfg.threshold, cfg), cfg.threshold - 1;
    SpacedMonotone(cfg);
    SpacedRun(cfg.threshold, cfg);
    SpacedRun(i, cfg);
    assert events[..i] == Spaced(i, cfg) && events[..i + 1] == events;
    assert Counted(events, i, cfg);
    SmallSet(InWindow(events, i, cfg), cfg.threshold);
    assert !AsDocumented(events, i, cfg);
  }

  /** The documentation asks for more than `flappingThreshold` restarts within the
      window. Over every run the code does that exactly when the threshold is 1: above,
      it acts on the threshold itself and bounds each gap instead of their sum. */
  lemma DocumentedIff(cfg: Config)
    requires Plain(cfg) && cfg.threshold >= 1 && cfg.window >= 0
    ensures FollowsDocumentation(cfg) <==> cfg.threshold == 1
  {
    if cfg.threshold == 1 {
      forall events: seq<Event>, i: nat | i < |events| && Monotone(events) && Counted(events, i, cfg)
        ensures AsDocumented(events, i, cfg)
      {
        DocumentedAtOne(events, i, cfg);
      }
    } else {
      NotDocumentedAbove(cfg);
    }
  }
}
