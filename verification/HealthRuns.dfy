/** Chains of evaluations of one device: hysteresis, event order, times and liveness. */
module HealthRuns {
  import opened Basics
  import opened Health

  // ---------------------------------------------------------------- hysteresis

  /** What a sample says to a rule. No sample says both. */
  datatype Reading = Reading(exceeded: bool, recovered: bool)

  function StreakAfter(rs: seq<Reading>, need: nat): Streak {
    if rs == [] then IDLE
    else
      var r := rs[|rs| - 1];
      StreakStep(StreakAfter(rs[..|rs| - 1], need), r.exceeded, r.recovered, need)
  }

  /** The `need` samples up to position m all exceeded the limit. */
  ghost predicate Run(rs: seq<Reading>, need: nat, m: int) {
    need <= m + 1 && m < |rs| && forall k :: m - need < k <= m ==> rs[k].exceeded
  }

  ghost predicate NoRecoverySince(rs: seq<Reading>, m: int) {
    forall k :: 0 <= m < k < |rs| ==> !rs[k].recovered
  }

  /** Some run of `need` exceeding samples has not been followed by a recovery. */
  ghost predicate Tripped(rs: seq<Reading>, need: nat) {
    exists m :: 0 <= m && Run(rs, need, m) && NoRecoverySince(rs, m)
  }

  ghost predicate Exclusive(rs: seq<Reading>) {
    forall k :: 0 <= k < |rs| ==> !(rs[k].exceeded && rs[k].recovered)
  }

  /** The counter of a rule that is not firing is the length of the exceeding suffix. */
  ghost predicate CountsSuffix(rs: seq<Reading>, count: nat) {
    && count <= |rs|
    && (forall k :: |rs| - count <= k < |rs| ==> rs[k].exceeded)
    && (count < |rs| ==> !rs[|rs| - count - 1].exceeded)
  }

  lemma TrippedKeeps(rs: seq<Reading>, r: Reading, need: nat)
    requires Tripped(rs, need) && !r.recovered
    ensures Tripped(rs + [r], need)
  {
    var m :| 0 <= m && Run(rs, need, m) && NoRecoverySince(rs, m);
    assert Run(rs + [r], need, m) && NoRecoverySince(rs + [r], m);
  }

  /** Without a full run at the new sample, the rule was tripped before it. */
  lemma TrippedBefore(rs: seq<Reading>, r: Reading, need: nat)
    requires Tripped(rs + [r], need) && !Run(rs + [r], need, |rs|)
    ensures Tripped(rs, need) && !r.recovered
  {
    var m :| 0 <= m && Run(rs + [r], need, m) && NoRecoverySince(rs + [r], m);
    assert (rs + [r])[|rs|] == r;
    forall k | 0 <= k < |rs|
      ensures (rs + [r])[k] == rs[k]
    {
    }
    assert Run(rs, need, m) && NoRecoverySince(rs, m);
  }

  /** The rule fires exactly when some run of `need` exceeding samples has not been followed by a
      recovery; while it does not fire, its counter is the length of the current run. */
  lemma {:induction false} FiringIffTripped(rs: seq<Reading>, need: nat)
    requires Exclusive(rs) && need > 0
    ensures StreakAfter(rs, need).firing <==> Tripped(rs, need)
    ensures !StreakAfter(rs, need).firing ==> CountsSuffix(rs, StreakAfter(rs, need).count)
    decreases |rs|
  {
    if rs != [] {
      var before, r := rs[..|rs| - 1], rs[|rs| - 1];
      assert rs == before + [r];
      FiringIffTripped(before, need);
      var s, t := StreakAfter(before, need), StreakAfter(rs, need);
      if s.firing {
        if !r.recovered {
          TrippedKeeps(before, r, need);
        } else if Tripped(rs, need) {
          TrippedBefore(before, r, need);
        }
      } else {
        if r.exceeded && s.count + 1 >= need {
          assert Run(rs, need, |before|) && NoRecoverySince(rs, |before|);
        } else if Tripped(rs, need) {
          assert !Run(rs, need, |before|) by {
            if r.exceeded && s.count < |before| {
              assert !rs[|before| - s.count - 1].exceeded;
            }
          }
          TrippedBefore(before, r, need);
        }
      }
    }
  }

  /** A sample never both exceeds and has recovered, on either side of the 8 GiB switch. */
  lemma ThresholdsExclusive(s: Sample)
    ensures !(DiskExceeded(s) && DiskRecovered(s))
    ensures !(MemoryExceeded(s) && MemoryRecovered(s))
  {
  }

  // ---------------------------------------------------------------- chains

  /** The snapshot after evaluating a device on each input in turn. */
  function After(cfg: Config, inputs: seq<Input>): (s: Option<Snapshot>)
    ensures inputs != [] ==> s.Some? && s.value.evaluatedAt == inputs[|inputs| - 1].now
  {
    if inputs == [] then None
    else Some(Evaluate(cfg, inputs[|inputs| - 1], After(cfg, inputs[..|inputs| - 1])))
  }

  function DiskReading(i: Input): Reading {
    var s := DiskSample(i.runtime);
    Reading(DiskExceeded(s), DiskRecovered(s))
  }

  function MemoryReading(i: Input): Reading {
    var s := MemorySample(i.runtime);
    Reading(MemoryExceeded(s), MemoryRecovered(s))
  }

  function DiskReadings(inputs: seq<Input>): seq<Reading> {
    seq(|inputs|, i requires 0 <= i < |inputs| => DiskReading(inputs[i]))
  }

  function MemoryReadings(inputs: seq<Input>): seq<Reading> {
    seq(|inputs|, i requires 0 <= i < |inputs| => MemoryReading(inputs[i]))
  }

  lemma EvaluateCarriesStreaks(cfg: Config, input: Input, prev: Option<Snapshot>)
    ensures var s := Some(Evaluate(cfg, input, prev));
            && PreviousStreak(s, DiskSpaceLow)
               == StreakStep(PreviousStreak(prev, DiskSpaceLow), DiskReading(input).exceeded, DiskReading(input).recovered, 2)
            && PreviousStreak(s, MemoryPressure)
               == StreakStep(PreviousStreak(prev, MemoryPressure), MemoryReading(input).exceeded, MemoryReading(input).recovered, 3)
  {
    assert DiskSpaceLow in Reasons(cfg, input, prev) <==> Reported(cfg, input, prev, DiskSpaceLow);
    assert MemoryPressure in Reasons(cfg, input, prev) <==> Reported(cfg, input, prev, MemoryPressure);
  }

  lemma {:induction false} ChainCarriesStreaks(cfg: Config, inputs: seq<Input>)
    ensures PreviousStreak(After(cfg, inputs), DiskSpaceLow) == StreakAfter(DiskReadings(inputs), 2)
    ensures PreviousStreak(After(cfg, inputs), MemoryPressure) == StreakAfter(MemoryReadings(inputs), 3)
    decreases |inputs|
  {
    if inputs != [] {
      var before := inputs[..|inputs| - 1];
      ChainCarriesStreaks(cfg, before);
      EvaluateCarriesStreaks(cfg, inputs[|inputs| - 1], After(cfg, before));
      assert DiskReadings(inputs)[..|inputs| - 1] == DiskReadings(before);
      assert MemoryReadings(inputs)[..|inputs| - 1] == MemoryReadings(before);
    }
  }

  /** Over any chain of samples, the disk reason fires exactly when two samples in a row exceeded the limit
      and none has recovered since (a missing sample counts as recovered); the memory reason needs three. */
  lemma ResourceRulesFireExactly(cfg: Config, inputs: seq<Input>)
    ensures WasFiring(After(cfg, inputs), DiskSpaceLow) <==> Tripped(DiskReadings(inputs), 2)
    ensures WasFiring(After(cfg, inputs), MemoryPressure) <==> Tripped(MemoryReadings(inputs), 3)
  {
    forall k | 0 <= k < |inputs|
      ensures !(DiskReadings(inputs)[k].exceeded && DiskReadings(inputs)[k].recovered)
      ensures !(MemoryReadings(inputs)[k].exceeded && MemoryReadings(inputs)[k].recovered)
    {
      ThresholdsExclusive(DiskSample(inputs[k].runtime));
      ThresholdsExclusive(MemorySample(inputs[k].runtime));
    }
    ChainCarriesStreaks(cfg, inputs);
    FiringIffTripped(DiskReadings(inputs), 2);
    FiringIffTripped(MemoryReadings(inputs), 3);
  }

  // ---------------------------------------------------------------- event order

  /** The events of one code along a chain. */
  function Log(cfg: Config, inputs: seq<Input>, c: Code): seq<Event> {
    if inputs == [] then []
    else
      var before := inputs[..|inputs| - 1];
      var e := EventFor(After(cfg, before), After(cfg, inputs).value, c);
      Log(cfg, before, c) + (if e.Some? then [e.value] else [])
  }

  /** Opened, any number of changes, resolved, opened again; `open` tells whether a period is running. */
  predicate Alternates(log: seq<Event>, open: bool) {
    if log == [] then !open
    else
      var before := log[..|log| - 1];
      match log[|log| - 1].kind
      case Opened => open && Alternates(before, false)
      case Changed => open && Alternates(before, true)
      case Resolved => !open && Alternates(before, true)
  }

  /** When the running period was opened. */
  function OpenedAt(log: seq<Event>): Time {
    if log == [] then 0
    else if log[|log| - 1].kind.Opened? then log[|log| - 1].at
    else OpenedAt(log[..|log| - 1])
  }

  lemma LogTail(cfg: Config, inputs: seq<Input>, c: Code)
    requires inputs != []
    ensures var before := Log(cfg, inputs[..|inputs| - 1], c);
            var e := EventFor(After(cfg, inputs[..|inputs| - 1]), After(cfg, inputs).value, c);
            Log(cfg, inputs, c) == (if e.None? then before else before + [e.value])
  {
  }

  lemma AlternatesTail(log: seq<Event>, e: Event, open: bool)
    requires Alternates(log, open)
    requires match e.kind case Opened => !open case Changed => open case Resolved => open
    ensures Alternates(log + [e], !e.kind.Resolved?)
    ensures OpenedAt(log + [e]) == if e.kind.Opened? then e.at else OpenedAt(log)
  {
    assert (log + [e])[..|log|] == log;
  }

  /** A reason that fires keeps the time of the reason that fired before it, or starts now. */
  lemma FirstIsKept(cfg: Config, input: Input, prev: Option<Snapshot>, c: Code)
    requires FiringIn(Evaluate(cfg, input, prev).reasons, c)
    ensures Evaluate(cfg, input, prev).reasons[c].first == if WasFiring(prev, c) then prev.value.reasons[c].first else input.now
  {
  }

  ghost predicate LogMatches(log: seq<Event>, s: Option<Snapshot>, c: Code) {
    && Alternates(log, WasFiring(s, c))
    && (WasFiring(s, c) ==>
          log != [] && s.value.reasons[c].first == OpenedAt(log) && s.value.reasons[c].severity == log[|log| - 1].severity)
  }

  lemma EventKeepsLog(cfg: Config, log: seq<Event>, prev: Option<Snapshot>, input: Input, c: Code)
    requires LogMatches(log, prev, c)
    ensures var cur := Evaluate(cfg, input, prev);
            var e := EventFor(prev, cur, c);
            LogMatches(if e.None? then log else log + [e.value], Some(cur), c)
  {
    var cur := Evaluate(cfg, input, prev);
    var e := EventFor(prev, cur, c);
    if FiringIn(cur.reasons, c) {
      FirstIsKept(cfg, input, prev, c);
    }
    if e.Some? {
      AlternatesTail(log, e.value, WasFiring(prev, c));
    }
  }

  /** Along any chain, the events of a code alternate and a period is open exactly while the reason fires;
      then the reason was first observed when the period was opened, and the last event carries its severity. */
  lemma {:induction false} EventsAlternate(cfg: Config, inputs: seq<Input>, c: Code)
    ensures LogMatches(Log(cfg, inputs, c), After(cfg, inputs), c)
    decreases |inputs|
  {
    if inputs != [] {
      var before := inputs[..|inputs| - 1];
      EventsAlternate(cfg, before, c);
      EventKeepsLog(cfg, Log(cfg, before, c), After(cfg, before), inputs[|inputs| - 1], c);
      LogTail(cfg, inputs, c);
    }
  }

  ghost predicate TimesIncrease(inputs: seq<Input>) {
    forall i, j :: 0 <= i < j < |inputs| ==> inputs[i].now < inputs[j].now
  }

  // ---------------------------------------------------------------- since

  function StatusAfter(cfg: Config, inputs: seq<Input>, k: nat): Status
    requires 0 < k <= |inputs|
  {
    After(cfg, inputs[..k]).value.status
  }

  /** `since` is the time of the evaluation that entered the current status, however long ago. */
  lemma {:induction false} SinceIsStatusStart(cfg: Config, inputs: seq<Input>, n: nat) returns (m: nat)
    requires 0 < n <= |inputs|
    ensures m < n && After(cfg, inputs[..n]).value.since == inputs[m].now
    ensures forall k :: m < k <= n ==> StatusAfter(cfg, inputs, k) == StatusAfter(cfg, inputs, n)
    ensures m > 0 ==> StatusAfter(cfg, inputs, m) != StatusAfter(cfg, inputs, n)
  {
    assert inputs[..n][..n - 1] == inputs[..n - 1];
    if n > 1 && StatusAfter(cfg, inputs, n - 1) == StatusAfter(cfg, inputs, n) {
      m := SinceIsStatusStart(cfg, inputs, n - 1);
    } else {
      m := n - 1;
    }
  }

  // ---------------------------------------------------------------- liveness

  function Level(s: Snapshot): nat {
    if FiringIn(s.reasons, DeviceOffline) then 2 else if FiringIn(s.reasons, HeartbeatStale) then 1 else 0
  }

  lemma LivenessReasons(cfg: Config, input: Input, prev: Option<Snapshot>)
    ensures var s := Evaluate(cfg, input, prev); var f := LivenessRule(cfg, input.lastSeen, prev, input.now);
            && Level(s) == (if f.None? || f.value.code.DeviceNeverSeen? then 0 else if f.value.code.HeartbeatStale? then 1 else 2)
            && (s.status.Offline? <==> Level(s) == 2)
  {
    assert DeviceOffline in Reasons(cfg, input, prev) <==> Reported(cfg, input, prev, DeviceOffline);
    assert HeartbeatStale in Reasons(cfg, input, prev) <==> Reported(cfg, input, prev, HeartbeatStale);
  }

  /** The level after the first n evaluations. */
  function LevelAfter(cfg: Config, inputs: seq<Input>, n: nat): nat
    requires 0 < n <= |inputs|
  {
    Level(After(cfg, inputs[..n]).value)
  }

  lemma AfterOne(cfg: Config, inputs: seq<Input>, n: nat)
    requires n < |inputs|
    ensures LevelAfter(cfg, inputs, n + 1) == Level(Evaluate(cfg, inputs[n], After(cfg, inputs[..n])))
    ensures After(cfg, inputs[..n + 1]) == Some(Evaluate(cfg, inputs[n], After(cfg, inputs[..n])))
  {
    assert inputs[..n + 1][..n] == inputs[..n];
  }

  lemma LevelNeverDrops(cfg: Config, prev: Option<Snapshot>, a: Input, b: Input)
    requires a.lastSeen.Some? && b.lastSeen == a.lastSeen && a.now < b.now
    ensures Level(Evaluate(cfg, a, prev)) <= Level(Evaluate(cfg, b, Some(Evaluate(cfg, a, prev))))
  {
    LivenessReasons(cfg, a, prev);
    LivenessReasons(cfg, b, Some(Evaluate(cfg, a, prev)));
  }

  /** Two evaluations in a row that saw the same heartbeat. */
  lemma NextLevelIsNotLower(cfg: Config, inputs: seq<Input>, n: nat)
    requires 0 < n < |inputs| && inputs[n].lastSeen.Some? && inputs[n - 1].lastSeen == inputs[n].lastSeen
    requires inputs[n - 1].now < inputs[n].now
    ensures LevelAfter(cfg, inputs, n) <= LevelAfter(cfg, inputs, n + 1)
  {
    AfterOne(cfg, inputs, n - 1);
    AfterOne(cfg, inputs, n);
    LevelNeverDrops(cfg, After(cfg, inputs[..n - 1]), inputs[n - 1], inputs[n]);
  }

  /** An evaluation long enough after the last heartbeat always says offline. */
  lemma OldIsOffline(cfg: Config, inputs: seq<Input>, n: nat)
    requires n < |inputs| && inputs[n].lastSeen.Some?
    requires inputs[n].now - inputs[n].lastSeen.value >= cfg.offlineAfter + Max(0, cfg.offlinePendingFor)
    ensures LevelAfter(cfg, inputs, n + 1) == 2
  {
    AfterOne(cfg, inputs, n);
    LivenessReasons(cfg, inputs[n], After(cfg, inputs[..n]));
  }

  lemma {:induction false} LevelsRise(cfg: Config, inputs: seq<Input>, i: nat, j: nat)
    requires i <= j < |inputs| && TimesIncrease(inputs)
    requires forall k :: i <= k <= j ==> inputs[k].lastSeen.Some? && inputs[k].lastSeen == inputs[i].lastSeen
    ensures LevelAfter(cfg, inputs, i + 1) <= LevelAfter(cfg, inputs, j + 1)
    decreases j
  {
    if i < j {
      LevelsRise(cfg, inputs, i, j - 1);
      NextLevelIsNotLower(cfg, inputs, j);
    }
  }

  /** While no new heartbeat arrives, liveness only gets worse: none, stale, offline; and an evaluation long
      enough after the last heartbeat always says offline. */
  lemma SilenceOnlyWorsens(cfg: Config, inputs: seq<Input>, i: nat, j: nat)
    requires i <= j < |inputs| && TimesIncrease(inputs)
    requires forall k :: i <= k <= j ==> inputs[k].lastSeen.Some? && inputs[k].lastSeen == inputs[i].lastSeen
    ensures LevelAfter(cfg, inputs, i + 1) <= LevelAfter(cfg, inputs, j + 1)
    ensures inputs[j].now - inputs[i].lastSeen.value >= cfg.offlineAfter + Max(0, cfg.offlinePendingFor) ==>
              LevelAfter(cfg, inputs, j + 1) == 2
  {
    LevelsRise(cfg, inputs, i, j);
    if inputs[j].now - inputs[i].lastSeen.value >= cfg.offlineAfter + Max(0, cfg.offlinePendingFor) {
      OldIsOffline(cfg, inputs, j);
    }
  }
}
