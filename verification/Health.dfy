/** Device health: the rules, the snapshot and the events derived from two consecutive snapshots
    (internal/health/evaluator.go, internal/health/model.go). */
module Health {
  import opened Basics

  const GIB: int := 1024 * 1024 * 1024
  const FIVE_GIB: int := 5 * GIB
  const EIGHT_GIB: int := 8 * GIB

  datatype Config = Config(
    staleAfter: Time, offlineAfter: Time, offlinePendingFor: Time, sshDriftAfter: Time, upgradeTimeout: Time)

  datatype RuleState = Ok | Firing | Unknown

  datatype Severity = Info | Warning | Critical

  datatype Status = Healthy | Degraded | Offline | NeverSeen

  datatype Code =
    | DeviceNeverSeen | DeviceOffline | HeartbeatStale
    | AgentVersionInvalid | AgentVersionOutdated
    | SshSyncFailed | SshKeyDrift
    | DdnsSyncFailed | DdnsNoValidAddress | DdnsAddressDrift | DdnsPrefixStale
    | UpgradeFailed | UpgradeNotConverged
    | DiskSpaceLow
    | MemoryPressure

  /** `count` is the number of consecutive samples recorded in the evidence of a resource rule. */
  datatype Reason = Reason(state: RuleState, severity: Severity, first: Time, last: Time, count: nat)

  datatype Snapshot = Snapshot(
    status: Status, evaluatedAt: Time, since: Time, reasons: map<Code, Reason>, revision: nat)

  /** A resource sample: available out of total, where a total of zero was not measured. */
  datatype Sample = Sample(available: nat, total: nat)

  datatype RuntimeFacts = RuntimeFacts(disk: Sample, memory: Sample)

  /** The outcome of comparing the agent version with the version policy. */
  datatype VersionVerdict = NotCompared | Malformed | BelowMinimum | BelowRecommended | UpToDate

  datatype CommandStatus = Succeeded | CommandFailed | TimedOut | Interrupted | InProgress

  datatype SshFacts = SshFacts(
    syncFailed: bool, commandStatus: Option<CommandStatus>, desiredHash: string, desiredVersion: int,
    appliedHash: string, appliedVersion: int, updatedAt: Option<Time>)

  datatype DdnsFacts = DdnsFacts(
    failed: bool, desired: string, applied: string, inGracePeriod: bool, prefixStale: bool)

  datatype UpgradeFacts = UpgradeFacts(status: CommandStatus, converged: bool, createdAt: Time, finishedAt: Option<Time>)

  /** The facts of one evaluation. `ssh` and `ddns` are absent when the feature is not enabled. */
  datatype Input = Input(
    lastSeen: Option<Time>, version: VersionVerdict, ssh: Option<SshFacts>, ddns: Option<DdnsFacts>,
    upgrade: Option<UpgradeFacts>, runtime: Option<RuntimeFacts>, now: Time)

  datatype Finding = Finding(code: Code, state: RuleState, severity: Severity, count: nat)

  // ---------------------------------------------------------------- the rules

  /** When the current silence was first seen as stale. */
  function FirstStale(prev: Option<Snapshot>, now: Time): Time {
    if prev.None? then now
    else if HeartbeatStale in prev.value.reasons then prev.value.reasons[HeartbeatStale].first
    else if DeviceOffline in prev.value.reasons then prev.value.reasons[DeviceOffline].first
    else now
  }

  predicate OfflineEligible(cfg: Config, age: Time, prev: Option<Snapshot>, now: Time) {
    || (prev.Some? && prev.value.status.Offline?)
    || now - FirstStale(prev, now) >= cfg.offlinePendingFor
    || age >= cfg.offlineAfter + cfg.offlinePendingFor
  }

  function LivenessRule(cfg: Config, lastSeen: Option<Time>, prev: Option<Snapshot>, now: Time): Option<Finding> {
    if lastSeen.None? then Some(Finding(DeviceNeverSeen, Unknown, Info, 0))
    else
      var age := now - lastSeen.value;
      if age >= cfg.offlineAfter then
        if OfflineEligible(cfg, age, prev, now) then Some(Finding(DeviceOffline, Firing, Critical, 0))
        else Some(Finding(HeartbeatStale, Firing, Warning, 0))
      else if age >= cfg.staleAfter then Some(Finding(HeartbeatStale, Firing, Warning, 0))
      else None
  }

  function VersionRule(verdict: VersionVerdict): Option<Finding> {
    match verdict
    case Malformed => Some(Finding(AgentVersionInvalid, Unknown, Info, 0))
    case BelowMinimum => Some(Finding(AgentVersionOutdated, Firing, Critical, 0))
    case BelowRecommended => Some(Finding(AgentVersionOutdated, Firing, Warning, 0))
    case _ => None
  }

  function SshRule(cfg: Config, ssh: Option<SshFacts>, now: Time): Option<Finding> {
    if ssh.None? then None
    else
      var f := ssh.value;
      if f.syncFailed || (f.commandStatus.Some? && (f.commandStatus.value.CommandFailed? || f.commandStatus.value.TimedOut?)) then
        Some(Finding(SshSyncFailed, Firing, Warning, 0))
      else if f.desiredHash != "" && (f.appliedHash != f.desiredHash || f.appliedVersion != f.desiredVersion)
              && (f.updatedAt.None? || now - f.updatedAt.value >= cfg.sshDriftAfter) then
        Some(Finding(SshKeyDrift, Firing, Warning, 0))
      else None
  }

  function DdnsRule(ddns: Option<DdnsFacts>): Option<Finding> {
    if ddns.None? then None
    else
      var f := ddns.value;
      if f.failed then Some(Finding(DdnsSyncFailed, Firing, Warning, 0))
      else if f.desired == "" && !f.inGracePeriod then Some(Finding(DdnsNoValidAddress, Firing, Warning, 0))
      else if f.desired != "" && f.applied != "" && f.desired != f.applied && !f.inGracePeriod then
        Some(Finding(DdnsAddressDrift, Firing, Warning, 0))
      else if f.prefixStale then Some(Finding(DdnsPrefixStale, Firing, Warning, 0))
      else None
  }

  function UpgradeRule(cfg: Config, upgrade: Option<UpgradeFacts>, now: Time): Option<Finding> {
    if upgrade.None? then None
    else
      var f := upgrade.value;
      if f.status.CommandFailed? || f.status.TimedOut? || f.status.Interrupted? then
        Some(Finding(UpgradeFailed, Firing, Warning, 0))
      else if f.status.Succeeded? && !f.converged
              && now - (if f.finishedAt.Some? then f.finishedAt.value else f.createdAt) >= cfg.upgradeTimeout then
        Some(Finding(UpgradeNotConverged, Firing, Warning, 0))
      else None
  }

  /** The disk limit: below a tenth, or below 5 GiB on a file system of at least 8 GiB. */
  predicate DiskExceeded(s: Sample) {
    s.total > 0 && (10 * s.available < s.total || (s.total >= EIGHT_GIB && s.available < FIVE_GIB))
  }

  predicate DiskRecovered(s: Sample) {
    s.total == 0 || (100 * s.available >= 15 * s.total && (s.total < EIGHT_GIB || s.available >= EIGHT_GIB))
  }

  predicate MemoryExceeded(s: Sample) {
    s.total > 0 && 10 * s.available < s.total
  }

  predicate MemoryRecovered(s: Sample) {
    s.total == 0 || 10 * s.available >= 2 * s.total
  }

  /** The state a resource rule carries from one evaluation to the next inside its reason. */
  datatype Streak = Streak(firing: bool, count: nat)

  const IDLE: Streak := Streak(false, 0)

  /** One sample of a rule that fires after `need` consecutive exceeding samples and stops on recovery. */
  function StreakStep(prev: Streak, exceeded: bool, recovered: bool, need: nat): Streak {
    if prev.firing then
      if recovered then IDLE else Streak(true, prev.count + 1)
    else if exceeded then Streak(prev.count + 1 >= need, prev.count + 1)
    else IDLE
  }

  function PreviousStreak(prev: Option<Snapshot>, code: Code): Streak {
    if prev.Some? && code in prev.value.reasons then
      Streak(prev.value.reasons[code].state.Firing?, prev.value.reasons[code].count)
    else IDLE
  }

  function StreakFinding(code: Code, s: Streak): Option<Finding> {
    if s.firing || s.count > 0 then Some(Finding(code, if s.firing then Firing else Ok, Warning, s.count)) else None
  }

  function DiskSample(runtime: Option<RuntimeFacts>): Sample {
    if runtime.Some? then runtime.value.disk else Sample(0, 0)
  }

  function MemorySample(runtime: Option<RuntimeFacts>): Sample {
    if runtime.Some? then runtime.value.memory else Sample(0, 0)
  }

  /** A device without a measured disk gets no disk reason, whatever it had before. */
  function DiskRule(runtime: Option<RuntimeFacts>, prev: Option<Snapshot>): Option<Finding> {
    var s := DiskSample(runtime);
    if s.total == 0 then None
    else StreakFinding(DiskSpaceLow, StreakStep(PreviousStreak(prev, DiskSpaceLow), DiskExceeded(s), DiskRecovered(s), 2))
  }

  function MemoryRule(runtime: Option<RuntimeFacts>, prev: Option<Snapshot>): Option<Finding> {
    var s := MemorySample(runtime);
    if s.total == 0 then None
    else StreakFinding(MemoryPressure, StreakStep(PreviousStreak(prev, MemoryPressure), MemoryExceeded(s), MemoryRecovered(s), 3))
  }

  // ---------------------------------------------------------------- the evaluation

  datatype Rule = LivenessR | VersionR | SshR | DdnsR | UpgradeR | DiskR | MemoryR

  function RuleOf(c: Code): Rule {
    match c
    case DeviceNeverSeen => LivenessR case DeviceOffline => LivenessR case HeartbeatStale => LivenessR
    case AgentVersionInvalid => VersionR case AgentVersionOutdated => VersionR
    case SshSyncFailed => SshR case SshKeyDrift => SshR
    case DdnsSyncFailed => DdnsR case DdnsNoValidAddress => DdnsR
    case DdnsAddressDrift => DdnsR case DdnsPrefixStale => DdnsR
    case UpgradeFailed => UpgradeR case UpgradeNotConverged => UpgradeR
    case DiskSpaceLow => DiskR
    case MemoryPressure => MemoryR
  }

  /** A rule only ever reports codes of its own. */
  function Apply(rule: Rule, cfg: Config, input: Input, prev: Option<Snapshot>): (f: Option<Finding>)
    ensures f.Some? ==> RuleOf(f.value.code) == rule
  {
    match rule
    case LivenessR => LivenessRule(cfg, input.lastSeen, prev, input.now)
    case VersionR => VersionRule(input.version)
    case SshR => SshRule(cfg, input.ssh, input.now)
    case DdnsR => DdnsRule(input.ddns)
    case UpgradeR => UpgradeRule(cfg, input.upgrade, input.now)
    case DiskR => DiskRule(input.runtime, prev)
    case MemoryR => MemoryRule(input.runtime, prev)
  }

  predicate Reported(cfg: Config, input: Input, prev: Option<Snapshot>, c: Code) {
    var f := Apply(RuleOf(c), cfg, input, prev);
    f.Some? && f.value.code == c
  }

  predicate FiringIn(reasons: map<Code, Reason>, c: Code) {
    c in reasons && reasons[c].state.Firing?
  }

  predicate WasFiring(prev: Option<Snapshot>, c: Code) {
    prev.Some? && FiringIn(prev.value.reasons, c)
  }

  /** A finding as a reason; one that keeps firing keeps the time it was first observed. */
  function ToReason(f: Finding, prev: Option<Snapshot>, now: Time): Reason {
    var first := if f.state.Firing? && WasFiring(prev, f.code) then prev.value.reasons[f.code].first else now;
    Reason(f.state, f.severity, first, now, f.count)
  }

  function Reasons(cfg: Config, input: Input, prev: Option<Snapshot>): map<Code, Reason> {
    map c: Code | Reported(cfg, input, prev, c) ::
      ToReason(Apply(RuleOf(c), cfg, input, prev).value, prev, input.now)
  }

  predicate Alarming(r: Reason) {
    r.state.Firing? && !r.severity.Info?
  }

  function Overall(reasons: map<Code, Reason>): Status {
    if FiringIn(reasons, DeviceOffline) then Offline
    else if DeviceNeverSeen in reasons then NeverSeen
    else if exists c :: c in reasons && Alarming(reasons[c]) then Degraded
    else Healthy
  }

  function Evaluate(cfg: Config, input: Input, prev: Option<Snapshot>): Snapshot {
    var reasons := Reasons(cfg, input, prev);
    var status := Overall(reasons);
    Snapshot(status, input.now,
             if prev.Some? && prev.value.status == status then prev.value.since else input.now,
             reasons,
             if prev.Some? then prev.value.revision + 1 else 1)
  }

  // ---------------------------------------------------------------- the events

  datatype EventType = Opened | Changed | Resolved

  datatype Event = Event(kind: EventType, severity: Severity, at: Time, revision: nat)

  /** The event of one code between two snapshots, if any. */
  function EventFor(prev: Option<Snapshot>, cur: Snapshot, c: Code): Option<Event> {
    if FiringIn(cur.reasons, c) then
      var r := cur.reasons[c];
      if !WasFiring(prev, c) then Some(Event(Opened, r.severity, cur.evaluatedAt, cur.revision))
      else if prev.value.reasons[c].severity != r.severity then
        Some(Event(Changed, r.severity, cur.evaluatedAt, cur.revision))
      else None
    else if WasFiring(prev, c) then
      Some(Event(Resolved, prev.value.reasons[c].severity, cur.evaluatedAt, cur.revision))
    else None
  }

  function Events(prev: Option<Snapshot>, cur: Snapshot): map<Code, Event> {
    map c: Code | EventFor(prev, cur, c).Some? :: EventFor(prev, cur, c).value
  }
}
