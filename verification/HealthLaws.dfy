/** What an evaluation says about a device, in terms of the facts (internal/health/evaluator.go). */
module HealthLaws {
  import opened Basics
  import opened Health

  // ---------------------------------------------------------------- when each reason fires

  /** A long silence counts as offline: the device was offline before, the silence was first noticed long enough ago,
      or the silence itself is long enough. */
  predicate Confirmed(cfg: Config, age: Time, prev: Option<Snapshot>, now: Time) {
    var noticed :=
      if prev.Some? && HeartbeatStale in prev.value.reasons then prev.value.reasons[HeartbeatStale].first
      else if prev.Some? && DeviceOffline in prev.value.reasons then prev.value.reasons[DeviceOffline].first
      else now;
    || (prev.Some? && prev.value.status == Offline)
    || cfg.offlinePendingFor <= now - noticed
    || cfg.offlinePendingFor <= age - cfg.offlineAfter
  }

  predicate Drifted(f: SshFacts) {
    f.desiredHash != "" && !(f.appliedHash == f.desiredHash && f.appliedVersion == f.desiredVersion)
  }

  /** The count that the previous snapshot carries for a resource, and whether its reason fires. */
  function CountBefore(prev: Option<Snapshot>, c: Code): nat {
    if prev.Some? && c in prev.value.reasons then prev.value.reasons[c].count else 0
  }

  predicate FiredBefore(prev: Option<Snapshot>, c: Code) {
    prev.Some? && c in prev.value.reasons && prev.value.reasons[c].state == Firing
  }

  /** One line for each reason. Lengths of time are in nanoseconds, sizes in bytes. */
  predicate Fires(cfg: Config, i: Input, prev: Option<Snapshot>, c: Code) {
    match c
    case DeviceNeverSeen => false
    case DeviceOffline =>
      i.lastSeen.Some? && cfg.offlineAfter <= i.now - i.lastSeen.value && Confirmed(cfg, i.now - i.lastSeen.value, prev, i.now)
    case HeartbeatStale =>
      i.lastSeen.Some? && (cfg.staleAfter <= i.now - i.lastSeen.value || cfg.offlineAfter <= i.now - i.lastSeen.value)
      && !(cfg.offlineAfter <= i.now - i.lastSeen.value && Confirmed(cfg, i.now - i.lastSeen.value, prev, i.now))
    case AgentVersionInvalid => false
    case AgentVersionOutdated => i.version == BelowMinimum || i.version == BelowRecommended
    case SshSyncFailed =>
      i.ssh.Some? && (i.ssh.value.syncFailed || i.ssh.value.commandStatus == Some(CommandFailed) || i.ssh.value.commandStatus == Some(TimedOut))
    case SshKeyDrift =>
      && i.ssh.Some? && !i.ssh.value.syncFailed
      && i.ssh.value.commandStatus != Some(CommandFailed) && i.ssh.value.commandStatus != Some(TimedOut)
      && Drifted(i.ssh.value) && (i.ssh.value.updatedAt.Some? ==> cfg.sshDriftAfter <= i.now - i.ssh.value.updatedAt.value)
    case DdnsSyncFailed => i.ddns.Some? && i.ddns.value.failed
    case DdnsNoValidAddress => i.ddns.Some? && !i.ddns.value.failed && i.ddns.value.desired == "" && !i.ddns.value.inGracePeriod
    case DdnsAddressDrift =>
      && i.ddns.Some? && !i.ddns.value.failed && !i.ddns.value.inGracePeriod
      && i.ddns.value.desired != "" && i.ddns.value.applied != "" && i.ddns.value.desired != i.ddns.value.applied
    case DdnsPrefixStale =>
      && i.ddns.Some? && !i.ddns.value.failed && i.ddns.value.prefixStale
      && (i.ddns.value.inGracePeriod
          || (i.ddns.value.desired != "" && (i.ddns.value.applied == "" || i.ddns.value.applied == i.ddns.value.desired)))
    case UpgradeFailed =>
      i.upgrade.Some? && (i.upgrade.value.status == CommandFailed || i.upgrade.value.status == TimedOut || i.upgrade.value.status == Interrupted)
    case UpgradeNotConverged =>
      && i.upgrade.Some? && i.upgrade.value.status == Succeeded && !i.upgrade.value.converged
      && cfg.upgradeTimeout <= i.now - (match i.upgrade.value.finishedAt case Some(t) => t case None => i.upgrade.value.createdAt)
    case DiskSpaceLow =>
      i.runtime.Some? && i.runtime.value.disk.total > 0 &&
      (var available, total := i.runtime.value.disk.available, i.runtime.value.disk.total;
       if FiredBefore(prev, DiskSpaceLow) then
         100 * available < 15 * total || (total >= 8 * 1024 * 1024 * 1024 && available < 8 * 1024 * 1024 * 1024)
       else
         CountBefore(prev, DiskSpaceLow) >= 1
         && (100 * available < 10 * total || (total >= 8 * 1024 * 1024 * 1024 && available < 5 * 1024 * 1024 * 1024)))
    case MemoryPressure =>
      i.runtime.Some? && i.runtime.value.memory.total > 0 &&
      (var available, total := i.runtime.value.memory.available, i.runtime.value.memory.total;
       if FiredBefore(prev, MemoryPressure) then 100 * available < 20 * total
       else CountBefore(prev, MemoryPressure) >= 2 && 100 * available < 10 * total)
  }

  function SeverityOf(i: Input, c: Code): Severity {
    match c
    case DeviceNeverSeen => Info
    case AgentVersionInvalid => Info
    case DeviceOffline => Critical
    case AgentVersionOutdated => if i.version == BelowMinimum then Critical else Warning
    case _ => Warning
  }

  /** The evaluation agrees with the table for this code. */
  predicate Agrees(cfg: Config, i: Input, prev: Option<Snapshot>, c: Code) {
    var s := Evaluate(cfg, i, prev);
    && (FiringIn(s.reasons, c) <==> Fires(cfg, i, prev, c))
    && (c in s.reasons ==> s.reasons[c].severity == SeverityOf(i, c) && s.reasons[c].last == i.now)
    && (FiringIn(s.reasons, c) ==> s.reasons[c].first == if FiredBefore(prev, c) then prev.value.reasons[c].first else i.now)
  }

  lemma ReasonOf(cfg: Config, i: Input, prev: Option<Snapshot>, c: Code)
    ensures var f := Apply(RuleOf(c), cfg, i, prev); var reasons := Evaluate(cfg, i, prev).reasons;
            && (c in reasons <==> f.Some? && f.value.code == c)
            && (c in reasons ==> reasons[c] == ToReason(f.value, prev, i.now))
  {
  }

  lemma LivenessFires(cfg: Config, i: Input, prev: Option<Snapshot>, c: Code)
    requires c.DeviceNeverSeen? || c.DeviceOffline? || c.HeartbeatStale?
    ensures Agrees(cfg, i, prev, c)
  {
    ReasonOf(cfg, i, prev, c);
  }

  lemma FactsFire(cfg: Config, i: Input, prev: Option<Snapshot>, c: Code)
    requires RuleOf(c).VersionR? || RuleOf(c).SshR? || RuleOf(c).DdnsR? || RuleOf(c).UpgradeR?
    ensures Agrees(cfg, i, prev, c)
  {
    ReasonOf(cfg, i, prev, c);
  }

  lemma ResourcesFire(cfg: Config, i: Input, prev: Option<Snapshot>, c: Code)
    requires RuleOf(c).DiskR? || RuleOf(c).MemoryR?
    ensures Agrees(cfg, i, prev, c)
  {
    ReasonOf(cfg, i, prev, c);
  }

  /** Each reason fires exactly in the case of its line, with its severity, and keeps the time at which it first did. */
  lemma ReasonsFireExactly(cfg: Config, i: Input, prev: Option<Snapshot>, c: Code)
    ensures Agrees(cfg, i, prev, c)
  {
    if c.DeviceNeverSeen? || c.DeviceOffline? || c.HeartbeatStale? {
      LivenessFires(cfg, i, prev, c);
    } else if c.DiskSpaceLow? || c.MemoryPressure? {
      ResourcesFire(cfg, i, prev, c);
    } else {
      FactsFire(cfg, i, prev, c);
    }
  }

  /** What is recorded without firing: a device never seen, a version that cannot be compared, and the count of a
      resource that is on its way. */
  lemma RecordedExactly(cfg: Config, i: Input, prev: Option<Snapshot>, c: Code)
    ensures var reasons := Evaluate(cfg, i, prev).reasons;
            c in reasons && !reasons[c].state.Firing?
            <==> || (c == DeviceNeverSeen && i.lastSeen == None)
                 || (c == AgentVersionInvalid && i.version == Malformed)
                 || (c in reasons && (c == DiskSpaceLow || c == MemoryPressure) && reasons[c].state == Ok && reasons[c].count > 0)
  {
    ReasonOf(cfg, i, prev, c);
    ReasonsFireExactly(cfg, i, prev, c);
  }

  // ---------------------------------------------------------------- the status

  /** A device is never-seen exactly without a heartbeat and offline exactly if that reason fires; otherwise it is
      degraded exactly if some reason fires with a warning or a critical severity, and healthy exactly if none does. */
  lemma StatusExactly(cfg: Config, i: Input, prev: Option<Snapshot>)
    ensures var s := Evaluate(cfg, i, prev);
            && (s.status == NeverSeen <==> i.lastSeen == None)
            && (s.status == Offline <==> Fires(cfg, i, prev, DeviceOffline))
            && (i.lastSeen.Some? && !Fires(cfg, i, prev, DeviceOffline) ==>
                  && (s.status == Degraded <==>
                        exists c :: c in s.reasons && s.reasons[c].state == Firing && (s.reasons[c].severity == Warning || s.reasons[c].severity == Critical))
                  && (s.status == Healthy <==>
                        forall c :: c in s.reasons && s.reasons[c].state == Firing ==> s.reasons[c].severity == Info))
  {
    var s := Evaluate(cfg, i, prev);
    ReasonsFireExactly(cfg, i, prev, DeviceOffline);
    ReasonOf(cfg, i, prev, DeviceNeverSeen);
    if exists c :: c in s.reasons && Alarming(s.reasons[c]) {
      var c :| c in s.reasons && Alarming(s.reasons[c]);
      assert s.reasons[c].state == Firing;
    }
  }

  lemma HealthyIsQuiet(cfg: Config, i: Input, prev: Option<Snapshot>)
    ensures Evaluate(cfg, i, prev).status == Healthy <==> i.lastSeen.Some? && forall c :: !Fires(cfg, i, prev, c)
  {
    var s := Evaluate(cfg, i, prev);
    StatusExactly(cfg, i, prev);
    forall c
      ensures Agrees(cfg, i, prev, c)
    {
      ReasonsFireExactly(cfg, i, prev, c);
    }
    if i.lastSeen.Some? && s.status == Healthy {
      forall c
        ensures !Fires(cfg, i, prev, c)
      {
        assert Agrees(cfg, i, prev, c);
      }
    }
    if i.lastSeen.Some? && forall c :: !Fires(cfg, i, prev, c) {
      assert !Fires(cfg, i, prev, DeviceOffline);
      forall c | c in s.reasons && s.reasons[c].state == Firing
        ensures s.reasons[c].severity == Info
      {
        assert Agrees(cfg, i, prev, c) && FiringIn(s.reasons, c);
      }
    }
  }

  predicate SshInOrder(cfg: Config, ssh: Option<SshFacts>, now: Time) {
    ssh.Some? ==>
      && !ssh.value.syncFailed && ssh.value.commandStatus != Some(CommandFailed) && ssh.value.commandStatus != Some(TimedOut)
      && (Drifted(ssh.value) ==> ssh.value.updatedAt.Some? && now - ssh.value.updatedAt.value < cfg.sshDriftAfter)
  }

  predicate DdnsInOrder(ddns: Option<DdnsFacts>) {
    ddns.Some? ==>
      && !ddns.value.failed && !ddns.value.prefixStale
      && (ddns.value.inGracePeriod
          || (ddns.value.desired != "" && (ddns.value.applied == "" || ddns.value.applied == ddns.value.desired)))
  }

  predicate UpgradeInOrder(cfg: Config, upgrade: Option<UpgradeFacts>, now: Time) {
    upgrade.Some? ==>
      match upgrade.value.status
      case InProgress => true
      case Succeeded =>
        upgrade.value.converged || now - (match upgrade.value.finishedAt case Some(t) => t case None => upgrade.value.createdAt) < cfg.upgradeTimeout
      case _ => false
  }

  /** A device is healthy exactly if it was heard from recently, its version is recommended or not compared, its keys are
      installed or only just out of step, its DDNS record is right or in its grace period with a fresh prefix, its last
      upgrade did not fail and has converged or still may, and neither disk nor memory alarms. */
  lemma HealthyExactly(cfg: Config, i: Input, prev: Option<Snapshot>)
    ensures Evaluate(cfg, i, prev).status == Healthy
       <==> && i.lastSeen.Some? && i.now - i.lastSeen.value < cfg.staleAfter && i.now - i.lastSeen.value < cfg.offlineAfter
            && i.version != BelowMinimum && i.version != BelowRecommended
            && SshInOrder(cfg, i.ssh, i.now) && DdnsInOrder(i.ddns) && UpgradeInOrder(cfg, i.upgrade, i.now)
            && !Fires(cfg, i, prev, DiskSpaceLow) && !Fires(cfg, i, prev, MemoryPressure)
  {
    HealthyIsQuiet(cfg, i, prev);
    if i.lastSeen.None? {
      return;
    }
    LivenessQuiet(cfg, i, prev);
    SshQuiet(cfg, i, prev);
    DdnsQuiet(cfg, i, prev);
    UpgradeQuiet(cfg, i, prev);
    if forall c :: !Fires(cfg, i, prev, c) {
      AllQuiet(cfg, i, prev);
    } else {
      var c :| Fires(cfg, i, prev, c);
      NotAllQuiet(cfg, i, prev, c);
    }
  }

  /** The codes one by one. */
  predicate EachQuiet(cfg: Config, i: Input, prev: Option<Snapshot>) {
    && !Fires(cfg, i, prev, DeviceOffline) && !Fires(cfg, i, prev, HeartbeatStale)
    && !Fires(cfg, i, prev, AgentVersionOutdated)
    && !Fires(cfg, i, prev, SshSyncFailed) && !Fires(cfg, i, prev, SshKeyDrift)
    && !Fires(cfg, i, prev, DdnsSyncFailed) && !Fires(cfg, i, prev, DdnsNoValidAddress)
    && !Fires(cfg, i, prev, DdnsAddressDrift) && !Fires(cfg, i, prev, DdnsPrefixStale)
    && !Fires(cfg, i, prev, UpgradeFailed) && !Fires(cfg, i, prev, UpgradeNotConverged)
    && !Fires(cfg, i, prev, DiskSpaceLow) && !Fires(cfg, i, prev, MemoryPressure)
  }

  lemma AllQuiet(cfg: Config, i: Input, prev: Option<Snapshot>)
    requires forall c :: !Fires(cfg, i, prev, c)
    ensures EachQuiet(cfg, i, prev)
  {
  }

  lemma NotAllQuiet(cfg: Config, i: Input, prev: Option<Snapshot>, c: Code)
    requires Fires(cfg, i, prev, c)
    ensures !EachQuiet(cfg, i, prev)
  {
  }

  lemma LivenessQuiet(cfg: Config, i: Input, prev: Option<Snapshot>)
    requires i.lastSeen.Some?
    ensures (!Fires(cfg, i, prev, DeviceOffline) && !Fires(cfg, i, prev, HeartbeatStale))
       <==> i.now - i.lastSeen.value < cfg.staleAfter && i.now - i.lastSeen.value < cfg.offlineAfter
  {
  }

  lemma SshQuiet(cfg: Config, i: Input, prev: Option<Snapshot>)
    ensures (!Fires(cfg, i, prev, SshSyncFailed) && !Fires(cfg, i, prev, SshKeyDrift)) <==> SshInOrder(cfg, i.ssh, i.now)
  {
  }

  lemma DdnsQuiet(cfg: Config, i: Input, prev: Option<Snapshot>)
    ensures (&& !Fires(cfg, i, prev, DdnsSyncFailed) && !Fires(cfg, i, prev, DdnsNoValidAddress)
             && !Fires(cfg, i, prev, DdnsAddressDrift) && !Fires(cfg, i, prev, DdnsPrefixStale)) <==> DdnsInOrder(i.ddns)
  {
  }

  lemma UpgradeQuiet(cfg: Config, i: Input, prev: Option<Snapshot>)
    ensures (!Fires(cfg, i, prev, UpgradeFailed) && !Fires(cfg, i, prev, UpgradeNotConverged)) <==> UpgradeInOrder(cfg, i.upgrade, i.now)
  {
  }

  /** Each evaluation is stamped with its time and numbered after the one before it; `since` stays while the status does. */
  lemma EvaluationIsStamped(cfg: Config, i: Input, prev: Option<Snapshot>)
    ensures var s := Evaluate(cfg, i, prev);
            && s.evaluatedAt == i.now && s.revision == 1 + (if prev.Some? then prev.value.revision else 0)
            && s.since == if prev.Some? && prev.value.status == s.status then prev.value.since else i.now
  {
  }

  // ---------------------------------------------------------------- the events

  /** Between two snapshots a code has an event exactly if it began or stopped firing or fires with another severity; the
      event carries the time and the revision of the later snapshot. */
  lemma EventsExactly(prev: Option<Snapshot>, cur: Snapshot, c: Code)
    ensures var events := Events(prev, cur);
            var now := c in cur.reasons && cur.reasons[c].state == Firing;
            var before := FiredBefore(prev, c);
            && (c in events <==> now != before || (now && before && cur.reasons[c].severity != prev.value.reasons[c].severity))
            && (c in events ==>
                  && events[c].at == cur.evaluatedAt && events[c].revision == cur.revision
                  && (events[c].kind == Opened <==> now && !before) && (events[c].kind == Resolved <==> before && !now)
                  && events[c].severity == if now then cur.reasons[c].severity else prev.value.reasons[c].severity)
  {
  }
}
