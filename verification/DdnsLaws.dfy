/** What one reconcile of a device's record does, in terms of what was reported (internal/ddns/service.go,
    internal/prefixstate/service.go). */
module DdnsLaws {
  import opened Basics
  import opened Prefixes
  import opened Ddns

  // ---------------------------------------------------------------- what is in sight

  /** Neither lifetime is over; one that was not set, or is zero, never is. */
  predicate StillRuns(l: Lifetime, now: Time) {
    && (l.preferredUntil.None? || l.preferredUntil.value == 0 || now < l.preferredUntil.value)
    && (l.validUntil.None? || l.validUntil.value == 0 || now < l.validUntil.value)
  }

  predicate Covers(entry: (Option<Range>, Lifetime), a: Addr, now: Time) {
    entry.0.Some? && entry.0.value.low <= a <= entry.0.value.high && StillRuns(entry.1, now)
  }

  /** The device reported the address and some prefix of its network that is still alive contains it. */
  ghost predicate InSight(d: Device, p: Pass, a: Addr) {
    Some(a) in d.reported && p.network.Known? && exists k :: 0 <= k < |p.network.prefixes| && Covers(p.network.prefixes[k], a, p.now)
  }

  predicate TooOld(p: Pass) {
    p.network.Known? && 0 < p.staleAfter < p.now - p.network.lastSeen
  }

  lemma {:induction false} ActiveExactly(prefixes: seq<(Option<Range>, Lifetime)>, now: Time, a: Addr)
    ensures Matches(a, ActiveRanges(prefixes, now)) <==> exists k :: 0 <= k < |prefixes| && Covers(prefixes[k], a, now)
    decreases |prefixes|
  {
    if prefixes != [] {
      var init, last := prefixes[..|prefixes| - 1], prefixes[|prefixes| - 1];
      ActiveExactly(init, now, a);
      var before, all := ActiveRanges(init, now), ActiveRanges(prefixes, now);
      if i :| 0 <= i < |before| && before[i].low <= a <= before[i].high {
        assert all[i] == before[i];
      }
      if Covers(last, a, now) {
        assert prefixes[|prefixes| - 1] == last;
        assert all[|before|] == last.0.value;
      }
      if k :| 0 <= k < |init| && Covers(init[k], a, now) {
        assert prefixes[k] == init[k];
      }
      if i :| 0 <= i < |all| && all[i].low <= a <= all[i].high {
        assert i < |before| ==> all[i] == before[i];
      }
      if k :| 0 <= k < |prefixes| && Covers(prefixes[k], a, now) {
        assert k < |init| ==> prefixes[k] == init[k];
      }
    }
  }

  lemma CandidateIsInSight(d: Device, p: Pass, a: Addr)
    ensures a in PassCandidates(d, p) <==> InSight(d, p, a)
  {
    CandidatesExactly(d.reported, Active(p));
    if p.network.Known? {
      ActiveExactly(p.network.prefixes, p.now, a);
    }
  }

  /** The applied address while it is in sight, otherwise the smallest one that is. */
  ghost predicate Chosen(d: Device, p: Pass, a: Addr) {
    && InSight(d, p, a)
    && (if d.applied.Some? && InSight(d, p, d.applied.value) then d.applied == Some(a)
        else forall b :: InSight(d, p, b) ==> a <= b)
  }

  lemma WantedIsChosen(d: Device, p: Pass, a: Addr)
    ensures Wanted(d, p) == Some(a) <==> Chosen(d, p, a)
    ensures Wanted(d, p) == None <==> forall b :: !InSight(d, p, b)
  {
    var c := PassCandidates(d, p);
    forall b
      ensures b in c <==> InSight(d, p, b)
    {
      CandidateIsInSight(d, p, b);
    }
    CandidatesExactly(d.reported, Active(p));
    if c != [] {
      assert c[0] in c;
      forall b | InSight(d, p, b)
        ensures c[0] <= b
      {
        var i :| 0 <= i < |c| && c[i] == b;
      }
    }
  }

  // ---------------------------------------------------------------- what a router's report is normalized to

  /** The first place where the report has this prefix with lifetimes that are not over. */
  predicate FirstRunning(raw: seq<RawPrefix>, now: Time, prefix: nat, i: nat) {
    && i < |raw| && raw[i].parsed == Some(prefix) && StillRuns(raw[i].life, now)
    && forall j :: 0 <= j < i && raw[j].parsed == Some(prefix) ==> !StillRuns(raw[j].life, now)
  }

  lemma FirstUseIsRunning(raw: seq<RawPrefix>, now: Time, prefix: nat, i: nat)
    ensures FirstUse(raw, now, prefix, i) <==> FirstRunning(raw, now, prefix, i)
  {
  }

  /** A prefix with its lifetimes is listed exactly if the report has it with these lifetimes, not over, and nowhere before. */
  lemma NormalizedListsExactly(raw: seq<RawPrefix>, now: Time, leases: seq<Lease>, l: Lease)
    requires Normalized(raw, now, leases)
    ensures l in leases <==> exists i: nat :: FirstRunning(raw, now, l.prefix, i) && raw[i].life == l.life
  {
    if l in leases {
      assert Taken(raw, now, l);
      var i: nat :| FirstUse(raw, now, l.prefix, i) && raw[i].life == l.life;
      FirstUseIsRunning(raw, now, l.prefix, i);
    }
    if i: nat :| FirstRunning(raw, now, l.prefix, i) && raw[i].life == l.life {
      FirstUseIsRunning(raw, now, l.prefix, i);
      assert Listed(leases, raw[i].parsed.value);
      var m :| m in leases && m.prefix == l.prefix;
      assert Taken(raw, now, m);
      var k: nat :| FirstUse(raw, now, m.prefix, k) && raw[k].life == m.life;
      assert i == k && l == m;
    }
  }

  // ---------------------------------------------------------------- what is asked of the provider

  /** An address is written exactly if the report is not too old, it is the chosen one, and it is not already applied and
      synced; the record is deleted exactly if the report is not too old, nothing is in sight, something is applied and
      its grace period is over. */
  lemma AskedExactly(d: Device, p: Pass, a: Addr)
    ensures Asked(d, p) == Upsert(a) <==> !TooOld(p) && Chosen(d, p, a) && !(d.applied == Some(a) && d.status == Synced)
    ensures Asked(d, p) == Delete
       <==> !TooOld(p) && (forall b :: !InSight(d, p, b)) && d.applied.Some? && d.graceEnd.Some? && d.graceEnd.value <= p.now
  {
    WantedIsChosen(d, p, a);
  }

  /** A report that is too old changes nothing, neither the state nor the record. */
  lemma TooOldKeepsEverything(d: Device, record: Option<Addr>, p: Pass, grace: Time)
    requires TooOld(p)
    ensures Reconciled(d, p, grace) == d && RecordAfter(record, Asked(d, p), p.published) == record
  {
  }

  /** Where the applied address is the record, a reconcile that is not too old, with a working provider, makes the record
      the chosen address. */
  lemma RecordFollows(d: Device, p: Pass, a: Addr)
    requires !TooOld(p) && Chosen(d, p, a) && p.published
    ensures RecordAfter(d.applied, Asked(d, p), true) == Some(a)
  {
    WantedIsChosen(d, p, a);
  }

  // ---------------------------------------------------------------- what is stored

  /** The stored state after a write was asked for, by how it ended and which of the two saves worked. */
  lemma WriteIsStored(d: Device, p: Pass, grace: Time, a: Addr)
    requires Asked(d, p) == Upsert(a)
    ensures var n := Reconciled(d, p, grace);
            && n.revision == d.revision && n.reported == d.reported
            && (p.saved.1 ==> n.desired == Some(a) && n.graceEnd == None && n.updatedAt == p.later)
            && (p.saved.1 && p.published ==> n.applied == Some(a) && n.appliedRevision == d.revision && n.status == Synced && !n.hasError)
            && (p.saved.1 && !p.published ==> n.applied == d.applied && n.status == Failed && n.hasError)
            && (!p.saved.1 && p.saved.0 ==> n == d.(desired := Some(a), graceEnd := None, status := Syncing))
            && (!p.saved.1 && !p.saved.0 ==> n == d)
  {
  }

  lemma DeletionIsStored(d: Device, p: Pass, grace: Time)
    requires Asked(d, p) == Delete
    ensures var n := Reconciled(d, p, grace);
            && n.revision == d.revision && n.reported == d.reported
            && (p.saved.1 ==> n.updatedAt == p.later)
            && (p.saved.1 && p.published ==> n.applied == None && n.desired == None && n.graceEnd == None && n.status == Synced && !n.hasError)
            && (p.saved.1 && !p.published ==> n.applied == d.applied && n.graceEnd == d.graceEnd && n.status == Failed && n.hasError)
            && (!p.saved.1 && p.saved.0 ==> n == d.(status := Syncing))
            && (!p.saved.1 && !p.saved.0 ==> n == d)
  {
  }

  /** Without a write: nothing in sight starts the grace period of an applied address, or ends the search of a device that
      has none; everything else stays. */
  lemma WaitingIsStored(d: Device, p: Pass, grace: Time)
    requires Asked(d, p) == NoWrite && !TooOld(p) && forall b :: !InSight(d, p, b)
    ensures var n := Reconciled(d, p, grace);
            if !p.saved.0 then n == d
            else if d.applied == None then n == d.(desired := None, status := Synced, updatedAt := p.now)
            else if d.graceEnd == None then n == d.(graceEnd := Some(p.now + grace), status := GracePeriod, updatedAt := p.now)
            else n == d
  {
    WantedIsChosen(d, p, 0);
  }

  /** A report replaces the addresses; changed ones are pending, and the record's own state is kept. */
  lemma ReportIsStored(d: Device, revision: nat, reported: seq<Option<Addr>>)
    ensures var n := AfterReport(d, revision, reported);
            && n.revision == revision && n.reported == reported
            && n.status == (if reported == d.reported then d.status else Pending)
            && n.applied == d.applied && n.desired == d.desired && n.graceEnd == d.graceEnd && n.appliedRevision == d.appliedRevision
  {
  }
}
