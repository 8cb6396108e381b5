/** What one report does to a stored snapshot, and what every run of arrivals leaves there
    (internal/devicestate/service.go, internal/prefixstate/service.go, cmd/homeagent-agent/revision_store.go). */
module RevisionLaws {
  import opened Basics
  import opened Revisions

  // ---------------------------------------------------------------- the counter

  /** A counter hands out the next number, a new or quarantined one the first; a failing write hands out nothing, whether
      or not the number is spent by it. */
  lemma AllocationExactly(file: File, moved: bool, o: Outcome)
    ensures var (after, handed) := Allocated(file, moved, o);
            var next := if file.Counter? then file.revision + 1 else 1;
            var possible := !file.OtherSchema? && (file.Corrupt? ==> moved) && !(file.Counter? && file.revision == MAX_REVISION);
            && (handed.Handed? <==> possible && o == Done)
            && (handed.Handed? ==> handed.revision == next && after == Counter(next))
            && (!possible ==> after == file)
            && (possible && o == DoneButFailed ==> after == Counter(next))
            && (possible && o == NotDone ==> after == if file.Corrupt? then Missing else file)
  {
  }

  /** After a conflict it hands out the number after the larger of its own and the server's. */
  lemma AdvanceExactly(file: File, current: nat, o: Outcome)
    requires InRange(file) && current <= MAX_REVISION
    ensures var (after, handed) := Advanced(file, current, o);
            && (handed.Handed? <==> file.Counter? && file.revision < MAX_REVISION && current < MAX_REVISION && o == Done)
            && (handed.Handed? ==>
                  && after == Counter(handed.revision) && handed.revision > file.revision && handed.revision > current
                  && (handed.revision == file.revision + 1 || handed.revision == current + 1))
            && (handed.Refused? && o != DoneButFailed ==> after == file)
  {
  }

  /** Only the answer to the agent's own revision makes it try again, and only if the server is at least as far. */
  lemma OnlyOwnConflictCounts(r: Response, revision: nat)
    requires Guard(r, revision)
    ensures r.Rejected? && r.json && r.known && r.received == revision && revision <= r.current && 0 < r.current < 0xFFFF_FFFF_FFFF_FFFF
  {
  }

  // ---------------------------------------------------------------- one report

  /** The report is behind the stored revision, or has the same one with another content. */
  predicate Behind(s: Option<Snapshot>, r: Report) {
    s.Some? && (r.revision < s.value.revision || (r.revision == s.value.revision && r.content.compared != s.value.content.compared))
  }

  predicate Repeats(s: Option<Snapshot>, r: Report) {
    s.Some? && r.revision == s.value.revision && r.content.compared == s.value.content.compared
  }

  /** What is answered: a report that is behind is refused with both revisions; a repeated one is accepted; any other is
      accepted if it can be saved, and counts as a change unless the compared content is the stored one. */
  lemma AnswerExactly(kind: Kind, s: Option<Snapshot>, r: Report, now: Time, saved: bool)
    ensures var reply := Receive(kind, s, r, now, saved).0;
            && (reply.Conflict? <==> Behind(s, r))
            && (reply.Conflict? ==> reply.current == s.value.revision && reply.received == r.revision
                                    && (reply.mismatch <==> r.revision == s.value.revision))
            && (reply.Accepted? <==> Repeats(s, r) || (!Behind(s, r) && saved))
            && (reply.Accepted? ==> (reply.changed <==> s == None || s.value.content.compared != r.content.compared))
  {
  }

  /** What is stored: the new report as a whole, except that a device which names no network stays in its own; a device
      waits for its record once its addresses have changed, and the time of sight moves with a changed report of a
      device and with every accepted report of a router. */
  lemma StoredExactly(kind: Kind, s: Option<Snapshot>, r: Report, now: Time, saved: bool)
    ensures var n := Receive(kind, s, r, now, saved).1;
            if Behind(s, r) || !saved || (kind.Addresses? && Repeats(s, r)) then n == s
            else if Repeats(s, r) then n == Some(s.value.(seenAt := now))
            else
              && n.Some? && n.value.revision == r.revision && n.value.content == r.content && n.value.observedAt == r.observedAt
              && n.value.source == (if kind.Addresses? && s.Some? && r.source == 0 then s.value.source else r.source)
              && (var changed := s == None || s.value.content.compared != r.content.compared;
                  if kind.Addresses? then
                    && n.value.seenAt == (if changed then now else s.value.seenAt)
                    && n.value.pending == (changed || s.value.pending)
                  else
                    n.value.seenAt == now && n.value.pending == (s.Some? && s.value.pending))
  {
  }

  // ---------------------------------------------------------------- any arrivals

  /** The k-th arrival could be saved and is the first of the largest revision that could. */
  predicate Newest(arrivals: seq<Arrival>, k: nat) {
    && k < |arrivals| && arrivals[k].saved
    && (forall j :: 0 <= j < |arrivals| && arrivals[j].saved ==> arrivals[j].report.revision <= arrivals[k].report.revision)
    && (forall j :: 0 <= j < k && arrivals[j].saved ==> arrivals[j].report.revision < arrivals[k].report.revision)
  }

  predicate Shows(s: Option<Snapshot>, r: Report) {
    s.Some? && s.value.revision == r.revision && s.value.content == r.content && s.value.observedAt == r.observedAt
  }

  lemma NewerIsNewest(init: seq<Arrival>, last: Arrival, k: nat)
    requires last.saved && Newest(init, k) && init[k].report.revision < last.report.revision
    ensures Newest(init + [last], |init|)
  {
    var all := init + [last];
    forall j | 0 <= j < |init| && all[j].saved
      ensures all[j].report.revision < last.report.revision
    {
      assert all[j] == init[j];
    }
  }

  lemma OlderKeepsNewest(init: seq<Arrival>, last: Arrival, k: nat)
    requires Newest(init, k) && (last.saved ==> last.report.revision <= init[k].report.revision)
    ensures Newest(init + [last], k) && (init + [last])[k] == init[k]
  {
    var all := init + [last];
    forall j | 0 <= j < |all| && all[j].saved
      ensures all[j].report.revision <= init[k].report.revision
      ensures j < k ==> all[j].report.revision < init[k].report.revision
    {
      if j < |init| {
        assert all[j] == init[j];
      }
    }
  }

  lemma OnlyIsNewest(init: seq<Arrival>, last: Arrival)
    requires last.saved && forall j :: 0 <= j < |init| ==> !init[j].saved
    ensures Newest(init + [last], |init|)
  {
    var all := init + [last];
    forall j | 0 <= j < |init|
      ensures !all[j].saved
    {
      assert all[j] == init[j];
    }
  }

  /** The stored report is the newest that could be saved. */
  ghost predicate StoresNewest(arrivals: seq<Arrival>, s: Option<Snapshot>) {
    && (s == None <==> forall j :: 0 <= j < |arrivals| ==> !arrivals[j].saved)
    && (s.Some? ==> exists k: nat :: Newest(arrivals, k) && Shows(s, arrivals[k].report))
  }

  lemma ArrivalStoresNewest(kind: Kind, init: seq<Arrival>, before: Option<Snapshot>, a: Arrival)
    requires StoresNewest(init, before)
    ensures StoresNewest(init + [a], Receive(kind, before, a.report, a.now, a.saved).1)
  {
    var s, all := Receive(kind, before, a.report, a.now, a.saved).1, init + [a];
    assert all[|init|] == a && forall j :: 0 <= j < |init| ==> all[j] == init[j];
    StoredExactly(kind, before, a.report, a.now, a.saved);
    if before == None {
      if a.saved {
        OnlyIsNewest(init, a);
      }
    } else {
      var k: nat :| Newest(init, k) && Shows(before, init[k].report);
      assert all[k].saved;
      if a.saved && init[k].report.revision < a.report.revision {
        NewerIsNewest(init, a, k);
        assert Shows(s, all[|init|].report);
      } else {
        OlderKeepsNewest(init, a, k);
        assert Shows(s, all[k].report);
      }
    }
  }

  /** Whatever is late, repeated or reordered, and whatever could not be saved: what is stored is the first report of the
      largest revision that could be saved, and there is nothing exactly if none could. */
  lemma {:induction false} NewestIsStored(kind: Kind, arrivals: seq<Arrival>)
    ensures StoresNewest(arrivals, ServerRun(kind, arrivals).snapshot)
    decreases |arrivals|
  {
    if arrivals != [] {
      var init, last := arrivals[..|arrivals| - 1], arrivals[|arrivals| - 1];
      NewestIsStored(kind, init);
      ArrivalStoresNewest(kind, init, ServerRun(kind, init).snapshot, last);
      assert init + [last] == arrivals;
    }
  }

  /** A device waits for its record as long as nothing else tells otherwise, from the first report on. */
  lemma {:induction false} DeviceIsPending(arrivals: seq<Arrival>)
    ensures var s := ServerRun(Addresses, arrivals).snapshot; s.Some? ==> s.value.pending
    decreases |arrivals|
  {
    if arrivals != [] {
      DeviceIsPending(arrivals[..|arrivals| - 1]);
    }
  }
}
