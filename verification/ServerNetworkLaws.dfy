/** What one pass does, in terms of the stored records (internal/servernetwork/coordinator.go). */
module ServerNetworkLaws {
  import opened Basics
  import opened ServerNetwork

  // ---------------------------------------------------------------- what is written

  /** The record asks for a write of this address: it is not waiting out a failed write of the same one, and it is not
      known to hold it already. */
  predicate Wants(r: Record, a: Addr, now: Time, check: Option<seq<Addr>>) {
    && !(r.status == Failed && r.desired == Some(a) && r.retryAt.Some? && now < r.retryAt.value)
    && (r.status != Synced || r.confirmed != Some(a) || (check.Some? && a !in check.value))
  }

  lemma {:induction false} LoopWritesExactly(s: State, records: seq<Name>, a: Addr, p: Pass, rec: Name)
    ensures (rec, a) in Loop(s, records, a, p).written <==> rec in records && Wants(Get(s, rec), a, p.now, AnswersFor(p, rec).check)
    ensures (rec, a) !in Loop(s, records, a, p).written ==> Get(Loop(s, records, a, p).state, rec) == Get(s, rec)
    decreases |records|
  {
    if records != [] {
      var init, last := records[..|records| - 1], records[|records| - 1];
      LoopWritesExactly(s, init, a, p, rec);
      assert rec in records <==> rec in init || rec == last;
    }
  }

  /** Another address than the first confirmed one is being watched, and not yet for the debounce time. */
  ghost predicate HeldBack(w: World, d: Detection, now: Time) {
    && (exists k: nat, x: Addr :: ConfirmedAt(w, k, x) && x != d.address)
    && !(w.watch.Some? && w.watch.value.detection == d && w.config.debounce <= now - w.watch.value.since)
  }

  lemma {:induction false} NoneConfirmed(s: State, records: seq<Name>)
    requires forall j :: 0 <= j < |records| ==> records[j] in s ==> s[records[j]].confirmed == None
    ensures FirstConfirmed(s, records) == None
    decreases |records|
  {
    if records != [] {
      assert forall j :: 0 <= j < |records| - 1 ==> records[1..][j] == records[j + 1];
      NoneConfirmed(s, records[1..]);
    }
  }

  lemma {:induction false} FirstPlace(w: World, k: nat)
    requires k < |w.config.records| && w.config.records[k] in w.stored && w.stored[w.config.records[k]].confirmed.Some?
    ensures exists j: nat, x: Addr :: j <= k && ConfirmedAt(w, j, x)
    decreases k
  {
    if j: nat :| j < k && w.config.records[j] in w.stored && w.stored[w.config.records[j]].confirmed.Some? {
      FirstPlace(w, j);
    } else {
      assert ConfirmedAt(w, k, w.stored[w.config.records[k]].confirmed.value);
    }
  }

  /** The current address of the pass is that of the first record that has a confirmed one. */
  lemma CurrentIs(w: World)
    ensures FirstConfirmed(w.stored, w.config.records).Some? <==> exists k: nat, x: Addr :: ConfirmedAt(w, k, x)
    ensures forall k: nat, x: Addr :: ConfirmedAt(w, k, x) ==> FirstConfirmed(w.stored, w.config.records) == Some(x)
  {
    forall k: nat, x: Addr | ConfirmedAt(w, k, x)
      ensures FirstConfirmed(w.stored, w.config.records) == Some(x)
    {
      FirstConfirmedIs(w.stored, w.config.records, k);
    }
    if k: nat :| k < |w.config.records| && w.config.records[k] in w.stored && w.stored[w.config.records[k]].confirmed.Some? {
      FirstPlace(w, k);
    } else {
      NoneConfirmed(w.stored, w.config.records);
    }
  }

  /** A pass writes an address to a record exactly if it is the detected one, it is not held back, and the configured
      record wants it. In particular, once the debounce is over it is written. */
  lemma WrittenExactly(w: World, p: Pass, rec: Name, a: Addr)
    ensures (rec, a) in Reconciled(w, p).written
       <==> && w.config.enabled && p.detected.Some? && a == p.detected.value.address && !HeldBack(w, p.detected.value, p.now)
            && rec in w.config.records && Wants(Get(w.stored, rec), a, p.now, AnswersFor(p, rec).check)
  {
    CurrentIs(w);
    if w.config.enabled && p.detected.Some? {
      var d := p.detected.value;
      LoopWritesExactly(w.stored, w.config.records, d.address, p, rec);
      LoopWritesDesired(w.stored, w.config.records, d.address, p);
    }
  }

  /** Once the debounce is over, the record whose confirmed address is another one is written, unless it is waiting out a
      failed write of the new one. */
  lemma DebounceOverWrites(w: World, p: Pass, d: Detection, since: Time, k: nat, x: Addr)
    requires w.config.enabled && p.detected == Some(d) && w.watch == Some(Watch(d, since)) && w.config.debounce <= p.now - since
    requires ConfirmedAt(w, k, x) && x != d.address
    ensures var rec := w.config.records[k]; var r := w.stored[rec];
            (rec, d.address) in Reconciled(w, p).written
            <==> !(r.status == Failed && r.desired == Some(d.address) && r.retryAt.Some? && p.now < r.retryAt.value)
    ensures Reconciled(w, p).watch == None
  {
    WrittenExactly(w, p, w.config.records[k], d.address);
    assert w.config.records[k] in w.config.records;
  }

  /** While it is held back nothing is written: the first sight of a detection starts the watch and marks every configured
      record as pending for the new address, and the same detection again changes nothing. */
  lemma HeldBackWaits(w: World, p: Pass)
    requires w.config.enabled && p.detected.Some? && HeldBack(w, p.detected.value, p.now)
    ensures var o, d := Reconciled(w, p), p.detected.value;
            && o.written == []
            && (w.watch.Some? && w.watch.value.detection == d ==> o.watch == w.watch && o.saved == [])
            && (!(w.watch.Some? && w.watch.value.detection == d) ==>
                  o.watch == Some(Watch(d, p.now)) && o.saved == [MarkedAll(w.stored, w.config.records, Await(d.address), p.now)])
  {
    CurrentIs(w);
  }

  // ---------------------------------------------------------------- what is marked

  /** A mark keeps what is confirmed and everything about writes; it sets the status, and what each mark is for. */
  predicate IsMarked(r: Record, x: Record, mark: Mark, now: Time) {
    && x.confirmed == r.confirmed && x.confirmedVersion == r.confirmedVersion && x.desiredVersion == r.desiredVersion
    && x.lastSuccess == r.lastSuccess && x.retryAt == r.retryAt && x.retries == r.retries && x.updatedAt == now
    && (mark.Disable? ==> x.status == Disabled && x.desired == r.desired && x.hasError == r.hasError)
    && (mark.Wait? ==> x.status == WaitingAddress && x.desired == r.desired && x.hasError)
    && (mark.Await? ==> x.status == Pending && x.desired == Some(mark.desired) && x.hasError == r.hasError)
  }

  lemma {:induction false} MarkedExactly(s: State, records: seq<Name>, mark: Mark, now: Time, rec: Name)
    ensures var t := MarkedAll(s, records, mark, now);
            if rec in records then rec in t && IsMarked(Get(s, rec), t[rec], mark, now)
            else (rec in t <==> rec in s) && (rec in s ==> t[rec] == s[rec])
    decreases |records|
  {
    if records != [] {
      var init, last := records[..|records| - 1], records[|records| - 1];
      MarkedExactly(s, init, mark, now, rec);
      assert rec in records <==> rec in init || rec == last;
    }
  }

  /** A disabled pass, and one without an address, write nothing and only mark every configured record. */
  lemma IdlePass(w: World, p: Pass)
    requires !w.config.enabled || p.detected == None
    ensures var o := Reconciled(w, p);
            && o.written == [] && o.watch == w.watch
            && o.saved == [MarkedAll(w.stored, w.config.records, if w.config.enabled then Wait else Disable, p.now)]
  {
  }

  // ---------------------------------------------------------------- how a write ends

  /** A write that the provider took and returned confirms the address; any other one is due for a retry. */
  lemma WriteEnds(r: Record, a: Addr, now: Time, answers: Answers)
    requires Wants(r, a, now, answers.check)
    ensures var stages := Stages(r, a, now, answers);
            && 2 <= |stages| && stages[0].status == Syncing
            && var x := stages[|stages| - 1];
               && x.desired == Some(a) && x.desiredVersion == r.desiredVersion + (if r.desired == Some(a) then 0 else 1) && x.updatedAt == now
               && if answers.written && answers.verify.Some? && a in answers.verify.value then
                    && x.status == Synced && x.confirmed == Some(a) && x.confirmedVersion == x.desiredVersion
                    && x.lastSuccess == Some(now) && x.retryAt == None && x.retries == 0 && !x.hasError
                  else
                    && x.status == Failed && x.confirmed == r.confirmed && x.confirmedVersion == r.confirmedVersion
                    && x.lastSuccess == r.lastSuccess && x.retryAt == Some(now + answers.delay) && x.retries == r.retries + 1 && x.hasError
  {
  }

  /** Of the writes of the state the last one that does not fail stands. */
  lemma {:induction false} LastWriteStands(stored: State, saved: seq<State>, failing: set<nat>, k: nat)
    requires k < |saved| && k !in failing && forall j :: k < j < |saved| ==> j in failing
    ensures Persisted(stored, saved, failing) == saved[k]
    decreases |saved|
  {
    if k < |saved| - 1 {
      LastWriteStands(stored, saved[..|saved| - 1], failing, k);
    }
  }

  lemma {:induction false} AllWritesFail(stored: State, saved: seq<State>, failing: set<nat>)
    requires forall j :: 0 <= j < |saved| ==> j in failing
    ensures Persisted(stored, saved, failing) == stored
    decreases |saved|
  {
    if saved != [] {
      AllWritesFail(stored, saved[..|saved| - 1], failing);
    }
  }
}
