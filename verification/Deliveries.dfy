/** Notification delivery: attempts, background retries, the bounded attempt log and recovery after a
    restart (internal/alerting/service.go, internal/alerting/repository.go). */
module Deliveries {
  import opened Basics

  const MAX_ATTEMPTS: nat := 6
  const LOG_SIZE: nat := 3000

  /** One notification sent to one channel, with the random delivery ID it carries through all retries. */
  datatype Key = Key(alert: nat, channel: nat, firing: bool, delivery: nat)

  /** `retry` says that a next attempt was scheduled. */
  datatype Attempt = Attempt(key: Key, number: nat, delivered: bool, retry: bool)

  datatype Result = Delivered | Retryable | Permanent

  // ---------------------------------------------------------------- the attempt log

  function Bounded(log: seq<Attempt>): seq<Attempt> {
    if |log| > LOG_SIZE then log[|log| - LOG_SIZE..] else log
  }

  function Record(log: seq<Attempt>, a: Attempt): seq<Attempt> {
    Bounded(log + [a])
  }

  /** The newest attempt of every key, by attempt number. */
  function LatestByKey(log: seq<Attempt>): map<Key, Attempt> {
    if log == [] then map[]
    else
      var m, a := LatestByKey(log[..|log| - 1]), log[|log| - 1];
      if a.key !in m || a.number > m[a.key].number then m[a.key := a] else m
  }

  predicate IsPending(a: Attempt) {
    !a.delivered && a.retry && a.number < MAX_ATTEMPTS
  }

  function Pending(log: seq<Attempt>): map<Key, Attempt> {
    var m := LatestByKey(log);
    map k | k in m && IsPending(m[k]) :: m[k]
  }

  class AttemptLog {
    var deliveries: seq<Attempt>

    method RecordDeliveryAttempt(a: Attempt)
      modifies this
      ensures deliveries == Record(old(deliveries), a)
      ensures var all := old(deliveries) + [a]; deliveries == if |all| <= 3000 then all else all[|all| - 3000..]
    {
      deliveries := deliveries + [a];
      if |deliveries| > LOG_SIZE {
        deliveries := deliveries[|deliveries| - LOG_SIZE..];
      }
    }

    method ListPendingRetries() returns (pending: map<Key, Attempt>)
      ensures pending == Pending(deliveries)
    {
      var latest: map<Key, Attempt> := map[];
      for i := 0 to |deliveries|
        invariant latest == LatestByKey(deliveries[..i])
      {
        var d := deliveries[i];
        assert deliveries[..i + 1][..i] == deliveries[..i];
        if d.key !in latest || d.number > latest[d.key].number {
          latest := latest[d.key := d];
        }
      }
      assert deliveries[..|deliveries|] == deliveries;
      pending := map[];
      var todo := latest.Keys;
      while todo != {}
        invariant todo <= latest.Keys
        invariant pending == map k | k in latest && k !in todo && IsPending(latest[k]) :: latest[k]
        decreases |todo|
      {
        var k :| k in todo;
        if !latest[k].delivered && latest[k].retry && latest[k].number < MAX_ATTEMPTS {
          pending := pending[k := latest[k]];
        }
        todo := todo - {k};
      }
    }
  }

  // ---------------------------------------------------------------- the delivery machine

  /** The attempt log in memory and on disk, each beside the whole record it is the end of, the background workers
      with the number of the attempt each is waiting to make, and every attempt ever made. A restart takes the
      record back to what was written; what was made stays. */
  datatype Sys = Sys(
    memory: seq<Attempt>, disk: seq<Attempt>, history: seq<Attempt>, diskHistory: seq<Attempt>,
    workers: map<Key, nat>, drawn: set<Key>, made: seq<Attempt>)

  datatype Action =
    | Dispatch(key: Key, result: Result, persistOk: bool)
    | Retry(key: Key, stillRelevant: bool, result: Result, persistOk: bool)
    | Cancel(key: Key)
    | Restart(relevant: set<Key>)

  function Recorded(s: Sys, a: Attempt, persistOk: bool): Sys {
    var memory, history := Record(s.memory, a), s.history + [a];
    s.(memory := memory, history := history, made := s.made + [a],
       disk := if persistOk then memory else s.disk, diskHistory := if persistOk then history else s.diskHistory)
  }

  /** The first attempt of a notification on one channel; its delivery ID is new. */
  function DispatchStep(s: Sys, k: Key, r: Result, persistOk: bool): Sys {
    if k in s.drawn then s
    else
      var t := Recorded(s, Attempt(k, 1, r.Delivered?, r.Retryable?), persistOk);
      t.(drawn := s.drawn + {k}, workers := if r.Retryable? then s.workers[k := 2] else s.workers)
  }

  /** A worker whose delay is over: it gives up if its channel is gone or the alert has moved on. */
  function RetryStep(s: Sys, k: Key, stillRelevant: bool, r: Result, persistOk: bool): Sys
    requires k in s.workers
  {
    var n := s.workers[k];
    if !stillRelevant then s.(workers := Without(s.workers, k))
    else if r.Retryable? && n < MAX_ATTEMPTS then
      Recorded(s, Attempt(k, n, false, true), persistOk).(workers := s.workers[k := n + 1])
    else Recorded(s, Attempt(k, n, r.Delivered?, false), persistOk).(workers := Without(s.workers, k))
  }

  /** A new process: the log is read back and pending retries of relevant alerts get a worker. */
  function RestartStep(s: Sys, relevant: set<Key>): Sys {
    var pending := Pending(s.disk);
    s.(memory := s.disk, history := s.diskHistory,
       workers := map k | k in pending && k in relevant :: pending[k].number + 1)
  }

  function Step(s: Sys, a: Action): Sys {
    match a
    case Dispatch(k, r, persistOk) => DispatchStep(s, k, r, persistOk)
    case Retry(k, relevant, r, persistOk) => if k in s.workers then RetryStep(s, k, relevant, r, persistOk) else s
    case Cancel(k) => s.(workers := Without(s.workers, k))
    case Restart(relevant) => RestartStep(s, relevant)
  }

  function Run(s: Sys, actions: seq<Action>): Sys
    decreases |actions|
  {
    if actions == [] then s else Run(Step(s, actions[0]), actions[1..])
  }

  const START: Sys := Sys([], [], [], [], map[], {}, [])

  // ---------------------------------------------------------------- what every run keeps

  /** The attempts of one key, in the order recorded. */
  function AttemptsOf(log: seq<Attempt>, k: Key): seq<Attempt> {
    if log == [] then []
    else
      var a := log[|log| - 1];
      AttemptsOf(log[..|log| - 1], k) + (if a.key == k then [a] else [])
  }

  /** Numbered from one without a gap, at most six, each but the last one scheduled a retry and was not
      delivered. */
  predicate IsChain(attempts: seq<Attempt>) {
    && |attempts| <= MAX_ATTEMPTS
    && (forall i :: 0 <= i < |attempts| ==> attempts[i].number == i + 1)
    && (forall i :: 0 <= i < |attempts| - 1 ==> attempts[i].retry)
    && (forall i :: 0 <= i < |attempts| && attempts[i].retry ==> !attempts[i].delivered && attempts[i].number < MAX_ATTEMPTS)
  }

  predicate KeyOk(s: Sys, k: Key) {
    && IsChain(AttemptsOf(s.history, k)) && IsChain(AttemptsOf(s.diskHistory, k))
    && (k in s.workers ==>
          var chain := AttemptsOf(s.history, k);
          chain != [] && chain[|chain| - 1].retry && s.workers[k] == |chain| + 1)
    && (k !in s.drawn ==> AttemptsOf(s.history, k) == [] && AttemptsOf(s.diskHistory, k) == [])
  }

  predicate IsEndOf(log: seq<Attempt>, history: seq<Attempt>) {
    |log| <= |history| && log == history[|history| - |log|..]
  }

  ghost predicate Inv(s: Sys) {
    && (forall k {:trigger KeyOk(s, k)} :: KeyOk(s, k))
    && EndsOk(s)
  }

  lemma AttemptsAppend(log: seq<Attempt>, a: Attempt, k: Key)
    ensures AttemptsOf(log + [a], k) == AttemptsOf(log, k) + (if a.key == k then [a] else [])
  {
    assert (log + [a])[..|log|] == log;
  }

  lemma {:induction false} AttemptsConcat(a: seq<Attempt>, b: seq<Attempt>, k: Key)
    ensures AttemptsOf(a + b, k) == AttemptsOf(a, k) + AttemptsOf(b, k)
    decreases |b|
  {
    if b == [] {
      assert a + b == a;
    } else {
      var n := |b| - 1;
      assert a + b == (a + b[..n]) + [b[n]] && b == b[..n] + [b[n]];
      AttemptsAppend(a + b[..n], b[n], k);
      AttemptsConcat(a, b[..n], k);
    }
  }

  /** In the end of a history, the newest attempt of a key is the last one of its chain. */
  lemma {:induction false} LatestIsLast(older: seq<Attempt>, log: seq<Attempt>, k: Key)
    requires IsChain(AttemptsOf(older + log, k))
    ensures k in LatestByKey(log) <==> AttemptsOf(log, k) != []
    ensures k in LatestByKey(log) ==>
              var chain := AttemptsOf(older + log, k); chain != [] && LatestByKey(log)[k] == chain[|chain| - 1]
    decreases |log|
  {
    if log != [] {
      var n := |log| - 1;
      var a := log[n];
      assert older + log == (older + log[..n]) + [a];
      AttemptsAppend(older + log[..n], a, k);
      var before, after := AttemptsOf(older + log[..n], k), AttemptsOf(older + log, k);
      assert forall i :: 0 <= i < |before| ==> before[i] == after[i];
      LatestIsLast(older, log[..n], k);
      if a.key == k {
        assert after[|after| - 1] == a;
      }
    }
  }

  lemma RecordKeepsEnd(log: seq<Attempt>, history: seq<Attempt>, a: Attempt)
    requires IsEndOf(log, history)
    ensures IsEndOf(Record(log, a), history + [a])
  {
  }

  lemma RestartKeepsKey(s: Sys, relevant: set<Key>, k: Key)
    requires Inv(s)
    ensures KeyOk(RestartStep(s, relevant), k)
  {
    assert KeyOk(s, k);
    var older := s.diskHistory[..|s.diskHistory| - |s.disk|];
    assert older + s.disk == s.diskHistory;
    LatestIsLast(older, s.disk, k);
  }

  /** A chain goes on only after an attempt that scheduled a retry. */
  lemma ChainAppend(chain: seq<Attempt>, a: Attempt)
    requires IsChain(chain) && (chain != [] ==> chain[|chain| - 1].retry)
    requires a.number == |chain| + 1 && (a.retry ==> !a.delivered && a.number < MAX_ATTEMPTS)
    ensures IsChain(chain + [a])
  {
  }

  lemma EmptyChain()
    ensures IsChain([])
  {
  }

  lemma DispatchKeepsOwnKey(s: Sys, key: Key, r: Result, persistOk: bool)
    requires KeyOk(s, key) && key !in s.drawn
    ensures KeyOk(DispatchStep(s, key, r, persistOk), key)
  {
    var a := Attempt(key, 1, r.Delivered?, r.Retryable?);
    EmptyChain();
    ChainAppend([], a);
    AttemptsAppend(s.history, a, key);
    assert AttemptsOf(s.history + [a], key) == [] + [a];
  }

  lemma DispatchKeepsOtherKey(s: Sys, key: Key, r: Result, persistOk: bool, k: Key)
    requires KeyOk(s, k) && key !in s.drawn && k != key
    ensures KeyOk(DispatchStep(s, key, r, persistOk), k)
  {
    AttemptsAppend(s.history, Attempt(key, 1, r.Delivered?, r.Retryable?), k);
    assert AttemptsOf(s.history, k) + [] == AttemptsOf(s.history, k);
  }

  /** The attempt that a retry records. */
  function RetryAttempt(s: Sys, key: Key, r: Result): Attempt
    requires key in s.workers
  {
    var again := r.Retryable? && s.workers[key] < MAX_ATTEMPTS;
    Attempt(key, s.workers[key], r.Delivered? && !again, again)
  }

  lemma RetryKeepsOwnKey(s: Sys, key: Key, r: Result, persistOk: bool)
    requires KeyOk(s, key) && key in s.workers
    ensures KeyOk(RetryStep(s, key, true, r, persistOk), key)
  {
    var a := RetryAttempt(s, key, r);
    AttemptsAppend(s.history, a, key);
    ChainAppend(AttemptsOf(s.history, key), a);
  }

  lemma RetryKeepsOtherKey(s: Sys, key: Key, r: Result, persistOk: bool, k: Key)
    requires KeyOk(s, k) && key in s.workers && k != key
    ensures KeyOk(RetryStep(s, key, true, r, persistOk), k)
  {
    AttemptsAppend(s.history, RetryAttempt(s, key, r), k);
    assert AttemptsOf(s.history, k) + [] == AttemptsOf(s.history, k);
  }

  lemma StepKeepsKey(s: Sys, a: Action, k: Key)
    requires Inv(s)
    ensures KeyOk(Step(s, a), k)
  {
    assert KeyOk(s, k);
    match a
    case Dispatch(key, r, persistOk) =>
      if key !in s.drawn && k == key {
        DispatchKeepsOwnKey(s, key, r, persistOk);
      } else if key !in s.drawn {
        DispatchKeepsOtherKey(s, key, r, persistOk, k);
      }
    case Retry(key, relevant, r, persistOk) =>
      if key in s.workers {
        if relevant && k == key {
          RetryKeepsOwnKey(s, key, r, persistOk);
        } else if relevant {
          RetryKeepsOtherKey(s, key, r, persistOk, k);
        }
      }
    case Cancel(_) =>
    case Restart(relevant) => RestartKeepsKey(s, relevant, k);
  }

  ghost predicate EndsOk(s: Sys) {
    IsEndOf(s.memory, s.history) && IsEndOf(s.disk, s.diskHistory)
  }

  lemma RecordedKeepsEnds(s: Sys, a: Attempt, persistOk: bool)
    requires EndsOk(s)
    ensures EndsOk(Recorded(s, a, persistOk))
  {
    RecordKeepsEnd(s.memory, s.history, a);
  }

  lemma StepKeepsEnds(s: Sys, a: Action)
    requires EndsOk(s)
    ensures EndsOk(Step(s, a))
  {
    match a
    case Dispatch(k, r, persistOk) => RecordedKeepsEnds(s, Attempt(k, 1, r.Delivered?, r.Retryable?), persistOk);
    case Retry(k, _, r, persistOk) =>
      if k in s.workers {
        RecordedKeepsEnds(s, Attempt(k, s.workers[k], false, true), persistOk);
        RecordedKeepsEnds(s, Attempt(k, s.workers[k], r.Delivered?, false), persistOk);
      }
    case Cancel(_) =>
    case Restart(_) =>
  }

  lemma StepKeepsInv(s: Sys, a: Action)
    requires Inv(s)
    ensures Inv(Step(s, a))
  {
    forall k
      ensures KeyOk(Step(s, a), k)
    {
      StepKeepsKey(s, a, k);
    }
    StepKeepsEnds(s, a);
  }

  /** Over all runs, with restarts at any moment and writes that fail: the recorded attempts of a delivery
      are numbered 1..k with k at most six, and nothing follows a delivered or final attempt. The log itself
      always is the end of that record. */
  lemma {:induction false} AttemptsFormChains(actions: seq<Action>, s: Sys)
    requires Inv(s)
    ensures var t := Run(s, actions);
            && (forall k :: IsChain(AttemptsOf(t.history, k)) && IsChain(AttemptsOf(t.diskHistory, k)))
            && IsEndOf(t.memory, t.history) && IsEndOf(t.disk, t.diskHistory)
    ensures Inv(START)
    decreases |actions|
  {
    if actions != [] {
      StepKeepsInv(s, actions[0]);
      AttemptsFormChains(actions[1..], Step(s, actions[0]));
    } else {
      forall k
        ensures IsChain(AttemptsOf(s.history, k)) && IsChain(AttemptsOf(s.diskHistory, k))
      {
        assert KeyOk(s, k);
      }
    }
  }

  // ---------------------------------------------------------------- what is made and what is recorded

  /** Whenever the process restarts, everything recorded has been written. */
  predicate Lossless(s: Sys, actions: seq<Action>)
    decreases |actions|
  {
    actions == [] || ((actions[0].Restart? ==> s.diskHistory == s.history) && Lossless(Step(s, actions[0]), actions[1..]))
  }

  lemma AppendAlike(x: seq<Attempt>, y: seq<Attempt>, a: Attempt)
    ensures x + [a] == y + [a] <==> x == y
  {
    assert (x + [a])[..|x|] == x && (y + [a])[..|y|] == y;
    if x + [a] == y + [a] {
      assert |x + [a]| == |y + [a]|;
    }
  }

  lemma StepLosesExactly(s: Sys, a: Action)
    requires s.diskHistory <= s.history && |s.history| <= |s.made|
    ensures var t := Step(s, a);
            && t.diskHistory <= t.history && |t.history| <= |t.made|
            && (t.history == t.made <==> s.history == s.made && (a.Restart? ==> s.diskHistory == s.history))
  {
    forall x: Attempt
      ensures s.history + [x] == s.made + [x] <==> s.history == s.made
    {
      AppendAlike(s.history, s.made, x);
    }
  }

  /** The recorded attempts are all that were made exactly if no restart came before an attempt was written. */
  lemma {:induction false} RecordedIsMadeExactly(s: Sys, actions: seq<Action>)
    requires s.diskHistory <= s.history && |s.history| <= |s.made|
    ensures Run(s, actions).history == Run(s, actions).made <==> s.history == s.made && Lossless(s, actions)
    decreases |actions|
  {
    if actions != [] {
      StepLosesExactly(s, actions[0]);
      RecordedIsMadeExactly(Step(s, actions[0]), actions[1..]);
    }
  }

  lemma PendingOfOne(a: Attempt)
    requires IsPending(a)
    ensures Pending([a]) == map[a.key := a]
  {
    assert [a][..0] == [];
    assert LatestByKey([a]) == map[a.key := a];
  }

  /** An attempt that was delivered but not written is made again after a restart. */
  lemma UnwrittenDeliveryIsRepeated(k: Key)
    ensures var actions := [Dispatch(k, Retryable, true), Retry(k, true, Delivered, false), Restart({k}), Retry(k, true, Delivered, true)];
            Run(START, actions).made == [Attempt(k, 1, false, true), Attempt(k, 2, true, false), Attempt(k, 2, true, false)]
  {
    var first, second, third, last := Dispatch(k, Retryable, true), Retry(k, true, Delivered, false), Restart({k}), Retry(k, true, Delivered, true);
    var s1 := Step(START, first);
    var s2 := Step(s1, second);
    var s3 := Step(s2, third);
    var s4 := Step(s3, last);
    PendingOfOne(Attempt(k, 1, false, true));
    assert s2.disk == [Attempt(k, 1, false, true)];
    assert s3.workers == map[k := 2];
    assert Run(s4, []) == s4;
    assert [last][1..] == [] && Run(s3, [last]) == s4;
    assert [third, last][1..] == [last] && Run(s2, [third, last]) == s4;
    assert [second, third, last][1..] == [third, last] && Run(s1, [second, third, last]) == s4;
    assert [first, second, third, last][1..] == [second, third, last];
  }
}
