/** When a notification is tried again (internal/alerting/service.go, internal/alerting/repository.go). */
module DeliveryLaws {
  import opened Basics
  import opened Deliveries

  /** The first attempt of a new delivery is made at once; a second one is due exactly if it may be repeated. */
  lemma DispatchExactly(s: Sys, k: Key, r: Result, persistOk: bool)
    requires k !in s.drawn
    ensures var t := Step(s, Dispatch(k, r, persistOk));
            && t.made == s.made + [Attempt(k, 1, r == Delivered, r == Retryable)] && k in t.drawn
            && (r == Retryable ==> k in t.workers && t.workers[k] == 2)
            && (r != Retryable ==> t.workers == s.workers)
            && (forall x :: x != k ==> (x in t.workers <==> x in s.workers) && (x in s.workers ==> t.workers[x] == s.workers[x]))
  {
  }

  /** A due attempt is made if the alert still asks for it; another one is due after it exactly if it may be repeated and
      was not the sixth. Otherwise the delivery is over. */
  lemma RetryExactly(s: Sys, k: Key, relevant: bool, r: Result, persistOk: bool)
    requires k in s.workers
    ensures var t, n := Step(s, Retry(k, relevant, r, persistOk)), s.workers[k];
            && (!relevant ==> t == s.(workers := t.workers) && k !in t.workers)
            && (relevant ==>
                  && t.made == s.made + [Attempt(k, n, r == Delivered, r == Retryable && n < 6)]
                  && (k in t.workers <==> r == Retryable && n < 6) && (k in t.workers ==> t.workers[k] == n + 1))
            && (forall x :: x != k ==> (x in t.workers <==> x in s.workers) && (x in s.workers ==> t.workers[x] == s.workers[x]))
  {
  }

  /** The last attempt of the key in the log. */
  function LastOf(log: seq<Attempt>, k: Key): Option<Attempt> {
    var chain := AttemptsOf(log, k);
    if chain == [] then None else Some(chain[|chain| - 1])
  }

  lemma LastInEnd(older: seq<Attempt>, log: seq<Attempt>, k: Key)
    requires IsChain(AttemptsOf(older + log, k))
    ensures k in LatestByKey(log) <==> LastOf(log, k).Some?
    ensures k in LatestByKey(log) ==> LastOf(log, k) == Some(LatestByKey(log)[k])
  {
    LatestIsLast(older, log, k);
    AttemptsConcat(older, log, k);
  }

  /** After a restart an attempt is due exactly for those deliveries of relevant alerts whose last attempt in the log asked
      for another one; it is the next in number. */
  lemma RestartResumesExactly(s: Sys, relevant: set<Key>, k: Key)
    requires Inv(s)
    ensures var t, last := Step(s, Restart(relevant)), LastOf(s.disk, k);
            && (k in t.workers <==> k in relevant && last.Some? && last.value.retry && !last.value.delivered && last.value.number < 6)
            && (k in t.workers ==> t.workers[k] == last.value.number + 1)
            && t.made == s.made
  {
    assert KeyOk(s, k);
    var older := s.diskHistory[..|s.diskHistory| - |s.disk|];
    assert older + s.disk == s.diskHistory;
    LastInEnd(older, s.disk, k);
  }

  function Repeat(a: Action, n: nat): seq<Action> {
    if n == 0 then [] else [a] + Repeat(a, n - 1)
  }

  /** The attempts from number n on, up to six, none of which is taken. */
  function Untaken(k: Key, n: nat): seq<Attempt>
    decreases 6 - n
  {
    if n >= 6 then [Attempt(k, 6, false, false)] else [Attempt(k, n, false, true)] + Untaken(k, n + 1)
  }

  lemma {:induction false} RetriesUntilSix(s: Sys, k: Key, n: nat, persistOk: bool)
    requires k in s.workers && s.workers[k] == n && 2 <= n <= 6
    ensures var t := Run(s, Repeat(Retry(k, true, Retryable, persistOk), 7 - n));
            t.made == s.made + Untaken(k, n) && k !in t.workers
    decreases 6 - n
  {
    var a := Retry(k, true, Retryable, persistOk);
    var t := Step(s, a);
    RetryExactly(s, k, true, Retryable, persistOk);
    assert Repeat(a, 7 - n) == [a] + Repeat(a, 6 - n);
    assert ([a] + Repeat(a, 6 - n))[1..] == Repeat(a, 6 - n);
    if n < 6 {
      RetriesUntilSix(t, k, n + 1, persistOk);
      assert s.made + [Attempt(k, n, false, true)] + Untaken(k, n + 1) == s.made + Untaken(k, n);
    } else {
      assert Repeat(a, 0) == [];
    }
  }

  /** A notification that nobody takes is tried six times and then given up. */
  lemma SixAttempts(k: Key, persistOk: bool)
    ensures var t := Run(START, [Dispatch(k, Retryable, persistOk)] + Repeat(Retry(k, true, Retryable, persistOk), 5));
            t.made == Untaken(k, 1) && |t.made| == 6 && k !in t.workers
  {
    var first, rest := Dispatch(k, Retryable, persistOk), Repeat(Retry(k, true, Retryable, persistOk), 5);
    DispatchExactly(START, k, Retryable, persistOk);
    RetriesUntilSix(Step(START, first), k, 2, persistOk);
    assert ([first] + rest)[1..] == rest;
    assert Untaken(k, 1) == [Attempt(k, 1, false, true)] + Untaken(k, 2);
    SixAreLeft(k);
  }

  lemma SixAreLeft(k: Key)
    ensures |Untaken(k, 1)| == 6
  {
    assert |Untaken(k, 6)| == 1;
    assert |Untaken(k, 5)| == 2;
    assert |Untaken(k, 4)| == 3;
    assert |Untaken(k, 3)| == 4;
    assert |Untaken(k, 2)| == 5;
  }
}
