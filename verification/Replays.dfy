/** Finding the place after which a stream is taken up again (internal/broker/broker.go). */
module Replays {
  import opened Basics

  const HISTORY_SIZE: nat := 64
  const QUEUE_SIZE: nat := 16

  /** The first place at or after `from` that carries the ID. */
  predicate FirstFrom<K(==)>(log: seq<K>, from: nat, id: K, p: nat) {
    from <= p < |log| && log[p] == id && forall j :: from <= j < p ==> log[j] != id
  }

  ghost predicate Occurs<K>(log: seq<K>, from: nat, id: K) {
    exists j: nat :: from <= j < |log| && log[j] == id
  }

  lemma {:induction false} HasFirst<K>(log: seq<K>, from: nat, id: K, j: nat)
    requires from <= j < |log| && log[j] == id
    ensures exists p: nat :: p <= j && FirstFrom(log, from, id, p)
    decreases j
  {
    if k: nat :| from <= k < j && log[k] == id {
      HasFirst(log, from, id, k);
    } else {
      assert FirstFrom(log, from, id, j);
    }
  }

  ghost function FindFrom<K>(log: seq<K>, from: nat, id: K): (p: Option<nat>)
    ensures p.Some? ==> FirstFrom(log, from, id, p.value)
    ensures p.None? <==> !Occurs(log, from, id)
  {
    FirstOrNone(log, from, id);
    if p: nat :| FirstFrom(log, from, id, p) then Some(p) else None
  }

  lemma FirstOrNone<K>(log: seq<K>, from: nat, id: K)
    ensures (exists p: nat :: FirstFrom(log, from, id, p)) <==> Occurs(log, from, id)
  {
    if j: nat :| from <= j < |log| && log[j] == id {
      HasFirst(log, from, id, j);
    }
  }

  lemma FirstIsUnique<K>(log: seq<K>, from: nat, id: K, p: nat, q: nat)
    requires FirstFrom(log, from, id, p) && FirstFrom(log, from, id, q)
    ensures p == q
  {
  }

  lemma FindIs<K>(log: seq<K>, from: nat, id: K, p: nat)
    requires FirstFrom(log, from, id, p)
    ensures FindFrom(log, from, id) == Some(p)
  {
    FirstIsUnique(log, from, id, p, FindFrom(log, from, id).value);
  }

  /** Where the bounded history begins. */
  function HistoryStart(published: nat): nat {
    if published > HISTORY_SIZE then published - HISTORY_SIZE else 0
  }
}
