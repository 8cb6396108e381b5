/** Router prefixes and device addresses (internal/prefixstate/prefix.go). */
module Prefixes {
  import opened Basics

  /** A 128-bit address; its number gives its order. */
  type Addr = nat

  /** The addresses of a masked prefix. */
  datatype Range = Range(low: Addr, high: Addr)

  /** Until when a prefix is preferred and valid; the zero time counts as not set. */
  datatype Lifetime = Lifetime(preferredUntil: Option<Time>, validUntil: Option<Time>)

  predicate Over(until: Option<Time>, now: Time) {
    until.Some? && until.value != 0 && until.value <= now
  }

  predicate Alive(l: Lifetime, now: Time) {
    !Over(l.preferredUntil, now) && !Over(l.validUntil, now)
  }

  // ---------------------------------------------------------------- increasing lists

  predicate Increasing(s: seq<int>) {
    forall i, j :: 0 <= i < j < |s| ==> s[i] < s[j]
  }

  predicate Distinct<T(==)>(s: seq<T>) {
    forall i, j :: 0 <= i < j < |s| ==> s[i] != s[j]
  }

  function Insert(s: seq<Addr>, a: Addr): (r: seq<Addr>)
    ensures forall x :: x in r <==> x == a || x in s
  {
    if s == [] || a <= s[0] then [a] + s else [s[0]] + Insert(s[1..], a)
  }

  function Sort(s: seq<Addr>): (r: seq<Addr>)
    ensures forall x :: x in r <==> x in s
    decreases |s|
  {
    if s == [] then []
    else
      var init := s[..|s| - 1];
      assert s == init + [s[|s| - 1]];
      Insert(Sort(init), s[|s| - 1])
  }

  lemma {:induction false} InsertKeepsIncreasing(s: seq<Addr>, a: Addr)
    requires Increasing(s) && a !in s
    ensures Increasing(Insert(s, a))
    decreases |s|
  {
    if s != [] && a > s[0] {
      InsertKeepsIncreasing(s[1..], a);
      var tail := Insert(s[1..], a);
      assert forall x :: x in tail ==> x == a || x in s[1..];
      assert forall x :: x in s[1..] ==> s[0] < x;
      assert forall i :: 0 <= i < |tail| ==> tail[i] in tail;
    }
  }

  lemma {:induction false} SortIncreases(s: seq<Addr>)
    requires Distinct(s)
    ensures Increasing(Sort(s))
    decreases |s|
  {
    if s != [] {
      SortIncreases(s[..|s| - 1]);
      InsertKeepsIncreasing(Sort(s[..|s| - 1]), s[|s| - 1]);
    }
  }

  // ---------------------------------------------------------------- candidates

  predicate Matches(a: Addr, active: seq<Range>) {
    exists i :: 0 <= i < |active| && active[i].low <= a <= active[i].high
  }

  /** The parsed reported addresses (None for one that does not parse) that some prefix contains, first occurrences only. */
  function Collected(reported: seq<Option<Addr>>, active: seq<Range>): (r: seq<Addr>)
    decreases |reported|
  {
    if reported == [] then []
    else
      var r, last := Collected(reported[..|reported| - 1], active), reported[|reported| - 1];
      if last.Some? && last.value !in r && Matches(last.value, active) then r + [last.value] else r
  }

  function Candidates(reported: seq<Option<Addr>>, active: seq<Range>): seq<Addr> {
    Sort(Collected(reported, active))
  }

  lemma {:induction false} CollectedExactly(reported: seq<Option<Addr>>, active: seq<Range>)
    ensures Distinct(Collected(reported, active))
    ensures forall a :: a in Collected(reported, active) <==> Some(a) in reported && Matches(a, active)
    decreases |reported|
  {
    if reported != [] {
      var init := reported[..|reported| - 1];
      CollectedExactly(init, active);
      assert reported == init + [reported[|reported| - 1]];
    }
  }

  /** The candidates are the reported addresses inside a prefix, each once, in increasing order. */
  lemma CandidatesExactly(reported: seq<Option<Addr>>, active: seq<Range>)
    ensures Increasing(Candidates(reported, active))
    ensures forall a :: a in Candidates(reported, active) <==> Some(a) in reported && Matches(a, active)
  {
    CollectedExactly(reported, active);
    SortIncreases(Collected(reported, active));
  }

  method Intersect(reported: seq<Option<Addr>>, active: seq<Range>) returns (valid: seq<Addr>)
    ensures valid == Candidates(reported, active)
  {
    valid := [];
    var seen: set<Addr> := {};
    var i := 0;
    while i < |reported|
      invariant 0 <= i <= |reported|
      invariant valid == Collected(reported[..i], active)
      invariant forall a :: a in seen <==> a in valid
    {
      assert reported[..i + 1][..i] == reported[..i];
      if reported[i].Some? && reported[i].value !in seen {
        var ip, matched, j := reported[i].value, false, 0;
        while j < |active| && !matched
          invariant 0 <= j <= |active|
          invariant matched ==> Matches(ip, active)
          invariant !matched ==> forall k :: 0 <= k < j ==> !(active[k].low <= ip <= active[k].high)
        {
          matched := active[j].low <= ip <= active[j].high;
          j := j + 1;
        }
        if matched {
          seen := seen + {ip};
          valid := valid + [ip];
        }
      }
      i := i + 1;
    }
    assert reported[..i] == reported;
    valid := Sort(valid);
  }

  /** The applied address while it is a candidate, otherwise the smallest candidate. */
  function Selected(candidates: seq<Addr>, applied: Option<Addr>): Option<Addr> {
    if candidates == [] then None
    else if applied.Some? && applied.value in candidates then applied
    else Some(candidates[0])
  }

  method SelectAddress(candidates: seq<Addr>, applied: Option<Addr>) returns (chosen: Option<Addr>)
    ensures chosen == Selected(candidates, applied)
  {
    if candidates == [] {
      return None;
    }
    if applied.Some? {
      var i := 0;
      while i < |candidates|
        invariant 0 <= i <= |candidates|
        invariant applied.value !in candidates[..i]
      {
        if candidates[i] == applied.value {
          return applied;
        }
        i := i + 1;
      }
    }
    return Some(candidates[0]);
  }

  // ---------------------------------------------------------------- normalized prefix lists

  /** A reported prefix: None when it does not parse or is not a global unicast one, otherwise the place
      of its masked form in the order of canonical texts. */
  datatype RawPrefix = RawPrefix(parsed: Option<nat>, life: Lifetime)

  datatype Lease = Lease(prefix: nat, life: Lifetime)

  predicate Usable(p: RawPrefix, now: Time) {
    p.parsed.Some? && Alive(p.life, now)
  }

  /** Where in the report the prefix is first usable. */
  predicate FirstUse(raw: seq<RawPrefix>, now: Time, prefix: nat, i: nat) {
    && i < |raw| && Usable(raw[i], now) && raw[i].parsed == Some(prefix)
    && forall j :: 0 <= j < i && Usable(raw[j], now) ==> raw[j].parsed != Some(prefix)
  }

  predicate SortedLeases(s: seq<Lease>) {
    forall i, j :: 0 <= i < j < |s| ==> s[i].prefix < s[j].prefix
  }

  /** Sorted, one entry for each usable prefix, with the lifetimes of its first use. */
  ghost predicate Normalized(raw: seq<RawPrefix>, now: Time, leases: seq<Lease>) {
    && SortedLeases(leases)
    && (forall l :: l in leases ==> Taken(raw, now, l))
    && (forall i: nat :: i < |raw| && Usable(raw[i], now) ==> Listed(leases, raw[i].parsed.value))
  }

  ghost predicate Taken(raw: seq<RawPrefix>, now: Time, l: Lease) {
    exists i: nat :: FirstUse(raw, now, l.prefix, i) && raw[i].life == l.life
  }

  predicate Listed(leases: seq<Lease>, prefix: nat) {
    exists l :: l in leases && l.prefix == prefix
  }

  method NormalizePrefixes(raw: seq<RawPrefix>, now: Time) returns (leases: seq<Lease>)
    ensures Normalized(raw, now, leases)
  {
    leases := [];
    var seen: set<nat> := {};
    var i := 0;
    while i < |raw|
      invariant 0 <= i <= |raw|
      invariant SortedLeases(leases)
      invariant forall l :: l in leases ==> l.prefix in seen
      invariant forall l :: l in leases ==> Taken(raw, now, l)
      invariant forall p :: p in seen ==> Listed(leases, p)
      invariant forall k: nat :: k < i && Usable(raw[k], now) ==> raw[k].parsed.value in seen
    {
      if Usable(raw[i], now) && raw[i].parsed.value !in seen {
        var p := raw[i].parsed.value;
        assert FirstUse(raw, now, p, i);
        seen := seen + {p};
        ghost var before := leases;
        leases := InsertLease(leases, Lease(p, raw[i].life));
        assert Lease(p, raw[i].life) in leases;
        assert forall l :: l in before ==> l in leases;
      }
      i := i + 1;
    }
  }

  function InsertLease(s: seq<Lease>, l: Lease): (r: seq<Lease>)
    requires SortedLeases(s) && forall x :: x in s ==> x.prefix != l.prefix
    ensures SortedLeases(r) && forall x :: x in r <==> x == l || x in s
    decreases |s|
  {
    if s == [] || l.prefix < s[0].prefix then [l] + s
    else
      var r := InsertLease(s[1..], l);
      assert forall i :: 0 <= i < |r| ==> r[i] in r;
      assert forall x :: x in s[1..] ==> s[0].prefix < x.prefix;
      [s[0]] + r
  }

  lemma FirstUseIsUnique(raw: seq<RawPrefix>, now: Time, prefix: nat, i: nat, k: nat)
    requires FirstUse(raw, now, prefix, i) && FirstUse(raw, now, prefix, k)
    ensures i == k
  {
  }

  lemma LeaseOfPrefix(raw: seq<RawPrefix>, now: Time, a: seq<Lease>, b: seq<Lease>, l: Lease)
    requires Normalized(raw, now, a) && Normalized(raw, now, b) && l in a
    ensures l in b
  {
    var i: nat :| FirstUse(raw, now, l.prefix, i) && raw[i].life == l.life;
    assert Listed(b, l.prefix);
    var m :| m in b && m.prefix == l.prefix;
    var k: nat :| FirstUse(raw, now, m.prefix, k) && raw[k].life == m.life;
    FirstUseIsUnique(raw, now, l.prefix, i, k);
    assert m == l;
  }

  lemma SomethingInside(b: seq<Lease>)
    ensures b != [] ==> exists l :: l in b
  {
    if b != [] {
      assert b[0] in b;
    }
  }

  lemma {:induction false} SortedLeasesAreEqual(a: seq<Lease>, b: seq<Lease>)
    requires SortedLeases(a) && SortedLeases(b) && forall l :: l in a <==> l in b
    ensures a == b
    decreases |a|
  {
    if a == [] {
      SomethingInside(b);
    } else {
      assert a[0] in b && b[0] in a;
      assert a[0] == b[0];
      assert forall l :: l in a <==> l == a[0] || l in a[1..];
      assert forall l :: l in b <==> l == b[0] || l in b[1..];
      assert a[0] !in a[1..] && b[0] !in b[1..];
      SortedLeasesAreEqual(a[1..], b[1..]);
    }
  }

  /** A report has one normalized list only. */
  lemma NormalizedIsUnique(raw: seq<RawPrefix>, now: Time, a: seq<Lease>, b: seq<Lease>)
    requires Normalized(raw, now, a) && Normalized(raw, now, b)
    ensures a == b
  {
    forall l
      ensures l in a <==> l in b
    {
      if l in a {
        LeaseOfPrefix(raw, now, a, b, l);
      }
      if l in b {
        LeaseOfPrefix(raw, now, b, a, l);
      }
    }
    SortedLeasesAreEqual(a, b);
  }

  function Reported(leases: seq<Lease>): seq<RawPrefix> {
    seq(|leases|, i requires 0 <= i < |leases| => RawPrefix(Some(leases[i].prefix), leases[i].life))
  }

  lemma FirstUseAgain(leases: seq<Lease>, now: Time, i: nat)
    requires SortedLeases(leases) && i < |leases| && Alive(leases[i].life, now)
    ensures FirstUse(Reported(leases), now, leases[i].prefix, i)
  {
  }

  /** Normalizing a normalized list, reported again at the same time, changes nothing. */
  lemma NormalizingAgainChangesNothing(raw: seq<RawPrefix>, now: Time, leases: seq<Lease>)
    requires Normalized(raw, now, leases)
    ensures Normalized(Reported(leases), now, leases)
  {
    var again := Reported(leases);
    forall l | l in leases
      ensures Taken(again, now, l)
    {
      var i: nat :| i < |leases| && leases[i] == l;
      LeasesAreAlive(raw, now, leases, l);
      FirstUseAgain(leases, now, i);
    }
    forall i: nat | i < |again|
      ensures Listed(leases, again[i].parsed.value)
    {
      assert leases[i] in leases;
    }
  }

  lemma LeasesAreAlive(raw: seq<RawPrefix>, now: Time, leases: seq<Lease>, l: Lease)
    requires Normalized(raw, now, leases) && l in leases
    ensures Alive(l.life, now)
  {
    var i: nat :| FirstUse(raw, now, l.prefix, i) && raw[i].life == l.life;
  }
}
