/** Devices, their owners and the grants that share them (internal/registry/registry.go). */
module Registry {
  import opened Basics

  type DeviceId = nat

  /** A user; zero stands for no owner. */
  type UserId = nat

  datatype Device = Device(owner: UserId, facts: nat, createdAt: Time, updatedAt: Time)

  datatype Level = Observe | Operate | Manage

  /** A grant; both indexes hold the same object. */
  class Grant {
    const device: DeviceId
    const user: UserId
    var level: Level
    var revision: nat
    var updatedAt: Time

    constructor (d: DeviceId, u: UserId, l: Level, now: Time)
      ensures device == d && user == u && level == l && revision == 1 && updatedAt == now
    {
      device, user, level, revision, updatedAt := d, u, l, 1, now;
    }
  }

  /** The devices, and the grants by device and by user. */
  datatype State = State(devices: map<DeviceId, Device>, grants: map<DeviceId, map<UserId, Grant>>,
                         userGrants: map<UserId, map<DeviceId, Grant>>)

  function At<K, L, V>(m: map<K, map<L, V>>, k: K, l: L): Option<V> {
    if k in m && l in m[k] then Some(m[k][l]) else None
  }

  function DropAt<K, L, V>(m: map<K, map<L, V>>, k: K, l: L): map<K, map<L, V>> {
    if k in m then m[k := Without(m[k], l)] else m
  }

  lemma DropAtTakesOne<K, L, V>(m: map<K, map<L, V>>, k: K, l: L)
    ensures forall x, y {:trigger At(DropAt(m, k, l), x, y)} ::
              At(DropAt(m, k, l), x, y) == if x == k && y == l then None else At(m, x, y)
  {
  }

  function PutAt<K, L, V>(m: map<K, map<L, V>>, k: K, l: L, v: V): map<K, map<L, V>> {
    m[k := (if k in m then m[k] else map[])[l := v]]
  }

  lemma PutAtSetsOne<K, L, V>(m: map<K, map<L, V>>, k: K, l: L, v: V)
    ensures forall x, y {:trigger At(PutAt(m, k, l, v), x, y)} ::
              At(PutAt(m, k, l, v), x, y) == if x == k && y == l then Some(v) else At(m, x, y)
  {
  }

  function GrantOf(s: State, d: DeviceId, u: UserId): Option<Grant> {
    At(s.grants, d, u)
  }

  function UserGrantOf(s: State, u: UserId, d: DeviceId): Option<Grant> {
    At(s.userGrants, u, d)
  }

  // ---------------------------------------------------------------- what every operation keeps

  /** The two indexes hold the same grant for the pair, and only for a device that exists. */
  predicate PairOk(s: State, d: DeviceId, u: UserId) {
    GrantOf(s, d, u) == UserGrantOf(s, u, d) && (GrantOf(s, d, u).Some? ==> d in s.devices)
  }

  ghost predicate Inv(s: State) {
    forall d, u {:trigger GrantOf(s, d, u)} {:trigger UserGrantOf(s, u, d)} :: PairOk(s, d, u)
  }

  lemma SharedUsersAreListed(s: State, d: DeviceId)
    requires Inv(s)
    ensures forall u {:trigger At(s.userGrants, u, d)} :: At(s.userGrants, u, d) == At(s.grants, d, u)
  {
    forall u
      ensures At(s.userGrants, u, d) == At(s.grants, d, u)
    {
      var _ := GrantOf(s, d, u);
      assert PairOk(s, d, u);
    }
  }

  /** The devices given are gone together with their grants. */
  ghost predicate Removed(s: State, gone: set<DeviceId>, t: State) {
    && t.devices == s.devices - gone
    && (forall d, u {:trigger GrantOf(t, d, u)} :: GrantOf(t, d, u) == if d in gone then None else GrantOf(s, d, u))
    && (forall d, u {:trigger UserGrantOf(t, u, d)} :: UserGrantOf(t, u, d) == if d in gone then None else GrantOf(s, d, u))
  }

  lemma NothingRemoved(s: State)
    requires Inv(s)
    ensures Removed(s, {}, s)
  {
    forall d, u
      ensures UserGrantOf(s, u, d) == GrantOf(s, d, u)
    {
      assert PairOk(s, d, u);
    }
  }

  lemma RemovedOneMore(s: State, gone: set<DeviceId>, t: State, id: DeviceId, v: State)
    requires Removed(s, gone, t) && v.devices == Without(t.devices, id)
    requires forall d, u {:trigger At(v.grants, d, u)} :: At(v.grants, d, u) == if d == id then None else GrantOf(t, d, u)
    requires forall d, u {:trigger At(v.userGrants, u, d)} :: At(v.userGrants, u, d) == if d == id then None else UserGrantOf(t, u, d)
    ensures Removed(s, gone + {id}, v)
  {
  }

  lemma RemovalKeepsInv(s: State, gone: set<DeviceId>, t: State)
    requires Inv(s) && Removed(s, gone, t)
    ensures Inv(t)
  {
    forall d, u
      ensures PairOk(t, d, u)
    {
      var _ := GrantOf(s, d, u);
      assert PairOk(s, d, u);
    }
  }

  // ---------------------------------------------------------------- the operations

  /** A new grant of a device to a user. */
  datatype Share = Share(device: DeviceId, user: UserId, grant: Grant)

  datatype Op =
    | Save(id: DeviceId, device: Device, written: bool)
    | AdoptOrphans(owner: UserId)
    | Delete(id: DeviceId, written: bool)
    | DeleteByOwner(owner: UserId)
    | SetGrant(id: DeviceId, user: UserId, grant: Grant)
    | Revoke(id: DeviceId, user: UserId)
    | Transfer(id: DeviceId, owner: UserId, retained: Option<Grant>, now: Time)

  function Adopted(devices: map<DeviceId, Device>, owner: UserId): map<DeviceId, Device> {
    map id | id in devices :: if devices[id].owner == 0 then devices[id].(owner := owner) else devices[id]
  }

  function NotOwnedBy(devices: map<DeviceId, Device>, owner: UserId): map<DeviceId, Device> {
    map id | id in devices && devices[id].owner != owner :: devices[id]
  }

  /** The old owner keeps a grant only if one is asked for and it is another user. */
  predicate Retains(s: State, op: Op)
    requires op.Transfer? && op.id in s.devices
  {
    op.retained.Some? && s.devices[op.id].owner != 0 && s.devices[op.id].owner != op.owner
  }

  /** The devices after an operation; a failed write takes back only a new or changed device and a deletion. */
  function DevicesAfter(s: State, op: Op): map<DeviceId, Device> {
    match op
    case Save(id, device, written) => if written then s.devices[id := device] else s.devices
    case AdoptOrphans(owner) => if owner != 0 then Adopted(s.devices, owner) else s.devices
    case Delete(id, written) => if written then Without(s.devices, id) else s.devices
    case DeleteByOwner(owner) => NotOwnedBy(s.devices, owner)
    case SetGrant(_, _, _) => s.devices
    case Revoke(_, _) => s.devices
    case Transfer(id, owner, _, now) =>
      if id in s.devices then s.devices[id := s.devices[id].(owner := owner, updatedAt := now)] else s.devices
  }

  /** Whether an operation takes away the grant of the device to the user. */
  predicate Drops(s: State, op: Op, d: DeviceId, u: UserId) {
    match op
    case Save(_, _, _) => false
    case AdoptOrphans(_) => false
    case Delete(id, _) => d == id && id in s.devices
    case DeleteByOwner(owner) => d in s.devices && s.devices[d].owner == owner
    case SetGrant(_, _, _) => false
    case Revoke(id, user) => d == id && u == user && id in s.devices
    case Transfer(id, owner, _, _) => d == id && id in s.devices && (u == owner || (u == s.devices[id].owner && u != 0))
  }

  function Added(s: State, op: Op): Option<Share> {
    match op
    case SetGrant(id, user, grant) =>
      if id in s.devices && s.devices[id].owner != user && GrantOf(s, id, user) == None then Some(Share(id, user, grant)) else None
    case Transfer(id, _, _, _) =>
      if id in s.devices && Retains(s, op) then Some(Share(id, s.devices[id].owner, op.retained.value)) else None
    case _ => None
  }

  function GrantAfter(s: State, op: Op, d: DeviceId, u: UserId): Option<Grant> {
    var added := Added(s, op);
    if added.Some? && added.value.device == d && added.value.user == u then Some(added.value.grant)
    else if Drops(s, op, d, u) then None
    else GrantOf(s, d, u)
  }

  /** The state that an operation leaves, seen through its devices and both indexes. */
  ghost predicate Next(s: State, op: Op, t: State) {
    && t.devices == DevicesAfter(s, op)
    && (forall d, u {:trigger GrantOf(t, d, u)} :: GrantOf(t, d, u) == GrantAfter(s, op, d, u))
    && (forall d, u {:trigger UserGrantOf(t, u, d)} :: UserGrantOf(t, u, d) == GrantAfter(s, op, d, u))
  }

  lemma NextKeepsPair(s: State, op: Op, t: State, d: DeviceId, u: UserId)
    requires Inv(s) && Next(s, op, t)
    ensures PairOk(t, d, u)
  {
    assert PairOk(s, d, u) by {
      var _ := GrantOf(s, d, u);
    }
  }

  /** Every operation, whether its write fails or not, keeps the user index the transpose of the device index and
      leaves no grant of a device that is gone. */
  lemma NextKeepsInv(s: State, op: Op, t: State)
    requires Inv(s) && Next(s, op, t)
    ensures Inv(t)
  {
    forall d, u
      ensures PairOk(t, d, u)
    {
      NextKeepsPair(s, op, t, d, u);
    }
  }

  lemma RemovedByOwner(s: State, owner: UserId, gone: set<DeviceId>, t: State)
    requires Inv(s) && Removed(s, gone, t)
    requires forall id :: id in gone <==> id in s.devices && s.devices[id].owner == owner
    ensures Next(s, DeleteByOwner(owner), t)
  {
    assert t.devices == NotOwnedBy(s.devices, owner);
  }

  ghost predicate IsRun(states: seq<State>, ops: seq<Op>) {
    && |states| == |ops| + 1 && states[0] == State(map[], map[], map[])
    && forall i :: 0 <= i < |ops| ==> Next(states[i], ops[i], states[i + 1])
  }

  lemma {:induction false} RunKeepsInv(states: seq<State>, ops: seq<Op>, k: nat)
    requires IsRun(states, ops) && k < |states|
    ensures Inv(states[k])
    decreases k
  {
    if k == 0 {
      assert forall d, u :: PairOk(State(map[], map[], map[]), d, u);
    } else {
      RunKeepsInv(states, ops, k - 1);
      NextKeepsInv(states[k - 1], ops[k - 1], states[k]);
    }
  }

  // ---------------------------------------------------------------- who sees what

  predicate Visible(s: State, u: UserId, d: DeviceId) {
    d in s.devices && (s.devices[d].owner == u || GrantOf(s, d, u).Some?)
  }

  /** A transfer gives the device to the new owner, takes it from the old one unless a grant is retained, and
      changes nothing for anyone else nor for any other device. */
  lemma TransferMovesAccess(s: State, op: Op, t: State, u: UserId, d: DeviceId)
    requires Next(s, op, t) && op.Transfer? && op.id in s.devices && u != 0
    ensures Visible(t, u, d) <==>
              if d != op.id then Visible(s, u, d)
              else u == op.owner || (if u == s.devices[d].owner then op.retained.Some? else Visible(s, u, d))
  {
    assert GrantOf(t, d, u) == GrantAfter(s, op, d, u);
  }

  /** A revoked user sees the device exactly if it is the owner; nobody else is touched. */
  lemma RevokeTakesOneAccess(s: State, op: Op, t: State, u: UserId, d: DeviceId)
    requires Next(s, op, t) && op.Revoke? && op.id in s.devices
    ensures Visible(t, u, d) <==>
              if d == op.id && u == op.user then s.devices[d].owner == u else Visible(s, u, d)
  {
    assert GrantOf(t, d, u) == GrantAfter(s, op, d, u);
  }

  /** A deletion whose write fails keeps the device but only for its owner: its grants are gone. */
  lemma FailedDeleteLosesShares(s: State, op: Op, t: State, u: UserId, d: DeviceId)
    requires Next(s, op, t) && op.Delete? && op.id in s.devices
    ensures Visible(t, u, d) <==>
              if d == op.id then !op.written && s.devices[d].owner == u else Visible(s, u, d)
  {
    assert GrantOf(t, d, u) == GrantAfter(s, op, d, u);
  }

  /** So such a deletion changes nothing for anyone exactly if the device was shared with nobody but its owner. */
  lemma FailedDeleteIsHarmlessExactly(s: State, op: Op, t: State)
    requires Next(s, op, t) && op.Delete? && op.id in s.devices && !op.written
    ensures (forall u, d :: Visible(t, u, d) <==> Visible(s, u, d))
       <==> (forall u :: GrantOf(s, op.id, u).Some? ==> s.devices[op.id].owner == u)
  {
    forall u, d
      ensures Visible(t, u, d) <==> if d == op.id then s.devices[d].owner == u else Visible(s, u, d)
    {
      FailedDeleteLosesShares(s, op, t, u, d);
    }
    if forall u, d :: Visible(t, u, d) <==> Visible(s, u, d) {
      forall u | GrantOf(s, op.id, u).Some?
        ensures s.devices[op.id].owner == u
      {
        assert Visible(s, u, op.id) && Visible(t, u, op.id);
      }
    }
  }

  /** Deleting an owner's devices leaves exactly the other devices visible, to whom they were. */
  lemma DeleteByOwnerKeepsOthers(s: State, op: Op, t: State, u: UserId, d: DeviceId)
    requires Next(s, op, t) && op.DeleteByOwner?
    ensures Visible(t, u, d) <==> Visible(s, u, d) && s.devices[d].owner != op.owner
  {
    assert GrantOf(t, d, u) == GrantAfter(s, op, d, u);
  }

  /** A device of user 1 that is shared with user 2: when the deletion cannot be written, the device stays, but
      user 2 no longer sees it. */
  lemma FailedDeleteExample(g: Grant, device: Device) returns (s: State, t: State)
    requires device.owner == 1
    ensures Inv(s) && Next(s, Delete(5, false), t) && Visible(s, 2, 5) && 5 in t.devices && !Visible(t, 2, 5)
  {
    s := State(map[5 := device], map[5 := map[2 := g]], map[2 := map[5 := g]]);
    t := State(map[5 := device], map[], map[]);
    forall d, u
      ensures PairOk(s, d, u)
    {
    }
  }
}
