/** The registry that changes its maps in place (internal/registry/registry.go). */
module RegistryService {
  import opened Basics
  import opened Registry

  datatype Permission = Reading | Operating | Managing | Other

  datatype Result = Fine | NotFound | ToOwner | InvalidLevel | WriteFailed

  function Written(works: bool): Result {
    if works then Fine else WriteFailed
  }

  /** Newest first; the greater identifier first among equally old ones. */
  predicate Precedes(a: (DeviceId, Device), b: (DeviceId, Device)) {
    a.1.createdAt > b.1.createdAt || (a.1.createdAt == b.1.createdAt && a.0 > b.0)
  }

  predicate Ordered(list: seq<(DeviceId, Device)>) {
    forall i, j :: 0 <= i < j < |list| ==> Precedes(list[i], list[j])
  }

  function Place(list: seq<(DeviceId, Device)>, x: (DeviceId, Device)): (r: seq<(DeviceId, Device)>)
    requires Ordered(list) && forall y :: y in list ==> y.0 != x.0
    ensures Ordered(r) && forall y :: y in r <==> y == x || y in list
    decreases |list|
  {
    if list == [] || Precedes(x, list[0]) then
      var r := [x] + list;
      assert forall y :: y in r <==> y == x || y in list;
      r
    else
      var r := Place(list[1..], x);
      assert forall y :: y in r ==> y == x || y in list[1..];
      assert forall i :: 0 <= i < |r| ==> r[i] in r;
      assert forall y :: y in list[1..] ==> Precedes(list[0], y);
      [list[0]] + r
  }

  class DeviceRegistry {
    var devices: map<DeviceId, Device>
    var grants: map<DeviceId, map<UserId, Grant>>
    var userGrants: map<UserId, map<DeviceId, Grant>>
    var defaultOwner: UserId

    function View(): State
      reads this
    {
      State(devices, grants, userGrants)
    }

    constructor ()
      ensures View() == State(map[], map[], map[]) && defaultOwner == 0
    {
      devices, grants, userGrants, defaultOwner := map[], map[], map[], 0;
    }

    /** A device without an owner takes the stored one's, or the default owner when it is new. */
    method Save(id: DeviceId, d: Device, now: Time, works: bool) returns (r: Result, saved: Device)
      requires Inv(View())
      modifies `devices
      ensures r == Written(works) && Next(old(View()), Op.Save(id, saved, works), View())
      ensures saved.owner == if d.owner != 0 then d.owner else if id in old(devices) then old(devices)[id].owner else defaultOwner
      ensures saved.createdAt == (if id in old(devices) then old(devices)[id].createdAt else now)
      ensures saved.updatedAt == now && saved.facts == d.facts
    {
      var previous := devices;
      saved := d;
      if id in devices {
        saved := saved.(createdAt := devices[id].createdAt);
        if saved.owner == 0 {
          saved := saved.(owner := devices[id].owner);
        }
      } else {
        saved := saved.(createdAt := now);
        if saved.owner == 0 && defaultOwner != 0 {
          saved := saved.(owner := defaultOwner);
        }
      }
      saved := saved.(updatedAt := now);
      devices := devices[id := saved];
      if !works {
        devices := if id in previous then devices[id := previous[id]] else Without(devices, id);
        assert devices == previous;
      }
      r := Written(works);
    }

    method SetDefaultOwner(owner: UserId)
      requires Inv(View())
      modifies `devices, `defaultOwner
      ensures defaultOwner == owner && Next(old(View()), AdoptOrphans(owner), View())
    {
      defaultOwner := owner;
      if owner == 0 {
        return;
      }
      var rest, before := devices.Keys, devices;
      while rest != {}
        invariant rest <= before.Keys && devices.Keys == before.Keys
        invariant defaultOwner == owner && grants == old(grants) && userGrants == old(userGrants)
        invariant forall id :: id in before ==> devices[id] == if id in rest then before[id] else Adopted(before, owner)[id]
        decreases |rest|
      {
        var id :| id in rest;
        rest := rest - {id};
        if devices[id].owner == 0 {
          devices := devices[id := devices[id].(owner := owner)];
        }
      }
      assert devices == Adopted(before, owner);
    }

    /** Removes the grants of a device from both indexes. */
    method DropGrantsOf(id: DeviceId)
      requires Inv(View())
      modifies `grants, `userGrants
      ensures forall d, u {:trigger At(grants, d, u)} :: At(grants, d, u) == if d == id then None else old(At(grants, d, u))
      ensures forall d, u {:trigger At(userGrants, u, d)} :: At(userGrants, u, d) == if d == id then None else old(At(userGrants, u, d))
    {
      SharedUsersAreListed(View(), id);
      if id in grants {
        var ofDevice, before := grants[id], userGrants;
        var rest := ofDevice.Keys;
        while rest != {}
          invariant rest <= ofDevice.Keys && grants == old(grants)
          invariant forall d, u {:trigger At(userGrants, u, d)} ::
              At(userGrants, u, d) == if d == id && u !in rest then None else At(before, u, d)
          decreases |rest|
        {
          var u :| u in rest;
          rest := rest - {u};
          ghost var was := userGrants;
          DropAtTakesOne(was, u, id);
          if u in userGrants {
            userGrants := userGrants[u := Without(userGrants[u], id)];
          }
          assert userGrants == DropAt(was, u, id);
          assert forall x, d {:trigger At(userGrants, x, d)} :: At(userGrants, x, d) == if x == u && d == id then None else At(was, x, d);
        }
        grants := Without(grants, id);
      }
    }

    method Delete(id: DeviceId, works: bool) returns (r: Result)
      requires Inv(View())
      modifies `devices, `grants, `userGrants
      ensures id !in old(devices) ==> r == NotFound && View() == old(View())
      ensures id in old(devices) ==> r == Written(works) && Next(old(View()), Op.Delete(id, works), View())
    {
      if id !in devices {
        return NotFound;
      }
      var previous := devices;
      DropGrantsOf(id);
      devices := Without(devices, id);
      if !works {
        devices := devices[id := previous[id]];
        assert devices == previous;
      }
      r := Written(works);
    }

    method DeleteDevicesByOwner(owner: UserId, works: bool) returns (r: Result, ghost deleted: set<DeviceId>)
      requires Inv(View())
      modifies `devices, `grants, `userGrants
      ensures Next(old(View()), DeleteByOwner(owner), View())
      ensures deleted == old(devices).Keys - devices.Keys
      ensures r == if deleted == {} then Fine else Written(works)
    {
      var rest, before, any := devices.Keys, devices, false;
      ghost var s := View();
      deleted := {};
      NothingRemoved(s);
      while rest != {}
        invariant rest <= before.Keys && Inv(View())
        invariant Removed(s, deleted, View())
        invariant forall id :: id in deleted <==> id in before && id !in rest && before[id].owner == owner
        invariant any <==> deleted != {}
        decreases |rest|
      {
        var id :| id in rest;
        rest := rest - {id};
        if devices[id].owner == owner {
          ghost var t := View();
          DropGrantsOf(id);
          devices := Without(devices, id);
          any := true;
          RemovedOneMore(s, deleted, t, id, View());
          deleted := deleted + {id};
          RemovalKeepsInv(s, deleted, View());
        }
      }
      RemovedByOwner(s, owner, deleted, View());
      r := if any then Written(works) else Fine;
    }

    method AddGrantIndex(g: Grant)
      modifies `grants, `userGrants
      ensures forall d, u {:trigger At(grants, d, u)} ::
          At(grants, d, u) == if d == g.device && u == g.user then Some(g) else old(At(grants, d, u))
      ensures forall d, u {:trigger At(userGrants, u, d)} ::
          At(userGrants, u, d) == if d == g.device && u == g.user then Some(g) else old(At(userGrants, u, d))
    {
      AddByDevice(g);
      AddByUser(g);
    }

    method AddByDevice(g: Grant)
      modifies `grants
      ensures forall d, u {:trigger At(grants, d, u)} ::
          At(grants, d, u) == if d == g.device && u == g.user then Some(g) else old(At(grants, d, u))
    {
      PutAtSetsOne(grants, g.device, g.user, g);
      if g.device !in grants {
        grants := grants[g.device := map[]];
      }
      var ofDevice: map<UserId, Grant> := grants[g.device][g.user := g];
      grants := grants[g.device := ofDevice];
      assert grants == PutAt(old(grants), g.device, g.user, g);
    }

    method AddByUser(g: Grant)
      modifies `userGrants
      ensures forall d, u {:trigger At(userGrants, u, d)} ::
          At(userGrants, u, d) == if d == g.device && u == g.user then Some(g) else old(At(userGrants, u, d))
    {
      PutAtSetsOne(userGrants, g.user, g.device, g);
      if g.user !in userGrants {
        userGrants := userGrants[g.user := map[]];
      }
      var ofUser: map<DeviceId, Grant> := userGrants[g.user][g.device := g];
      userGrants := userGrants[g.user := ofUser];
      assert userGrants == PutAt(old(userGrants), g.user, g.device, g);
    }

    /** Removes one grant from both indexes. */
    method DropGrant(id: DeviceId, user: UserId)
      modifies `grants, `userGrants
      ensures forall d, u {:trigger At(grants, d, u)} ::
          At(grants, d, u) == if d == id && u == user then None else old(At(grants, d, u))
      ensures forall d, u {:trigger At(userGrants, u, d)} ::
          At(userGrants, u, d) == if d == id && u == user then None else old(At(userGrants, u, d))
    {
      DropAtTakesOne(grants, id, user);
      DropAtTakesOne(userGrants, user, id);
      if id in grants {
        grants := grants[id := Without(grants[id], user)];
      }
      if user in userGrants {
        userGrants := userGrants[user := Without(userGrants[user], id)];
      }
    }

    /** Sets the level of the one grant that both indexes hold, or adds a new one to both. */
    method SetGrant(id: DeviceId, user: UserId, validLevel: bool, level: Level, now: Time, works: bool)
      returns (r: Result, grant: Option<Grant>)
      requires Inv(View())
      modifies `grants, `userGrants, if GrantOf(View(), id, user).Some? then {GrantOf(View(), id, user).value} else {}
      ensures !validLevel ==> r == InvalidLevel && grant == None
      ensures validLevel && id !in old(devices) ==> r == NotFound && grant == None
      ensures validLevel && id in old(devices) && devices[id].owner == user ==> r == ToOwner && grant == None
      ensures validLevel && id in old(devices) && devices[id].owner != user ==>
                && r == Written(works) && grant.Some? && GrantOf(View(), id, user) == grant
                && grant.value.level == level && grant.value.updatedAt == now
                && Next(old(View()), Op.SetGrant(id, user, grant.value), View())
                && (old(GrantOf(View(), id, user)).Some? ==>
                      grant == old(GrantOf(View(), id, user)) && grant.value.revision == old(grant.value.revision) + 1)
      ensures grant == None ==> View() == old(View())
    {
      if !validLevel {
        return InvalidLevel, None;
      }
      if id !in devices {
        return NotFound, None;
      }
      if devices[id].owner == user {
        return ToOwner, None;
      }
      ghost var s := View();
      assert PairOk(s, id, user) by {
        var _ := GrantOf(s, id, user);
      }
      if id in grants && user in grants[id] {
        var existing := grants[id][user];
        existing.level := level;
        existing.updatedAt := now;
        existing.revision := existing.revision + 1;
        grant := Some(existing);
      } else {
        var g := new Grant(id, user, level, now);
        AddGrantIndex(g);
        grant := Some(g);
      }
      r := Written(works);
    }

    method RevokeGrant(id: DeviceId, user: UserId, works: bool) returns (r: Result)
      requires Inv(View())
      modifies `grants, `userGrants
      ensures id !in devices ==> r == NotFound && View() == old(View())
      ensures id in devices ==> r == Written(works) && Next(old(View()), Revoke(id, user), View())
    {
      if id !in devices {
        return NotFound;
      }
      DropGrant(id, user);
      r := Written(works);
    }

    method TransferOwnership(id: DeviceId, newOwner: UserId, retain: Option<Level>, now: Time, works: bool)
      returns (r: Result, ghost retained: Option<Grant>)
      requires Inv(View())
      modifies `devices, `grants, `userGrants
      ensures id !in old(devices) ==> r == NotFound && View() == old(View())
      ensures id in old(devices) ==> r == Written(works) && Next(old(View()), Transfer(id, newOwner, retained, now), View())
      ensures retained.Some? ==> retain.Some? && retained.value.level == retain.value && fresh(retained.value)
      ensures id in old(devices) && retain.Some? && old(devices)[id].owner != 0 && old(devices)[id].owner != newOwner ==> retained.Some?
    {
      retained := None;
      if id !in devices {
        return NotFound, None;
      }
      var oldOwner := devices[id].owner;
      devices := devices[id := devices[id].(owner := newOwner, updatedAt := now)];
      DropGrant(id, newOwner);
      if retain.Some? && oldOwner != 0 && oldOwner != newOwner {
        var g := new Grant(id, oldOwner, retain.value, now);
        AddGrantIndex(g);
        retained := Some(g);
      } else if oldOwner != 0 {
        DropGrant(id, oldOwner);
      }
      r := Written(works);
    }

    // -------------------------------------------------------------- queries

    method IsDeviceVisible(user: UserId, id: DeviceId) returns (visible: bool, found: bool)
      ensures found == (id in devices) && visible == Visible(View(), user, id)
    {
      if id !in devices {
        return false, false;
      }
      if devices[id].owner == user || (id in grants && user in grants[id]) {
        return true, true;
      }
      return false, true;
    }

    /** The owner may do everything; a grant's level decides for the others. Reading is allowed exactly to those
        who see the device. */
    method HasDevicePermission(user: UserId, id: DeviceId, p: Permission) returns (allowed: bool)
      ensures allowed ==> Visible(View(), user, id)
      ensures p == Reading ==> allowed == Visible(View(), user, id)
      ensures id in devices && devices[id].owner == user ==> allowed
      ensures id in devices && devices[id].owner != user && GrantOf(View(), id, user).Some? ==>
                (allowed <==>
                   var level := GrantOf(View(), id, user).value.level;
                   p == Reading || (p == Operating && level != Observe) || (p == Managing && level == Manage))
    {
      if id !in devices {
        return false;
      }
      if devices[id].owner == user {
        return true;
      }
      if id !in grants || user !in grants[id] {
        return false;
      }
      var g := grants[id][user];
      match p {
        case Reading => return true;
        case Operating => return g.level == Operate || g.level == Manage;
        case Managing => return g.level == Manage;
        case Other => return false;
      }
    }

    /** The devices that the user sees, each once, newest first; all devices for the owner role. */
    method FilterDevicesForUser(user: UserId, isOwnerRole: bool) returns (list: seq<(DeviceId, Device)>)
      ensures Ordered(list)
      ensures forall x :: x in list <==> x.0 in devices && devices[x.0] == x.1 && (isOwnerRole || Visible(View(), user, x.0))
    {
      list := [];
      var rest := devices.Keys;
      while rest != {}
        invariant rest <= devices.Keys && Ordered(list)
        invariant forall x :: x in list <==>
            x.0 in devices && x.0 !in rest && devices[x.0] == x.1 && (isOwnerRole || Visible(View(), user, x.0))
        decreases |rest|
      {
        var id :| id in rest;
        rest := rest - {id};
        if isOwnerRole || devices[id].owner == user || (id in grants && user in grants[id]) {
          list := Place(list, (id, devices[id]));
        }
      }
    }
  }
}
