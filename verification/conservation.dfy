/** A finished discovery: every entity goes to one device, and no other device is touched. */
module Conservation {
  import opened Order
  import opened Texts
  import opened Devices
  import opened Discovery

  // ---------------------------------------------------------------- the groups

  /** Grouping keeps the order: a later part of the list comes later in each group. */
  lemma {:induction false} GroupConcat(a: seq<EntityInfo>, b: seq<EntityInfo>, id: int)
    ensures Group(a + b, id) == Group(a, id) + Group(b, id)
    decreases |b|
  {
    if b == [] {
      assert a + b == a;
    } else {
      assert (a + b)[..|a + b| - 1] == a + b[..|b| - 1];
      GroupConcat(a, b[..|b| - 1], id);
    }
  }

  lemma {:induction false} GroupMembers(pending: seq<EntityInfo>, id: int)
    ensures forall e :: e in Group(pending, id) <==> e in pending && e.deviceId == id
  {
    if pending != [] {
      var front, last := pending[..|pending| - 1], pending[|pending| - 1];
      GroupMembers(front, id);
      assert pending == front + [last];
    }
  }

  /** The number of entities in the groups of `ids`. */
  function Total(pending: seq<EntityInfo>, ids: seq<int>): nat {
    if ids == [] then 0 else Total(pending, ids[..|ids| - 1]) + |Group(pending, ids[|ids| - 1])|
  }

  lemma {:induction false} TotalSnoc(front: seq<EntityInfo>, e: EntityInfo, ids: seq<int>)
    requires Increasing(ids)
    ensures Total(front + [e], ids) == Total(front, ids) + if e.deviceId in ids then 1 else 0
  {
    if ids != [] {
      var most, id := ids[..|ids| - 1], ids[|ids| - 1];
      TotalSnoc(front, e, most);
      assert (front + [e])[..|front|] == front;
      assert ids == most + [id];
      assert id !in most;
    }
  }

  lemma {:induction false} TotalOf(pending: seq<EntityInfo>, ids: seq<int>)
    requires Increasing(ids) && forall e :: e in pending ==> e.deviceId == 0 || e.deviceId in ids
    requires 0 !in ids
    ensures |Group(pending, 0)| + Total(pending, ids) == |pending|
  {
    if pending == [] {
      TotalNone(ids);
    } else {
      var front, last := pending[..|pending| - 1], pending[|pending| - 1];
      assert pending == front + [last];
      assert last in pending;
      TotalOf(front, ids);
      TotalSnoc(front, last, ids);
    }
  }

  lemma {:induction false} TotalNone(ids: seq<int>)
    ensures Total([], ids) == 0
  {
    if ids != [] {
      TotalNone(ids[..|ids| - 1]);
    }
  }

  /** Where entity `i` stands in its group: behind those of the same device before it. */
  function Place(pending: seq<EntityInfo>, i: nat): nat
    requires i < |pending|
  {
    |Group(pending[..i], pending[i].deviceId)|
  }

  lemma PlaceInGroup(pending: seq<EntityInfo>, i: nat, n: nat)
    requires i < n <= |pending|
    ensures var g := Group(pending[..n], pending[i].deviceId);
            Place(pending, i) < |g| && g[Place(pending, i)] == pending[i]
  {
    var front, e := pending[..i], pending[i];
    GroupConcat(front + [e], pending[i + 1..n], e.deviceId);
    assert pending[..n] == front + [e] + pending[i + 1..n] && (front + [e])[..i] == front;
  }

  /**
   The groups applied, that of the main device and those of the sub-devices, hold every entity once,
   and each group keeps the order of the list.
   */
  lemma GroupsPartition(pending: seq<EntityInfo>)
    ensures |Group(pending, 0)| + Total(pending, Ascending(GroupIds(pending))) == |pending|
    ensures forall e :: e in pending ==>
              e in Group(pending, e.deviceId) && (e.deviceId == 0 || e.deviceId in GroupIds(pending))
    ensures forall i :: 0 <= i < |pending| ==>
              var g := Group(pending, pending[i].deviceId);
              Place(pending, i) < |g| && g[Place(pending, i)] == pending[i]
    ensures forall i, j :: 0 <= i < j < |pending| && pending[i].deviceId == pending[j].deviceId ==>
              Place(pending, i) < Place(pending, j)
  {
    forall i | 0 <= i < |pending|
      ensures var g := Group(pending, pending[i].deviceId);
              Place(pending, i) < |g| && g[Place(pending, i)] == pending[i]
    {
      PlaceInGroup(pending, i, |pending|);
      assert pending[..|pending|] == pending;
    }
    forall i, j | 0 <= i < j < |pending| && pending[i].deviceId == pending[j].deviceId
      ensures Place(pending, i) < Place(pending, j)
    {
      PlaceInGroup(pending, i, j);
    }
    forall e | e in pending
      ensures e in Group(pending, e.deviceId) && (e.deviceId == 0 || e.deviceId in GroupIds(pending))
    {
      GroupMembers(pending, e.deviceId);
      var i :| 0 <= i < |pending| && pending[i] == e;
    }
    TotalOf(pending, Ascending(GroupIds(pending)));
  }

  // ---------------------------------------------------------------- the devices

  /** The device a group is applied to, before it is renewed. */
  function Target(devs: Devs, host: Text, names: Names, id: int): Dev
    requires Has(devs, host)
  {
    Find(WithSub(devs, Find(devs, host), NameOf(names, id)), AddressOf(host, names, id))
  }

  lemma AddressLonger(host: Text, names: Names, id: int)
    ensures AddressOf(host, names, id) != host
  {
    SubAddressLonger(host, NameOf(names, id));
  }

  /** A group changes the device at its address and no other. */
  lemma GroupFind(devs: Devs, host: Text, names: Names, id: int, infos: seq<EntityInfo>, other: Text)
    requires Has(devs, host)
    ensures var r, address := ApplyGroup(devs, host, names, id, infos), AddressOf(host, names, id);
            && (Has(r, other) <==> Has(devs, other) || other == address)
            && (Has(devs, other) && other != address ==> Find(r, other) == Find(devs, other))
            && Has(r, address)
            && Find(r, address) ==
               Applied(Renewed(Target(devs, host, names, id), Find(devs, host), NameOf(names, id)), infos)
  {
    hide Applied, SubAddress;
    var main, name := Find(devs, host), NameOf(names, id);
    var devs1 := WithSub(devs, main, name);
    var address := SubAddress(host, name);
    WithSubFind(devs, main, name, other);
    var d := Applied(Renewed(Find(devs1, address), main, name), infos);
    RenewedHost(Find(devs1, address), main, name, infos);
    PutFind(devs1, d, other);
    PutFind(devs1, d, address);
  }

  lemma RenewedHost(d: Dev, main: Dev, name: Text, infos: seq<EntityInfo>)
    ensures Applied(Renewed(d, main, name), infos).host == d.host
  {
  }

  lemma WithSubFind(devs: Devs, main: Dev, name: Text, other: Text)
    ensures var r, address := WithSub(devs, main, name), SubAddress(main.host, name);
            && (Has(r, other) <==> Has(devs, other) || other == address)
            && (Has(devs, other) ==> Find(r, other) == Find(devs, other))
  {
    var address := SubAddress(main.host, name);
    if !Has(devs, address) {
      AppendFind(devs, NewDev(name, address, main.port, main.key).(parent := main.host, cloud := main.cloud), other);
    }
  }

  /** Groups leave devices alone whose address is that of none of them. */
  lemma {:induction false} GroupsSpare(devs: Devs, host: Text, names: Names, pending: seq<EntityInfo>, ids: seq<int>,
                                       other: Text)
    requires Has(devs, host)
    requires forall id :: id in ids ==> AddressOf(host, names, id) != other
    ensures var r := ApplyGroups(devs, host, names, pending, ids);
            && Has(r, host) && Find(r, host) == Find(devs, host)
            && (Has(r, other) <==> Has(devs, other))
            && (Has(devs, other) ==> Find(r, other) == Find(devs, other))
    decreases |ids|
  {
    hide ApplyGroup, AddressOf, Target;
    if ids != [] {
      var most, id := ids[..|ids| - 1], ids[|ids| - 1];
      assert id in ids && forall x :: x in most ==> x in ids;
      GroupsSpare(devs, host, names, pending, most, other);
      AddressLonger(host, names, id);
      GroupFind(ApplyGroups(devs, host, names, pending, most), host, names, id, Group(pending, id), other);
      GroupFind(ApplyGroups(devs, host, names, pending, most), host, names, id, Group(pending, id), host);
    }
  }

  /** The last group of an address is what its device carries in the end. */
  lemma {:induction false} GroupsLast(devs: Devs, host: Text, names: Names, pending: seq<EntityInfo>, ids: seq<int>,
                                      i: nat)
    requires Has(devs, host) && i < |ids|
    requires forall j :: i < j < |ids| ==> AddressOf(host, names, ids[j]) != AddressOf(host, names, ids[i])
    ensures var r, address := ApplyGroups(devs, host, names, pending, ids), AddressOf(host, names, ids[i]);
            Has(r, address)
            && CarriesGroup(Find(r, address), Find(devs, host), NameOf(names, ids[i]), Group(pending, ids[i]))
    decreases |ids|
  {
    hide ApplyGroup, AddressOf, Renewed, Applied;
    var most, id := ids[..|ids| - 1], ids[|ids| - 1];
    var devs1, address := ApplyGroups(devs, host, names, pending, most), AddressOf(host, names, ids[i]);
    NoAddress(host, names, most);
    GroupsSpare(devs, host, names, pending, most, host);
    GroupFind(devs1, host, names, id, Group(pending, id), address);
    if i < |ids| - 1 {
      GroupsLast(devs, host, names, pending, most, i);
    } else {
      assert Target(devs1, host, names, id).host == address by { TargetHost(devs1, host, names, id); }
    }
  }

  /** With an address of its own, a group is applied to what the list had at that address before. */
  lemma {:induction false} GroupsSole(devs: Devs, host: Text, names: Names, pending: seq<EntityInfo>, ids: seq<int>,
                                      i: nat)
    requires Has(devs, host) && i < |ids|
    requires forall j :: 0 <= j < |ids| && j != i ==> AddressOf(host, names, ids[j]) != AddressOf(host, names, ids[i])
    ensures var r, id := ApplyGroups(devs, host, names, pending, ids), ids[i];
            && Has(r, AddressOf(host, names, id))
            && Find(r, AddressOf(host, names, id)) ==
               Applied(Renewed(Target(devs, host, names, id), Find(devs, host), NameOf(names, id)), Group(pending, id))
    decreases |ids|
  {
    hide ApplyGroup, AddressOf, Renewed, Applied, Target;
    var most, id := ids[..|ids| - 1], ids[|ids| - 1];
    var devs1, address := ApplyGroups(devs, host, names, pending, most), AddressOf(host, names, ids[i]);
    NoAddress(host, names, most);
    GroupsSpare(devs, host, names, pending, most, host);
    GroupFind(devs1, host, names, id, Group(pending, id), address);
    if i < |ids| - 1 {
      GroupsSole(devs, host, names, pending, most, i);
    } else {
      GroupsSpare(devs, host, names, pending, most, address);
      TargetSame(devs, devs1, host, names, id);
    }
  }

  /** What a group is applied to depends on the main device and on the device at its address. */
  lemma TargetSame(a: Devs, b: Devs, host: Text, names: Names, id: int)
    requires Has(a, host) && Has(b, host) && Find(a, host) == Find(b, host)
    requires var address := AddressOf(host, names, id);
             (Has(a, address) <==> Has(b, address)) && (Has(a, address) ==> Find(a, address) == Find(b, address))
    ensures Target(a, host, names, id) == Target(b, host, names, id)
  {
    WithSubNew(a, Find(a, host), NameOf(names, id));
    WithSubNew(b, Find(b, host), NameOf(names, id));
  }

  lemma WithSubNew(devs: Devs, main: Dev, name: Text)
    ensures var address := SubAddress(main.host, name);
            Find(WithSub(devs, main, name), address) ==
            if Has(devs, address) then Find(devs, address)
            else NewDev(name, address, main.port, main.key).(parent := main.host, cloud := main.cloud)
  {
    hide SubAddress;
    var address := SubAddress(main.host, name);
    if !Has(devs, address) {
      AppendFind(devs, NewDev(name, address, main.port, main.key).(parent := main.host, cloud := main.cloud), address);
    }
  }

  lemma TargetHost(devs: Devs, host: Text, names: Names, id: int)
    requires Has(devs, host)
    ensures Target(devs, host, names, id).host == AddressOf(host, names, id)
  {
  }

  lemma NoAddress(host: Text, names: Names, ids: seq<int>)
    ensures forall id :: id in ids ==> AddressOf(host, names, id) != host
  {
    forall id | id in ids
      ensures AddressOf(host, names, id) != host
    {
      AddressLonger(host, names, id);
    }
  }

  /**
   The main device has exactly the entities without a sub-device, and the device of every other address
   the group of the greatest id that has this address; a device of no group's address is as before.
   */
  ghost predicate Conserved(devs: Devs, r: Devs, host: Text, names: Names, pending: seq<EntityInfo>)
    requires Has(devs, host)
  {
    var main := Applied(Find(devs, host), Group(pending, 0));
    && Has(r, host) && Find(r, host) == main
    && (forall id :: id in GroupIds(pending) && LastOfAddress(host, names, pending, id) ==>
          && Has(r, AddressOf(host, names, id))
          && CarriesGroup(Find(r, AddressOf(host, names, id)), main, NameOf(names, id), Group(pending, id)))
    && (forall other :: other != host && !IsGroupAddress(host, names, pending, other) ==>
          (Has(r, other) <==> Has(devs, other)) && (Has(devs, other) ==> Find(r, other) == Find(devs, other)))
  }

  /** The device of the greatest id with an address. */
  lemma LastCarries(devs: Devs, host: Text, names: Names, pending: seq<EntityInfo>, id: int)
    requires Has(devs, host) && id in GroupIds(pending) && LastOfAddress(host, names, pending, id)
    ensures var r := ApplyGroups(devs, host, names, pending, Ascending(GroupIds(pending)));
            && Has(r, AddressOf(host, names, id))
            && CarriesGroup(Find(r, AddressOf(host, names, id)), Find(devs, host),
                            NameOf(names, id), Group(pending, id))
  {
    hide ApplyGroups, AddressOf, NameOf, CarriesGroup, GroupIds, Group, Has, Find;
    var ids := Ascending(GroupIds(pending));
    var i :| 0 <= i < |ids| && ids[i] == id;
    forall j | i < j < |ids|
      ensures AddressOf(host, names, ids[j]) != AddressOf(host, names, id)
    {
      assert ids[j] in ids;
    }
    GroupsLast(devs, host, names, pending, ids, i);
  }

  /** A finished discovery conserves its entities. */
  lemma DiscoveryConserves(devs: Devs, host: Text, names: Names, pending: seq<EntityInfo>)
    requires Has(devs, host)
    ensures Conserved(devs, ApplyDiscovered(devs, host, names, pending), host, names, pending)
  {
    hide ApplyDiscovered, ApplyGroups, Applied, AddressOf, NameOf, CarriesGroup, Has, Find, Put, Group, GroupIds,
        LastOfAddress;
    var r, main := ApplyDiscovered(devs, host, names, pending), Applied(Find(devs, host), Group(pending, 0));
    DiscoveredAs(devs, host, names, pending);
    MainHost(Find(devs, host), Group(pending, 0));
    var devs1, ids := Put(devs, main), Ascending(GroupIds(pending));
    PutFind(devs, main, host);
    NoAddress(host, names, ids);
    GroupsSpare(devs1, host, names, pending, ids, host);
    forall id | id in GroupIds(pending) && LastOfAddress(host, names, pending, id)
      ensures Has(r, AddressOf(host, names, id))
      ensures CarriesGroup(Find(r, AddressOf(host, names, id)), main, NameOf(names, id), Group(pending, id))
    {
      LastCarries(devs1, host, names, pending, id);
    }
    forall other | other != host && !IsGroupAddress(host, names, pending, other)
      ensures Has(r, other) <==> Has(devs, other)
      ensures Has(devs, other) ==> Find(r, other) == Find(devs, other)
    {
      PutFind(devs, main, other);
      GroupsSpare(devs1, host, names, pending, ids, other);
    }
  }

  /** No other id of the round has the same address. */
  predicate SoleOfAddress(host: Text, names: Names, pending: seq<EntityInfo>, id: int) {
    forall x :: x in GroupIds(pending) && x != id ==> AddressOf(host, names, x) != AddressOf(host, names, id)
  }

  lemma SoleCarries(devs: Devs, host: Text, names: Names, pending: seq<EntityInfo>, id: int)
    requires Has(devs, host) && id in GroupIds(pending) && SoleOfAddress(host, names, pending, id)
    ensures var r, main := ApplyDiscovered(devs, host, names, pending), Applied(Find(devs, host), Group(pending, 0));
            && Has(Put(devs, main), host) && Has(r, AddressOf(host, names, id))
            && Find(r, AddressOf(host, names, id)) ==
               Applied(Renewed(Target(Put(devs, main), host, names, id), main, NameOf(names, id)), Group(pending, id))
  {
    hide ApplyDiscovered, ApplyGroups, AddressOf, NameOf, GroupIds, Group, Has, Find, Put, Target, Renewed, Applied;
    var main, ids := Applied(Find(devs, host), Group(pending, 0)), Ascending(GroupIds(pending));
    DiscoveredAs(devs, host, names, pending);
    MainHost(Find(devs, host), Group(pending, 0));
    PutFind(devs, main, host);
    var i :| 0 <= i < |ids| && ids[i] == id;
    forall j | 0 <= j < |ids| && j != i
      ensures AddressOf(host, names, ids[j]) != AddressOf(host, names, id)
    {
      assert ids[j] in ids;
    }
    GroupsSole(Put(devs, main), host, names, pending, ids, i);
  }

  /**
   The ids of sub-devices do not matter: two rounds that give a name the same entities, and the main
   device the same, leave the same device at the address of that name, whatever ids they use.
   */
  lemma RenumberingHarmless(devs: Devs, host: Text, names: Names, pending: seq<EntityInfo>, id: int,
                            names': Names, pending': seq<EntityInfo>, id': int)
    requires Has(devs, host) && Group(pending, 0) == Group(pending', 0)
    requires id in GroupIds(pending) && SoleOfAddress(host, names, pending, id)
    requires id' in GroupIds(pending') && SoleOfAddress(host, names', pending', id')
    requires NameOf(names, id) == NameOf(names', id') && Group(pending, id) == Group(pending', id')
    ensures var r, r' := ApplyDiscovered(devs, host, names, pending), ApplyDiscovered(devs, host, names', pending');
            var address := AddressOf(host, names, id);
            AddressOf(host, names', id') == address && Has(r, address) && Has(r', address)
            && Find(r, address) == Find(r', address)
  {
    hide ApplyDiscovered, NameOf, GroupIds, Group, Has, Find, Put, Renewed, Applied, WithSub, SoleOfAddress;
    SoleCarries(devs, host, names, pending, id);
    SoleCarries(devs, host, names', pending', id');
  }

  lemma DiscoveredAs(devs: Devs, host: Text, names: Names, pending: seq<EntityInfo>)
    requires Has(devs, host)
    ensures ApplyDiscovered(devs, host, names, pending) ==
            ApplyGroups(Put(devs, Applied(Find(devs, host), Group(pending, 0))), host, names, pending,
                        Ascending(GroupIds(pending)))
  {
    hide ApplyGroups, Applied, Group, GroupIds, Ascending;
  }

  lemma MainHost(d: Dev, infos: seq<EntityInfo>)
    ensures Applied(d, infos).host == d.host
  {
  }

  /** No greater id of the round has the same address. */
  predicate LastOfAddress(host: Text, names: Names, pending: seq<EntityInfo>, id: int) {
    forall x :: x in GroupIds(pending) && x > id ==> AddressOf(host, names, x) != AddressOf(host, names, id)
  }

  predicate IsGroupAddress(host: Text, names: Names, pending: seq<EntityInfo>, address: Text) {
    exists id :: id in GroupIds(pending) && AddressOf(host, names, id) == address
  }

  /** `d` is a renewed sub-device of `main` with exactly the entities `infos`. */
  ghost predicate CarriesGroup(d: Dev, main: Dev, name: Text, infos: seq<EntityInfo>) {
    exists before: Dev :: before.host == d.host && d == Applied(Renewed(before, main, name), infos)
  }
}
