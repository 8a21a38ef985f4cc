/** The commands of the controller, each proved against one step of the service. */
module Control {
  import opened Bytes
  import opened Proto
  import opened Texts
  import opened Discovery
  import opened Database
  import opened Forest
  import opened Lifecycle
  import opened Objects
  import opened Client
  import opened Service
  import opened Manager

  // ---------------------------------------------------------------- the removal loop

  /**
   Of the objects from position `from` on, those left when device `i` is removed; `own`: when only its
   sub-devices are gone so far.
   */
  ghost function Left(items: seq<DeviceObject>, devs: Devs, i: nat, from: nat, own: bool): (r: seq<DeviceObject>)
    requires i < |devs| == |items| && from <= |items|
    ensures forall d :: d in r ==> d in items[from..]
    decreases |items| - from
  {
    if from == |items| then []
    else
      (if GoesWith(devs, i, from) && !(own && from == i) then [] else [items[from]])
      + Left(items, devs, i, from + 1, own)
  }

  ghost predicate DistinctObjects(items: seq<DeviceObject>) {
    forall j, k :: 0 <= j < k < |items| ==> items[j] != items[k]
  }

  /** Behind device `i` it makes no difference whether it is itself gone. */
  lemma {:induction false} LeftBehind(items: seq<DeviceObject>, devs: Devs, i: nat, from: nat)
    requires i < |devs| == |items| && i < from <= |items|
    ensures Left(items, devs, i, from, true) == Left(items, devs, i, from, false)
    decreases |items| - from
  {
    if from < |items| {
      LeftBehind(items, devs, i, from + 1);
    }
  }

  /** The list without the first occurrence of an object. */
  ghost function Without(items: seq<DeviceObject>, d: DeviceObject): seq<DeviceObject> {
    if items == [] then []
    else if items[0] == d then items[1..]
    else [items[0]] + Without(items[1..], d)
  }

  lemma {:induction false} WithoutAt(items: seq<DeviceObject>, d: DeviceObject, k: nat)
    requires k < |items| && items[k] == d && d !in items[..k]
    ensures Without(items, d) == items[..k] + items[k + 1..]
  {
    if k > 0 {
      assert items[..k][0] == items[0];
      assert forall x :: x in items[1..][..k - 1] ==> x in items[..k];
      WithoutAt(items[1..], d, k - 1);
    }
  }

  lemma LeftStep(items: seq<DeviceObject>, devs: Devs, i: nat, from: nat, own: bool)
    requires i < |devs| == |items| && from < |items|
    ensures var rest := Left(items, devs, i, from + 1, own);
            Left(items, devs, i, from, own) ==
            if GoesWith(devs, i, from) && !(own && from == i) then rest else [items[from]] + rest
    ensures GoesWith(devs, i, i)
  {
    hide GoesWith;
    assert [] + Left(items, devs, i, from + 1, own) == Left(items, devs, i, from + 1, own);
    Self(devs, i);
  }

  lemma LeftEnd(items: seq<DeviceObject>, devs: Devs, i: nat)
    requires i < |devs| == |items|
    ensures Left(items, devs, i, |items|, false) == [] == Left(items, devs, i, |items|, true)
  {
  }

  lemma GoesIff(items: seq<DeviceObject>, i: nat, k: nat)
    requires i < |items| && k < |items| && DistinctObjects(items)
    ensures GoesWith(Views(items), i, k) <==> items[k] == items[i] || items[k].parent == items[i].host
  {
    assert Views(items)[k].parent == items[k].parent && Views(items)[i].host == items[i].host;
  }

  lemma Self(devs: Devs, i: nat)
    requires i < |devs|
    ensures GoesWith(devs, i, i)
  {
  }

  lemma WithoutFirst(x: DeviceObject, rest: seq<DeviceObject>, d: DeviceObject)
    ensures Without([x] + rest, d) == if x == d then rest else [x] + Without(rest, d)
  {
    assert ([x] + rest)[1..] == rest;
  }

  /** Taking device `i` out of what the loop leaves. */
  lemma {:induction false} LeftWithout(items: seq<DeviceObject>, devs: Devs, i: nat, from: nat)
    requires DistinctObjects(items) && from <= i < |devs| == |items|
    ensures Without(Left(items, devs, i, from, true), items[i]) == Left(items, devs, i, from, false)
    ensures items[i] in Left(items, devs, i, from, true)
    decreases |items| - from
  {
    hide Left, Without, GoesWith;
    var rest := Left(items, devs, i, from + 1, true);
    LeftStep(items, devs, i, from, true);
    LeftStep(items, devs, i, from, false);
    WithoutFirst(items[from], rest, items[i]);
    if from == i {
      LeftBehind(items, devs, i, i + 1);
    } else {
      LeftWithout(items, devs, i, from + 1);
    }
  }

  lemma SurvivorsStep(devs: Devs, i: nat, n: nat)
    requires i < |devs| && n < |devs|
    ensures Survivors(devs, i, n + 1) ==
            if GoesWith(devs, i, n) then Survivors(devs, i, n) else Survivors(devs, i, n) + [devs[n]]
  {
    hide GoesWith;
    assert Survivors(devs, i, n) + [] == Survivors(devs, i, n);
  }

  /** What is left is what the specification calls the survivors. */
  lemma {:induction false} LeftSurvive(items: seq<DeviceObject>, devs: Devs, i: nat, from: nat)
    requires devs == Views(items) && i < |items| && from <= |items|
    ensures Survivors(devs, i, from) + Views(Left(items, devs, i, from, false)) == Survivors(devs, i, |devs|)
    decreases |items| - from
  {
    hide Left, GoesWith, Views, Survivors;
    if from < |items| {
      var rest := Left(items, devs, i, from + 1, false);
      LeftSurvive(items, devs, i, from + 1);
      LeftStep(items, devs, i, from, false);
      SurvivorsStep(devs, i, from);
      assert Views([items[from]] + rest) == [devs[from]] + Views(rest);
    } else {
      LeftEnd(items, devs, i);
    }
  }

  // ---------------------------------------------------------------- commands

  /** A device that does not go is left. */
  lemma {:induction false} LeftKeeps(items: seq<DeviceObject>, devs: Devs, i: nat, from: nat, own: bool, j: nat)
    requires i < |devs| == |items| && from <= j < |items| && (GoesWith(devs, i, j) ==> own && j == i)
    ensures items[j] in Left(items, devs, i, from, own)
    decreases |items| - from
  {
    if from < j {
      LeftKeeps(items, devs, i, from + 1, own, j);
    }
  }

  lemma ViewsWithout(items: seq<DeviceObject>, k: nat)
    requires k < |items|
    ensures Views(items[..k] + items[k + 1..]) == Views(items)[..k] + Views(items)[k + 1..]
  {
  }

  /** Removing device `i` from what the loop leaves gives the survivors. */
  lemma RemovalIs(items: seq<DeviceObject>, devs: Devs, i: nat, k: nat)
    requires devs == Views(items) && DistinctObjects(items) && i < |items|
    requires var left := Left(items, devs, i, 0, true);
             k < |left| && left[k] == items[i] && left[k] !in left[..k]
    ensures var left := Left(items, devs, i, 0, true);
            && left[..k] + left[k + 1..] == Left(items, devs, i, 0, false)
            && Views(left)[..k] + Views(left)[k + 1..] == Survivors(devs, i, |devs|)
  {
    hide Left, Survivors, Views, Without;
    var left := Left(items, devs, i, 0, true);
    LeftWithout(items, devs, i, 0);
    WithoutAt(left, items[i], k);
    ViewsWithout(left, k);
    LeftSurvive(items, devs, i, 0);
    NoSurvivors(devs, i);
  }

  lemma NoSurvivors(devs: Devs, i: nat)
    requires i < |devs|
    ensures Survivors(devs, i, 0) == []
  {
  }

  lemma ObjectsDistinct(items: seq<DeviceObject>)
    requires DistinctHosts(Views(items))
    ensures DistinctObjects(items)
  {
    forall j, k | 0 <= j < k < |items|
      ensures items[j] != items[k]
    {
      assert Views(items)[j].host == items[j].host && Views(items)[k].host == items[k].host;
    }
  }

  lemma {:induction false} LeftDistinct(items: seq<DeviceObject>, devs: Devs, i: nat, from: nat, own: bool)
    requires devs == Views(items) && DistinctHosts(devs) && i < |items| && from <= |items|
    ensures DistinctHosts(Views(Left(items, devs, i, from, own)))
    decreases |items| - from
  {
    hide GoesWith;
    if from < |items| {
      var rest := Left(items, devs, i, from + 1, own);
      LeftDistinct(items, devs, i, from + 1, own);
      forall k | 0 <= k < |rest|
        ensures rest[k].host != items[from].host
      {
        assert rest[k] in items[from + 1..];
        var j :| from < j < |items| && items[j] == rest[k];
        assert devs[j].host != devs[from].host;
      }
    }
  }

  /** The devices of connections are top-level devices: none but the one removed is lost. */
  lemma TopLeft(items: seq<DeviceObject>, devs: Devs, i: nat, device: DeviceObject)
    requires devs == Views(items) && IsForest(devs) && i < |items|
    requires device in items && IsTop(devs, device.host)
    ensures device in Left(items, devs, i, 0, true)
  {
    hide Left, GoesWith, IsTop;
    var j :| 0 <= j < |items| && items[j] == device;
    TopAt(devs, j);
    ParentsAreTop(devs, i, j);
    LeftKeeps(items, devs, i, 0, true, j);
  }

  lemma TopAt(devs: Devs, j: nat)
    requires IsForest(devs) && j < |devs| && IsTop(devs, devs[j].host)
    ensures devs[j].parent == ""
  {
    FindAt(devs, j);
  }

  class Controller {
    const devices: DeviceList
    const manager: EspHomeManager

    ghost predicate Valid()
      reads devices, devices.items, manager
    {
      manager.devices == devices && manager.Valid()
    }

    ghost function View(): World
      requires manager.Owned()
      reads devices, devices.items, manager, manager.devices, manager.devices.items, manager.objects
    {
      manager.View()
    }

    /** The devices of the list and the connections are those there were, or new. */
    twostate predicate Keeps()
      reads devices, manager
    {
      && (forall k :: 0 <= k < |devices.items| ==> devices.items[k] in old(devices.items) || fresh(devices.items[k]))
      && forall c :: c in manager.objects ==> c in old(manager.objects) || fresh(c)
    }

    /** A start of the service: the database is read, and every top-level device gets its connection. */
    constructor (js: seq<Json>, failing: set<Text>)
      requires DistinctHosts(ParseAll(js))
      ensures Valid() && View() == World(ParseAll(js), ConnectAll(ParseAll(js), failing))
      ensures fresh(devices) && fresh(devices.items) && fresh(manager) && fresh(manager.objects)
    {
      hide Views, DistinctHosts, ParseAll, Service.ConnectAll;
      var list := new DeviceList();
      var connections := new EspHomeManager(list);
      devices, manager := list, connections;
      new;
      devices.Unserialize(js);
      assert devices.View() == ParseAll(js);
      manager.ConnectAll(failing);
    }

    /** A device by its name, or else by its host. */
    method FindDevice(id: Text) returns (device: DeviceObject?)
      ensures device == null <==> IndexOf(devices.View(), id) == |devices.items|
      ensures device != null ==> device == devices.items[IndexOf(devices.View(), id)]
    {
      var index: nat;
      device, index := devices.ByName(id);
      if device == null {
        device := devices.ByHost(id);
      }
    }

    /** `addDevice`. */
    method AddDevice(host: Text, port: u16, key: Text, name: Text, discovery: bool, cloud: bool, fails: bool)
      requires Valid()
      modifies devices, manager
      ensures Valid() && Keeps()
      ensures View() == Run1(old(View()), Op.AddDevice(host, port, key, name, discovery, cloud, fails))
    {
      hide Views, Connect, DistinctHosts, Run1, Has, EspHomeManager.Conns, EspHomeManager.Valid, EspHomeManager.View;
      manager.IsOwned();
      ghost var s := View();
      AddIs(s, host, port, key, name, discovery, cloud, fails);
      if host == "" || |key| != KEY_LENGTH {
        return;
      }
      var found := devices.ByHost(host);
      if found != null {
        return;
      }
      var device := NewDevice(host, port, key, name, discovery, cloud);
      AddNew(device, fails);
    }

    /** The device is appended before it gets its connection. */
    method AddNew(device: DeviceObject, fails: bool)
      requires Valid() && !Has(devices.View(), device.host)
      modifies devices, manager
      ensures Valid() && devices.items == old(devices.items) + [device]
      ensures forall c :: c in manager.objects ==> c in old(manager.objects) || fresh(c)
      ensures View() == Connect(old(View()).(devs := old(devices.View()) + [device.View()]), device.host, fails)
    {
      hide Views, Connect, DistinctHosts, Has, EspHomeManager.Conns, EspHomeManager.Valid, EspHomeManager.View;
      manager.IsOwned();
      Insert(device);
      manager.IsOwned();
      manager.ConnectDevice(device, fails);
      manager.IsOwned();
    }

    method NewDevice(host: Text, port: u16, key: Text, name: Text, discovery: bool, cloud: bool)
      returns (device: DeviceObject)
      ensures fresh(device) && device.View() == Added(host, port, key, name, discovery, cloud)
    {
      device := new DeviceObject(if name == "" then host else name, host, port, key);
      device.discovery, device.cloud := discovery, cloud;
    }

    method Insert(device: DeviceObject)
      requires Valid() && !Has(devices.View(), device.host)
      modifies devices
      ensures Valid() && devices.items == old(devices.items) + [device]
      ensures View() == old(View()).(devs := old(devices.View()) + [device.View()])
    {
      hide Views, DistinctHosts, Has, IndexOfHost, EspHomeManager.Conns, EspHomeManager.View, EspHomeManager.Valid;
      manager.IsOwned();
      manager.AllServe();
      ghost var s, items := View(), devices.items;
      AppendDistinct(devices.View(), device.View());
      devices.Append(device);
      ViewsAppend(items, device);
      forall host | host in manager.connections
        ensures manager.Serves(host, manager.connections[host])
      {
        StillIn(items, device, manager.connections[host].device);
      }
      manager.ListChanged(s);
    }

    /** The loop of `removeDevice`: from the end, so that a removal moves no object still to be looked at. */
    method RemoveSubs(device: DeviceObject, ghost i: nat)
      requires i < |devices.items| && devices.items[i] == device && DistinctHosts(devices.View())
      modifies devices
      ensures devices.items == Left(old(devices.items), old(devices.View()), i, 0, true)
    {
      hide DistinctHosts, Left, Views, GoesWith;
      ghost var items, devs := devices.items, devices.View();
      ObjectsDistinct(items);
      LeftEnd(items, devs, i);
      for k := |devices.items| downto 0
        invariant devices.items == items[..k] + Left(items, devs, i, k, true)
      {
        assert items[..k + 1] == items[..k] + [items[k]];
        LeftStep(items, devs, i, k, true);
        GoesIff(items, i, k);
        var sub := devices.items[k];
        if sub == device || sub.parent != device.host {
          continue;
        }
        devices.RemoveAt(k);
      }
    }

    /** What `removeDevice` does first: the sub-devices go. */
    method DropSubs(device: DeviceObject, ghost i: nat)
      requires Valid() && i < |devices.items| && devices.items[i] == device && ServiceInv(View())
      modifies devices
      ensures Valid() && devices.items == Left(old(devices.items), old(devices.View()), i, 0, true)
      ensures forall d :: d in devices.items ==> d in old(devices.items)
      ensures View() == old(View()).(devs := devices.View())
    {
      hide Views, DistinctHosts, IsForest, IsTop, Left, ConnInv;
      ghost var s, items, devs := View(), devices.items, devices.View();
      RemoveSubs(device, i);
      assert items[0..] == items;
      LeftDistinct(items, devs, i, 0, true);
      forall host | host in manager.connections
        ensures manager.Serves(host, manager.connections[host])
      {
        assert old(manager.Serves(host, manager.connections[host]));
        assert host in s.conns;
        TopLeft(items, devs, i, manager.connections[host].device);
      }
      manager.ViewIs(s.(devs := devices.View()));
    }

    /** The device at an index goes; no connection is that of this device. */
    method Take(index: nat)
      requires Valid() && index < |devices.items| && devices.items[index].host !in manager.connections
      modifies devices
      ensures Valid() && devices.items == old(devices.items)[..index] + old(devices.items)[index + 1..]
      ensures View() == old(View()).(devs := old(devices.View())[..index] + old(devices.View())[index + 1..])
    {
      hide Views, DistinctHosts, EspHomeManager.Conns, EspHomeManager.View, EspHomeManager.Valid;
      manager.IsOwned();
      manager.AllServe();
      ghost var s, items := View(), devices.items;
      devices.RemoveAt(index);
      ViewsWithout(items, index);
      StillDistinct(s.devs, index);
      forall host | host in manager.connections
        ensures manager.Serves(host, manager.connections[host])
      {
        StillThere(items, index, manager.connections[host].device);
      }
      manager.ListChanged(s);
    }

    /** And then: its connection is closed, and the device itself goes. */
    method DropOwn(device: DeviceObject, index: nat)
      requires Valid() && index < |devices.items| && devices.items[index] == device
      modifies devices, devices.items, manager, manager.objects
      ensures Valid() && devices.items == old(devices.items)[..index] + old(devices.items)[index + 1..]
      ensures manager.objects == old(manager.objects)
      ensures View() == World(old(devices.View())[..index] + old(devices.View())[index + 1..],
                              old(View()).conns - {device.host})
    {
      hide Views, DistinctHosts, EspHomeManager.Conns, EspHomeManager.Valid, EspHomeManager.View;
      manager.IsOwned();
      manager.DisconnectDevice(device);
      manager.IsOwned();
      Take(index);
      manager.IsOwned();
    }

    /** The sub-devices go, then the device, at its index in what is left. */
    method RemoveFound(device: DeviceObject, ghost i: nat)
      requires Valid() && ServiceInv(View()) && i < |devices.items| && devices.items[i] == device
      modifies devices, devices.items, manager, manager.objects
      ensures Valid() && Keeps()
      ensures View() == old(World(Survivors(devices.View(), i, |devices.items|), View().conns - {device.host}))
    {
      hide Views, DistinctHosts, ServiceInv, Survivors, Left, EspHomeManager.Conns, EspHomeManager.View,
          EspHomeManager.Valid;
      manager.IsOwned();
      ghost var items, devs := devices.items, devices.View();
      ObjectsDistinct(items);
      LeftWithout(items, devs, i, 0);
      DropSubs(device, i);
      manager.IsOwned();
      forall k | 0 <= k < |devices.items|
        ensures exists j :: 0 <= j < |items| && items[j] == devices.items[k]
      {
        assert devices.items[k] in items;
      }
      var index := devices.IndexOfObject(device);
      RemovalIs(items, devs, i, index);
      DropOwn(device, index);
    }

    /** `removeDevice`. */
    method RemoveDevice(id: Text)
      requires Valid() && ServiceInv(View())
      modifies devices, devices.items, manager, manager.objects
      ensures Valid() && Keeps() && View() == Run1(old(View()), Op.RemoveDevice(id))
    {
      hide Views, ServiceInv, Survivors, EspHomeManager.Conns, EspHomeManager.View, EspHomeManager.Valid, Run1, IndexOf;
      manager.IsOwned();
      RemoveIs(View(), id);
      ghost var i := IndexOf(devices.View(), id);
      var device := FindDevice(id);
      if device != null {
        RemoveFound(device, i);
      }
    }

    /** `updateDevice`: the members that are given are set. */
    method UpdateDevice(op: Op)
      requires Valid() && op.UpdateDevice?
      modifies devices.items
      ensures Valid() && View() == Run1(old(View()), op)
    {
      hide Views, DistinctHosts, EspHomeManager.Conns, EspHomeManager.View, EspHomeManager.Valid, Run1, IndexOf,
          Updated;
      manager.IsOwned();
      ghost var s, i := View(), IndexOf(devices.View(), op.id);
      UpdateIs(s, op);
      var device := FindDevice(op.id);
      if device != null {
        Set(device, i, op);
      }
    }

    method Set(device: DeviceObject, ghost i: nat, op: Op)
      requires Valid() && op.UpdateDevice? && i < |devices.items| && devices.items[i] == device
      modifies device
      ensures Valid()
      ensures View() == old(View()).(devs := old(devices.View())[i := Updated(old(devices.View())[i], op)])
    {
      hide Views, EspHomeManager.Conns, Updated;
      ghost var s := View();
      SetMembers(device, op);
      PutAt(s.devs, devices.View(), i);
      FindAt(s.devs, i);
      manager.ViewIs(s.(devs := devices.View()));
    }

    method SetMembers(device: DeviceObject, op: Op)
      requires op.UpdateDevice?
      modifies device
      ensures device.View() == Updated(old(device.View()), op)
    {
      if op.newName.Some? {
        device.name := op.newName.value;
      }
      if op.activity.Some? {
        device.active := op.activity.value;
      }
      if op.exposure.Some? {
        device.discovery := op.exposure.value;
      }
      if op.sharing.Some? {
        device.cloud := op.sharing.value;
      }
    }

    /** A command on the topic of a device. */
    method SendTo(id: Text, endpoint: byte, body: Calls)
      requires Valid()
      modifies devices, devices.items, manager.objects
      ensures Valid() && Keeps() && View() == Run1(old(View()), Op.SendTo(id, endpoint, body))
    {
      hide Views, OnEvent, EspHomeManager.Conns, EspHomeManager.View, EspHomeManager.Valid, Run1, IndexOf;
      manager.IsOwned();
      SendIs(View(), id, endpoint, body);
      var device := FindDevice(id);
      if device != null {
        manager.SendCommand(device, endpoint, body);
        manager.IsOwned();
      }
    }

    lemma IsOwned()
      requires Valid()
      ensures manager.Owned()
    {
      manager.IsOwned();
    }

    /** An event of a connection. */
    method Happen(host: Text, e: Event)
      requires Valid()
      modifies devices, devices.items, manager.objects
      ensures Valid() && Keeps() && View() == Run1(old(View()), Op.Happens(host, e))
    {
      hide Views, OnEvent, EspHomeManager.Conns, EspHomeManager.View, EspHomeManager.Valid, Run1;
      manager.IsOwned();
      HappensIs(View(), host, e);
      manager.Happens(host, e);
      manager.IsOwned();
    }

    /** The commands that edit the list. */
    method Configure(op: Op)
      requires Valid() && ServiceInv(View()) && (op.AddDevice? || op.RemoveDevice? || op.UpdateDevice?)
      modifies devices, devices.items, manager, manager.objects
      ensures Valid() && Keeps() && View() == Run1(old(View()), op)
    {
      hide ServiceInv, Valid, View, EspHomeManager.Owned, Run1;
      match op {
        case AddDevice(host, port, key, name, discovery, cloud, fails) =>
          AddDevice(host, port, key, name, discovery, cloud, fails);
        case RemoveDevice(id) => RemoveDevice(id);
        case UpdateDevice(_, _, _, _, _) => UpdateDevice(op);
      }
    }

    /** Every operation but a restart: one step of the service; an admissible one keeps its invariant. */
    method Execute(op: Op)
      requires Valid() && ServiceInv(View()) && !op.Restart?
      modifies devices, devices.items, manager, manager.objects
      ensures Valid() && Keeps() && View() == Run1(old(View()), op)
      ensures ServiceInv(View()) <==> Admissible(old(View()), op)
    {
      hide ServiceInv, Valid, View, EspHomeManager.Owned, Run1, Admissible;
      IsOwned();
      OpKeepsIff(View(), op);
      if op.Happens? {
        Happen(op.host, op.event);
      } else if op.SendTo? {
        SendTo(op.id, op.endpoint, op.body);
      } else {
        Configure(op);
      }
      IsOwned();
    }

    /** A restart: the list is written, and a new controller starts from what was written. */
    method Restarted(failing: set<Text>) returns (next: Controller)
      requires Valid() && ServiceInv(View())
      ensures fresh(next) && fresh(next.devices) && fresh(next.devices.items)
      ensures fresh(next.manager) && fresh(next.manager.objects)
      ensures next.Valid() && next.View() == Run1(View(), Restart(failing))
      ensures ServiceInv(next.View()) <==> Admissible(View(), Restart(failing))
    {
      hide ServiceInv, EspHomeManager.View, EspHomeManager.Valid, Run1, Views, ParseAll, DevicesJson, DistinctHosts;
      manager.IsOwned();
      ghost var s := View();
      RestartIs(s, failing);
      var js := devices.Serialize();
      next := new Controller(js, failing);
    }
  }

  /** A whole run: operations in place, and a new controller at every restart. */
  method Serve(start: Controller, ops: seq<Op>) returns (c: Controller)
    requires start.Valid() && ServiceInv(start.View()) && AllAdmissible(start.View(), ops)
    modifies start.devices, start.devices.items, start.manager, start.manager.objects
    ensures c.Valid() && c.View() == Run(old(start.View()), ops) && ServiceInv(c.View())
  {
    hide ServiceInv, Run1, Admissible, Controller.Valid, Controller.View, EspHomeManager.Owned;
    start.IsOwned();
    ghost var s := start.View();
    c := start;
    assert ops[..0] == [];
    for i := 0 to |ops|
      invariant c.Valid() && c.manager.Owned() && ServiceInv(c.View()) && c.View() == Run(s, ops[..i])
      invariant c == start || (fresh(c.devices) && fresh(c.manager))
      invariant forall k :: 0 <= k < |c.devices.items| ==>
                  c.devices.items[k] in old(start.devices.items) || fresh(c.devices.items[k])
      invariant forall o :: o in c.manager.objects ==> o in old(start.manager.objects) || fresh(o)
    {
      assert ops[..i + 1][..i] == ops[..i] && ops[i] in ops;
      assert Admissible(Run(s, ops[..i]), ops[i]);
      if ops[i].Restart? {
        c := c.Restarted(ops[i].failing);
      } else {
        c.Execute(ops[i]);
      }
      c.IsOwned();
    }
    assert ops[..|ops|] == ops;
  }

  lemma SendIs(s: World, id: Text, endpoint: byte, body: Calls)
    ensures var i := IndexOf(s.devs, id);
            Run1(s, SendTo(id, endpoint, body)) ==
            if i == |s.devs| then s
            else OnEvent(s, Route(s.devs[i]), Event.Command(s.devs[i].host, endpoint, body))
  {
    hide IndexOf, OnEvent;
  }

  lemma HappensIs(s: World, host: Text, e: Event)
    ensures Run1(s, Happens(host, e)) == OnEvent(s, host, e)
  {
    hide OnEvent;
  }

  lemma RestartIs(s: World, failing: set<Text>)
    requires ServiceInv(s)
    ensures var devs := ParseAll(DevicesJson(s.devs));
            && DistinctHosts(devs)
            && Run1(s, Restart(failing)) == World(devs, ConnectAll(devs, failing))
            && (ServiceInv(World(devs, ConnectAll(devs, failing))) <==> Admissible(s, Restart(failing)))
  {
    hide ReloadAll, ParseAll, DevicesJson, Service.ConnectAll, Admissible;
    ReloadIsParse(s.devs);
    ReloadAllDistinct(s.devs);
    OpKeepsIff(s, Restart(failing));
  }

  lemma UpdateIs(s: World, op: Op)
    requires op.UpdateDevice?
    ensures var i := IndexOf(s.devs, op.id);
            Run1(s, op) == if i == |s.devs| then s else s.(devs := s.devs[i := Updated(s.devs[i], op)])
  {
    hide IndexOf, Updated;
  }

  lemma RemoveIs(s: World, id: Text)
    ensures var i := IndexOf(s.devs, id);
            Run1(s, RemoveDevice(id)) ==
            if i == |s.devs| then s else World(Survivors(s.devs, i, |s.devs|), s.conns - {s.devs[i].host})
  {
    hide IndexOf, Survivors;
  }

  lemma StillDistinct(devs: Devs, k: nat)
    requires DistinctHosts(devs) && k < |devs|
    ensures DistinctHosts(devs[..k] + devs[k + 1..])
  {
  }

  lemma StillIn(items: seq<DeviceObject>, d: DeviceObject, x: DeviceObject)
    requires x in items
    ensures x in items + [d]
  {
  }

  lemma StillThere(items: seq<DeviceObject>, k: nat, d: DeviceObject)
    requires k < |items| && d in items && d != items[k]
    ensures d in items[..k] + items[k + 1..]
  {
    var j :| 0 <= j < |items| && items[j] == d;
    if j < k {
      assert items[..k][j] == d;
    } else {
      assert items[k + 1..][j - k - 1] == d;
    }
  }
}
