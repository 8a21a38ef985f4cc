/** The manager of the connections, and the commands of the controller, over the list they share. */
module Manager {
  import opened Bytes
  import opened Proto
  import opened Texts
  import opened Discovery
  import opened Connection
  import opened Forest
  import opened Lifecycle
  import opened Objects
  import opened Client
  import opened Service

  lemma EventIs(s: World, host: Text, e: Event)
    ensures host !in s.conns ==> OnEvent(s, host, e) == s
    ensures host in s.conns ==> var h := Step(Hub(s.conns[host], s.devs), e);
                                OnEvent(s, host, e) == World(h.devs, s.conns[host := h.conn])
  {
    hide Step;
  }

  class EspHomeManager {
    const devices: DeviceList
    var connections: map<Text, EspHomeDevice>
    ghost var objects: set<EspHomeDevice>

    /** The state of every connection. */
    ghost function Conns(): (conns: map<Text, Conn>)
      requires Owned()
      reads this, objects
      ensures conns.Keys == connections.Keys
      ensures forall host :: host in connections ==> conns[host] == connections[host].Own()
    {
      map host | host in connections :: connections[host].Own()
    }

    ghost predicate Owned()
      reads this
    {
      forall host :: host in connections ==> connections[host] in objects
    }

    ghost function View(): World
      requires Owned()
      reads this, devices, devices.items, objects
    {
      World(devices.View(), Conns())
    }

    /** The connection of a host is that of the list's device with this host. */
    ghost predicate Serves(host: Text, c: EspHomeDevice)
      reads devices
    {
      c.devices == devices && c.device in devices.items && c.device.host == host
    }

    ghost predicate Valid()
      reads this, devices, devices.items
    {
      && DistinctHosts(devices.View()) && Owned()
      && forall host :: host in connections ==> Serves(host, connections[host])
    }

    constructor (devices: DeviceList)
      ensures this.devices == devices && connections == map[] && objects == {}
    {
      this.devices, connections, objects := devices, map[], {};
    }

    lemma ViewIs(s: World)
      requires Owned() && devices.View() == s.devs && s.conns.Keys == connections.Keys
      requires forall host :: host in connections ==> connections[host].Own() == s.conns[host]
      ensures View() == s
    {
      assert Conns() == s.conns;
    }

    lemma IsOwned()
      requires Valid()
      ensures Owned() && DistinctHosts(devices.View())
      ensures View().devs == devices.View() && View().conns == Conns()
    {
    }

    lemma AllServe()
      requires Valid()
      ensures forall host :: host in connections ==> Serves(host, connections[host])
      ensures forall host :: host in connections ==> Owned() && Conns()[host] == connections[host].Own()
    {
    }

    /** The state when only the list has changed, and still has the devices of the connections. */
    lemma ListChanged(s: World)
      requires Owned() && DistinctHosts(devices.View()) && s.conns.Keys == connections.Keys
      requires forall host :: host in connections ==>
                 Serves(host, connections[host]) && connections[host].Own() == s.conns[host]
      ensures Valid() && View() == s.(devs := devices.View())
    {
      ViewIs(s.(devs := devices.View()));
    }

    /** The devices of the list are those it had, or new. */
    twostate predicate Keeps()
      reads devices
    {
      forall k :: 0 <= k < |devices.items| ==> devices.items[k] in old(devices.items) || fresh(devices.items[k])
    }

    method HandleOf(host: Text, e: Event)
      requires Valid() && host in connections
      modifies devices, devices.items, objects
      ensures Valid() && Keeps()
      ensures var h := Step(old(Hub(connections[host].Own(), devices.View())), e);
              connections[host].Own() == h.conn && devices.View() == h.devs
      ensures forall x :: x in connections && x != host ==> connections[x].Own() == old(connections[x].Own())
    {
      hide Step, Views, DistinctHosts;
      var c := connections[host];
      assert Serves(host, c);
      c.Handle(e);
      forall x | x in connections
        ensures Serves(x, connections[x])
        ensures x != host ==> connections[x].Own() == old(connections[x].Own())
      {
        assert old(Serves(x, connections[x]));
      }
    }

    /** The state when an event has changed one connection and the list. */
    lemma EventView(s: World, host: Text, e: Event)
      requires Owned() && host in connections && s.conns.Keys == connections.Keys
      requires var h := Step(Hub(s.conns[host], s.devs), e);
               connections[host].Own() == h.conn && devices.View() == h.devs
      requires forall x :: x in connections && x != host ==> connections[x].Own() == s.conns[x]
      ensures View() == OnEvent(s, host, e)
    {
      hide Step, View, Conns, Views;
      ViewIs(OnEvent(s, host, e));
    }

    /** An event of the connection of a host. */
    method Happens(host: Text, e: Event)
      requires Valid()
      modifies devices, devices.items, objects
      ensures Valid() && Keeps() && View() == OnEvent(old(View()), host, e)
    {
      hide Step, Views, OnEvent, Conns, Valid, View;
      IsOwned();
      ghost var s := View();
      EventIs(s, host, e);
      if host in connections {
        HandleOf(host, e);
        IsOwned();
        EventView(s, host, e);
      }
    }

    method NewConnection(device: DeviceObject, fails: bool) returns (c: EspHomeDevice)
      requires DistinctHosts(devices.View()) && device in devices.items
      ensures fresh(c) && c.devices == devices && c.device == device
      ensures c.Own() == Dialled(device.host, devices.View(), fails)
    {
      hide Lifecycle.ConnectToDevice, Views, DistinctHosts;
      c := new EspHomeDevice(device, devices);
      c.ConnectToDevice(fails);
    }

    /** A connection of its own for a host that had none; it is dialled. */
    method Dial(device: DeviceObject, fails: bool)
      requires Valid() && device in devices.items && device.host !in connections
      modifies this
      ensures Valid() && connections.Keys == old(connections.Keys) + {device.host}
      ensures connections[device.host].Own() == Dialled(device.host, devices.View(), fails)
      ensures forall x :: x in old(connections) ==>
                x in connections && connections[x].Own() == old(connections[x].Own())
      ensures forall c :: c in objects ==> c in old(objects) || fresh(c)
    {
      hide Dialled, Views, DistinctHosts, View, Conns;
      var c := NewConnection(device, fails);
      Register(device.host, c);
    }

    method Register(host: Text, c: EspHomeDevice)
      requires Valid() && Serves(host, c)
      modifies this
      ensures Valid() && connections == old(connections)[host := c] && objects == old(objects) + {c}
    {
      hide Views, DistinctHosts;
      connections := connections[host := c];
      objects := objects + {c};
    }

    /** `connectDevice`. */
    method ConnectDevice(device: DeviceObject, fails: bool)
      requires Valid() && device in devices.items
      modifies this
      ensures Valid() && View() == Connect(old(View()), device.host, fails)
      ensures forall c :: c in objects ==> c in old(objects) || fresh(c)
    {
      hide Connect, Views, Dialled, DistinctHosts, Conns;
      ghost var s := View();
      ConnectIs(s, device.host, fails);
      TopIs(devices.items, device);
      if device.parent != "" || device.host in connections {
        return;
      }
      Dial(device, fails);
      ViewIs(Connect(s, device.host, fails));
    }

    /** `connectAll` on a manager without connections. */
    method ConnectAll(failing: set<Text>)
      requires Valid() && connections == map[]
      modifies this
      ensures Valid() && View() == World(devices.View(), Service.ConnectAll(devices.View(), failing))
      ensures forall c :: c in objects ==> c in old(objects) || fresh(c)
    {
      hide Views, Connect, FirstDials, Conns, DistinctHosts;
      ghost var devs := devices.View();
      NoDials(devs, failing);
      ViewIs(World(devs, FirstDials(devs, 0, failing)));
      for i := 0 to |devices.items|
        invariant Valid() && devices.View() == devs && View() == World(devs, FirstDials(devs, i, failing))
        invariant forall c :: c in objects ==> c in old(objects) || fresh(c)
      {
        NextDial(devs, i, failing);
        if devices.items[i].parent != "" {
          continue;
        }
        ConnectDevice(devices.items[i], devices.items[i].host in failing);
      }
      AllDials(devs, failing);
    }

    /** `disconnectDevice`. */
    method DisconnectDevice(device: DeviceObject)
      requires Valid()
      modifies this, devices.items, objects
      ensures Valid() && objects == old(objects) && device.host !in connections
      ensures View() == old(World(devices.View(), Conns() - {device.host}))
    {
      hide Views, Valid, Conns;
      IsOwned();
      ghost var s := View();
      if device.host in connections {
        Close(device.host);
      }
      Forget(device.host);
      IsOwned();
      LeftOver(s.conns, device.host);
      ViewIs(World(s.devs, s.conns - {device.host}));
    }

    method Forget(host: Text)
      requires Valid()
      modifies this`connections
      ensures Valid() && connections == old(connections) - {host}
    {
      connections := connections - {host};
    }

    method Close(host: Text)
      requires Valid() && host in connections
      modifies devices.items, objects
      ensures Valid() && devices.View() == old(devices.View())
      ensures forall x :: x in connections && x != host ==> connections[x].Own() == old(connections[x].Own())
    {
      hide Views, DistinctHosts;
      var c := connections[host];
      assert Serves(host, c);
      c.DisconnectFromDevice();
      forall x | x in connections && x != host
        ensures connections[x].Own() == old(connections[x].Own())
      {
        assert old(Serves(x, connections[x]));
      }
    }

    /** `sendCommand`. */
    method SendCommand(device: DeviceObject, endpoint: byte, body: Calls)
      requires Valid()
      modifies devices, devices.items, objects
      ensures Valid() && Keeps()
      ensures View() == OnEvent(old(View()), Route(old(device.View())),
                                Event.Command(device.host, endpoint, body))
    {
      Happens(if device.parent == "" then device.host else device.parent,
              Event.Command(device.host, endpoint, body));
    }
  }

  lemma LeftOver(conns: map<Text, Conn>, host: Text)
    ensures (conns - {host}).Keys == conns.Keys - {host}
    ensures forall x :: x in conns && x != host ==> (conns - {host})[x] == conns[x]
  {
  }

  /** The connections dialled for the top-level devices among the first `n`. */
  ghost function FirstDials(devs: Devs, n: nat, failing: set<Text>): map<Text, Conn>
    requires n <= |devs|
  {
    map host | host in TopHosts(devs[..n]) :: Dialled(host, devs, host in failing)
  }

  lemma NoDials(devs: Devs, failing: set<Text>)
    ensures FirstDials(devs, 0, failing) == map[]
  {
  }

  lemma AllDials(devs: Devs, failing: set<Text>)
    ensures FirstDials(devs, |devs|, failing) == Service.ConnectAll(devs, failing)
  {
    assert devs[..|devs|] == devs;
  }

  lemma NextDial(devs: Devs, i: nat, failing: set<Text>)
    requires DistinctHosts(devs) && i < |devs|
    ensures var s, host := World(devs, FirstDials(devs, i, failing)), devs[i].host;
            World(devs, FirstDials(devs, i + 1, failing)) ==
            if devs[i].parent == "" then Connect(s, host, host in failing) else s
  {
    hide Dialled, TopHosts;
    FindAt(devs, i);
    TopHostsNext(devs, i);
  }

  lemma TopHostsNext(devs: Devs, i: nat)
    requires DistinctHosts(devs) && i < |devs|
    ensures TopHosts(devs[..i + 1]) == TopHosts(devs[..i]) + if devs[i].parent == "" then {devs[i].host} else {}
    ensures devs[i].host !in TopHosts(devs[..i])
  {
    var front, all := devs[..i], devs[..i + 1];
    forall host | host in TopHosts(all)
      ensures host in TopHosts(front) || (devs[i].parent == "" && host == devs[i].host)
    {
      var j :| 0 <= j < i + 1 && all[j].parent == "" && all[j].host == host;
      assert j < i ==> front[j] == all[j];
    }
    forall host | host in TopHosts(front)
      ensures host in TopHosts(all)
    {
      var j :| 0 <= j < i && front[j].parent == "" && front[j].host == host;
      assert all[j] == front[j];
    }
    assert all[i] == devs[i];
  }

  lemma TopIs(items: seq<DeviceObject>, device: DeviceObject)
    requires device in items && DistinctHosts(Views(items))
    ensures IsTop(Views(items), device.host) <==> device.parent == ""
  {
    var i :| 0 <= i < |items| && items[i] == device;
    FindAt(Views(items), i);
  }
}
