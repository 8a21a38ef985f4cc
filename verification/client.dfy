/** The connection object: every slot is proved against the function that describes it. */
module Client {
  import opened Bytes
  import opened Proto
  import opened Noise
  import opened Order
  import opened Texts
  import opened Devices
  import opened Messages
  import opened Discovery
  import opened Connection
  import opened Forest
  import opened Lifecycle
  import opened Objects

  // ---------------------------------------------------------------- one device of a list changes

  /** A list with distinct hosts in which only device `i` has changed, and not its host. */
  lemma PutAt(before: Devs, after: Devs, i: nat)
    requires DistinctHosts(before) && |after| == |before| && i < |before| && after[i].host == before[i].host
    requires forall j :: 0 <= j < |before| && j != i ==> after[j] == before[j]
    ensures after == Put(before, after[i]) && DistinctHosts(after)
  {
    FindAt(before, i);
    assert after == before[i := after[i]];
  }

  lemma OfflineNone(devs: Devs)
    ensures SetOffline(devs, {}) == devs
  {
  }

  /** One more host offline, in a list with distinct hosts. */
  lemma OfflineOne(devs: Devs, done: set<Text>, address: Text)
    requires DistinctHosts(SetOffline(devs, done))
    ensures var a := SetOffline(devs, done);
            SetOffline(devs, done + {address}) == SetOnline(a, address, false)
  {
    var a := SetOffline(devs, done);
    forall i | 0 <= i < |devs| && devs[i].host == address
      ensures IndexOfHost(a, address) == i
    {
      FindAt(a, i);
    }
  }

  /** The addresses of the sub-devices with some ids. */
  ghost function FirstAddresses(host: Text, names: Names, ids: seq<int>): set<Text>
    requires forall id :: id in ids ==> id in names
  {
    set id | id in ids :: SubAddress(host, names[id])
  }

  lemma NoAddresses(host: Text, names: Names)
    ensures FirstAddresses(host, names, []) == {}
  {
  }

  lemma NextAddress(host: Text, names: Names, ids: seq<int>, id: int)
    requires id in names && forall j :: j in ids ==> j in names
    ensures FirstAddresses(host, names, ids + [id]) == FirstAddresses(host, names, ids) + {SubAddress(host, names[id])}
  {
  }

  lemma AllAddresses(host: Text, names: Names, ids: seq<int>)
    requires forall id :: id in ids <==> id in names
    ensures FirstAddresses(host, names, ids) == KnownAddresses(host, names)
  {
  }

  lemma OnlineActive(devs: Devs, host: Text, address: Text, online: bool)
    requires Has(devs, host)
    ensures var r := SetOnline(devs, address, online);
            Has(r, host) && Find(r, host).active == Find(devs, host).active
  {
    if Has(devs, address) {
      PutFind(devs, Find(devs, address).(online := online), host);
    }
  }

  lemma OfflineActive(devs: Devs, host: Text, known: set<Text>)
    requires Has(devs, host)
    ensures Has(SetOffline(devs, known), host) && Find(SetOffline(devs, known), host).active == Find(devs, host).active
  {
    SameHosts(devs, SetOffline(devs, known), host);
  }

  lemma DisconnectedIs(h: Hub, c: Conn, devs: Devs)
    requires c == Log(h.conn.(ping := false, handshake := false, rx := [], state := Disconnected, noise := None),
                      Closed)
    requires devs == if InSession(h.conn.state)
                     then SetOffline(SetOnline(h.devs, h.conn.host, false), KnownAddresses(h.conn.host, h.conn.names))
                     else h.devs
    ensures Connection.OnDisconnected(h) == Hub(c.(reconnect := Active(h) || h.conn.reconnect), devs)
  {
  }

  lemma AppendDistinct(devs: Devs, d: Dev)
    requires DistinctHosts(devs) && !Has(devs, d.host)
    ensures DistinctHosts(devs + [d]) && IndexOfHost(devs + [d], d.host) == |devs|
  {
    HasIff(devs, d.host);
  }

  lemma ViewsAppend(items: seq<DeviceObject>, d: DeviceObject)
    ensures Views(items + [d]) == Views(items) + [d.View()]
  {
  }

  class EspHomeDevice {
    const device: DeviceObject
    const devices: DeviceList
    var socket: Socket // the socket, and how many more requests to close it will put off
    var deferrals: nat
    var state: State
    var rxBuf: seq<byte>
    var noise: Option<Session>
    var pingTimer: bool
    var reconnectTimer: bool
    var handshakeTimer: bool
    var subDeviceNames: Names
    var pendingEntities: seq<EntityInfo>
    ghost var log: seq<Action>

    ghost function Own(): Conn
      reads this
    {
      Conn(device.host, socket, state, rxBuf, noise, pingTimer, reconnectTimer, handshakeTimer, deferrals,
           subDeviceNames, pendingEntities, log)
    }

    ghost function View(): Hub
      reads this, devices, devices.items
    {
      Hub(Own(), devices.View())
    }

    /** The device is in the list it shares, and hosts are distinct. */
    ghost predicate Valid()
      reads this, devices, devices.items
    {
      device in devices.items && DistinctHosts(devices.View())
    }

    /** The list has kept its objects; those it has more of are new. */
    twostate predicate Grows()
      reads this, devices
    {
      && |old(devices.items)| <= |devices.items|
      && forall i :: 0 <= i < |devices.items| ==>
           if i < |old(devices.items)| then devices.items[i] == old(devices.items)[i] else fresh(devices.items[i])
    }

    constructor (device: DeviceObject, devices: DeviceList)
      ensures this.device == device && this.devices == devices && Own() == NewConn(device.host)
    {
      this.device, this.devices := device, devices;
      socket, deferrals, state, rxBuf, noise := Unconnected, 0, Disconnected, [], None;
      pingTimer, reconnectTimer, handshakeTimer := false, false, false;
      subDeviceNames, pendingEntities, log := map[], [], [];
    }

    lemma Place() returns (i: nat)
      requires Valid()
      ensures i < |devices.items| && devices.items[i] == device && IndexOfHost(devices.View(), device.host) == i
      ensures Has(devices.View(), device.host) && Find(devices.View(), device.host) == device.View()
      ensures Active(View()) <==> device.active
    {
      i :| 0 <= i < |devices.items| && devices.items[i] == device;
      FindAt(devices.View(), i);
    }

    // -------------------------------------------------------------- the device list

    method SetOwnOnline(online: bool)
      requires Valid()
      modifies device`online
      ensures Valid() && devices.View() == SetOnline(old(devices.View()), device.host, online)
    {
      ghost var before := devices.View();
      ghost var i := Place();
      device.online := online;
      PutAt(before, devices.View(), i);
    }

    method SubOffline(address: Text)
      requires Valid()
      modifies devices.items
      ensures Valid() && devices.View() == SetOnline(old(devices.View()), address, false)
    {
      ghost var before := devices.View();
      var sub := devices.ByHost(address);
      if sub != null {
        sub.online := false;
        PutAt(before, devices.View(), IndexOfHost(before, address));
      }
    }

    /** The sub-devices known by name go offline. */
    method KnownOffline()
      requires Valid()
      modifies devices.items
      ensures Valid() && devices.View() == SetOffline(old(devices.View()), KnownAddresses(device.host, subDeviceNames))
    {
      hide SubAddress, SetOffline, SetOnline, KnownAddresses, FirstAddresses, Ascending, DistinctHosts, Views;
      var ids := Ascending(subDeviceNames.Keys);
      ghost var before := devices.View();
      OfflineNone(before);
      NoAddresses(device.host, subDeviceNames);
      assert ids[..0] == [];
      for k := 0 to |ids|
        invariant Valid() && devices.View() == SetOffline(before, FirstAddresses(device.host, subDeviceNames, ids[..k]))
      {
        assert ids[k] in ids && ids[..k + 1] == ids[..k] + [ids[k]];
        var address := SubAddress(device.host, subDeviceNames[ids[k]]);
        SubOffline(address);
        OfflineOne(before, FirstAddresses(device.host, subDeviceNames, ids[..k]), address);
        NextAddress(device.host, subDeviceNames, ids[..k], ids[k]);
      }
      assert ids[..|ids|] == ids;
      AllAddresses(device.host, subDeviceNames, ids);
    }

    /** The device goes offline, and the sub-devices known by name with it. */
    method GoOffline()
      requires Valid()
      modifies devices.items
      ensures Valid() && Own() == old(Own()) && device.active == old(device.active)
      ensures devices.View() == SetOffline(SetOnline(old(devices.View()), device.host, false),
                                           KnownAddresses(device.host, subDeviceNames))
    {
      hide SetOnline, SetOffline, KnownAddresses, Views, DistinctHosts, Has, Find;
      ghost var before := devices.View();
      ghost var i := Place();
      SetOwnOnline(false);
      KnownOffline();
      OnlineActive(before, device.host, device.host, false);
      OfflineActive(SetOnline(before, device.host, false), device.host, KnownAddresses(device.host, subDeviceNames));
      i := Place();
    }

    // -------------------------------------------------------------- sending

    method SendMessage(msg: u16, payload: seq<byte>)
      modifies this`noise, this`log
      ensures Own() == Connection.SendMessage(old(Own()), msg, payload)
    {
      if noise.None? || noise.value.phase != Complete {
        return;
      }
      var (session, body) := Encrypt(noise.value, Inner(msg, payload));
      noise := Some(session);
      log := log + [Sent(msg, payload)];
      log := log + [Wrote(Frame(body))];
    }

    // -------------------------------------------------------------- closing

    method OnDisconnected()
      requires Valid()
      modifies this, devices.items
      ensures Valid() && View() == Connection.OnDisconnected(old(View()))
    {
      hide Connection.OnDisconnected, SetOnline, SetOffline, KnownAddresses, Views, DistinctHosts, Active;
      ghost var h := View();
      ghost var i := Place();
      var wasReady := InSession(state);
      Clear();
      ghost var c := Own();
      if wasReady {
        GoOffline();
      }
      reconnectTimer := device.active || reconnectTimer;
      DisconnectedIs(h, c, devices.View());
    }

    method Clear()
      modifies this
      ensures Own() == Log(old(Own()).(ping := false, handshake := false, rx := [],
                                       state := Disconnected, noise := None), Closed)
    {
      pingTimer, handshakeTimer := false, false;
      rxBuf, state, noise := [], Disconnected, None;
      log := log + [Closed];
    }

    /** `disconnectFromHost` on an open socket. */
    method RequestClose()
      requires Valid()
      modifies this, devices.items
      ensures Valid() && View() == Connection.RequestClose(old(View()))
    {
      hide Connection.OnDisconnected, Views, DistinctHosts;
      log := log + [CloseRequested];
      if deferrals == 0 {
        socket := Unconnected;
        OnDisconnected();
      } else {
        socket, deferrals := Closing, deferrals - 1;
      }
    }

    /** `abort`. */
    method Abort()
      requires Valid()
      modifies this, devices.items
      ensures Valid() && View() == Connection.Abort(old(View()))
    {
      hide Connection.OnDisconnected, Views, DistinctHosts;
      var open := socket == Connected || socket == Closing;
      socket := Unconnected;
      if open {
        OnDisconnected();
      }
    }

    /** `disconnectFromDevice`: the state is reset first, so that closing leaves the device list alone. */
    method DisconnectFromDevice()
      requires Valid()
      modifies this, devices.items
      ensures Valid() && View() == Teardown(old(View())) && devices.View() == old(devices.View())
    {
      hide DistinctHosts, Views, Connection.RequestClose;
      TeardownSpares(View());
      pingTimer, reconnectTimer, handshakeTimer := false, false, false;
      state := Disconnected;
      if Open(socket) {
        RequestClose();
      }
    }

    // -------------------------------------------------------------- dialling and timers

    method OnError()
      requires Valid()
      modifies this
      ensures Valid() && View() == Lifecycle.OnError(old(View()))
    {
      hide Active, Views, DistinctHosts;
      ghost var i := Place();
      if device.active {
        reconnectTimer := true;
      }
    }

    /** `connectToDevice`; `fails`: the socket reports an error before `connectToHost` returns. */
    method ConnectToDevice(fails: bool)
      requires Valid()
      modifies this
      ensures Valid() && View() == Lifecycle.ConnectToDevice(old(View()), fails)
    {
      hide Lifecycle.OnError, Views, DistinctHosts;
      if state != Disconnected {
        return;
      }
      state := Dialing;
      rxBuf := [];
      socket := Connecting;
      if fails {
        socket := Unconnected;
        OnError();
      }
    }

    method OnConnected(keys: Keys)
      modifies this
      ensures View() == Lifecycle.OnConnected(old(View()), keys)
    {
      hide Frame, Begin, WriteHandshake, Views, DistinctHosts;
      socket := Connected;
      reconnectTimer := false;
      state := ClientHello;
      handshakeTimer := true;
      var (session, message) := WriteHandshake(Begin(keys));
      noise := Some(session);
      log := log + [Opened] + [Wrote(Frame([]) + Frame([0] + message))];
      state := ServerHello;
    }

    method OnPingTimer()
      requires Valid()
      modifies this
      ensures Valid() && View() == Lifecycle.OnPingTimer(old(View()))
    {
      hide Connection.SendMessage, Views, DistinctHosts;
      if state == Ready || state == Subscribe {
        SendMessage(PING_REQUEST, []);
      }
    }

    /** `onReconnectTimer`. */
    method OnReconnectTimer(fails: bool)
      requires Valid()
      modifies this, devices.items
      ensures Valid() && View() == Lifecycle.OnReconnectTimer(old(View()), fails)
    {
      hide Connection.Abort, Lifecycle.ConnectToDevice, Active, Views, DistinctHosts;
      Abort();
      reconnectTimer := false;
      state := Disconnected;
      ghost var i := Place();
      if device.active {
        ConnectToDevice(fails);
      }
    }

    // -------------------------------------------------------------- receiving

    /** A device that still goes by its address adopts the name in the server's greeting. */
    method AdoptName(greeting: seq<byte>)
      requires Valid() && |greeting| > 0
      modifies device`name
      ensures Valid() && devices.View() == Connection.AdoptName(old(devices.View()), device.host, greeting)
    {
      hide FromUtf8, NameEnd;
      ghost var before := devices.View();
      ghost var i := Place();
      var end := NameEnd(greeting, 1);
      if 1 < end < |greeting| {
        var serverName := FromUtf8(greeting[1..end]);
        if serverName != "" && device.name == device.host {
          device.name := serverName;
          PutAt(before, devices.View(), i);
        }
      }
    }

    /** The loop over the fields of a DeviceInfoResponse. */
    method ReadInfo(fields: seq<ProtoField>)
      modifies this`subDeviceNames, device
      ensures device.View() == WithInfo(old(device.View()), InfoFrom(fields))
      ensures subDeviceNames == InfoFrom(fields).subNames
    {
      hide Nested, SubId, SubName, FromUtf8;
      subDeviceNames := map[];
      for i := 0 to |fields|
        invariant device.View() == WithInfo(old(device.View()), InfoFrom(fields[..i]))
        invariant subDeviceNames == InfoFrom(fields[..i]).subNames
      {
        var f := fields[i];
        InfoNext(fields, i);
        if f.field == 4 && f.wireType == 2 {
          device.version := FromUtf8(f.raw);
        } else if f.field == 6 && f.wireType == 2 {
          device.model := FromUtf8(f.raw);
        } else if f.field == 12 && f.wireType == 2 {
          device.manufacturer := FromUtf8(f.raw);
        } else if f.field == 20 && f.wireType == 2 {
          var id, name := ReadSub(Nested(f.raw));
          if id > 0 {
            subDeviceNames := subDeviceNames[id := name];
          }
        }
      }
      assert fields[..|fields|] == fields;
    }

    // -------------------------------------------------------------- discovery

    /** The device for a sub-device's name, created and appended if the list had none. */
    method FindOrAppend(name: Text) returns (sub: DeviceObject)
      requires Valid()
      modifies devices
      ensures Valid() && Grows()
      ensures devices.View() == WithSub(old(devices.View()), device.View(), name)
      ensures var i := IndexOfHost(devices.View(), SubAddress(device.host, name));
              i < |devices.items| && sub == devices.items[i]
    {
      hide SubAddress, WithSub, Views, Has, IndexOfHost, DistinctHosts;
      ghost var before := devices.View();
      WithSubIs(before, device.View(), name);
      var address := SubAddress(device.host, name);
      var found := devices.ByHost(address);
      if found != null {
        return found;
      }
      sub := AppendNew(name, address);
    }

    method AppendNew(name: Text, address: Text) returns (sub: DeviceObject)
      requires Valid() && !Has(devices.View(), address)
      modifies devices
      ensures Valid() && fresh(sub) && devices.items == old(devices.items) + [sub]
      ensures devices.View() == old(devices.View()) +
                [NewDev(name, address, device.port, device.key).(parent := device.host, cloud := device.cloud)]
      ensures IndexOfHost(devices.View(), address) == |old(devices.items)|
    {
      hide Views, Has, IndexOfHost, DistinctHosts;
      ghost var before, items := devices.View(), devices.items;
      sub := NewSub(name, address);
      devices.Append(sub);
      ViewsAppend(items, sub);
      AppendDistinct(before, sub.View());
    }

    method NewSub(name: Text, address: Text) returns (sub: DeviceObject)
      ensures fresh(sub)
      ensures sub.View() ==
              NewDev(name, address, device.port, device.key).(parent := device.host, cloud := device.cloud)
    {
      sub := new DeviceObject(name, address, device.port, device.key);
      sub.parent := device.host;
      sub.cloud := device.cloud;
    }

    method Renew(sub: DeviceObject, name: Text)
      requires sub != device
      modifies sub
      ensures sub.View() == Renewed(old(sub.View()), device.View(), name)
    {
      sub.name := name;
      sub.manufacturer := device.manufacturer;
      sub.model := "Subdev " + name + " of " + device.name;
      sub.parent := device.host;
      sub.online := true;
    }

    /** `subDevice`. */
    method SubDevice(id: int) returns (sub: DeviceObject)
      requires Valid()
      modifies devices, devices.items
      ensures Valid() && Grows()
      ensures var main, name := old(device.View()), NameOf(subDeviceNames, id);
              var devs, address := WithSub(old(devices.View()), main, name), SubAddress(device.host, name);
              && devices.View() == Put(devs, Renewed(Find(devs, address), main, name))
              && IndexOfHost(devices.View(), address) < |devices.items|
              && sub == devices.items[IndexOfHost(devices.View(), address)]
    {
      hide SubAddress, WithSub, Renewed, Views;
      var name := NameOf(subDeviceNames, id);
      sub := FindOrAppend(name);
      ghost var devs, i := devices.View(), IndexOfHost(devices.View(), SubAddress(device.host, name));
      SubAddressLonger(device.host, name);
      Renew(sub, name);
      PutAt(devs, devices.View(), i);
      SameHosts(devs, devices.View(), SubAddress(device.host, name));
    }

    method ApplyToSub(id: int, infos: seq<EntityInfo>)
      requires Valid()
      modifies devices, devices.items
      ensures Valid() && Grows()
      ensures devices.View() == ApplyGroup(old(devices.View()), device.host, subDeviceNames, id, infos)
    {
      hide SubAddress, WithSub, Renewed, Views, Applied, ApplyGroup, Put, NameOf, DistinctHosts;
      ghost var before, main, name := devices.View(), device.View(), NameOf(subDeviceNames, id);
      ghost var i := Place();
      var sub := SubDevice(id);
      ApplyTo(sub, IndexOfHost(devices.View(), SubAddress(device.host, name)), infos);
      GroupIs(before, main, subDeviceNames, id, infos);
    }

    /** The groups of sub-devices, in the order of their ids. */
    method ApplyToSubs(groups: map<int, seq<EntityInfo>>)
      requires Valid() && forall id :: id in groups ==> groups[id] == Group(pendingEntities, id)
      modifies devices, devices.items
      ensures Valid() && Grows()
      ensures devices.View() == ApplyGroups(old(devices.View()), device.host, subDeviceNames, pendingEntities,
                                            NonZero(Ascending(groups.Keys)))
    {
      hide Views, ApplyGroup, ApplyGroups, Ascending, NonZero, Valid, Group;
      ghost var before := devices.View();
      var ids := Ascending(groups.Keys);
      NoGroups(before, device.host, subDeviceNames, pendingEntities);
      assert ids[..0] == [];
      for k := 0 to |ids|
        invariant Valid() && Grows()
        invariant devices.View() == ApplyGroups(before, device.host, subDeviceNames, pendingEntities, NonZero(ids[..k]))
      {
        assert ids[k] in ids && ids[..k + 1] == ids[..k] + [ids[k]];
        NonZeroNext(ids[..k], ids[k]);
        GroupsNext(before, device.host, subDeviceNames, pendingEntities, NonZero(ids[..k]), ids[k]);
        if ids[k] == 0 {
          continue;
        }
        ApplyToSub(ids[k], groups[ids[k]]);
      }
      assert ids[..|ids|] == ids;
    }

    /** `applyDiscoveredEntities`. */
    method ApplyDiscoveredEntities()
      requires Valid()
      modifies devices, devices.items
      ensures Valid() && Grows()
      ensures devices.View() == ApplyDiscovered(old(devices.View()), device.host, subDeviceNames, pendingEntities)
    {
      hide Views, Applied, ApplyDiscovered, ApplyGroups, Ascending, NonZero, Keyed, DistinctHosts, Group, Put, Has,
          Find;
      ghost var before := devices.View();
      var groups := GroupEntities(pendingEntities);
      ghost var i := Place();
      ApplyTo(device, i, if 0 in groups then groups[0] else []);
      ApplyToSubs(groups);
      DiscoveredIs(before, device.host, subDeviceNames, pendingEntities, groups.Keys);
    }

    /** The list's device `i` with its entities applied. */
    method ApplyTo(d: DeviceObject, ghost i: nat, infos: seq<EntityInfo>)
      requires Valid() && i < |devices.items| && devices.items[i] == d
      modifies d
      ensures Valid() && devices.View() == Put(old(devices.View()), Applied(old(d.View()), infos))
    {
      hide Views, Applied, Put, IndexOfHost;
      ghost var before := devices.View();
      d.ApplyEntities(infos);
      PutAt(before, devices.View(), i);
    }

    // -------------------------------------------------------------- messages

    method TakeInfo(fields: seq<ProtoField>)
      requires Valid()
      modifies this`subDeviceNames, device
      ensures Valid() && Own() == old(Own()).(names := InfoFrom(fields).subNames)
      ensures devices.View() == Put(old(devices.View()), WithInfo(old(device.View()), InfoFrom(fields)))
    {
      hide InfoFrom, Views, Put, Has, IndexOfHost;
      ghost var before := devices.View();
      ghost var i := Place();
      ReadInfo(fields);
      PutAt(before, devices.View(), i);
    }

    /** A DeviceInfoResponse. */
    method OnDeviceInfo(payload: Payload)
      requires Valid()
      modifies this, devices.items
      ensures Valid() && View() == Connection.OnDeviceInfo(old(View()), payload)
    {
      hide Connection.OnDeviceInfo, Connection.SendMessage, WithInfo, InfoFrom, Decode, Views, DistinctHosts, Put,
          Has, Find;
      ghost var h := View();
      ghost var i := Place();
      var fields := DecodeFields(payload);
      TakeInfo(fields);
      StartList();
      DeviceInfoIs(h, payload);
    }

    method StartList()
      modifies this
      ensures Own() == Connection.SendMessage(
                         Log(old(Own()).(pending := [], state := ListEntities), Announces(old(subDeviceNames))),
                         LIST_ENTITIES_REQUEST, [])
    {
      hide Connection.SendMessage;
      pendingEntities, state := [], ListEntities;
      log := log + [Announces(subDeviceNames)];
      SendMessage(LIST_ENTITIES_REQUEST, []);
    }

    /** A ListEntitiesDone. */
    method OnListDone()
      requires Valid()
      modifies this, devices, devices.items
      ensures Valid() && Grows() && View() == Connection.OnListDone(old(View()))
    {
      hide Connection.SendMessage, ApplyDiscovered, DistinctHosts, Views;
      log := log + [Applies(subDeviceNames, pendingEntities, devices.View())];
      ApplyDiscoveredEntities();
      Subscribed();
    }

    method Subscribed()
      requires Valid()
      modifies this
      ensures Valid()
      ensures View() == Hub(Connection.SendMessage(old(Own()).(state := Subscribe), SUBSCRIBE_STATES, []),
                            old(devices.View()))
    {
      hide Connection.SendMessage, DistinctHosts, Views;
      state := Subscribe;
      SendMessage(SUBSCRIBE_STATES, []);
    }

    /** `processEntityInfo`. */
    method ProcessEntityInfo(msg: u16, payload: Payload)
      modifies this`pendingEntities
      ensures pendingEntities == old(pendingEntities) + Announced(msg, payload)
    {
      hide Decode, EntityFrom;
      var fields := DecodeFields(payload);
      var info := ReadEntity(msg, fields);
      if info.key == 0 {
        return;
      }
      pendingEntities := pendingEntities + [info];
    }

    method ProcessMessage(msg: u16, payload: Payload)
      requires Valid()
      modifies this, devices, devices.items
      ensures Valid() && Grows() && View() == Connection.ProcessMessage(old(View()), msg, payload)
    {
      hide Connection.SendMessage, Connection.OnDeviceInfo, Connection.OnListDone, Connection.RequestClose;
      hide Announced, DistinctHosts, Views, IsEntityMessage;
      log := log + [Dispatched(msg, payload)];
      if msg == HELLO_RESPONSE {
        SendMessage(DEVICE_INFO_REQUEST, []);
      } else if msg == DEVICE_INFO_RESPONSE {
        OnDeviceInfo(payload);
      } else if IsEntityMessage(msg) {
        ProcessEntityInfo(msg, payload);
      } else if msg == LIST_DONE {
        OnListDone();
      } else if msg == DISCONNECT_REQUEST {
        OnDisconnectRequest();
      }
    }

    /** A DisconnectRequest is answered before the connection is closed. */
    method OnDisconnectRequest()
      requires Valid()
      modifies this, devices.items
      ensures Valid()
      ensures View() == Connection.RequestClose(Hub(Connection.SendMessage(old(Own()), DISCONNECT_RESPONSE, []),
                                                    old(devices.View())))
    {
      hide Connection.SendMessage, Connection.RequestClose, DistinctHosts, Views;
      SendMessage(DISCONNECT_RESPONSE, []);
      RequestClose();
    }

    // -------------------------------------------------------------- frames

    method OnServerHello(frame: seq<byte>) returns (stop: bool)
      requires Valid()
      modifies this, devices.items
      ensures Valid()
      ensures Outcome(View(), stop) == Connection.OnServerHello(old(View()), frame)
    {
      hide Connection.RequestClose, Connection.AdoptName, DistinctHosts, Views;
      if frame == [] || frame[0] != 1 {
        RequestClose();
        return true;
      }
      AdoptName(frame);
      state := NoiseHandshake;
      stop := false;
    }

    /** The handshake is complete: the device is online, and the session starts with a HelloRequest. */
    method StartSession()
      requires Valid()
      modifies this, device`online
      ensures Valid() && devices.View() == SetOnline(old(devices.View()), device.host, true)
      ensures Own() == Connection.SendMessage(old(Own()).(state := Ready, handshake := false, ping := true),
                                              HELLO_REQUEST, HelloPayload())
    {
      hide Connection.SendMessage, SetOnline, DistinctHosts, Views, HelloPayload;
      state := Ready;
      handshakeTimer, pingTimer := false, true;
      SetOwnOnline(true);
      var payload := Hello();
      SendMessage(HELLO_REQUEST, payload);
    }

    method OnHandshakeAnswer(frame: seq<byte>) returns (stop: bool)
      requires Valid()
      modifies this, devices.items
      ensures Valid()
      ensures Outcome(View(), stop) == Connection.OnHandshakeAnswer(old(View()), frame)
    {
      hide Connection.RequestClose, Connection.SendMessage, HelloPayload, SetOnline, DistinctHosts, Views;
      if frame == [] || frame[0] != 0 {
        RequestClose();
        return true;
      }
      if noise.None? {
        return true;
      }
      var wasComplete := noise.value.phase == Complete;
      noise := Some(ReadHandshake(noise.value, frame[1..]));
      if wasComplete || noise.value.phase != Complete {
        RequestClose();
        return true;
      }
      ghost var i := Place();
      StartSession();
      stop := false;
    }

    method OnSealedFrame(frame: seq<byte>) returns (stop: bool)
      requires Valid()
      modifies this, devices, devices.items
      ensures Valid() && Grows()
      ensures Outcome(View(), stop) == Connection.OnSealedFrame(old(View()), frame)
    {
      hide Connection.RequestClose, Connection.ProcessMessage, PayloadOf, DistinctHosts, Views;
      if noise.None? || noise.value.phase != Complete {
        return true;
      }
      var (session, plain) := Decrypt(noise.value, frame);
      noise := Some(session);
      if plain == [] {
        RequestClose();
        return true;
      }
      if |plain| >= 4 {
        ProcessMessage(Word(plain[0], plain[1]), PayloadOf(plain));
      }
      stop := false;
    }

    /** One frame in the state the connection is in. */
    method HandleFrame(frame: seq<byte>) returns (stop: bool)
      requires Valid()
      modifies this, devices, devices.items
      ensures Valid() && Grows()
      ensures Outcome(View(), stop) == Connection.HandleFrame(old(View()), frame)
    {
      hide Connection.OnServerHello, Connection.OnHandshakeAnswer, Connection.OnSealedFrame, DistinctHosts, Views;
      stop := false;
      if state == ServerHello {
        stop := OnServerHello(frame);
      } else if state == NoiseHandshake {
        stop := OnHandshakeAnswer(frame);
      } else if InSession(state) {
        stop := OnSealedFrame(frame);
      }
    }

    /** `onReadyRead`. */
    method OnReadyRead(bytes: seq<byte>)
      requires Valid()
      modifies this, devices, devices.items
      ensures Valid() && Grows() && View() == ReadyRead(old(View()), bytes)
    {
      hide Connection.HandleFrame, Connection.RequestClose, Pump, DistinctHosts, Views;
      rxBuf := rxBuf + bytes;
      ghost var h := View();
      while !Waits(rxBuf)
        invariant Valid() && Grows() && Pump(View()) == Pump(h)
        decreases |rxBuf|
      {
        var stop := TakeFrame();
        if stop {
          return;
        }
      }
      PumpStep(View());
    }

    /** One round of the loop of `onReadyRead`; `stop`: the slot returns. */
    method TakeFrame() returns (stop: bool)
      requires Valid() && !Waits(rxBuf)
      modifies this, devices, devices.items
      ensures Valid() && Grows()
      ensures if stop then View() == Pump(old(View())) else Pump(View()) == Pump(old(View())) && |rxBuf| < |old(rxBuf)|
    {
      hide Connection.HandleFrame, Connection.RequestClose, Pump, DistinctHosts, Views;
      PumpStep(View());
      if rxBuf[0] != 1 {
        RequestClose();
        return true;
      }
      var n := FrameSize(rxBuf);
      var frame := rxBuf[3..n];
      rxBuf := rxBuf[n..];
      ghost var h := View();
      stop := HandleFrame(frame);
      assert rxBuf == Connection.HandleFrame(h, frame).hub.conn.rx;
    }

    // -------------------------------------------------------------- commands and events

    /** `sendCommand`. */
    method SendCommand(target: DeviceObject, id: byte, body: Calls)
      requires Valid() && target in devices.items
      modifies this`noise, this`log
      ensures Valid() && View() == Lifecycle.SendCommand(old(View()), target.host, id, body)
    {
      hide Connection.SendMessage;
      ghost var i :| 0 <= i < |devices.items| && devices.items[i] == target;
      FindAt(devices.View(), i);
      if state != Subscribe {
        return;
      }
      if id !in target.endpoints {
        return;
      }
      if CommandType(target.endpoints[id].kind) != 0 {
        SendTyped(target.endpoints[id], body);
      }
    }

    /** The command message of an endpoint: its key first. */
    method SendTyped(ep: Endpoint, body: Calls)
      requires Valid()
      modifies this`noise, this`log
      ensures Valid()
      ensures View() == Hub(Connection.SendMessage(old(Own()), CommandType(ep.kind), CommandPayload(ep.key, body)),
                            old(devices.View()))
    {
      hide Connection.SendMessage, Encoded, Views, DistinctHosts;
      var cmd := new ProtoEncoder();
      cmd.Fixed32(1, ep.key);
      FirstEncoded(AddFixed32(1, ep.key), body);
      SendMessage(CommandType(ep.kind), cmd.data + EncodedAll(body));
    }

    method CommandTo(host: Text, id: byte, body: Calls)
      requires Valid()
      modifies this`noise, this`log
      ensures Valid() && View() == Lifecycle.SendCommand(old(View()), host, id, body)
    {
      hide Lifecycle.SendCommand, DistinctHosts, Views;
      var target := devices.ByHost(host);
      if target != null {
        SendCommand(target, id, body);
      } else {
        NoTarget(View(), host, id, body);
      }
    }

    method PingTimeout()
      requires Valid()
      modifies this
      ensures Valid() && View() == Step(old(View()), PingTimer)
    {
      hide Lifecycle.OnPingTimer, DistinctHosts, Views;
      if pingTimer {
        OnPingTimer();
      }
    }

    method ReconnectTimeout(fails: bool)
      requires Valid()
      modifies this, devices.items
      ensures Valid() && View() == Step(old(View()), ReconnectTimer(fails))
    {
      hide Lifecycle.OnReconnectTimer, DistinctHosts, Views;
      if reconnectTimer {
        reconnectTimer := false;
        OnReconnectTimer(fails);
      }
    }

    /** `onHandshakeTimer`. */
    method HandshakeTimeout()
      requires Valid()
      modifies this, devices.items
      ensures Valid() && View() == Step(old(View()), HandshakeTimer)
    {
      hide Connection.Abort, DistinctHosts, Views;
      if handshakeTimer {
        handshakeTimer := false;
        Abort();
      }
    }

    /** The slot the socket runs when its connection comes up or goes down. */
    method SocketChange(e: Event)
      requires Valid() && (e.Connects? || e.DialFails? || e.Fails? || e.Drops?)
      modifies this, devices.items
      ensures Valid() && View() == Step(old(View()), e)
    {
      hide Lifecycle.OnConnected, Lifecycle.OnError, Connection.OnDisconnected, DistinctHosts, Views;
      match e {
        case Connects(keys) =>
          if socket == Connecting {
            OnConnected(keys);
          }
        case DialFails =>
          if socket == Connecting {
            socket := Unconnected;
            OnError();
          }
        case Fails => OnError();
        case Drops =>
          if Open(socket) {
            socket := Unconnected;
            OnDisconnected();
          }
      }
    }

    /** Bytes have come in; `waits`: how many requests to close the socket puts off. */
    method Receive(bytes: seq<byte>, waits: nat)
      requires Valid()
      modifies this, devices, devices.items
      ensures Valid() && Grows() && View() == Step(old(View()), Reads(bytes, waits))
    {
      hide ReadyRead, DistinctHosts, Views;
      if Open(socket) {
        deferrals := waits;
        OnReadyRead(bytes);
      }
    }

    /** The slot an event runs, if the event can happen. */
    method Handle(e: Event)
      requires Valid()
      modifies this, devices, devices.items
      ensures Valid() && Grows() && View() == Step(old(View()), e)
    {
      hide Step, DistinctHosts, Views;
      match e {
        case Reads(bytes, waits) => Receive(bytes, waits);
        case PingTimer => PingTimeout();
        case ReconnectTimer(fails) => ReconnectTimeout(fails);
        case HandshakeTimer => HandshakeTimeout();
        case Command(host, id, body) =>
          CommandIs(View(), host, id, body);
          CommandTo(host, id, body);
        case _ => SocketChange(e);
      }
    }
  }

  lemma WithSubIs(devs: Devs, main: Dev, name: Text)
    ensures var address := SubAddress(main.host, name);
            && Has(WithSub(devs, main, name), address)
            && IndexOfHost(WithSub(devs, main, name), address) < |WithSub(devs, main, name)|
            && WithSub(devs, main, name) ==
               if Has(devs, address) then devs
               else devs + [NewDev(name, address, main.port, main.key).(parent := main.host, cloud := main.cloud)]
  {
    hide SubAddress, IndexOfHost;
  }

  lemma FirstEncoded(a: Call, body: Calls)
    requires Encodable([a])
    ensures Encodable([a] + body) && EncodedAll([a] + body) == [] + Encoded(a) + EncodedAll(body)
  {
    hide Encoded;
    assert ([a] + body)[1..] == body;
  }

  lemma CommandIs(h: Hub, host: Text, id: byte, body: Calls)
    ensures Step(h, Event.Command(host, id, body)) == Lifecycle.SendCommand(h, host, id, body)
  {
  }

  lemma NoTarget(h: Hub, host: Text, id: byte, body: Calls)
    requires !Has(h.devs, host)
    ensures Lifecycle.SendCommand(h, host, id, body) == h
  {
  }

  lemma DeviceInfoIs(h: Hub, payload: Payload)
    requires Has(h.devs, h.conn.host)
    ensures var info := InfoFrom(Decode(payload));
            var c := h.conn.(names := info.subNames);
            Connection.OnDeviceInfo(h, payload) ==
            Hub(Connection.SendMessage(Log(c.(pending := [], state := ListEntities), Announces(c.names)),
                                       LIST_ENTITIES_REQUEST, []),
                Put(h.devs, WithInfo(Find(h.devs, h.conn.host), info)))
  {
    hide Connection.SendMessage, WithInfo, InfoFrom, Decode;
  }

  ghost function Keyed(pending: seq<EntityInfo>): set<int> {
    set info | info in pending :: info.deviceId
  }

  lemma KeyedNext(pending: seq<EntityInfo>, i: nat)
    requires i < |pending|
    ensures Keyed(pending[..i + 1]) == Keyed(pending[..i]) + {pending[i].deviceId}
  {
    assert pending[..i + 1] == pending[..i] + [pending[i]];
  }

  lemma KeyedIs(pending: seq<EntityInfo>)
    ensures Keyed(pending) - {0} == GroupIds(pending)
    ensures forall id :: id in Keyed(pending) ==> id >= 0
  {
    forall id
      ensures id in Keyed(pending) - {0} <==> id in GroupIds(pending)
    {
      if id in Keyed(pending) - {0} {
        var i :| 0 <= i < |pending| && pending[i].deviceId == id;
      }
    }
  }

  /** The entities by their sub-device id. */
  method GroupEntities(pending: seq<EntityInfo>) returns (groups: map<int, seq<EntityInfo>>)
    ensures groups.Keys == Keyed(pending)
    ensures forall id :: Group(pending, id) == if id in groups then groups[id] else []
  {
    hide Keyed;
    groups := map[];
    NoneKeyed();
    assert pending[..0] == [];
    for i := 0 to |pending|
      invariant groups.Keys == Keyed(pending[..i])
      invariant forall id :: Group(pending[..i], id) == if id in groups then groups[id] else []
    {
      var id := pending[i].deviceId;
      KeyedNext(pending, i);
      assert pending[..i + 1][..i] == pending[..i];
      groups := groups[id := (if id in groups then groups[id] else []) + [pending[i]]];
    }
    assert pending[..|pending|] == pending;
  }

  lemma NoneKeyed()
    ensures Keyed([]) == {}
  {
  }

  ghost function NonZero(ids: seq<int>): seq<int> {
    if ids == [] then [] else NonZero(ids[..|ids| - 1]) + if ids[|ids| - 1] == 0 then [] else [ids[|ids| - 1]]
  }

  lemma NonZeroNext(ids: seq<int>, id: int)
    ensures NonZero(ids + [id]) == if id == 0 then NonZero(ids) else NonZero(ids) + [id]
  {
    assert (ids + [id])[..|ids|] == ids;
  }

  lemma {:induction false} NonZeroSame(ids: seq<int>)
    requires 0 !in ids
    ensures NonZero(ids) == ids
  {
    if ids != [] {
      NonZeroSame(ids[..|ids| - 1]);
    }
  }

  lemma {:induction false} NonZeroFirst(ids: seq<int>)
    ensures NonZero([0] + ids) == NonZero(ids)
  {
    if ids == [] {
      NonZeroNext([], 0);
    } else {
      NonZeroFirst(ids[..|ids| - 1]);
      assert [0] + ids == [0] + ids[..|ids| - 1] + [ids[|ids| - 1]];
      NonZeroNext([0] + ids[..|ids| - 1], ids[|ids| - 1]);
    }
  }

  /** The groups in ascending order without group 0. */
  lemma AscendingNonZero(s: set<int>)
    requires forall x :: x in s ==> x >= 0
    ensures NonZero(Ascending(s)) == Ascending(s - {0})
  {
    hide Ascending, NonZero;
    NonZeroSame(Ascending(s - {0}));
    if 0 in s {
      AscendingFirst(s);
      NonZeroFirst(Ascending(s - {0}));
    } else {
      assert s - {0} == s;
    }
  }

  lemma AscendingFirst(s: set<int>)
    requires 0 in s && forall x :: x in s ==> x >= 0
    ensures Ascending(s) == [0] + Ascending(s - {0})
  {
    assert Least(s) == 0;
  }

  lemma DiscoveredIs(devs: Devs, host: Text, names: Names, pending: seq<EntityInfo>, keys: set<int>)
    requires Has(devs, host) && keys == Keyed(pending)
    ensures ApplyDiscovered(devs, host, names, pending) ==
            ApplyGroups(Put(devs, Applied(Find(devs, host), Group(pending, 0))), host, names, pending,
                        NonZero(Ascending(keys)))
  {
    hide Keyed, GroupIds, NonZero, Ascending, Applied, ApplyGroups, Group;
    KeyedIs(pending);
    AscendingNonZero(keys);
  }

  lemma NoGroups(devs: Devs, host: Text, names: Names, pending: seq<EntityInfo>)
    ensures ApplyGroups(devs, host, names, pending, NonZero([])) == devs
  {
  }

  lemma GroupsNext(devs: Devs, host: Text, names: Names, pending: seq<EntityInfo>, ids: seq<int>, id: int)
    ensures ApplyGroups(devs, host, names, pending, ids + [id]) ==
            ApplyGroup(ApplyGroups(devs, host, names, pending, ids), host, names, id, Group(pending, id))
  {
    hide ApplyGroup;
    assert (ids + [id])[..|ids|] == ids;
  }

  lemma GroupIs(devs: Devs, main: Dev, names: Names, id: int, infos: seq<EntityInfo>)
    requires Has(devs, main.host) && Find(devs, main.host) == main
    ensures var name := NameOf(names, id);
            var devs1, address := WithSub(devs, main, name), SubAddress(main.host, name);
            var devs2 := Put(devs1, Renewed(Find(devs1, address), main, name));
            && Has(devs2, address)
            && ApplyGroup(devs, main.host, names, id, infos) == Put(devs2, Applied(Find(devs2, address), infos))
  {
    hide Applied, WithSub, SubAddress;
    var name := NameOf(names, id);
    var devs1, address := WithSub(devs, main, name), SubAddress(main.host, name);
    var d := Renewed(Find(devs1, address), main, name);
    PutFind(devs1, d, address);
    GrownApplied(d, infos);
  }

  lemma InfoNext(fields: seq<ProtoField>, i: nat)
    requires i < |fields|
    ensures InfoFrom(fields[..i + 1]) == AddInfo(InfoFrom(fields[..i]), fields[i])
  {
    assert fields[..i + 1][..i] == fields[..i];
  }

  /** The id and the name of a sub-device. */
  method ReadSub(fields: seq<ProtoField>) returns (id: u32, name: Text)
    ensures id == SubId(fields) && name == SubName(fields)
  {
    hide FromUtf8;
    id, name := 0, "";
    for i := 0 to |fields|
      invariant id == SubId(fields[..i]) && name == SubName(fields[..i])
    {
      var f := fields[i];
      assert fields[..i + 1][..i] == fields[..i];
      if f.field == 1 && f.wireType == 0 {
        id := f.varint % 0x1_0000_0000;
      } else if f.field == 2 && f.wireType == 2 {
        name := FromUtf8(f.raw);
      }
    }
    assert fields[..|fields|] == fields;
  }

  /** The payload of a HelloRequest. */
  method Hello() returns (payload: seq<byte>)
    ensures payload == HelloPayload()
  {
    hide Encoded;
    var hello := new ProtoEncoder();
    hello.RawBytes(1, CLIENT_NAME);
    hello.Varint(2, 1);
    hello.Varint(3, 14);
    payload := hello.data;
    ThreeEncoded(AddBytes(1, CLIENT_NAME), AddVarint(2, 1), AddVarint(3, 14));
  }

  lemma ThreeEncoded(a: Call, b: Call, c: Call)
    requires Encodable([a, b, c])
    ensures EncodedAll([a, b, c]) == [] + Encoded(a) + Encoded(b) + Encoded(c)
  {
    hide Encoded;
    assert [a, b, c][1..] == [b, c] && [b, c][1..] == [c] && [c][1..] == [];
    assert EncodedAll([b, c]) == Encoded(b) + EncodedAll([c]);
    assert EncodedAll([c]) == Encoded(c) + EncodedAll([]);
  }

  /** The loop over the fields of an entity message. */
  method ReadEntity(msg: u16, fields: seq<ProtoField>) returns (info: EntityInfo)
    ensures info == EntityFrom(msg, fields)
  {
    hide AddToEntity;
    info := EntityInfo(0, 0, Kind(msg), "", "", false, [], 0, 0);
    for i := 0 to |fields|
      invariant info == EntityFrom(msg, fields[..i])
    {
      info := AddToEntity(msg, info, fields[i]);
      assert fields[..i + 1][..i] == fields[..i];
    }
    assert fields[..|fields|] == fields;
  }
}
