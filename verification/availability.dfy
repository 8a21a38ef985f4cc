/** Availability: a device is online exactly while its connection is in session. */
module Availabilities {
  import opened Bytes
  import opened Noise
  import opened Order
  import opened Texts
  import opened Devices
  import opened Messages
  import opened Discovery
  import opened Connection
  import opened Forest
  import opened Lifecycle
  import Conservation

  /** How a history has used the announcements of sub-devices. */
  datatype Manner = Fresh | Informed | Untidy

  /** The names cover the device id of every entity. */
  predicate Covers(names: Names, entities: seq<EntityInfo>) {
    forall e :: e in entities ==> e.deviceId == 0 || e.deviceId in names
  }

  /**
   Tidy histories have one announcement on each connection, before the rounds of that connection,
   and announce the sub-device of every entity a round applies.
   */
  function Scan(log: seq<Action>): Manner {
    if log == [] then Fresh
    else
      var before := Scan(log[..|log| - 1]);
      if before == Untidy then Untidy
      else
        match log[|log| - 1]
        case Opened => Fresh
        case Announces(_) => if before == Fresh then Informed else Untidy
        case Applies(names, entities, _) => if before == Informed && Covers(names, entities) then Informed else Untidy
        case _ => before
  }

  predicate OnlineAt(devs: Devs, host: Text) {
    Has(devs, host) && Find(devs, host).online
  }

  /** Every sub-device of `host` that is online is known by its announced name. */
  predicate OnlineKnown(devs: Devs, host: Text, known: set<Text>) {
    forall i :: 0 <= i < |devs| && devs[i].parent == host && devs[i].online ==> devs[i].host in known
  }

  /**
   The device is online exactly in session. Outside of it, in tidy histories, none of its sub-devices is;
   in session, those online are among the announced ones.
   */
  predicate AvailInv(h: Hub) {
    var c := h.conn;
    && IsForest(h.devs) && IsTop(h.devs, c.host)
    && (InSession(c.state) <==> OnlineAt(h.devs, c.host))
    && (Scan(c.log) != Untidy ==> OnlineKnown(h.devs, c.host, Known(c)))
  }

  /** The addresses of the sub-devices that may be online. */
  function Known(c: Conn): set<Text> {
    if InSession(c.state) && Scan(c.log) == Informed then KnownAddresses(c.host, c.names) else {}
  }

  predicate Silent(a: Action) { !a.Opened? && !a.Announces? && !a.Applies? }

  lemma SilentScan(log: seq<Action>, a: Action)
    requires Silent(a)
    ensures Scan(log + [a]) == Scan(log)
  {
    assert (log + [a])[..|log|] == log;
  }

  lemma SendScan(c: Conn, msg: u16, payload: seq<byte>)
    ensures Scan(SendMessage(c, msg, payload).log) == Scan(c.log)
  {
    hide Frame, Inner, Encrypt;
    if c.noise.Some? && c.noise.value.phase == Complete {
      var body := Encrypt(c.noise.value, Inner(msg, payload)).1;
      SilentScan(c.log, Sent(msg, payload));
      SilentScan(c.log + [Sent(msg, payload)], Wrote(Frame(body)));
    }
  }

  /** The invariant looks at these parts of a state only. */
  lemma SameAvail(h: Hub, r: Hub)
    requires AvailInv(h) && r.devs == h.devs && r.conn.host == h.conn.host && r.conn.names == h.conn.names
    requires r.conn.state == h.conn.state && Scan(r.conn.log) == Scan(h.conn.log)
    ensures AvailInv(r)
  {
  }

  lemma SendAvail(h: Hub, msg: u16, payload: seq<byte>)
    requires AvailInv(h)
    ensures AvailInv(h.(conn := SendMessage(h.conn, msg, payload)))
  {
    hide AvailInv, SendMessage;
    SendScan(h.conn, msg, payload);
    SendKeeps(h.conn, msg, payload);
    SameAvail(h, h.(conn := SendMessage(h.conn, msg, payload)));
  }

  // ---------------------------------------------------------------- closing

  lemma OfflineAll(devs: Devs, host: Text, known: set<Text>)
    requires OnlineKnown(devs, host, known) && Has(devs, host)
    ensures OnlineKnown(SetOffline(SetOnline(devs, host, false), known), host, {})
  {
    var devs1 := SetOnline(devs, host, false);
    assert forall i :: 0 <= i < |devs| ==> devs1[i] == devs[i] || (devs1[i].host == host && !devs1[i].online);
  }

  lemma OfflineMain(devs: Devs, host: Text, known: set<Text>)
    requires Has(devs, host)
    ensures !OnlineAt(SetOffline(SetOnline(devs, host, false), known), host)
  {
    var devs1 := SetOnline(devs, host, false);
    PutFind(devs, Find(devs, host).(online := false), host);
    SameHosts(devs1, SetOffline(devs1, known), host);
  }

  lemma ClosedAvail(h: Hub)
    requires AvailInv(h)
    ensures AvailInv(OnDisconnected(h))
  {
    hide SetOnline, SetOffline, Active, OnlineKnown, OnlineAt, IsForest, Tended, KnownAddresses;
    var c := h.conn;
    SilentScan(c.log, Closed);
    TendedDisconnected(h);
    TendedForest(c.host, h.devs, OnDisconnected(h).devs);
    if InSession(c.state) {
      OfflineMain(h.devs, c.host, KnownAddresses(c.host, c.names));
      if Scan(c.log) != Untidy {
        OnlineKnownMore(h.devs, c.host, Known(c), KnownAddresses(c.host, c.names));
        OfflineAll(h.devs, c.host, KnownAddresses(c.host, c.names));
      }
    }
  }

  lemma OnlineKnownMore(devs: Devs, host: Text, known: set<Text>, more: set<Text>)
    requires OnlineKnown(devs, host, known) && known <= more
    ensures OnlineKnown(devs, host, more)
  {
  }

  lemma CloseAvail(h: Hub)
    requires AvailInv(h)
    ensures AvailInv(RequestClose(h)) && AvailInv(Abort(h))
  {
    hide AvailInv, OnDisconnected;
    var c := Log(h.conn, CloseRequested);
    SilentScan(h.conn.log, CloseRequested);
    SameAvail(h, h.(conn := c.(socket := Unconnected)));
    SameAvail(h, h.(conn := h.conn.(socket := Unconnected)));
    ClosedAvail(h.(conn := c.(socket := Unconnected)));
    ClosedAvail(h.(conn := h.conn.(socket := Unconnected)));
    if c.deferrals > 0 {
      SameAvail(h, h.(conn := c.(socket := Closing, deferrals := c.deferrals - 1)));
    }
  }

  // ---------------------------------------------------------------- discovery

  lemma GroupOnline(devs: Devs, host: Text, names: Names, id: int, infos: seq<EntityInfo>, known: set<Text>)
    requires OnlineKnown(devs, host, known) && AddressOf(host, names, id) in known
    ensures OnlineKnown(ApplyGroup(devs, host, names, id, infos), host, known)
  {
    hide SubAddress, Applied;
    if Has(devs, host) {
      var main, name := Find(devs, host), NameOf(names, id);
      var devs1 := WithSub(devs, main, name);
      var d := Find(devs1, SubAddress(host, name));
      AppliedOnline(Renewed(d, main, name), infos);
      assert OnlineKnown(devs1, host, known);
    }
  }

  lemma AppliedOnline(d: Dev, infos: seq<EntityInfo>)
    ensures var e := Applied(d, infos); e.online == d.online && e.parent == d.parent && e.host == d.host
  {
  }

  lemma {:induction false} GroupsOnline(devs: Devs, host: Text, names: Names, pending: seq<EntityInfo>,
                                        ids: seq<int>, known: set<Text>)
    requires OnlineKnown(devs, host, known) && forall id :: id in ids ==> AddressOf(host, names, id) in known
    ensures OnlineKnown(ApplyGroups(devs, host, names, pending, ids), host, known)
    decreases |ids|
  {
    hide ApplyGroup, OnlineKnown, AddressOf;
    if ids != [] {
      var most, id := ids[..|ids| - 1], ids[|ids| - 1];
      assert id in ids;
      GroupsOnline(devs, host, names, pending, most, known);
      GroupOnline(ApplyGroups(devs, host, names, pending, most), host, names, id, Group(pending, id), known);
    }
  }

  lemma DiscoveredOnline(devs: Devs, host: Text, names: Names, pending: seq<EntityInfo>)
    requires OnlineKnown(devs, host, KnownAddresses(host, names)) && Covers(names, pending)
    ensures OnlineKnown(ApplyDiscovered(devs, host, names, pending), host, KnownAddresses(host, names))
  {
    hide ApplyGroups, Applied;
    if Has(devs, host) {
      var known, ids := KnownAddresses(host, names), Ascending(GroupIds(pending));
      var main := Applied(Find(devs, host), Group(pending, 0));
      AppliedOnline(Find(devs, host), Group(pending, 0));
      assert OnlineKnown(Put(devs, main), host, known);
      forall id | id in ids
        ensures AddressOf(host, names, id) in known
      {
        assert id in GroupIds(pending);
        var i :| 0 <= i < |pending| && pending[i].deviceId == id && id != 0;
        assert pending[i] in pending;
      }
      GroupsOnline(Put(devs, main), host, names, pending, ids, known);
    }
  }

  // ---------------------------------------------------------------- messages, frames, events

  lemma InfoAvail(h: Hub, payload: Payload)
    requires AvailInv(h) && InSession(h.conn.state)
    ensures AvailInv(OnDeviceInfo(h, payload))
  {
    hide InfoFrom, WithInfo, SendMessage, IsForest, Tended, KnownAddresses, OnlineKnown, Put, OnlineAt;
    var c := h.conn;
    var info := InfoFrom(Proto.Decode(payload));
    var c1 := Log(c.(names := info.subNames, pending := [], state := ListEntities), Announces(info.subNames));
    assert (c.log + [Announces(info.subNames)])[..|c.log|] == c.log;
    SendScan(c1, LIST_ENTITIES_REQUEST, []);
    SendKeeps(c1, LIST_ENTITIES_REQUEST, []);
    TendedInfo(h, payload);
    TendedForest(c.host, h.devs, OnDeviceInfo(h, payload).devs);
    InfoStays(h.devs, c.host, info);
    if Scan(c.log) == Fresh {
      InfoOnline(h.devs, c.host, info);
      OnlineKnownMore(OnDeviceInfo(h, payload).devs, c.host, {}, KnownAddresses(c.host, info.subNames));
    }
  }

  /** Neither device information nor discovery changes the availability of the main device. */
  lemma InfoStays(devs: Devs, host: Text, info: Info)
    requires Has(devs, host)
    ensures OnlineAt(Put(devs, WithInfo(Find(devs, host), info)), host) <==> OnlineAt(devs, host)
  {
    PutFind(devs, WithInfo(Find(devs, host), info), host);
  }

  lemma DiscoveryStays(devs: Devs, host: Text, names: Names, pending: seq<EntityInfo>)
    requires Has(devs, host)
    ensures OnlineAt(ApplyDiscovered(devs, host, names, pending), host) <==> OnlineAt(devs, host)
  {
    hide ApplyDiscovered, Applied, Group, Conservation.LastOfAddress, Conservation.CarriesGroup;
    Conservation.DiscoveryConserves(devs, host, names, pending);
    AppliedOnline(Find(devs, host), Group(pending, 0));
  }

  lemma InfoOnline(devs: Devs, host: Text, info: Info)
    requires OnlineKnown(devs, host, {}) && Has(devs, host)
    ensures OnlineKnown(Put(devs, WithInfo(Find(devs, host), info)), host, {})
  {
  }

  lemma DoneAvail(h: Hub)
    requires AvailInv(h) && InSession(h.conn.state)
    ensures AvailInv(OnListDone(h))
  {
    hide ApplyDiscovered, SendMessage, IsForest, Tended, KnownAddresses, OnlineKnown, Covers, OnlineAt;
    var c := h.conn;
    var c1 := Log(c, Applies(c.names, c.pending, h.devs)).(state := Subscribe);
    assert (c.log + [Applies(c.names, c.pending, h.devs)])[..|c.log|] == c.log;
    SendScan(c1, SUBSCRIBE_STATES, []);
    SendKeeps(c1, SUBSCRIBE_STATES, []);
    TendedDiscovered(h.devs, c.host, c.names, c.pending);
    TendedForest(c.host, h.devs, OnListDone(h).devs);
    DiscoveryStays(h.devs, c.host, c.names, c.pending);
    if Scan(c.log) == Informed && Covers(c.names, c.pending) {
      DiscoveredOnline(h.devs, c.host, c.names, c.pending);
    }
  }

  lemma MessageAvail(h: Hub, msg: u16, payload: Payload)
    requires AvailInv(h) && InSession(h.conn.state)
    ensures AvailInv(ProcessMessage(h, msg, payload))
  {
    hide AvailInv, OnDeviceInfo, OnListDone, Announced, SendMessage, RequestClose, Scan;
    var c := Log(h.conn, Dispatched(msg, payload));
    SilentScan(h.conn.log, Dispatched(msg, payload));
    SameAvail(h, h.(conn := c));
    SendAvail(h.(conn := c), DEVICE_INFO_REQUEST, []);
    SendAvail(h.(conn := c), DISCONNECT_RESPONSE, []);
    InfoAvail(h.(conn := c), payload);
    DoneAvail(h.(conn := c));
    CloseAvail(h.(conn := SendMessage(c, DISCONNECT_RESPONSE, [])));
    if IsEntityMessage(msg) {
      SameAvail(h, h.(conn := c.(pending := c.pending + Announced(msg, payload))));
    }
  }

  lemma SealedAvail(h: Hub, frame: seq<byte>)
    requires AvailInv(h) && InSession(h.conn.state)
    ensures AvailInv(OnSealedFrame(h, frame).hub)
  {
    hide AvailInv, ProcessMessage, RequestClose, Word, PayloadOf;
    if h.conn.noise.Some? {
      var (session, plain) := Decrypt(h.conn.noise.value, frame);
      var h1 := h.(conn := h.conn.(noise := Some(session)));
      SameAvail(h, h1);
      CloseAvail(h1);
      if |plain| >= 4 {
        MessageAvail(h1, Word(plain[0], plain[1]), PayloadOf(plain));
      }
    }
  }

  lemma OnlineStarts(h: Hub, c: Conn)
    requires AvailInv(h) && !InSession(h.conn.state) && InSession(c.state)
    requires c.host == h.conn.host && c.log == h.conn.log && c.names == h.conn.names
    ensures AvailInv(Hub(c, SetOnline(h.devs, c.host, true)))
  {
    hide IsForest, Tended, KnownAddresses;
    HostNotEmpty(h.devs, c.host);
    TendedOnline(h.devs, c.host, true);
    TendedForest(c.host, h.devs, SetOnline(h.devs, c.host, true));
    PutFind(h.devs, Find(h.devs, c.host).(online := true), c.host);
  }

  lemma AnswerAvail(h: Hub, frame: seq<byte>)
    requires AvailInv(h) && h.conn.state == NoiseHandshake
    ensures AvailInv(OnHandshakeAnswer(h, frame).hub)
  {
    hide AvailInv, RequestClose, SendMessage, SetOnline, HelloPayload;
    CloseAvail(h);
    if h.conn.noise.Some? && frame != [] {
      var c := h.conn.(noise := Some(ReadHandshake(h.conn.noise.value, frame[1..])));
      SameAvail(h, h.(conn := c));
      CloseAvail(h.(conn := c));
      var c1 := c.(state := Ready, handshake := false, ping := true);
      OnlineStarts(h, c1);
      SendAvail(Hub(c1, SetOnline(h.devs, c1.host, true)), HELLO_REQUEST, HelloPayload());
    }
  }

  lemma HelloAvail(h: Hub, frame: seq<byte>)
    requires AvailInv(h) && h.conn.state == ServerHello
    ensures AvailInv(OnServerHello(h, frame).hub)
  {
    hide RequestClose, AdoptName, IsForest, Tended, KnownAddresses, Scan, OnlineAt, OnlineKnown;
    CloseAvail(h);
    if frame != [] {
      TendedAdopted(h.devs, h.conn.host, frame);
      TendedForest(h.conn.host, h.devs, AdoptName(h.devs, h.conn.host, frame));
      AdoptedStays(h.devs, h.conn.host, frame, Known(h.conn));
    }
  }

  /** A new name changes no availability. */
  lemma AdoptedStays(devs: Devs, host: Text, frame: seq<byte>, known: set<Text>)
    requires frame != [] && Has(devs, host)
    ensures OnlineAt(AdoptName(devs, host, frame), host) <==> OnlineAt(devs, host)
    ensures OnlineKnown(devs, host, known) ==> OnlineKnown(AdoptName(devs, host, frame), host, known)
  {
    hide FromUtf8;
    if 1 < NameEnd(frame, 1) {
      PutFind(devs, Find(devs, host).(name := FromUtf8(frame[1..NameEnd(frame, 1)])), host);
    }
  }

  lemma FrameAvail(h: Hub, frame: seq<byte>)
    requires AvailInv(h)
    ensures AvailInv(HandleFrame(h, frame).hub)
  {
    hide AvailInv, OnServerHello, OnHandshakeAnswer, OnSealedFrame;
    if h.conn.state == ServerHello {
      HelloAvail(h, frame);
    } else if h.conn.state == NoiseHandshake {
      AnswerAvail(h, frame);
    } else if InSession(h.conn.state) {
      SealedAvail(h, frame);
    }
  }

  lemma {:induction false} PumpAvail(h: Hub)
    requires AvailInv(h)
    ensures AvailInv(Pump(h))
    decreases |h.conn.rx|
  {
    hide AvailInv, HandleFrame, RequestClose;
    CloseAvail(h);
    var rx := h.conn.rx;
    if !Waits(rx) && rx[0] == 1 {
      var n := FrameSize(rx);
      var h1 := h.(conn := h.conn.(rx := rx[n..]));
      SameAvail(h, h1);
      FrameAvail(h1, rx[3..n]);
      if !HandleFrame(h1, rx[3..n]).stop {
        PumpAvail(HandleFrame(h1, rx[3..n]).hub);
      }
    }
  }

  lemma OpenedAvail(h: Hub, keys: Keys)
    requires AvailInv(h) && !InSession(h.conn.state)
    ensures AvailInv(OnConnected(h, keys))
  {
    hide Frame, WriteHandshake, IsForest, KnownAddresses;
    var log := h.conn.log;
    var (session, message) := WriteHandshake(Begin(keys));
    assert (log + [Opened])[..|log|] == log;
    SilentScan(log + [Opened], Wrote(Frame([]) + Frame([0] + message)));
  }

  /** Leaving a state outside the session for another one. */
  lemma IdleAvail(h: Hub, r: Hub)
    requires AvailInv(h) && !InSession(h.conn.state) && !InSession(r.conn.state) && r.devs == h.devs
    requires r.conn.host == h.conn.host && r.conn.log == h.conn.log
    ensures AvailInv(r)
  {
  }

  lemma ReconnectAvail(h: Hub, fails: bool)
    requires AvailInv(h) && SessionInv(h.conn)
    ensures AvailInv(OnReconnectTimer(h, fails))
  {
    hide AvailInv, Abort, Active;
    CloseAvail(h);
    AbortKeeps(h);
    TendedClose(h);
    IdleAvail(Abort(h), OnReconnectTimer(h, fails));
  }

  /** Every event keeps the availability invariant. */
  lemma StepAvail(h: Hub, e: Event)
    requires AvailInv(h) && SessionInv(h.conn)
    ensures AvailInv(Step(h, e))
  {
    hide AvailInv, OnConnected, OnDisconnected, SendMessage, Pump, Abort, OnReconnectTimer, Active, Scan;
    var c := h.conn;
    match e
    case Connects(keys) =>
      if c.socket == Connecting {
        OpenedAvail(h, keys);
      }
    case DialFails => SameAvail(h, Step(h, e));
    case Fails => SameAvail(h, Step(h, e));
    case Drops =>
      SameAvail(h, h.(conn := c.(socket := Unconnected)));
      ClosedAvail(h.(conn := c.(socket := Unconnected)));
    case Reads(bytes, deferrals) =>
      SameAvail(h, h.(conn := c.(deferrals := deferrals, rx := c.rx + bytes)));
      PumpAvail(h.(conn := c.(deferrals := deferrals, rx := c.rx + bytes)));
    case PingTimer => SendAvail(h, PING_REQUEST, []);
    case ReconnectTimer(fails) =>
      SameAvail(h, h.(conn := c.(reconnect := false)));
      ReconnectAvail(h.(conn := c.(reconnect := false)), fails);
    case HandshakeTimer =>
      SameAvail(h, h.(conn := c.(handshake := false)));
      CloseAvail(h.(conn := c.(handshake := false)));
    case Command(host, id, body) =>
      var msg, payload := CommandSends(h, host, id, body);
      SendAvail(h, msg, payload);
  }
}
