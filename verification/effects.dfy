/** What operations and events do, member by member and in the service's own numbers. */
module Effects {
  import opened Bytes
  import opened Noise
  import opened Proto
  import opened Texts
  import opened ObjectIds
  import opened Slots
  import opened Devices
  import opened Messages
  import opened Announcements
  import opened Discovery
  import opened Connection
  import opened Forest
  import opened Lifecycle
  import opened History
  import opened Availabilities
  import opened Service
  import opened Commands
  import Conservation

  // ---------------------------------------------------------------- operations on the list

  /** An update sets the members it has, of the device it names, and nothing else. */
  lemma UpdateIs(s: World, op: Op, i: nat)
    requires op.UpdateDevice? && Addressed(s.devs, op.id, i)
    ensures var d, r := s.devs[i], Run1(s, op);
            && r.conns == s.conns && |r.devs| == |s.devs|
            && (forall j :: 0 <= j < |s.devs| && j != i ==> r.devs[j] == s.devs[j])
            && r.devs[i] == d.(name := r.devs[i].name, active := r.devs[i].active,
                               discovery := r.devs[i].discovery, cloud := r.devs[i].cloud)
            && r.devs[i].name == (match op.newName case None => d.name case Some(name) => name)
            && r.devs[i].active == (match op.activity case None => d.active case Some(flag) => flag)
            && r.devs[i].discovery == (match op.exposure case None => d.discovery case Some(flag) => flag)
            && r.devs[i].cloud == (match op.sharing case None => d.cloud case Some(flag) => flag)
  {
    hide IndexOf, Addressed;
    AddressedIff(s.devs, op.id, i);
  }

  lemma UpdateNobody(s: World, op: Op)
    requires op.UpdateDevice? && forall j :: 0 <= j < |s.devs| ==> s.devs[j].name != op.id && s.devs[j].host != op.id
    ensures Run1(s, op) == s
  {
    hide IndexOf;
    AddressedIff(s.devs, op.id, 0);
  }

  /** A device is added unless its host is empty or taken, or its key has not 32 bytes. */
  lemma AddIsIff(s: World, op: Op)
    requires op.AddDevice?
    ensures Run1(s, op) != s <==>
            op.host != "" && |op.key| == 32 && forall j :: 0 <= j < |s.devs| ==> s.devs[j].host != op.host
  {
    hide Dialled, Added;
    HasIff(s.devs, op.host);
  }

  /** It has the name, or else the host, the port, the key and the flags given, and is dialled. */
  lemma AddedIs(s: World, op: Op)
    requires ServiceInv(s) && op.AddDevice? && Run1(s, op) != s
    ensures var r := Run1(s, op);
            && |r.devs| == |s.devs| + 1 && r.devs[..|s.devs|] == s.devs
            && var d := r.devs[|s.devs|];
               && d.host == op.host && d.port == op.port && d.key == op.key
               && d.name == (if op.name == "" then op.host else op.name)
               && d.discovery == op.discovery && d.cloud == op.cloud
               && d.active && !d.online && d.parent == "" && d.slots == map[] && d.endpoints == map[]
               && d.options == map[] && d.published == [] && d.lastSeen == 0
               && d.manufacturer == d.model == d.version == ""
    ensures var r := Run1(s, op);
            && r.conns.Keys == s.conns.Keys + {op.host}
            && (forall x :: x in s.conns ==> x != op.host && r.conns[x] == s.conns[x])
            && r.conns[op.host].socket == (if op.fails then Unconnected else Connecting)
            && r.conns[op.host].reconnect == op.fails && r.conns[op.host].log == []
  {
    hide ServiceInv, IsTop, IndexOf;
    HasIff(s.devs, op.host);
    NotTop(s.devs, op.host);
    RoutesOf(s);
    var d := Added(op.host, op.port, op.key, op.name, op.discovery, op.cloud);
    AppendFind(s.devs, d, op.host);
    NewTop(s.devs, d);
    ConnectIs(s.(devs := s.devs + [d]), op.host, op.fails);
  }

  lemma NewTop(devs: Devs, d: Dev)
    requires !Has(devs, d.host) && d.parent == ""
    ensures IsTop(devs + [d], d.host)
  {
    AppendFind(devs, d, d.host);
  }

  lemma RoutesOf(s: World)
    requires ServiceInv(s)
    ensures forall x :: x in s.conns <==> IsTop(s.devs, x)
  {
    hide IsTop, ConnInv, IsForest;
  }

  /** Removing takes the device named and those whose parent it is, and its own connection. */
  lemma RemoveIs(s: World, id: Text, i: nat)
    requires ServiceInv(s) && Addressed(s.devs, id, i)
    ensures var r := Run1(s, RemoveDevice(id));
            && (forall j :: 0 <= j < |s.devs| ==>
                  (Has(r.devs, s.devs[j].host) <==> j != i && s.devs[j].parent != s.devs[i].host))
            && (forall x :: Has(r.devs, x) ==> Has(s.devs, x) && Find(r.devs, x) == Find(s.devs, x))
            && r.conns == s.conns - {s.devs[i].host}
  {
    hide IndexOf, Survivors, Addressed, ConnInv, Apart, Rooted;
    AddressedIff(s.devs, id, i);
    var r := Survivors(s.devs, i, |s.devs|);
    forall j | 0 <= j < |s.devs|
      ensures Has(r, s.devs[j].host) <==> j != i && s.devs[j].parent != s.devs[i].host
    {
      RemovalExact(s.devs, i, j);
    }
    forall x | Has(r, x)
      ensures Has(s.devs, x) && Find(r, x) == Find(s.devs, x)
    {
      SurvivorFind(s.devs, i, x);
    }
  }

  // ---------------------------------------------------------------- discovery

  /** The endpoints of a device are those of these entities: each under its number, with what it holds. */
  ghost predicate Serving(d: Dev, slots: SlotMap, infos: seq<EntityInfo>) {
    && |d.endpoints| == |infos| == |EndpointIds(slots, Asks(infos))|
    && forall i :: 0 <= i < |infos| ==>
         EndpointIds(slots, Asks(infos))[i] in d.endpoints
         && Describes(d.endpoints[EndpointIds(slots, Asks(infos))[i]], infos, i)
  }

  lemma AppliedServes(d: Dev, infos: seq<EntityInfo>)
    requires Fits(d.slots, Asks(infos))
    ensures Serving(Applied(d, infos), d.slots, infos)
  {
    hide Applied, EndpointIds, Fits, Describes, Round, Faithful;
    AppliedKeys(d, infos);
    EndpointsKeptIff(d, infos);
    forall i | 0 <= i < |infos|
      ensures EndpointIds(d.slots, Asks(infos))[i] in Applied(d, infos).endpoints
      ensures Describes(Applied(d, infos).endpoints[EndpointIds(d.slots, Asks(infos))[i]], infos, i)
    {
      EndpointsKept(d, infos, i);
    }
  }

  lemma AppliedRest(d: Dev, infos: seq<EntityInfo>)
    ensures var r := Applied(d, infos); r == d.(slots := r.slots, endpoints := r.endpoints, options := r.options)
  {
  }

  /** The main device keeps all but endpoints, options and slots; its entities are those without a sub-device. */
  lemma MainIs(devs: Devs, host: Text, names: Names, pending: seq<EntityInfo>)
    requires Has(devs, host)
    ensures var d, r := Find(devs, host), ApplyDiscovered(devs, host, names, pending);
            && Has(r, host)
            && Find(r, host) == d.(slots := Find(r, host).slots, endpoints := Find(r, host).endpoints,
                                   options := Find(r, host).options)
            && (Fits(d.slots, Asks(Group(pending, 0))) ==> Serving(Find(r, host), d.slots, Group(pending, 0)))
  {
    hide ApplyDiscovered, Applied, Group, Fits, Serving, Has, Find, Conservation.LastOfAddress,
      Conservation.CarriesGroup;
    Conservation.DiscoveryConserves(devs, host, names, pending);
    AppliedRest(Find(devs, host), Group(pending, 0));
    if Fits(Find(devs, host).slots, Asks(Group(pending, 0))) {
      AppliedServes(Find(devs, host), Group(pending, 0));
    }
  }

  /** A sub-device that a discovery finds: online, under its own name, and described as part of its parent. */
  predicate Found(d: Dev, main: Dev, name: Text) {
    && d.online && d.parent == main.host && d.name == name
    && d.model == "Subdev " + name + " of " + main.name && d.manufacturer == main.manufacturer
  }

  /** A new one has the port, the key and the "cloud" flag of its parent, and is active. */
  predicate Fresh(d: Dev, main: Dev) {
    && d.port == main.port && d.key == main.key && d.cloud == main.cloud && d.active && d.discovery
    && d.version == "" && d.lastSeen == 0 && d.published == []
  }

  /** One that was there keeps these members. */
  predicate Kept(d: Dev, was: Dev) {
    && d.port == was.port && d.key == was.key && d.cloud == was.cloud && d.active == was.active
    && d.discovery == was.discovery && d.version == was.version && d.lastSeen == was.lastSeen
    && d.published == was.published
  }

  /** In `r` the sub-device `name` of `main` stands at its address, with exactly these entities. */
  ghost predicate Renews(devs: Devs, r: Devs, main: Dev, address: Text, name: Text, infos: seq<EntityInfo>) {
    && Has(r, address) && Found(Find(r, address), main, name)
    && (if Has(devs, address) then Kept(Find(r, address), Find(devs, address)) else Fresh(Find(r, address), main))
    && var slots := if Has(devs, address) then Find(devs, address).slots else map[];
       Fits(slots, Asks(infos)) ==> Serving(Find(r, address), slots, infos)
  }

  /**
   A sub-device with an address of its own, which is the host of its parent, an underscore, and its name, or
   else its id, with underscores for spaces.
   */
  lemma SubDeviceIs(devs: Devs, host: Text, names: Names, pending: seq<EntityInfo>, id: int)
    requires Has(devs, host) && id in GroupIds(pending) && Conservation.SoleOfAddress(host, names, pending, id)
    ensures var name := if id in names then names[id] else NumberText(id);
            var suffix := seq(|name|, i requires 0 <= i < |name| => if name[i] == ' ' then '_' else name[i]);
            Renews(devs, ApplyDiscovered(devs, host, names, pending), Find(devs, host), host + "_" + suffix, name,
                   Group(pending, id))
  {
    hide ApplyDiscovered, Applied, Group, Fits, Serving, GroupIds, Has, Find, Put, Renewed, Conservation.Target,
      NoSpaces;
    var main := Applied(Find(devs, host), Group(pending, 0));
    Conservation.SoleCarries(devs, host, names, pending, id);
    var name, address := NameOf(names, id), AddressOf(host, names, id);
    SubAddressIs(host, name);
    var d := Renewed(Conservation.Target(Put(devs, main), host, names, id), main, name);
    TargetIs(devs, host, names, pending, id);
    AppliedRest(d, Group(pending, id));
    if Fits(d.slots, Asks(Group(pending, id))) {
      AppliedServes(d, Group(pending, id));
    }
  }

  lemma SubAddressIs(host: Text, name: Text)
    ensures SubAddress(host, name) ==
            host + "_" + seq(|name|, i requires 0 <= i < |name| => if name[i] == ' ' then '_' else name[i])
  {
  }

  lemma TargetIs(devs: Devs, host: Text, names: Names, pending: seq<EntityInfo>, id: int)
    requires Has(devs, host)
    ensures var main := Applied(Find(devs, host), Group(pending, 0));
            var name, address := NameOf(names, id), AddressOf(host, names, id);
            && Has(Put(devs, main), host)
            && var d := Renewed(Conservation.Target(Put(devs, main), host, names, id), main, name);
               && Found(d, Find(devs, host), name)
               && (if Has(devs, address) then Kept(d, Find(devs, address)) && d.slots == Find(devs, address).slots
                   else Fresh(d, Find(devs, host)) && d.slots == map[])
  {
    hide Applied, SubAddress, Group;
    var main, address := Applied(Find(devs, host), Group(pending, 0)), AddressOf(host, names, id);
    AppliedRest(Find(devs, host), Group(pending, 0));
    PutFind(devs, main, host);
    PutFind(devs, main, address);
    SubAddressLonger(host, NameOf(names, id));
    Conservation.WithSubNew(Put(devs, main), Find(Put(devs, main), host), NameOf(names, id));
  }

  // ---------------------------------------------------------------- events of a connection

  /** A new connection: an empty hello and the first handshake message go out, and the answer is timed. */
  lemma ConnectsIs(h: Hub, keys: Keys)
    requires h.conn.socket == Connecting && |keys.message| < 0xFFFF
    ensures var size := |keys.message| + 1;
            var hello := [1, 0, 0] + [1, size / 0x100, size % 0x100] + ([0] + keys.message);
            Step(h, Connects(keys)) ==
            h.(conn := h.conn.(socket := Connected, reconnect := false, handshake := true, state := ServerHello,
                               noise := Some(Session(keys, Waiting, 0, 0)),
                               log := h.conn.log + [Opened, Wrote(hello)]))
  {
    var size, body := |keys.message| + 1, [0] + keys.message;
    assert Frame([]) == [1, 0, 0] && Frame(body) == [1, size / 0x100, size % 0x100] + body;
    var hello := [1, 0, 0] + [1, size / 0x100, size % 0x100] + body;
    assert Frame([]) + Frame(body) == hello;
    assert h.conn.log + [Opened] + [Wrote(hello)] == h.conn.log + [Opened, Wrote(hello)];
  }

  /** An error and a dial that fails arm the timer of an active device, and do nothing else. */
  lemma FailsIs(h: Hub)
    requires Has(h.devs, h.conn.host)
    ensures Step(h, Fails) == h.(conn := h.conn.(reconnect := Find(h.devs, h.conn.host).active || h.conn.reconnect))
    ensures h.conn.socket == Connecting ==>
              Step(h, DialFails) == h.(conn := Step(h, Fails).conn.(socket := Unconnected))
  {
  }

  /** The device of the connection, and those at the addresses of the sub-devices announced to it. */
  predicate Concerned(h: Hub, i: nat)
    requires i < |h.devs|
  {
    i == IndexOfHost(h.devs, h.conn.host) ||
    exists id :: id in h.conn.names && h.devs[i].host == SubAddress(h.conn.host, h.conn.names[id])
  }

  /**
   A lost connection: session, buffer and timers are gone, the reconnect timer is armed for an active
   device, and the devices concerned go offline if there was a session.
   */
  ghost predicate Loses(h: Hub, r: Hub) {
    && r.conn == h.conn.(socket := Unconnected, state := Disconnected, rx := [], noise := None, ping := false,
                         handshake := false, log := h.conn.log + [Closed],
                         reconnect := (Has(h.devs, h.conn.host) && Find(h.devs, h.conn.host).active)
                                      || h.conn.reconnect)
    && |r.devs| == |h.devs|
    && forall i :: 0 <= i < |h.devs| ==>
         r.devs[i] == h.devs[i].(online := h.devs[i].online
                                   && !(h.conn.state in {Ready, ListEntities, Subscribe} && Concerned(h, i)))
  }

  lemma LostIs(h: Hub)
    ensures Loses(h, OnDisconnected(h.(conn := h.conn.(socket := Unconnected))))
  {
    hide SubAddress;
    var r := OnDisconnected(h.(conn := h.conn.(socket := Unconnected)));
    var devs1 := SetOnline(h.devs, h.conn.host, false);
    forall i | 0 <= i < |h.devs|
      ensures h.devs[i].host in KnownAddresses(h.conn.host, h.conn.names) <==>
              exists id :: id in h.conn.names && h.devs[i].host == SubAddress(h.conn.host, h.conn.names[id])
      ensures devs1[i] == if i == IndexOfHost(h.devs, h.conn.host) then h.devs[i].(online := false) else h.devs[i]
    {
    }
  }

  lemma DropsIs(h: Hub)
    requires Open(h.conn.socket)
    ensures Loses(h, Step(h, Drops))
  {
    hide OnDisconnected, Loses;
    LostIs(h);
  }

  /** A request to close is carried out at once, or put off once more. */
  lemma CloseIs(h: Hub)
    ensures var h1 := h.(conn := h.conn.(log := h.conn.log + [CloseRequested]));
            if h.conn.deferrals == 0 then Loses(h1, RequestClose(h))
            else RequestClose(h) == h1.(conn := h1.conn.(socket := Closing, deferrals := h.conn.deferrals - 1))
  {
    hide OnDisconnected, Loses;
    LostIs(h.(conn := h.conn.(log := h.conn.log + [CloseRequested])));
  }

  /** Tearing down stops the timers and the session first, so no device goes offline, and then asks to close. */
  lemma TeardownIs(h: Hub)
    ensures var r := Teardown(h);
            && r.conn.state == Disconnected && !r.conn.ping && !r.conn.handshake && |r.devs| == |h.devs|
            && (forall i :: 0 <= i < |h.devs| ==> r.devs[i] == h.devs[i])
            && (if Open(h.conn.socket) then |r.conn.log| > |h.conn.log| && r.conn.log[|h.conn.log|] == CloseRequested
                else r.conn == h.conn.(ping := false, reconnect := false, handshake := false, state := Disconnected))
  {
    TeardownSpares(h);
  }

  /** A handshake that takes too long aborts the connection. */
  lemma HandshakeTimerIs(h: Hub)
    requires h.conn.handshake && Open(h.conn.socket)
    ensures Loses(h, Step(h, HandshakeTimer))
  {
    hide OnDisconnected, SubAddress;
    LostIs(h.(conn := h.conn.(handshake := false)));
  }

  /** A ping goes out in states Ready and Subscribe. */
  lemma PingIs(h: Hub)
    requires SessionInv(h.conn)
    ensures h.conn.state in {Ready, Subscribe} ==>
              exists b :: Step(h, PingTimer).conn.log == h.conn.log + [Sent(7, []), Wrote(b)]
    ensures h.conn.state !in {Ready, Subscribe} ==> Step(h, PingTimer) == h
    ensures Step(h, PingTimer).devs == h.devs
  {
    hide Inner, Frame, Encrypt;
    if h.conn.state in {Ready, Subscribe} {
      var b := Frame(Encrypt(h.conn.noise.value, Inner(7, [])).1);
      assert Step(h, PingTimer).conn.log == h.conn.log + [Sent(7, [])] + [Wrote(b)];
      assert Step(h, PingTimer).conn.log == h.conn.log + [Sent(7, []), Wrote(b)];
    }
  }

  lemma AbortIs(h: Hub)
    ensures if Open(h.conn.socket) then Loses(h, Abort(h)) else Abort(h) == h.(conn := h.conn.(socket := Unconnected))
  {
    hide OnDisconnected, Loses;
    LostIs(h);
  }

  lemma LosesActive(h: Hub, r: Hub)
    requires Loses(h, r)
    ensures r.conn.host == h.conn.host && (Active(r) <==> Active(h))
  {
    hide Concerned;
    SameHosts(h.devs, r.devs, h.conn.host);
  }

  /** The reconnect timer drops what there is of a connection and dials, if the device is active. */
  lemma ReconnectTimerIs(h: Hub, fails: bool)
    requires SessionInv(h.conn) && h.conn.reconnect
    ensures var r := Step(h, ReconnectTimer(fails));
            && r.conn.socket == (if Active(h) && !fails then Connecting else Unconnected)
            && r.conn.state == (if Active(h) then Dialing else Disconnected)
            && r.conn.reconnect == (Active(h) && fails)
            && r.conn.rx == [] && r.conn.noise == None && !r.conn.ping && !r.conn.handshake
            && r.conn.log == h.conn.log + (if Open(h.conn.socket) then [Closed] else [])
            && r.devs == Abort(h).devs
    ensures Open(h.conn.socket) ==> Loses(h, Abort(h))
    ensures !Open(h.conn.socket) ==> Abort(h).devs == h.devs
  {
    hide Abort, Active;
    var h1 := h.(conn := h.conn.(reconnect := false));
    AbortIs(h1);
    AbortIs(h);
    AbortSame(h);
    StepKeepsSession(h, ReconnectTimer(fails));
    var h2 := Abort(h1).(conn := Abort(h1).conn.(reconnect := false, state := Disconnected));
    ActiveSame(h, h1);
    ActiveSame(Abort(h1), h2);
    ActiveSame(h2, h2.(conn := h2.conn.(state := Dialing, rx := [], socket := Unconnected)));
    if Open(h.conn.socket) {
      LosesActive(h1, Abort(h1));
    } else {
      ActiveSame(h1, Abort(h1));
    }
  }

  lemma AbortSame(h: Hub)
    ensures Abort(h.(conn := h.conn.(reconnect := false))).devs == Abort(h).devs
  {
    hide SetOnline, SetOffline, KnownAddresses;
  }

  // ---------------------------------------------------------------- frames of a connection

  /** The greeting has a name: bytes 1..n-1, with the first 0 at n. */
  predicate NamedIn(greeting: seq<byte>, n: nat) {
    1 < n < |greeting| && greeting[n] == 0 && forall j :: 1 <= j < n ==> greeting[j] != 0
  }

  /** The server's greeting: a device that still goes by its address takes the name in it, if there is one. */
  lemma GreetingIs(h: Hub, greeting: seq<byte>)
    requires h.conn.state == ServerHello && greeting != [] && greeting[0] == 1
    ensures var o := HandleFrame(h, greeting);
            && !o.stop && o.hub.conn == h.conn.(state := NoiseHandshake)
            && (forall n: nat :: NamedIn(greeting, n) && Adopts(h, FromUtf8(greeting[1..n])) ==>
                  o.hub.devs == Put(h.devs, Find(h.devs, h.conn.host).(name := FromUtf8(greeting[1..n]))))
            && ((forall n: nat :: NamedIn(greeting, n) ==> !Adopts(h, FromUtf8(greeting[1..n]))) ==>
                  o.hub.devs == h.devs)
  {
    hide FromUtf8, Adopts;
    var end := NameEnd(greeting, 1);
    AdoptsIff(h, if end < |greeting| then FromUtf8(greeting[1..end]) else "");
    assert 1 < end < |greeting| ==> NamedIn(greeting, end);
    assert forall n: nat :: NamedIn(greeting, n) ==> n == end;
  }

  predicate Adopts(h: Hub, name: Text) {
    name != "" && Has(h.devs, h.conn.host) && Find(h.devs, h.conn.host).name == h.conn.host
  }

  lemma AdoptsIff(h: Hub, name: Text)
    ensures Adopts(h, name) <==>
            name != "" && Has(h.devs, h.conn.host) && Find(h.devs, h.conn.host).name == h.conn.host
  {
  }

  /** A frame that is no greeting, or no handshake answer that the keys accept, makes the slot ask to close. */
  lemma RejectedIs(h: Hub, frame: seq<byte>)
    requires SessionInv(h.conn)
    requires || (h.conn.state == ServerHello && (frame == [] || frame[0] != 1))
             || (h.conn.state == NoiseHandshake && (frame == [] || frame[0] != 0
                                                    || h.conn.noise.value.phase != Waiting
                                                    || !h.conn.noise.value.keys.accepts(frame[1..])))
    ensures var o := HandleFrame(h, frame);
            o.stop && |o.hub.conn.log| > |h.conn.log| && o.hub.conn.log[|h.conn.log|] == CloseRequested
  {
    hide OnDisconnected;
  }

  /** What the client says of itself: its name, and the version 1.14 of the API. */
  const Salutation: Calls := [AddBytes(1, [104, 111, 109, 101, 100, 45, 101, 115, 112, 104, 111, 109, 101]),
                              AddVarint(2, 1), AddVarint(3, 14)]

  /** An answer that the keys accept completes the session: the device is online and a hello goes out. */
  lemma AcceptedIs(h: Hub, answer: seq<byte>) returns (b: seq<byte>)
    requires SessionInv(h.conn) && h.conn.state == NoiseHandshake && Has(h.devs, h.conn.host)
    requires h.conn.noise.value.phase == Waiting && h.conn.noise.value.keys.accepts(answer)
    ensures var o := HandleFrame(h, [0] + answer);
            && !o.stop
            && o.hub.conn == h.conn.(state := Ready, handshake := false, ping := true, noise := o.hub.conn.noise,
                                     log := h.conn.log + [Sent(1, EncodedAll(Salutation)), Wrote(b)])
            && o.hub.conn.noise == Some(h.conn.noise.value.(phase := Complete, sent := o.hub.conn.noise.value.sent))
            && o.hub.devs == Put(h.devs, Find(h.devs, h.conn.host).(online := true))
  {
    hide Connection.SendMessage, Encoded;
    var frame, n := [0] + answer, h.conn.noise.value.(phase := Complete);
    assert frame[1..] == answer;
    var c := h.conn.(noise := Some(n), state := Ready, handshake := false, ping := true);
    assert HelloPayload() == EncodedAll(Salutation);
    SendKeeps(c, 1, HelloPayload());
    b := SentIs(c, 1, HelloPayload());
  }

  lemma SentIs(c: Conn, msg: u16, payload: seq<byte>) returns (b: seq<byte>)
    requires c.noise.Some? && c.noise.value.phase == Complete
    ensures Connection.SendMessage(c, msg, payload).log == c.log + [Sent(msg, payload), Wrote(b)]
  {
    hide Inner, Frame, Encrypt;
    b := Frame(Encrypt(c.noise.value, Inner(msg, payload)).1);
  }

  /** A sealed frame: two bytes of type, two of size, and what there is of the payload. */
  lemma SealedIs(h: Hub, frame: seq<byte>, plain: seq<byte>)
    requires SessionInv(h.conn) && InSession(h.conn.state) && h.conn.noise.value.received < LAST_NONCE
    requires h.conn.noise.value.keys.receive.dec(h.conn.noise.value.received, frame) == Some(plain) && |plain| >= 4
    ensures var n := h.conn.noise.value;
            var msg: u16 := (plain[0] as int) * 0x100 + plain[1];
            var size: int := (plain[2] as int) * 0x100 + plain[3];
            var payload := if 4 + size <= |plain| then plain[4..4 + size] else plain[4..];
            HandleFrame(h, frame) ==
            Outcome(ProcessMessage(h.(conn := h.conn.(noise := Some(n.(received := n.received + 1)))), msg, payload),
                    false)
  {
    hide ProcessMessage;
  }

  // ---------------------------------------------------------------- messages

  /** Device information is taken over where it is given, and a new list of entities begins. */
  lemma InfoIs(h: Hub, payload: Payload)
    requires Has(h.devs, h.conn.host)
    ensures var d, fields, r := Find(h.devs, h.conn.host), Decode(payload), ProcessMessage(h, 10, payload);
            && r.devs == Put(h.devs, d.(version := Given(fields, 4, d.version), model := Given(fields, 6, d.model),
                                        manufacturer := Given(fields, 12, d.manufacturer)))
            && r.conn == h.conn.(state := ListEntities, pending := [], names := r.conn.names, noise := r.conn.noise,
                                 log := r.conn.log)
            && forall id: u32 :: (id in r.conn.names <==> id != 0 && SubNameAt(fields, id).Some?)
                                 && (id in r.conn.names ==> r.conn.names[id] == SubNameAt(fields, id).value)
  {
    hide Connection.SendMessage, Decode, InfoFrom, SubNameAt, LastField;
    var h1 := h.(conn := Log(h.conn, Dispatched(10, payload)));
    InfoShape(h1, payload);
    InfoSaid(Decode(payload));
  }

  /** The last text under a number, or what there was. */
  function Given(fields: seq<ProtoField>, number: int, before: Text): Text {
    match MaybeText(fields, number) case None => before case Some(text) => text
  }

  /** The entities of an entity message wait for the end of the list, behind those before. */
  lemma EntityIs(h: Hub, msg: u16, payload: Payload)
    requires IsEntityMessage(msg)
    ensures ProcessMessage(h, msg, payload) ==
            h.(conn := h.conn.(pending := h.conn.pending + Announced(msg, payload),
                               log := h.conn.log + [Dispatched(msg, payload)]))
  {
    hide Announced;
  }

  /** The end of the list applies them, for the sub-devices announced, and the connection is subscribed. */
  lemma DoneIs(h: Hub, payload: Payload)
    ensures var r := ProcessMessage(h, 19, payload);
            && r.devs == ApplyDiscovered(h.devs, h.conn.host, h.conn.names, h.conn.pending)
            && r.conn == h.conn.(state := Subscribe, noise := r.conn.noise, log := r.conn.log)
            && (SessionInv(h.conn) && InSession(h.conn.state) ==>
                  exists b :: r.conn.log == h.conn.log + [Dispatched(19, payload),
                    Applies(h.conn.names, h.conn.pending, h.devs), Sent(20, []), Wrote(b)])
  {
    hide Connection.SendMessage, ApplyDiscovered, SessionInv;
    var h1 := h.(conn := Log(h.conn, Dispatched(19, payload)));
    DoneShape(h1);
    if SessionInv(h.conn) && InSession(h.conn.state) {
      SessionComplete(h.conn);
      var b := SentIs(Log(h1.conn, Applies(h.conn.names, h.conn.pending, h.devs)).(state := Subscribe), 20, []);
      assert OnListDone(h1).conn.log == h.conn.log + [Dispatched(19, payload),
        Applies(h.conn.names, h.conn.pending, h.devs), Sent(20, []), Wrote(b)];
    }
  }

  lemma SessionComplete(c: Conn)
    requires SessionInv(c) && InSession(c.state)
    ensures c.noise.Some? && c.noise.value.phase == Complete
  {
  }

  /** Messages of all other types but a hello and a request to disconnect leave everything as it is. */
  lemma OtherIs(h: Hub, msg: u16, payload: Payload)
    requires msg !in {2, 5, 10, 19} && !IsEntityMessage(msg)
    ensures ProcessMessage(h, msg, payload) == h.(conn := h.conn.(log := h.conn.log + [Dispatched(msg, payload)]))
  {
  }

  // ---------------------------------------------------------------- what cannot be read, and restarts

  /** A buffer of three bytes or more that does not begin with the indicator makes the slot ask to close. */
  lemma BadIndicatorIs(h: Hub)
    requires |h.conn.rx| >= 3 && h.conn.rx[0] != 1
    ensures |Pump(h).conn.log| > |h.conn.log| && Pump(h).conn.log[|h.conn.log|] == CloseRequested
  {
    hide OnDisconnected;
    PumpStep(h);
  }

  /** A frame that does not decrypt, or decrypts to nothing, does so too; one or two or three bytes are skipped. */
  lemma UnreadableIs(h: Hub, frame: seq<byte>)
    requires SessionInv(h.conn) && InSession(h.conn.state) && h.conn.noise.value.received < LAST_NONCE
    ensures var n, o := h.conn.noise.value, HandleFrame(h, frame);
            match n.keys.receive.dec(n.received, frame)
            case None => o.stop && |o.hub.conn.log| > |h.conn.log| && o.hub.conn.log[|h.conn.log|] == CloseRequested
            case Some(plain) =>
              && (plain == [] ==>
                    o.stop && |o.hub.conn.log| > |h.conn.log| && o.hub.conn.log[|h.conn.log|] == CloseRequested)
              && (1 <= |plain| < 4 ==>
                    o == Outcome(h.(conn := h.conn.(noise := Some(n.(received := n.received + 1)))), false))
  {
    hide OnDisconnected, ProcessMessage;
  }

  /** A restart dials every top-level device that comes back, with a new connection, and no other. */
  lemma RestartIs(s: World, failing: set<Text>, host: Text)
    requires IsForest(ReloadAll(s.devs))
    ensures var r := Run1(s, Restart(failing));
            && r.devs == ReloadAll(s.devs) && (host in r.conns <==> IsTop(r.devs, host))
            && (host in r.conns ==>
                  && r.conns[host].host == host && r.conns[host].log == [] && r.conns[host].names == map[]
                  && r.conns[host].socket == (if host in failing then Unconnected else Connecting)
                  && r.conns[host].reconnect == (host in failing && Find(r.devs, host).active))
  {
    hide ReloadAll, IsForest;
    TopHostsIff(ReloadAll(s.devs));
  }
}
