/** Commands: which are sent, on which connection, and what arrives at the other end. */
module Commands {
  import opened Bytes
  import opened Noise
  import opened Proto
  import opened Texts
  import opened Devices
  import opened Messages
  import opened Discovery
  import opened Connection
  import opened Forest
  import opened Lifecycle
  import opened Chunks
  import opened Delivery
  import opened Service
  import opened History
  import opened Availabilities

  /** The kinds of entities that take commands, and the types of the messages that carry them. */
  predicate Carries(kind: Text, msg: int) {
    || (kind == "switch" && msg == 33) || (kind == "lock" && msg == 60) || (kind == "light" && msg == 32)
    || (kind == "cover" && msg == 30) || (kind == "climate" && msg == 48) || (kind == "select" && msg == 54)
    || (kind == "number" && msg == 51) || (kind == "button" && msg == 62)
  }

  lemma CarriesIff(kind: Text, msg: u16)
    ensures Carries(kind, msg) <==> CommandType(kind) == msg && msg != 0
  {
  }

  /** The device at `host` has an endpoint `id`, of a kind that goes with messages of type `msg`. */
  predicate Commandable(devs: Devs, host: Text, id: byte, msg: int) {
    Has(devs, host) && id in Find(devs, host).endpoints && Carries(Find(devs, host).endpoints[id].kind, msg)
  }

  /** The key first, and then what the action and its value add. */
  function Ordered(key: u32, body: Calls): Calls {
    [AddFixed32(1, key)] + body
  }

  // ---------------------------------------------------------------- on one connection

  /**
   A subscribed connection sends a command for an endpoint that its device or a sub-device has: one message
   of the type of its kind, with its key.
   */
  lemma CommandSent(h: Hub, host: Text, id: byte, body: Calls, msg: u16) returns (b: seq<byte>)
    requires SessionInv(h.conn) && h.conn.state == Subscribe && Commandable(h.devs, host, id, msg)
    ensures var key, r := Find(h.devs, host).endpoints[id].key, Step(h, Event.Command(host, id, body));
            && r.devs == h.devs && r.conn == h.conn.(noise := r.conn.noise, log := r.conn.log)
            && r.conn.log == h.conn.log + [Sent(msg, EncodedAll(Ordered(key, body))), Wrote(b)]
    ensures var payload := EncodedAll(Ordered(Find(h.devs, host).endpoints[id].key, body));
            Written(SendAll(h.conn, [Msg(msg, payload)]).log[|h.conn.log|..]) == b
  {
    hide Connection.SendMessage, EncodedAll, Inner, Frame, Encrypt;
    var ep := Find(h.devs, host).endpoints[id];
    CarriesIff(ep.kind, msg);
    var payload := CommandPayload(ep.key, body);
    SendWrites(h.conn, msg, payload);
    SendKeeps(h.conn, msg, payload);
    var e := Encrypt(h.conn.noise.value, Inner(msg, payload));
    b := Frame(e.1);
    SendOne(h.conn, Msg(msg, payload));
    var log := Connection.SendMessage(h.conn, msg, payload).log;
    assert log[|h.conn.log|..] == [Sent(msg, payload), Wrote(b)];
  }

  lemma SendOne(c: Conn, m: Msg)
    ensures SendAll(c, [m]) == Connection.SendMessage(c, m.msg, m.payload)
  {
    hide Connection.SendMessage;
    assert [m][1..] == [];
    assert SendAll(c, [m]) == SendAll(Connection.SendMessage(c, m.msg, m.payload), []);
  }

  /** Nothing happens otherwise: not subscribed, no such endpoint, or one that takes no commands. */
  lemma CommandDoesIff(h: Hub, host: Text, id: byte, body: Calls)
    requires SessionInv(h.conn)
    ensures Step(h, Event.Command(host, id, body)) != h <==>
            h.conn.state == Subscribe && exists msg: u16 :: Commandable(h.devs, host, id, msg)
  {
    hide SessionInv, Connection.SendMessage, CommandPayload;
    if msg: u16 :| h.conn.state == Subscribe && Commandable(h.devs, host, id, msg) {
      var b := CommandSent(h, host, id, body, msg);
    } else if Has(h.devs, host) && id in Find(h.devs, host).endpoints {
      var ep := Find(h.devs, host).endpoints[id];
      CarriesIff(ep.kind, CommandType(ep.kind));
      assert CommandType(ep.kind) != 0 ==> Commandable(h.devs, host, id, CommandType(ep.kind));
    }
  }

  /** The peer, in step and reading the bytes in any pieces, dispatches exactly the command, its key first. */
  lemma CommandArrives(h: Hub, host: Text, id: byte, body: Calls, msg: u16, peer: Hub, chunks: seq<Chunk>)
    requires SessionInv(h.conn) && h.conn.state == Subscribe && Commandable(h.devs, host, id, msg)
    requires InStep(peer, h.conn.noise.value) && peer.conn.rx == [] && h.conn.noise.value.sent < LAST_NONCE
    requires |EncodedAll(Ordered(Find(h.devs, host).endpoints[id].key, body))| <= MAX_PAYLOAD
    requires var r := Step(h, Event.Command(host, id, body));
             r.conn.log == h.conn.log + r.conn.log[|h.conn.log|..]
             && Joined(chunks) == Written(r.conn.log[|h.conn.log|..])
    ensures var payload := EncodedAll(Ordered(Find(h.devs, host).endpoints[id].key, body));
            && Dispatches(Cut(Since(peer, ReadAll(peer, chunks)))) == [Msg(msg, payload)]
            && Decoded(payload).Fields? && Decode(payload) != []
            && Decode(payload)[0].field == 1 && Decode(payload)[0].bits == Find(h.devs, host).endpoints[id].key
  {
    hide EncodedAll, Decoded, SessionInv, InStep, SendAll, ReadAll, Dispatches, Cut, Step, Joined, Carries;
    var key := Find(h.devs, host).endpoints[id].key;
    var payload := EncodedAll(Ordered(key, body));
    var b := CommandSent(h, host, id, body, msg);
    WrittenOne(Sent(msg, payload), b);
    SubscribedComplete(h.conn);
    EndToEnd(peer, h.conn, [Msg(msg, payload)], chunks);
    CodecRoundTrip(Ordered(key, body));
    FieldNumberKeptIff(1);
  }

  lemma SubscribedComplete(c: Conn)
    requires SessionInv(c) && c.state == Subscribe
    ensures c.noise.Some? && c.noise.value.phase == Complete
  {
  }

  lemma WrittenOne(a: Action, b: seq<byte>)
    requires !a.Wrote?
    ensures Written([a, Wrote(b)]) == b
  {
    assert [a, Wrote(b)] == [a] + [Wrote(b)];
    assert [a, Wrote(b)][1..] == [Wrote(b)] && [Wrote(b)][1..] == [];
    assert Written([Wrote(b)]) == b + Written([]) == b;
  }

  // ---------------------------------------------------------------- in the service

  /** The device a command names: the first of that name, or else the first of that host. */
  predicate Addressed(devs: Devs, id: Text, i: nat) {
    && i < |devs|
    && if exists j :: 0 <= j < |devs| && devs[j].name == id
       then devs[i].name == id && forall j :: 0 <= j < i ==> devs[j].name != id
       else devs[i].host == id && forall j :: 0 <= j < i ==> devs[j].host != id
  }

  lemma AddressedIff(devs: Devs, id: Text, i: nat)
    ensures Addressed(devs, id, i) <==> i < |devs| && IndexOf(devs, id) == i
    ensures IndexOf(devs, id) == |devs| <==> forall j :: 0 <= j < |devs| ==> devs[j].name != id && devs[j].host != id
  {
  }

  /** A command message for this endpoint. */
  ghost predicate Sends(before: seq<Action>, after: seq<Action>, ep: Endpoint, body: Calls) {
    exists msg: u16, b: seq<byte> ::
      Carries(ep.kind, msg) && after == before + [Sent(msg, EncodedAll(Ordered(ep.key, body))), Wrote(b)]
  }

  /** `r` is `s` after a command to endpoint `endpoint` of device `d`. */
  ghost predicate Routed(s: World, r: World, d: Dev, endpoint: byte, body: Calls) {
    var route := if d.parent == "" then d.host else d.parent;
    && route in s.conns && r.devs == s.devs && r.conns.Keys == s.conns.Keys
    && (forall x :: x in s.conns && x != route ==> r.conns[x] == s.conns[x])
    && if s.conns[route].state == Subscribe && endpoint in d.endpoints && Takes(d.endpoints[endpoint].kind)
       then Sends(s.conns[route].log, r.conns[route].log, d.endpoints[endpoint], body)
       else r == s
  }

  predicate Takes(kind: Text) {
    kind in {"switch", "lock", "light", "cover", "climate", "select", "number", "button"}
  }

  lemma TakesIff(kind: Text)
    ensures Takes(kind) <==> CommandType(kind) != 0
    ensures Takes(kind) <==> exists msg: u16 :: Carries(kind, msg)
    ensures Takes(kind) ==> Carries(kind, CommandType(kind))
  {
    CarriesIff(kind, CommandType(kind));
  }

  /**
   A command on a device's topic goes out on the connection of the device itself, or of its parent, and is
   looked up in the device itself. No other connection and no device changes.
   */
  lemma SendToIs(s: World, id: Text, endpoint: byte, body: Calls, i: nat)
    requires ServiceInv(s) && Addressed(s.devs, id, i)
    ensures Routed(s, Run1(s, SendTo(id, endpoint, body)), s.devs[i], endpoint, body)
  {
    hide ServiceInv, IndexOf, Addressed, Routed, Step;
    AddressedIff(s.devs, id, i);
    EventRouted(s, i, endpoint, body);
  }

  lemma EventRouted(s: World, i: nat, endpoint: byte, body: Calls)
    requires ServiceInv(s) && i < |s.devs|
    ensures var d := s.devs[i];
            Routed(s, OnEvent(s, Route(d), Event.Command(d.host, endpoint, body)), d, endpoint, body)
  {
    hide ServiceInv, Step, SessionInv, EncodedAll, Carries, Takes;
    var d := s.devs[i];
    RouteExists(s, i);
    AddressedFound(s, i);
    var h := Hub(s.conns[Route(d)], s.devs);
    var r := Step(h, Event.Command(d.host, endpoint, body));
    CommandDoesIff(h, d.host, endpoint, body);
    if h.conn.state == Subscribe && endpoint in d.endpoints {
      TakesIff(d.endpoints[endpoint].kind);
      if Takes(d.endpoints[endpoint].kind) {
        var b := CommandSent(h, d.host, endpoint, body, CommandType(d.endpoints[endpoint].kind));
      }
    }
  }

  /** Without such a device a command does nothing. */
  lemma SendToNobody(s: World, id: Text, endpoint: byte, body: Calls)
    requires forall j :: 0 <= j < |s.devs| ==> s.devs[j].name != id && s.devs[j].host != id
    ensures Run1(s, SendTo(id, endpoint, body)) == s
  {
    AddressedIff(s.devs, id, 0);
  }

  lemma AddressedFound(s: World, i: nat)
    requires ServiceInv(s) && i < |s.devs| && Route(s.devs[i]) in s.conns
    ensures Has(s.devs, s.devs[i].host) && Find(s.devs, s.devs[i].host) == s.devs[i]
    ensures SessionInv(s.conns[Route(s.devs[i])])
  {
    hide SessionInv, HistoryInv, AvailInv;
    FindAt(s.devs, i);
  }
}
