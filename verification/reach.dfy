/** A command reaches the entity it is meant for: from its announcement to the message that controls it. */
module Reach {
  import opened Bytes
  import opened Noise
  import opened Proto
  import opened Texts
  import opened Slots
  import opened Devices
  import opened Discovery
  import opened Connection
  import opened Forest
  import opened Lifecycle
  import opened History
  import opened Answers
  import opened Availabilities
  import opened Standing
  import opened Chunks
  import opened Delivery
  import opened Service
  import opened Commands
  import opened Rounds

  /** Over every run: the main device is online exactly while its connection is in session. */
  lemma OnlineExactly(s: World, host: Text)
    requires ServiceInv(s) && host in s.conns
    ensures Has(s.devs, host)
    ensures Find(s.devs, host).online <==> s.conns[host].state in {Ready, ListEntities, Subscribe}
  {
    hide IsForest, SessionInv, HistoryInv, Orderly, Current;
  }

  /** What a connection that is subscribed has applied last, and that it applied what it had collected. */
  lemma LastApplied(s: World, host: Text) returns (i: nat)
    requires ServiceInv(s) && host in s.conns && s.conns[host].state == Subscribe
    ensures var log := s.conns[host].log;
            && i < |log| && log[i].Applies? && LastRound(log) == Some(log[i])
            && log[i].entities == Collected(log[..i]) && log[i].names == AnnouncedNames(log[..i])
            && SameEndpoints(host, s.devs, AppliedTo(host, log[i]))
  {
    hide IsForest, SessionInv, Orderly, AvailInv, SameEndpoints, AppliedTo, Collected, AnnouncedNames;
    var log := s.conns[host].log;
    i := RoundAt(log);
    assert Justified(log[i], log[..i]);
  }

  lemma {:induction false} RoundAt(log: seq<Action>) returns (i: nat)
    requires LastRound(log).Some?
    ensures i < |log| && log[i] == LastRound(log).value
  {
    if log[|log| - 1].Applies? {
      i := |log| - 1;
    } else {
      i := RoundAt(log[..|log| - 1]);
    }
  }

  /** Device `d` was served with these entities by the last round of its connection, without overflow. */
  ghost predicate ServedLast(s: World, d: Dev, infos: seq<EntityInfo>) {
    && Route(d) in s.conns && LastRound(s.conns[Route(d)].log).Some?
    && var a := LastRound(s.conns[Route(d)].log).value;
       && Has(a.devs, Route(d)) && Serves(Route(d), a, d.host, infos)
       && Fits(SlotsBefore(a.devs, d.host), Asks(infos))
  }

  /** The number under which entity `k` of a device stands. */
  function NumberNow(s: World, d: Dev, infos: seq<EntityInfo>, k: nat): byte
    requires Route(d) in s.conns && LastRound(s.conns[Route(d)].log).Some?
  {
    IdGiven(LastRound(s.conns[Route(d)].log).value.devs, d.host, infos, k)
  }

  /**
   While its connection is subscribed a device has, under the number of each entity that the last round
   gave it, an endpoint with the key and the kind the entity was announced with, whatever has happened
   since to this and all other devices.
   */
  lemma EntityStands(s: World, i: nat, infos: seq<EntityInfo>, k: nat)
    requires ServiceInv(s) && i < |s.devs| && ServedLast(s, s.devs[i], infos) && k < |infos|
    requires s.conns[Route(s.devs[i])].state == Subscribe
    ensures var d := s.devs[i];
            && NumberNow(s, d, infos, k) in d.endpoints && Describes(d.endpoints[NumberNow(s, d, infos, k)], infos, k)
  {
    hide ServiceInv, Serves, SameEndpoints, AppliedTo, Describes, Fits, IdGiven, SlotsBefore;
    var d, host := s.devs[i], Route(s.devs[i]);
    var n := LastApplied(s, host);
    var a := s.conns[host].log[n];
    var served := ServedRound(host, a, d.host, infos);
    EndpointsFound(s.devs, host, i, AppliedTo(host, a));
    AppliedHolds(served, a.devs, d.host, infos, k);
  }

  lemma EndpointsFound(devs: Devs, host: Text, i: nat, r: Devs)
    requires i < |devs| && host == Route(devs[i]) && SameEndpoints(host, devs, r)
    ensures Has(r, devs[i].host) && Find(r, devs[i].host).endpoints == devs[i].endpoints
  {
  }

  lemma AppliedHolds(d: Dev, devs: Devs, address: Text, infos: seq<EntityInfo>, k: nat)
    requires d.slots == SlotsBefore(devs, address) && Fits(d.slots, Asks(infos)) && k < |infos|
    ensures IdGiven(devs, address, infos, k) in Applied(d, infos).endpoints
    ensures Describes(Applied(d, infos).endpoints[IdGiven(devs, address, infos, k)], infos, k)
  {
    hide Applied, Describes, Fits, EndpointIds;
    EndpointsKept(d, infos, k);
  }

  /** From `w` to `r` the connection of `host` sends one command message: its type, the key, and the rest. */
  predicate SentOn(w: World, r: World, host: Text, msg: u16, key: u32, body: Calls, b: seq<byte>) {
    && host in w.conns && host in r.conns
    && r.conns[host].log == w.conns[host].log + [Sent(msg, EncodedAll([AddFixed32(1, key)] + body)), Wrote(b)]
  }

  /**
   From the announcement to the command: in every state of every admissible run, a command on the topic of
   a device, for the number of an entity that its last discovery gave it, goes out on its connection as one
   message of the type of the entity's kind, and the first thing in it is the key the entity was announced
   with.
   */
  lemma CommandReaches(s: World, ops: seq<Op>, w: World, id: Text, i: nat, infos: seq<EntityInfo>, k: nat, body: Calls,
                       msg: u16) returns (b: seq<byte>)
    requires ServiceInv(s) && AllAdmissible(s, ops) && w == Run(s, ops)
    requires Addressed(w.devs, id, i) && ServedLast(w, w.devs[i], infos) && k < |infos|
    requires w.conns[Route(w.devs[i])].state == Subscribe && Carries(infos[k].kind, msg)
    ensures SentOn(w, Run1(w, SendTo(id, NumberNow(w, w.devs[i], infos, k), body)), Route(w.devs[i]),
                   msg, infos[k].key, body, b)
  {
    hide ServiceInv, Run, Run1, AllAdmissible, ServedLast, NumberNow, Addressed, Carries, SentOn, Route, Describes,
      LastRound, IndexOf;
    RunKeeps(s, ops);
    AddressedIff(w.devs, id, i);
    var d := w.devs[i];
    ServedRoute(w, d, infos);
    EntityStands(w, i, infos, k);
    var number := NumberNow(w, d, infos, k);
    DescribedKey(d.endpoints[number], infos, k);
    b := CommandGoes(w, id, i, number, body, msg);
  }

  lemma ServedRoute(w: World, d: Dev, infos: seq<EntityInfo>)
    requires ServedLast(w, d, infos)
    ensures Route(d) in w.conns && LastRound(w.conns[Route(d)].log).Some?
  {
  }

  lemma DescribedKey(ep: Endpoint, infos: seq<EntityInfo>, k: nat)
    requires k < |infos| && Describes(ep, infos, k)
    ensures ep.key == infos[k].key && ep.kind == infos[k].kind
  {
  }

  lemma CommandGoes(w: World, id: Text, i: nat, number: byte, body: Calls, msg: u16) returns (b: seq<byte>)
    requires ServiceInv(w) && Addressed(w.devs, id, i)
    requires Route(w.devs[i]) in w.conns && w.conns[Route(w.devs[i])].state == Subscribe
    requires number in w.devs[i].endpoints && Carries(w.devs[i].endpoints[number].kind, msg)
    ensures SentOn(w, Run1(w, SendTo(id, number, body)), Route(w.devs[i]),
                   msg, w.devs[i].endpoints[number].key, body, b)
  {
    hide ServiceInv, Run1, Carries, SentOn, Routed;
    SendToIs(w, id, number, body, i);
    b := RoutedSends(w, Run1(w, SendTo(id, number, body)), w.devs[i], number, body, msg);
  }

  lemma RoutedSends(w: World, r: World, d: Dev, endpoint: byte, body: Calls, msg: u16) returns (b: seq<byte>)
    requires Routed(w, r, d, endpoint, body) && Route(d) in w.conns && w.conns[Route(d)].state == Subscribe
    requires endpoint in d.endpoints && Carries(d.endpoints[endpoint].kind, msg)
    ensures SentOn(w, r, Route(d), msg, d.endpoints[endpoint].key, body, b)
  {
    hide EncodedAll, Ordered, Carries, Takes;
    TakesIff(d.endpoints[endpoint].kind);
    var m: u16, c: seq<byte> :|
      Carries(d.endpoints[endpoint].kind, m) &&
      r.conns[Route(d)].log ==
      w.conns[Route(d)].log + [Sent(m, EncodedAll(Ordered(d.endpoints[endpoint].key, body))), Wrote(c)];
    CarriesIff(d.endpoints[endpoint].kind, m);
    CarriesIff(d.endpoints[endpoint].kind, msg);
    OrderedIs(d.endpoints[endpoint].key, body);
    b := c;
  }

  lemma OrderedIs(key: u32, body: Calls)
    ensures Ordered(key, body) == [AddFixed32(1, key)] + body
  {
  }
}
