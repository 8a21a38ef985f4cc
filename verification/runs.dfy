/** What holds over whole runs of the service. */
module Runs {
  import opened Texts
  import opened Slots
  import opened Devices
  import opened Discovery
  import opened Database
  import opened Connection
  import opened Forest
  import opened Lifecycle
  import opened History
  import opened Availabilities
  import opened Service
  import Conservation

  lemma RunFront(s: World, ops: seq<Op>)
    requires ServiceInv(s) && AllAdmissible(s, ops) && ops != []
    ensures AllAdmissible(s, ops[..|ops| - 1]) && ServiceInv(Run(s, ops[..|ops| - 1]))
    ensures Admissible(Run(s, ops[..|ops| - 1]), ops[|ops| - 1])
    ensures Run(s, ops) == Run1(Run(s, ops[..|ops| - 1]), ops[|ops| - 1])
  {
    hide ServiceInv, Run1, Admissible, AllAdmissible, Run;
    AdmissibleFront(s, ops);
    RunKeeps(s, ops[..|ops| - 1]);
    RunNext(s, ops);
  }

  // ---------------------------------------------------------------- never stuck

  predicate ActiveAt(devs: Devs, host: Text) {
    Has(devs, host) && Find(devs, host).active
  }

  /** If `host` has a connection, its device is active. */
  predicate StaysActive(s: World, host: Text) {
    host in s.conns ==> ActiveAt(s.devs, host)
  }

  predicate Lively(s: World, host: Text) {
    host in s.conns ==> NotStuck(s.conns[host])
  }

  lemma EventLively(s: World, other: Text, e: Event, host: Text)
    requires ServiceInv(s) && StaysActive(s, host) && Lively(s, host)
    ensures Lively(OnEvent(s, other, e), host)
  {
    hide IsForest, IsTop, HistoryInv, AvailInv, Step, NotStuck, SessionInv;
    if other in s.conns && other == host {
      StepNotStuck(Hub(s.conns[host], s.devs), e);
    }
  }

  lemma OpLively(s: World, op: Op, host: Text)
    requires ServiceInv(s) && Admissible(s, op) && StaysActive(s, host) && Lively(s, host)
    requires StaysActive(Run1(s, op), host)
    ensures Lively(Run1(s, op), host)
  {
    hide ServiceInv, OnEvent, Survivors, Updated, ReloadAll, NotStuck, Dialled, IsTop;
    var r := Run1(s, op);
    match op
    case AddDevice(added, _, _, _, _, _, fails) =>
      if host in r.conns && host !in s.conns {
        DialledNotStuck(host, r.devs, fails);
      }
    case Restart(failing) =>
      if host in r.conns {
        DialledNotStuck(host, r.devs, host in failing);
      }
    case Happens(other, event) => EventLively(s, other, event, host);
    case SendTo(id, endpoint, body) =>
      if IndexOf(s.devs, id) < |s.devs| {
        var d := s.devs[IndexOf(s.devs, id)];
        EventLively(s, Route(d), Event.Command(d.host, endpoint, body), host);
      }
    case _ =>
  }

  /**
   A connection whose device is active in every state of a run is never stuck: with its socket down
   the reconnect timer is armed. (`SessionInv` adds the handshake timer while a greeting is awaited.)
   */
  lemma {:induction false} NeverStuck(s: World, ops: seq<Op>, host: Text)
    requires ServiceInv(s) && AllAdmissible(s, ops) && Lively(s, host)
    requires forall n :: 0 <= n <= |ops| ==> StaysActive(Run(s, ops[..n]), host)
    ensures Lively(Run(s, ops), host)
    ensures host in Run(s, ops).conns ==> SessionInv(Run(s, ops).conns[host])
  {
    hide ServiceInv, Run1, StaysActive, Lively, SessionInv, AllAdmissible;
    RunKeeps(s, ops);
    ServiceSession(Run(s, ops), host);
    assert ops[..|ops|] == ops;
    if ops != [] {
      var front := ops[..|ops| - 1];
      RunFront(s, ops);
      forall n | 0 <= n <= |front|
        ensures StaysActive(Run(s, front[..n]), host)
      {
        assert front[..n] == ops[..n];
      }
      NeverStuck(s, front, host);
      assert front[..|front|] == front == ops[..|front|];
      OpLively(Run(s, front), ops[|ops| - 1], host);
    }
  }

  lemma ServiceSession(s: World, host: Text)
    requires ServiceInv(s)
    ensures host in s.conns ==> SessionInv(s.conns[host])
  {
  }

  // ---------------------------------------------------------------- stable numbers

  function SlotsAt(devs: Devs, host: Text): SlotMap
    requires Has(devs, host)
  {
    Find(devs, host).slots
  }

  lemma ServiceContiguous(s: World, host: Text)
    requires ServiceInv(s) && Has(s.devs, host)
    ensures Contiguous(SlotsAt(s.devs, host))
  {
    hide Contiguous, ConnInv;
    assert Contiguous(s.devs[IndexOfHost(s.devs, host)].slots);
  }

  lemma EventExtends(s: World, other: Text, e: Event, host: Text)
    requires ServiceInv(s) && Has(s.devs, host)
    ensures Has(OnEvent(s, other, e).devs, host)
    ensures Extends(SlotsAt(s.devs, host), SlotsAt(OnEvent(s, other, e).devs, host))
  {
    hide Contiguous, ServiceInv, OnEvent;
    EventKeeps(s, other, e);
    ServiceContiguous(s, host);
    EventDevs(s, other, e);
    if other in s.conns {
      FollowsFind(s.devs, OnEvent(s, other, e).devs, host);
    }
  }

  lemma EventDevs(s: World, other: Text, e: Event)
    ensures other !in s.conns ==> OnEvent(s, other, e) == s
  {
  }

  lemma RemoveExtends(devs: Devs, i: nat, host: Text)
    requires DistinctHosts(devs) && i < |devs| && Has(devs, host) && Has(Survivors(devs, i, |devs|), host)
    ensures SlotsAt(Survivors(devs, i, |devs|), host) == SlotsAt(devs, host)
  {
    hide Survivors;
    SurvivorFind(devs, i, host);
  }

  lemma RestartExtends(devs: Devs, host: Text)
    requires DistinctHosts(devs) && Has(devs, host) && Has(ReloadAll(devs), host)
    ensures SlotsAt(ReloadAll(devs), host) == SlotsAt(devs, host)
  {
    hide ReloadAll, Reloaded;
    ReloadAllFind(devs, host);
    IdentityReloaded(Find(devs, host));
  }

  /** No operation changes the numbers of a device it leaves in the list; discovery only adds at the end. */
  lemma OpExtends(s: World, op: Op, host: Text)
    requires ServiceInv(s) && Admissible(s, op) && Has(s.devs, host) && Has(Run1(s, op).devs, host)
    ensures Extends(SlotsAt(s.devs, host), SlotsAt(Run1(s, op).devs, host))
  {
    hide ServiceInv, OnEvent, ReloadAll, ConnectAll, Dialled, Contiguous, Survivors, Has, DistinctHosts, IsTop,
      Extends, Updated;
    ExtendsSelf();
    ServiceForest(s);
    DistinctForest(s.devs);
    match op
    case AddDevice(added, port, key, name, discovery, cloud, _) =>
      AppendFind(s.devs, Added(added, port, key, name, discovery, cloud), host);
    case RemoveDevice(id) =>
      if IndexOf(s.devs, id) < |s.devs| {
        RemoveExtends(s.devs, IndexOf(s.devs, id), host);
      }
    case UpdateDevice(_, _, _, _, _) => UpdateExtends(s, op, host);
    case Restart(_) => RestartExtends(s.devs, host);
    case Happens(other, event) => EventExtends(s, other, event, host);
    case SendTo(id, endpoint, body) =>
      if IndexOf(s.devs, id) < |s.devs| {
        var d := s.devs[IndexOf(s.devs, id)];
        EventExtends(s, Route(d), Event.Command(d.host, endpoint, body), host);
      }
  }

  lemma ExtendsSelf()
    ensures forall m: SlotMap :: Extends(m, m)
  {
  }

  lemma UpdateExtends(s: World, op: Op, host: Text)
    requires op.UpdateDevice? && Has(s.devs, host)
    ensures Has(Run1(s, op).devs, host) && SlotsAt(Run1(s, op).devs, host) == SlotsAt(s.devs, host)
  {
    hide IndexOf, Has;
    var i := IndexOf(s.devs, op.id);
    if i < |s.devs| {
      UpdatedFind(s.devs, i, Updated(s.devs[i], op), host);
    }
  }

  lemma UpdatedFind(devs: Devs, i: nat, e: Dev, host: Text)
    requires i < |devs| && e.host == devs[i].host && e.slots == devs[i].slots && Has(devs, host)
    ensures Has(devs[i := e], host) && SlotsAt(devs[i := e], host) == SlotsAt(devs, host)
  {
    SameHosts(devs, devs[i := e], host);
  }

  lemma {:induction false} RunExtends(s: World, ops: seq<Op>, host: Text)
    requires ServiceInv(s) && AllAdmissible(s, ops)
    requires forall n :: 0 <= n <= |ops| ==> Has(Run(s, ops[..n]).devs, host)
    ensures Has(s.devs, host) && Has(Run(s, ops).devs, host)
    ensures Extends(SlotsAt(s.devs, host), SlotsAt(Run(s, ops).devs, host))
  {
    hide ServiceInv, Run1, AllAdmissible;
    assert ops[..|ops|] == ops && ops[..0] == [];
    if ops != [] {
      var front := ops[..|ops| - 1];
      RunFront(s, ops);
      forall n | 0 <= n <= |front|
        ensures Has(Run(s, front[..n]).devs, host)
      {
        assert front[..n] == ops[..n];
      }
      RunExtends(s, front, host);
      assert ops[..|front|] == front;
      OpExtends(Run(s, front), ops[|ops| - 1], host);
      ExtendsTransitive();
    }
  }

  /**
   Numbers are stable for ever. Let a round with `asks` have been applied to the device at `host`, from
   a map `m` its own has grown out of. After any run that keeps the device in the list (discoveries,
   lost and new entities, reconnections, commands, restarts) a further round gives two special
   entities the same number exactly when they have the same name and the same rank under it.
   */
  lemma NumbersStable(s: World, ops: seq<Op>, host: Text, m: SlotMap, asks: seq<Ask>, i: nat, asks': seq<Ask>, j: nat)
    requires ServiceInv(s) && AllAdmissible(s, ops)
    requires forall n :: 0 <= n <= |ops| ==> Has(Run(s, ops[..n]).devs, host)
    requires Has(s.devs, host) && Contiguous(m) && Extends(Round(m, asks).slots, SlotsAt(s.devs, host))
    requires i < |asks| && asks[i].Some? && j < |asks'| && asks'[j].Some?
    ensures Has(Run(s, ops).devs, host)
    ensures var m' := SlotsAt(Run(s, ops).devs, host);
            && |Round(m, asks).numbers| == |asks| && |Round(m', asks').numbers| == |asks'|
            && (Round(m, asks).numbers[i] == Round(m', asks').numbers[j] <==>
                asks[i] == asks'[j] && Count(asks[..i], asks[i].value) == Count(asks'[..j], asks'[j].value))
  {
    hide ServiceInv, Run, AllAdmissible, Contiguous, Round, SlotsAt;
    RunExtends(s, ops, host);
    RunKeeps(s, ops);
    ServiceContiguous(Run(s, ops), host);
    ExtendsTransitive();
    SameNumberLaterIff(m, asks, i, SlotsAt(Run(s, ops).devs, host), asks', j);
  }

  // ---------------------------------------------------------------- what the assumptions are for

  /**
   Applying a group to a sub-device leaves the top-level devices as they are exactly when its address
   is not that of a top-level device; in a forest it never is.
   */
  lemma GroupSparesTopsIff(devs: Devs, host: Text, names: Names, id: int, infos: seq<EntityInfo>)
    requires Has(devs, host) && host != ""
    ensures (forall x :: IsTop(ApplyGroup(devs, host, names, id, infos), x) <==> IsTop(devs, x)) <==>
            !IsTop(devs, AddressOf(host, names, id))
    ensures IsForest(devs) && IsTop(devs, host) ==> !IsTop(devs, AddressOf(host, names, id))
  {
    hide ApplyGroup, SubAddress, IsForest;
    var r, address := ApplyGroup(devs, host, names, id, infos), AddressOf(host, names, id);
    Conservation.GroupFind(devs, host, names, id, infos, address);
    forall x | x != address
      ensures IsTop(r, x) <==> IsTop(devs, x)
    {
      Conservation.GroupFind(devs, host, names, id, infos, x);
    }
    AppliedParent(Conservation.Target(devs, host, names, id), Find(devs, host), NameOf(names, id), infos);
    if IsForest(devs) && IsTop(devs, host) && IsTop(devs, address) {
      AddressUnder(host, NameOf(names, id));
      UnderHost(devs, host, IndexOfHost(devs, address));
    }
  }

  lemma AppliedParent(d: Dev, main: Dev, name: Text, infos: seq<EntityInfo>)
    ensures Applied(Renewed(d, main, name), infos).parent == main.host
  {
  }

  /** A discovery of `host` leaves the top-level devices alone whose hosts are not addresses under its own. */
  lemma DiscoverySpares(devs: Devs, host: Text, names: Names, pending: seq<EntityInfo>, other: Text)
    requires Has(devs, host) && IsTop(devs, other) && !Under(other, host)
    ensures IsTop(ApplyDiscovered(devs, host, names, pending), other)
  {
    hide ApplyDiscovered, Under, SubAddress, Has, Find, Group, Conservation.LastOfAddress, Conservation.CarriesGroup;
    Conservation.DiscoveryConserves(devs, host, names, pending);
    if other == host {
      MainParent(Find(devs, host), Group(pending, 0));
    } else if Conservation.IsGroupAddress(host, names, pending, other) {
      var id :| id in GroupIds(pending) && AddressOf(host, names, id) == other;
      AddressUnder(host, NameOf(names, id));
    }
  }

  lemma MainParent(d: Dev, infos: seq<EntityInfo>)
    ensures Applied(d, infos).parent == d.parent
  {
  }

  /** One entity of a sub-device with the address `other` makes the device there its sub-device. */
  lemma DiscoveryTakes(devs: Devs, host: Text, name: Text, e: EntityInfo)
    requires Has(devs, host) && host != "" && e.deviceId == 1
    ensures !IsTop(ApplyDiscovered(devs, host, map[1 := name], [e]), SubAddress(host, name))
  {
    hide ApplyDiscovered, SubAddress, Has, Find, Put, Applied, Renewed, Conservation.Target;
    var names, main := map[1 := name], Applied(Find(devs, host), Group([e], 0));
    assert [e][0].deviceId in GroupIds([e]);
    Conservation.SoleCarries(devs, host, names, [e], 1);
    AppliedParent(Conservation.Target(Put(devs, main), host, names, 1), main, name, Group([e], 1));
    Conservation.MainHost(Find(devs, host), Group([e], 0));
    FoundHost(devs, host);
  }

  lemma FoundHost(devs: Devs, host: Text)
    requires Has(devs, host)
    ensures Find(devs, host).host == host
  {
  }

  /**
   One top-level device can be taken over as a sub-device by some discovery of another, with announced
   names and keyed entities, exactly when its host is the address of a possible sub-device of the other.
   */
  lemma TakenOverIff(devs: Devs, host: Text, other: Text)
    requires Has(devs, host) && host != "" && IsTop(devs, other)
    ensures (exists names: Names, pending: seq<EntityInfo> ::
               && (forall e :: e in pending ==> e.key != 0)
               && !IsTop(ApplyDiscovered(devs, host, names, pending), other)) <==> Under(other, host)
  {
    hide ApplyDiscovered, AddressOf, Under, IsTop;
    if Under(other, host) {
      var name := UnderName(other, host);
      var e := Light("B");
      DiscoveryTakes(devs, host, name, e);
      assert forall x :: x in [e] ==> x.key != 0;
    } else {
      forall names: Names, pending: seq<EntityInfo>
        ensures IsTop(ApplyDiscovered(devs, host, names, pending), other)
      {
        DiscoverySpares(devs, host, names, pending, other);
      }
    }
  }

  /** An announced light of sub-device 1. */
  function Light(name: Text): EntityInfo {
    EntityInfo(1, 1, "light", name, "", false, [], 0, 0)
  }

  lemma UnderName(other: Text, host: Text) returns (name: Text)
    requires Under(other, host)
    ensures SubAddress(host, name) == other
  {
    name := other[|host| + 1..];
    assert NoSpaces(name) == name;
    assert other == host + "_" + name;
  }

  /** With the hosts "a" and "a_b", an entity of a sub-device "b" of the first makes the second its sub-device. */
  lemma UnderscoreTakenOver(devs: Devs, key: Text, e: EntityInfo)
    requires devs == [NewDev("a", "a", 6053, key), NewDev("a_b", "a_b", 6053, key)] && e.deviceId == 1
    ensures IsTop(devs, "a_b") && !IsTop(ApplyDiscovered(devs, "a", map[1 := "b"], [e]), "a_b")
  {
    hide ApplyDiscovered;
    assert devs[0].host == "a" && devs[1].host == "a_b" && |devs| == 2;
    HasIff(devs, "a");
    HasIff(devs, "a_b");
    assert SubAddress("a", "b") == "a_b";
    DiscoveryTakes(devs, "a", "b", e);
  }

  /** Hosts are distinct and every sub-device hangs on a top-level device of the list. */
  predicate IsTree(devs: Devs) {
    DistinctHosts(devs) && forall i :: 0 <= i < |devs| && devs[i].parent != "" ==> IsTop(devs, devs[i].parent)
  }

  /**
   A restart leaves no orphans exactly when no device that has lost its name has a sub-device with one:
   a device without a name does not come back.
   */
  lemma RestartTreeIff(devs: Devs)
    requires IsTree(devs) && forall i :: 0 <= i < |devs| ==> devs[i].host != "" && devs[i].key != ""
    ensures IsTree(ReloadAll(devs)) <==>
            forall i :: 0 <= i < |devs| && devs[i].parent != "" && devs[i].name != "" ==>
                          Find(devs, devs[i].parent).name != ""
  {
    hide ReloadAll, Reloaded;
    var r := ReloadAll(devs);
    ReloadAllDistinct(devs);
    forall host
      ensures Has(r, host) <==> Has(devs, host) && Find(devs, host).name != ""
      ensures Has(r, host) ==> Find(r, host).parent == Find(devs, host).parent
    {
      ReloadAllFind(devs, host);
      if Has(r, host) {
        IdentityReloaded(Find(devs, host));
      }
    }
    if IsTree(r) {
      forall i | 0 <= i < |devs| && devs[i].parent != "" && devs[i].name != ""
        ensures Find(devs, devs[i].parent).name != ""
      {
        FindAt(devs, i);
        assert Has(r, devs[i].host);
        assert IsTop(r, r[IndexOfHost(r, devs[i].host)].parent);
      }
    }
    if forall i :: 0 <= i < |devs| && devs[i].parent != "" && devs[i].name != ""
        ==> Find(devs, devs[i].parent).name != "" {
      forall k | 0 <= k < |r| && r[k].parent != ""
        ensures IsTop(r, r[k].parent)
      {
        FindAt(r, k);
        assert Has(r, r[k].host);
        assert Find(devs, Find(devs, r[k].host).parent).name != "";
      }
    }
  }

  /** A top-level device "a" without a name and its sub-device "s": the restart orphans the second. */
  lemma NamelessOrphans(devs: Devs, key: Text)
    requires key != "" && |devs| == 2 && devs[0] == NewDev("", "a", 6053, key)
    requires devs[1] == NewDev("s", "a_s", 6053, key).(parent := "a")
    ensures IsTree(devs) && !IsTree(ReloadAll(devs))
  {
    hide ReloadAll;
    HasIff(devs, "a");
    RestartTreeIff(devs);
    assert devs[1].parent != "" && devs[1].name != "" && Find(devs, devs[1].parent).name == "";
  }
}
