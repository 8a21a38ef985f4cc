/** The whole service: the device list, one connection for each top-level device, commands and restarts. */
module Service {
  import opened Bytes
  import opened Proto
  import opened Texts
  import opened Slots
  import opened Devices
  import opened Discovery
  import opened Database
  import opened Connection
  import opened Forest
  import opened Lifecycle
  import opened History
  import opened Answers
  import opened Standing
  import opened Availabilities

  /** `conns`: host to connection; a connection's device is the one with its host. */
  datatype World = World(devs: Devs, conns: map<Text, Conn>)

  datatype Op =
    | AddDevice(host: Text, port: u16, key: Text, name: Text, discovery: bool, cloud: bool, fails: bool)
    | RemoveDevice(id: Text)
    | UpdateDevice(id: Text, newName: Option<Text>, activity: Option<bool>, exposure: Option<bool>,
                   sharing: Option<bool>)
    | Restart(failing: set<Text>) // the hosts whose first dial fails at once
    | Happens(host: Text, event: Event)
    | SendTo(id: Text, endpoint: byte, body: Calls)

  const KEY_LENGTH := 32

  // ---------------------------------------------------------------- looking up

  /** A device by its name, or else by its host. */
  function IndexOf(devs: Devs, id: Text): (i: nat)
    ensures i <= |devs|
  {
    if IndexOfName(devs, id) < |devs| then IndexOfName(devs, id) else IndexOfHost(devs, id)
  }

  // ---------------------------------------------------------------- connections

  /** `connectDevice` for a new connection. */
  function Dialled(host: Text, devs: Devs, fails: bool): Conn {
    ConnectToDevice(Hub(NewConn(host), devs), fails).conn
  }

  function Connect(s: World, host: Text, fails: bool): World {
    if !IsTop(s.devs, host) || host in s.conns then s
    else s.(conns := s.conns[host := Dialled(host, s.devs, fails)])
  }

  function TopHosts(devs: Devs): set<Text> {
    set i | 0 <= i < |devs| && devs[i].parent == "" :: devs[i].host
  }

  /** `connectAll` on a manager without connections. */
  function ConnectAll(devs: Devs, failing: set<Text>): map<Text, Conn> {
    map host | host in TopHosts(devs) :: Dialled(host, devs, host in failing)
  }

  // ---------------------------------------------------------------- commands

  function Added(host: Text, port: u16, key: Text, name: Text, discovery: bool, cloud: bool): Dev {
    NewDev(if name == "" then host else name, host, port, key).(discovery := discovery, cloud := cloud)
  }

  /** Device `j` goes with device `i`: it is `i`, or a sub-device of it. */
  predicate GoesWith(devs: Devs, i: nat, j: nat)
    requires i < |devs| && j < |devs|
  {
    j == i || devs[j].parent == devs[i].host
  }

  /** Of the first `n` devices, those that stay when device `i` is removed. */
  function Survivors(devs: Devs, i: nat, n: nat): (r: Devs)
    requires i < |devs| && n <= |devs|
    ensures |r| <= n
  {
    if n == 0 then []
    else Survivors(devs, i, n - 1) + if GoesWith(devs, i, n - 1) then [] else [devs[n - 1]]
  }

  function Updated(d: Dev, op: Op): Dev
    requires op.UpdateDevice?
  {
    d.(name := if op.newName.Some? then op.newName.value else d.name,
       active := if op.activity.Some? then op.activity.value else d.active,
       discovery := if op.exposure.Some? then op.exposure.value else d.discovery,
       cloud := if op.sharing.Some? then op.sharing.value else d.cloud)
  }

  /** The devices that come back from the database, in order. */
  function ReloadAll(devs: Devs): Devs {
    if devs == [] then []
    else
      ReloadAll(devs[..|devs| - 1]) +
      match Reloaded(devs[|devs| - 1]) case None => [] case Some(d) => [d]
  }

  /** That is: the list written to the database and read again. */
  lemma {:induction false} ReloadIsParse(devs: Devs)
    ensures ReloadAll(devs) == ParseAll(DevicesJson(devs))
  {
    hide Parse, DeviceJson;
    if devs != [] {
      ReloadIsParse(devs[..|devs| - 1]);
      assert DevicesJson(devs)[..|devs| - 1] == DevicesJson(devs[..|devs| - 1]);
    }
  }

  function OnEvent(s: World, host: Text, e: Event): World {
    if host !in s.conns then s
    else
      var h := Step(Hub(s.conns[host], s.devs), e);
      World(h.devs, s.conns[host := h.conn])
  }

  /** The host whose connection serves a device. */
  function Route(d: Dev): Text {
    if d.parent == "" then d.host else d.parent
  }

  function Run1(s: World, op: Op): World {
    match op
    case AddDevice(host, port, key, name, discovery, cloud, fails) =>
      if host == "" || |key| != KEY_LENGTH || Has(s.devs, host) then s
      else Connect(s.(devs := s.devs + [Added(host, port, key, name, discovery, cloud)]), host, fails)
    case RemoveDevice(id) =>
      var i := IndexOf(s.devs, id);
      if i == |s.devs| then s
      else World(Survivors(s.devs, i, |s.devs|), s.conns - {s.devs[i].host})
    case UpdateDevice(id, _, _, _, _) =>
      var i := IndexOf(s.devs, id);
      if i == |s.devs| then s else s.(devs := s.devs[i := Updated(s.devs[i], op)])
    case Restart(failing) =>
      var devs := ReloadAll(s.devs);
      World(devs, ConnectAll(devs, failing))
    case Happens(host, event) => OnEvent(s, host, event)
    case SendTo(id, endpoint, body) =>
      var i := IndexOf(s.devs, id);
      if i == |s.devs| then s
      else OnEvent(s, Route(s.devs[i]), Event.Command(s.devs[i].host, endpoint, body))
  }

  function Run(s: World, ops: seq<Op>): World {
    if ops == [] then s else Run1(Run(s, ops[..|ops| - 1]), ops[|ops| - 1])
  }

  // ---------------------------------------------------------------- the invariant

  /** A new top-level device of this host is apart from those there are. */
  predicate StaysApart(devs: Devs, host: Text) {
    forall i :: 0 <= i < |devs| && devs[i].parent == "" ==> !Under(host, devs[i].host) && !Under(devs[i].host, host)
  }

  predicate Reloadable(d: Dev) { d.name != "" && d.host != "" && d.key != "" }

  /** No sub-device comes back from the database without its parent, which has lost its name. */
  predicate NoOrphans(devs: Devs) {
    forall i :: 0 <= i < |devs| && devs[i].parent != "" && Reloadable(devs[i]) ==>
                  Has(devs, devs[i].parent) && Find(devs, devs[i].parent).name != ""
  }

  /**
   What a user must not do: add a host that can be the address of a sub-device of another, or that has
   another among the addresses of its own possible sub-devices; restart while a device without a name
   has a sub-device with one.
   */
  predicate Admissible(s: World, op: Op) {
    match op
    case AddDevice(host, _, key, _, _, _, _) =>
      host == "" || |key| != KEY_LENGTH || Has(s.devs, host) || StaysApart(s.devs, host)
    case Restart(_) => NoOrphans(s.devs)
    case _ => true
  }

  predicate ConnInv(host: Text, c: Conn, devs: Devs) {
    c.host == host && SessionInv(c) && HistoryInv(c) && Orderly(c.log) && AvailInv(Hub(c, devs)) && Current(c, devs)
  }

  /**
   The list is a forest, the connection map has exactly the hosts of its top-level devices, and every
   connection keeps its own invariants.
   */
  ghost predicate ServiceInv(s: World) {
    && IsForest(s.devs)
    && (forall host :: host in s.conns <==> IsTop(s.devs, host))
    && forall host :: host in s.conns ==> ConnInv(host, s.conns[host], s.devs)
  }

  /** So every command to a device of the list finds its connection. */
  lemma RouteExists(s: World, i: nat)
    requires ServiceInv(s) && i < |s.devs|
    ensures Route(s.devs[i]) in s.conns && s.conns[Route(s.devs[i])].host == Route(s.devs[i])
  {
    assert Rooted(s.devs, s.devs[i]);
    FindAt(s.devs, i);
  }

  // ---------------------------------------------------------------- an event of one connection

  /** The connection of `host` leaves the availability of another connection's devices alone. */
  lemma OtherAvail(host: Text, a: Devs, b: Devs, c: Conn)
    requires Tended(host, a, b) && IsForest(a) && IsTop(a, host) && c.host != host
    requires AvailInv(Hub(c, a))
    ensures AvailInv(Hub(c, b))
  {
    hide IsForest, Scan, Known, Tended, OnlineKnown, OnlineAt, IsTop;
    TendedForest(host, a, b);
    OtherMain(host, a, b, c.host);
    if Scan(c.log) != Untidy {
      OtherOnline(host, a, b, c.host, Known(c));
    }
  }

  lemma OtherMain(host: Text, a: Devs, b: Devs, other: Text)
    requires Tended(host, a, b) && IsForest(a) && IsTop(a, host) && IsTop(a, other) && other != host
    ensures OnlineAt(b, other) <==> OnlineAt(a, other)
  {
    hide IsForest;
    HostNotEmpty(a, host);
    FollowsFind(a, b, other);
    assert Tame(host, a[IndexOfHost(a, other)], b[IndexOfHost(a, other)]);
  }

  lemma OtherOnline(host: Text, a: Devs, b: Devs, other: Text, known: set<Text>)
    requires Tended(host, a, b) && IsForest(a) && IsTop(a, host) && IsTop(a, other) && other != host
    requires OnlineKnown(a, other, known)
    ensures OnlineKnown(b, other, known)
  {
    HostNotEmpty(a, host);
    HostNotEmpty(a, other);
    forall i | 0 <= i < |b| && b[i].parent == other && b[i].online
      ensures b[i].host in known
    {
      assert i >= |a| ==> SubOf(b[i], host);
      assert Tame(host, a[i], b[i]) && Grown(a[i], b[i]);
      SubNotTop(a, i, host);
    }
  }

  lemma SubNotTop(devs: Devs, i: nat, host: Text)
    requires IsForest(devs) && IsTop(devs, host) && i < |devs| && devs[i].parent != ""
    ensures devs[i].host != host
  {
    hide Apart;
    FindAt(devs, i);
  }

  lemma EventKeeps(s: World, host: Text, e: Event)
    requires ServiceInv(s)
    ensures ServiceInv(OnEvent(s, host, e))
    ensures host in s.conns ==> Tended(host, s.devs, OnEvent(s, host, e).devs)
  {
    hide IsForest, IsTop, SessionInv, HistoryInv, Orderly, AvailInv, Current, Tended, Step;
    if host in s.conns {
      var h := Hub(s.conns[host], s.devs);
      var r := Step(h, e);
      StepTended(h, e);
      TendedForest(host, s.devs, r.devs);
      StepKeepsSession(h, e);
      StepHistory(h, e);
      StepAnswers(h, e);
      StepAvail(h, e);
      ForestDistinct(r.devs);
      StepCurrent(h, e);
      forall x | x in s.conns && x != host
        ensures ConnInv(x, s.conns[x], r.devs)
      {
        OtherAvail(host, s.devs, r.devs, s.conns[x]);
        OtherEndures(host, s.devs, r.devs, x);
        EnduresCurrent(s.conns[x], s.devs, r.devs);
      }
      assert Hub(r.conn, r.devs) == r;
    }
  }

  lemma ForestDistinct(devs: Devs)
    requires IsForest(devs)
    ensures DistinctHosts(devs)
  {
  }

  // ---------------------------------------------------------------- changes that take devices away or edit them

  /** What commands and restarts keep of a device they leave in the list. */
  predicate Like(d: Dev, e: Dev) {
    && e.parent == d.parent && e.key == d.key && e.slots == d.slots
    && (e.online ==> d.online)
  }

  /** `b` has devices of `a` only, and with each sub-device its parent. */
  predicate Thinned(a: Devs, b: Devs) {
    && DistinctHosts(b)
    && (forall i :: 0 <= i < |b| ==> Has(a, b[i].host) && Like(Find(a, b[i].host), b[i]))
    && (forall i :: 0 <= i < |b| && b[i].parent != "" ==> Has(b, b[i].parent))
  }

  lemma ThinnedFind(a: Devs, b: Devs, host: Text)
    requires Thinned(a, b) && Has(b, host)
    ensures Has(a, host) && Like(Find(a, host), Find(b, host))
  {
  }

  lemma ThinnedForest(a: Devs, b: Devs)
    requires Thinned(a, b) && IsForest(a)
    ensures IsForest(b) && forall host :: IsTop(b, host) <==> IsTop(a, host) && Has(b, host)
  {
    hide Contiguous;
    forall host | Has(b, host)
      ensures Has(a, host) && Like(Find(a, host), Find(b, host))
    {
      ThinnedFind(a, b, host);
    }
    forall i | 0 <= i < |b|
      ensures Rooted(b, b[i]) && Contiguous(b[i].slots)
    {
      var d := Find(a, b[i].host);
      assert Rooted(a, a[IndexOfHost(a, b[i].host)]);
    }
  }

  lemma ThinnedAvail(a: Devs, b: Devs, c: Conn)
    requires Thinned(a, b) && Has(b, c.host) && AvailInv(Hub(c, a))
    requires Find(b, c.host).online == Find(a, c.host).online
    ensures AvailInv(Hub(c, b))
  {
    hide IsForest, Scan, KnownAddresses;
    ThinnedForest(a, b);
    ThinnedFind(a, b, c.host);
  }

  // ---------------------------------------------------------------- removing

  /** Every device that does not go stands in the result, behind those that stay before it. */
  lemma {:induction false} SurvivorAt(devs: Devs, i: nat, j: nat, n: nat)
    requires i < |devs| && j < n <= |devs| && !GoesWith(devs, i, j)
    ensures |Survivors(devs, i, j)| < |Survivors(devs, i, n)|
    ensures Survivors(devs, i, n)[|Survivors(devs, i, j)|] == devs[j]
  {
    if j < n - 1 {
      SurvivorAt(devs, i, j, n - 1);
    }
  }

  /** Every device of the result is one that does not go. */
  lemma {:induction false} SurvivorFrom(devs: Devs, i: nat, n: nat, k: nat) returns (j: nat)
    requires i < |devs| && n <= |devs| && k < |Survivors(devs, i, n)|
    ensures j < n && !GoesWith(devs, i, j) && k == |Survivors(devs, i, j)| && Survivors(devs, i, n)[k] == devs[j]
  {
    if k < |Survivors(devs, i, n - 1)| {
      j := SurvivorFrom(devs, i, n - 1, k);
    } else {
      j := n - 1;
    }
  }

  /**
   Removal is exact: of the devices before it, device `j` stays exactly when it is neither the one
   removed nor a sub-device of it; those that stay keep their order.
   */
  lemma RemovalExact(devs: Devs, i: nat, j: nat)
    requires DistinctHosts(devs) && i < |devs| && j < |devs|
    ensures Has(Survivors(devs, i, |devs|), devs[j].host) <==> !GoesWith(devs, i, j)
    ensures !GoesWith(devs, i, j) ==>
              var k := |Survivors(devs, i, j)|;
              k < |Survivors(devs, i, |devs|)| && Survivors(devs, i, |devs|)[k] == devs[j]
    ensures forall k :: j < k < |devs| && !GoesWith(devs, i, j) && !GoesWith(devs, i, k) ==>
              |Survivors(devs, i, j)| < |Survivors(devs, i, k)|
  {
    hide GoesWith;
    var r := Survivors(devs, i, |devs|);
    if !GoesWith(devs, i, j) {
      SurvivorAt(devs, i, j, |devs|);
      HasIff(r, devs[j].host);
    } else if Has(r, devs[j].host) {
      var k := SurvivorFrom(devs, i, |devs|, IndexOfHost(r, devs[j].host));
      FindAt(devs, j);
      FindAt(devs, k);
    }
    forall k | j < k < |devs| && !GoesWith(devs, i, j) && !GoesWith(devs, i, k)
      ensures |Survivors(devs, i, j)| < |Survivors(devs, i, k)|
    {
      SurvivorAt(devs, i, j, k);
    }
  }

  lemma SurvivorsDistinct(devs: Devs, i: nat)
    requires DistinctHosts(devs) && i < |devs|
    ensures DistinctHosts(Survivors(devs, i, |devs|))
  {
    hide GoesWith;
    var r := Survivors(devs, i, |devs|);
    forall k, l | 0 <= k < l < |r|
      ensures r[k].host != r[l].host
    {
      var j := SurvivorFrom(devs, i, |devs|, k);
      var m := SurvivorFrom(devs, i, |devs|, l);
      assert j != m;
    }
  }

  lemma SurvivorsThinned(devs: Devs, i: nat)
    requires IsForest(devs) && i < |devs|
    ensures Thinned(devs, Survivors(devs, i, |devs|))
  {
    hide Contiguous, Survivors;
    var r := Survivors(devs, i, |devs|);
    SurvivorsDistinct(devs, i);
    forall k | 0 <= k < |r|
      ensures Has(devs, r[k].host) && Like(Find(devs, r[k].host), r[k])
      ensures r[k].parent != "" ==> Has(r, r[k].parent)
    {
      var j := SurvivorFrom(devs, i, |devs|, k);
      FindAt(devs, j);
      if r[k].parent != "" {
        assert Rooted(devs, devs[j]);
        var p := IndexOfHost(devs, devs[j].parent);
        HostNotEmpty(devs, devs[j].parent);
        ParentsAreTop(devs, i, p);
        RemovalExact(devs, i, p);
      }
    }
  }

  /** A top-level device goes only with itself. */
  lemma ParentsAreTop(devs: Devs, i: nat, p: nat)
    requires IsForest(devs) && i < |devs| && p < |devs| && devs[p].parent == ""
    ensures GoesWith(devs, i, p) <==> p == i
  {
    assert Rooted(devs, devs[i]);
    if devs[i].parent != "" {
      assert (devs[i].parent + "_")[|devs[i].parent|] == devs[i].host[|devs[i].parent|];
    }
  }

  lemma RemoveKeeps(s: World, i: nat)
    requires ServiceInv(s) && i < |s.devs|
    ensures ServiceInv(World(Survivors(s.devs, i, |s.devs|), s.conns - {s.devs[i].host}))
  {
    hide IsForest, ConnInv, Thinned, Survivors, IsTop, Has;
    var r, conns := Survivors(s.devs, i, |s.devs|), s.conns - {s.devs[i].host};
    SurvivorsThinned(s.devs, i);
    ThinnedForest(s.devs, r);
    forall host
      ensures host in conns <==> IsTop(r, host)
      ensures host in conns ==> ConnInv(host, conns[host], r)
    {
      if IsTop(s.devs, host) {
        TopSurvives(s.devs, i, host);
      }
      if host in conns {
        SurvivorConn(s.devs, i, host, s.conns[host]);
      }
    }
  }

  lemma TopSurvives(devs: Devs, i: nat, host: Text)
    requires IsForest(devs) && i < |devs| && IsTop(devs, host)
    ensures Has(Survivors(devs, i, |devs|), host) <==> host != devs[i].host
  {
    hide IsForest, GoesWith, Survivors;
    DistinctForest(devs);
    ParentsAreTop(devs, i, IndexOfHost(devs, host));
    RemovalExact(devs, i, IndexOfHost(devs, host));
    FindAt(devs, i);
  }

  lemma SurvivorConn(devs: Devs, i: nat, host: Text, c: Conn)
    requires IsForest(devs) && i < |devs| && ConnInv(host, c, devs) && Has(Survivors(devs, i, |devs|), host)
    ensures ConnInv(host, c, Survivors(devs, i, |devs|))
  {
    hide IsForest, SessionInv, HistoryInv, Orderly, AvailInv, Current, Thinned, GoesWith, Survivors;
    var r := Survivors(devs, i, |devs|);
    SurvivorsThinned(devs, i);
    DistinctForest(devs);
    SurvivorFind(devs, i, host);
    ThinnedAvail(devs, r, c);
    SurvivorsEndure(devs, i, host);
    EnduresCurrent(c, devs, r);
  }

  lemma SurvivorsEndure(devs: Devs, i: nat, host: Text)
    requires i < |devs|
    ensures Endures(host, devs, Survivors(devs, i, |devs|))
  {
    hide Survivors, GoesWith;
    var r := Survivors(devs, i, |devs|);
    forall k | 0 <= k < |r|
      ensures exists j :: 0 <= j < |devs| && devs[j] == r[k]
    {
      var j := SurvivorFrom(devs, i, |devs|, k);
    }
  }

  /** What stays is as it was. */
  lemma SurvivorFind(devs: Devs, i: nat, host: Text)
    requires DistinctHosts(devs) && i < |devs| && Has(Survivors(devs, i, |devs|), host)
    ensures Has(devs, host) && Find(Survivors(devs, i, |devs|), host) == Find(devs, host)
  {
    hide Survivors, GoesWith;
    var r := Survivors(devs, i, |devs|);
    var j := SurvivorFrom(devs, i, |devs|, IndexOfHost(r, host));
    FindAt(devs, j);
  }

  // ---------------------------------------------------------------- adding

  lemma DialledInv(host: Text, devs: Devs, fails: bool)
    requires IsForest(devs) && IsTop(devs, host)
    requires !OnlineAt(devs, host) && OnlineKnown(devs, host, {})
    ensures ConnInv(host, Dialled(host, devs, fails), devs)
  {
    hide IsForest, Active;
    var c := NewConn(host);
    assert SessionInv(c) && HistoryInv(c) && Scan(c.log) == Fresh;
    ConnectKeeps(Hub(c, devs), fails);
    SameHistory(c, Dialled(host, devs, fails));
  }

  /** Dialling arms the reconnect timer of an active device when it fails at once. */
  lemma DialledNotStuck(host: Text, devs: Devs, fails: bool)
    requires Has(devs, host) && Find(devs, host).active
    ensures NotStuck(Dialled(host, devs, fails))
  {
  }

  lemma AppendForest(devs: Devs, d: Dev)
    requires IsForest(devs) && !Has(devs, d.host) && d.parent == "" && d.slots == map[]
    requires d.host != "" && d.key != "" && StaysApart(devs, d.host)
    ensures IsForest(devs + [d]) && forall host :: IsTop(devs + [d], host) <==> IsTop(devs, host) || host == d.host
  {
    hide Apart, StaysApart, Under, Contiguous;
    var r := devs + [d];
    AppendApart(devs, d);
    EmptyContiguous();
    HasIff(devs, d.host);
    forall host
      ensures Has(r, host) <==> Has(devs, host) || host == d.host
      ensures Has(devs, host) ==> Find(r, host) == Find(devs, host)
      ensures Find(r, d.host) == d
    {
      AppendFind(devs, d, host);
      AppendFind(devs, d, d.host);
    }
    forall i | 0 <= i < |r|
      ensures Rooted(r, r[i]) && Contiguous(r[i].slots)
    {
      if i < |devs| {
        assert Rooted(devs, devs[i]);
      }
    }
  }

  /** A new top-level device leaves the others apart exactly when it is apart from them. */
  lemma AppendApart(devs: Devs, d: Dev)
    requires Apart(devs) && d.parent == ""
    ensures Apart(devs + [d]) <==> StaysApart(devs, d.host)
  {
    hide Under;
    var r := devs + [d];
    assert r[|devs|] == d && forall i :: 0 <= i < |devs| ==> r[i] == devs[i];
    NotUnderSelf(d.host);
    if Apart(r) {
      forall i | 0 <= i < |devs| && devs[i].parent == ""
        ensures !Under(d.host, devs[i].host) && !Under(devs[i].host, d.host)
      {
        assert !Under(r[|devs|].host, r[i].host) && !Under(r[i].host, r[|devs|].host);
      }
    }
  }

  lemma NotUnderSelf(host: Text)
    ensures !Under(host, host)
  {
  }

  lemma AppendAvail(devs: Devs, d: Dev, c: Conn)
    requires AvailInv(Hub(c, devs)) && IsForest(devs + [d]) && IsTop(devs + [d], c.host)
    requires d.parent == "" && !d.online
    ensures AvailInv(Hub(c, devs + [d]))
  {
    hide IsForest, Scan, Known;
    AppendFind(devs, d, c.host);
    var r := devs + [d];
    assert Find(r, c.host) == Find(devs, c.host);
    HostNotEmpty(devs, c.host);
  }

  lemma NoneOnline(devs: Devs, host: Text)
    requires IsForest(devs) && !Has(devs, host) && host != ""
    ensures OnlineKnown(devs, host, {})
  {
    hide Contiguous;
    forall i | 0 <= i < |devs|
      ensures devs[i].parent != host
    {
      assert Rooted(devs, devs[i]);
    }
  }

  lemma ConnectIs(s: World, host: Text, fails: bool)
    ensures !IsTop(s.devs, host) || host in s.conns ==> Connect(s, host, fails) == s
    ensures IsTop(s.devs, host) && host !in s.conns ==>
              Connect(s, host, fails) == World(s.devs, s.conns[host := Dialled(host, s.devs, fails)])
  {
  }

  lemma AddIs(s: World, host: Text, port: u16, key: Text, name: Text, discovery: bool, cloud: bool, fails: bool)
    ensures Run1(s, AddDevice(host, port, key, name, discovery, cloud, fails)) ==
            if host == "" || |key| != KEY_LENGTH || Has(s.devs, host) then s
            else Connect(s.(devs := s.devs + [Added(host, port, key, name, discovery, cloud)]), host, fails)
  {
    hide Connect, Added, Has;
  }

  lemma AddKeeps(s: World, host: Text, port: u16, key: Text, name: Text, discovery: bool, cloud: bool, fails: bool)
    requires ServiceInv(s) && host != "" && |key| == KEY_LENGTH && !Has(s.devs, host) && StaysApart(s.devs, host)
    ensures ServiceInv(Run1(s, AddDevice(host, port, key, name, discovery, cloud, fails)))
  {
    hide IsForest, ServiceInv, IsTop, Dialled, Run1, Connect, OnlineKnown, ConnInv, Has, StaysApart;
    var d := Added(host, port, key, name, discovery, cloud);
    var devs := s.devs + [d];
    AddIs(s, host, port, key, name, discovery, cloud, fails);
    ConnectIs(s.(devs := devs), host, fails);
    ServiceForest(s);
    AppendForest(s.devs, d);
    AppendConns(s, d);
    NotTop(s.devs, host);
    NewOffline(s.devs, d);
    DialledInv(host, devs, fails);
    InvWith(s, devs, host, Dialled(host, devs, fails));
  }

  /** One top-level device and its connection more. */
  lemma InvWith(s: World, devs: Devs, host: Text, c: Conn)
    requires ServiceInv(s) && IsForest(devs) && forall x :: IsTop(devs, x) <==> IsTop(s.devs, x) || x == host
    requires (forall x :: x in s.conns ==> ConnInv(x, s.conns[x], devs)) && ConnInv(host, c, devs)
    ensures ServiceInv(World(devs, s.conns[host := c]))
    ensures forall x :: x in s.conns <==> IsTop(s.devs, x)
  {
    hide IsForest, IsTop, ConnInv;
  }

  /** The connections of the other devices keep their invariants. */
  lemma AppendConns(s: World, d: Dev)
    requires ServiceInv(s) && IsForest(s.devs + [d]) && d.parent == "" && !d.online
    requires forall host :: IsTop(s.devs, host) ==> IsTop(s.devs + [d], host)
    ensures forall x :: x in s.conns <==> IsTop(s.devs, x)
    ensures forall x :: x in s.conns ==> ConnInv(x, s.conns[x], s.devs + [d])
  {
    hide IsForest, SessionInv, HistoryInv, Orderly, AvailInv, Current, IsTop;
    forall x | x in s.conns
      ensures ConnInv(x, s.conns[x], s.devs + [d])
    {
      AppendAvail(s.devs, d, s.conns[x]);
      AppendEndures(s.devs, d, x);
      EnduresCurrent(s.conns[x], s.devs, s.devs + [d]);
    }
  }

  lemma AppendEndures(devs: Devs, d: Dev, host: Text)
    requires IsForest(devs + [d]) && IsTop(devs, host) && IsTop(devs + [d], host) && d.parent == ""
    ensures Endures(host, devs, devs + [d])
  {
    hide Apart, Contiguous;
    var r := devs + [d];
    HostNotEmpty(r, host);
    assert r[IndexOfHost(devs, host)].host == host && r[|devs|] == d;
  }

  lemma NotTop(devs: Devs, host: Text)
    requires !Has(devs, host)
    ensures !IsTop(devs, host)
  {
  }

  lemma NewOffline(devs: Devs, d: Dev)
    requires IsForest(devs) && !Has(devs, d.host) && !d.online && d.host != "" && d.parent == ""
    ensures !OnlineAt(devs + [d], d.host) && OnlineKnown(devs + [d], d.host, {})
  {
    AppendFind(devs, d, d.host);
    NoneOnline(devs, d.host);
  }

  // ---------------------------------------------------------------- updating

  lemma UpdateKeeps(s: World, i: nat, op: Op)
    requires ServiceInv(s) && i < |s.devs| && op.UpdateDevice?
    ensures ServiceInv(s.(devs := s.devs[i := Updated(s.devs[i], op)]))
  {
    hide IsForest, SessionInv, HistoryInv, Orderly, AvailInv, Current, Thinned, Updated, IsTop;
    var r := s.devs[i := Updated(s.devs[i], op)];
    UpdatedLike(s.devs[i], op);
    UpdateThinned(s.devs, i, Updated(s.devs[i], op));
    ThinnedForest(s.devs, r);
    forall host | host in s.conns
      ensures ConnInv(host, s.conns[host], r)
    {
      TopHas(s.devs, host);
      UpdatedOnline(s.devs, i, Updated(s.devs[i], op), host);
      ThinnedAvail(s.devs, r, s.conns[host]);
      UpdatedEndures(s.devs, i, op, host);
      EnduresCurrent(s.conns[host], s.devs, r);
    }
    forall host
      ensures IsTop(r, host) <==> IsTop(s.devs, host)
    {
      TopHas(s.devs, host);
    }
  }

  lemma TopHas(devs: Devs, host: Text)
    ensures IsTop(devs, host) ==> Has(devs, host)
  {
  }

  lemma UpdatedLike(d: Dev, op: Op)
    requires op.UpdateDevice?
    ensures Updated(d, op).host == d.host && Updated(d, op).online == d.online && Like(d, Updated(d, op))
  {
  }

  lemma UpdatedEndures(devs: Devs, i: nat, op: Op, host: Text)
    requires i < |devs| && op.UpdateDevice?
    ensures Endures(host, devs, devs[i := Updated(devs[i], op)])
  {
    var r := devs[i := Updated(devs[i], op)];
    forall k | 0 <= k < |r|
      ensures devs[k].host == r[k].host && devs[k].parent == r[k].parent && devs[k].endpoints == r[k].endpoints
    {
    }
  }

  lemma UpdatedOnline(devs: Devs, i: nat, e: Dev, host: Text)
    requires i < |devs| && e.host == devs[i].host && e.online == devs[i].online && Has(devs, host)
    ensures Has(devs[i := e], host) && Find(devs[i := e], host).online == Find(devs, host).online
  {
    SameHosts(devs, devs[i := e], host);
  }

  lemma UpdateThinned(devs: Devs, i: nat, e: Dev)
    requires IsForest(devs) && i < |devs| && e.host == devs[i].host && Like(devs[i], e)
    ensures Thinned(devs, devs[i := e])
    ensures forall host :: Has(devs[i := e], host) <==> Has(devs, host)
  {
    hide Contiguous, Apart, Like, SubOf;
    LikeSelf();
    var r := devs[i := e];
    forall host
      ensures IndexOfHost(r, host) == IndexOfHost(devs, host)
    {
      SameHosts(devs, r, host);
    }
    forall k | 0 <= k < |r|
      ensures Has(devs, r[k].host) && Like(Find(devs, r[k].host), r[k])
      ensures r[k].parent != "" ==> Has(r, r[k].parent)
    {
      FindAt(devs, k);
      assert Rooted(devs, devs[k]);
    }
  }

  lemma LikeSelf()
    ensures forall d: Dev :: Like(d, d)
    ensures forall d: Dev, e: Dev :: Like(d, e) ==> e.parent == d.parent
  {
  }

  // ---------------------------------------------------------------- restarting

  /** A list with distinct hosts comes back with its reloadable devices. */
  lemma {:induction false} ReloadAllFind(devs: Devs, host: Text)
    requires DistinctHosts(devs)
    ensures Has(ReloadAll(devs), host) <==> Has(devs, host) && Reloadable(Find(devs, host))
    ensures Has(ReloadAll(devs), host) ==> Reloaded(Find(devs, host)) == Some(Find(ReloadAll(devs), host))
  {
    hide Reloaded, Has, Find, Reloadable;
    if devs == [] {
      NothingFound(host);
    } else {
      var front, d := devs[..|devs| - 1], devs[|devs| - 1];
      assert devs == front + [d];
      DistinctLast(devs);
      ReloadAllFind(front, host);
      AppendFind(front, d, host);
      ReloadableIff(d);
      if Reloadable(d) {
        var e := Reloaded(d).value;
        assert ReloadAll(devs) == ReloadAll(front) + [e];
        AppendFind(ReloadAll(front), e, host);
      } else {
        assert ReloadAll(devs) == ReloadAll(front) + [] == ReloadAll(front);
      }
    }
  }

  /** The devices that come back stand in the order they had. */
  lemma {:induction false} ReloadedAt(devs: Devs, j: nat, n: nat)
    requires j < n <= |devs| && Reloadable(devs[j])
    ensures Reloaded(devs[j]).Some? && |ReloadAll(devs[..j])| < |ReloadAll(devs[..n])|
    ensures ReloadAll(devs[..n])[|ReloadAll(devs[..j])|] == Reloaded(devs[j]).value
  {
    hide Reloaded;
    ReloadableIff(devs[j]);
    assert devs[..n][..n - 1] == devs[..n - 1];
    if j < n - 1 {
      ReloadedAt(devs, j, n - 1);
    }
  }

  lemma NothingFound(host: Text)
    ensures !Has([], host)
  {
  }

  lemma ReloadableIff(d: Dev)
    ensures Reloadable(d) <==> Reloaded(d).Some?
    ensures Reloadable(d) ==> Reloaded(d).value.host == d.host
  {
    hide Reloaded;
    ReloadedIff(d);
    if Reloadable(d) {
      IdentityReloaded(d);
    }
  }

  lemma DistinctLast(devs: Devs)
    requires DistinctHosts(devs) && devs != []
    ensures !Has(devs[..|devs| - 1], devs[|devs| - 1].host) && DistinctHosts(devs[..|devs| - 1])
  {
  }

  lemma {:induction false} ReloadAllDistinct(devs: Devs)
    requires DistinctHosts(devs)
    ensures DistinctHosts(ReloadAll(devs))
  {
    hide Reloaded, Reloadable;
    if devs != [] {
      var front, d := devs[..|devs| - 1], devs[|devs| - 1];
      ReloadAllDistinct(front);
      DistinctLast(devs);
      ReloadAllFind(front, d.host);
      HasIff(ReloadAll(front), d.host);
      ReloadedIff(d);
      if Reloaded(d).Some? {
        IdentityReloaded(d);
      }
    }
  }

  lemma ReloadThinned(devs: Devs)
    requires IsForest(devs) && NoOrphans(devs)
    ensures Thinned(devs, ReloadAll(devs))
    ensures forall i :: 0 <= i < |ReloadAll(devs)| ==> !ReloadAll(devs)[i].online
  {
    hide Reloaded, ReloadAll, Contiguous;
    var r := ReloadAll(devs);
    ReloadAllDistinct(devs);
    forall i | 0 <= i < |r|
      ensures Has(devs, r[i].host) && Like(Find(devs, r[i].host), r[i]) && !r[i].online
      ensures r[i].parent != "" ==> Has(r, r[i].parent)
    {
      FindAt(r, i);
      ReloadAllFind(devs, r[i].host);
      IdentityReloaded(Find(devs, r[i].host));
      var d := devs[IndexOfHost(devs, r[i].host)];
      assert Rooted(devs, d);
      if d.parent != "" {
        ReloadAllFind(devs, d.parent);
        assert Rooted(devs, devs[IndexOfHost(devs, d.parent)]);
      }
    }
  }

  /** Where the list that comes back is a forest, nothing was orphaned. */
  lemma ForestNoOrphans(devs: Devs)
    requires IsForest(devs) && IsForest(ReloadAll(devs))
    ensures NoOrphans(devs)
  {
    hide Reloaded, ReloadAll, Contiguous;
    var r := ReloadAll(devs);
    forall i | 0 <= i < |devs| && devs[i].parent != "" && Reloadable(devs[i])
      ensures Has(devs, devs[i].parent) && Find(devs, devs[i].parent).name != ""
    {
      FindAt(devs, i);
      ReloadAllFind(devs, devs[i].host);
      IdentityReloaded(devs[i]);
      assert Rooted(r, r[IndexOfHost(r, devs[i].host)]);
      ReloadAllFind(devs, devs[i].parent);
    }
  }

  lemma RestartKeeps(s: World, failing: set<Text>)
    requires IsForest(s.devs) && NoOrphans(s.devs)
    ensures ServiceInv(Run1(s, Restart(failing)))
  {
    hide IsForest, SessionInv, HistoryInv, Orderly, AvailInv, Current, Thinned, ReloadAll, Dialled;
    var r := ReloadAll(s.devs);
    ReloadThinned(s.devs);
    ThinnedForest(s.devs, r);
    TopHostsIff(r);
    forall host | host in TopHosts(r)
      ensures ConnInv(host, Dialled(host, r, host in failing), r)
    {
      DialledInv(host, r, host in failing);
    }
  }

  lemma TopHostsIff(devs: Devs)
    requires IsForest(devs)
    ensures forall host :: host in TopHosts(devs) <==> IsTop(devs, host)
  {
    forall host | host in TopHosts(devs)
      ensures IsTop(devs, host)
    {
      var i :| 0 <= i < |devs| && devs[i].parent == "" && devs[i].host == host;
      FindAt(devs, i);
    }
  }

  // ---------------------------------------------------------------- every run

  /** A first start finds an empty database; the invariant holds. */
  lemma FirstStart(failing: set<Text>)
    ensures ParseAll([]) == [] && ServiceInv(World([], ConnectAll([], failing)))
  {
    hide Dialled;
    assert TopHosts([]) == {};
  }

  /** Every admissible operation keeps the service invariant. */
  lemma OpKeeps(s: World, op: Op)
    requires ServiceInv(s) && Admissible(s, op)
    ensures ServiceInv(Run1(s, op))
  {
    hide ServiceInv, OnEvent, Survivors, Updated, ReloadAll, Connect, StaysApart, NoOrphans;
    match op
    case AddDevice(host, port, key, name, discovery, cloud, fails) =>
      if host != "" && |key| == KEY_LENGTH && !Has(s.devs, host) {
        AddKeeps(s, host, port, key, name, discovery, cloud, fails);
      }
    case RemoveDevice(id) =>
      if IndexOf(s.devs, id) < |s.devs| {
        RemoveKeeps(s, IndexOf(s.devs, id));
      }
    case UpdateDevice(id, _, _, _, _) =>
      if IndexOf(s.devs, id) < |s.devs| {
        UpdateKeeps(s, IndexOf(s.devs, id), op);
      }
    case Restart(failing) =>
      ServiceForest(s);
      RestartKeeps(s, failing);
    case Happens(host, event) => EventKeeps(s, host, event);
    case SendTo(id, endpoint, body) =>
      if IndexOf(s.devs, id) < |s.devs| {
        var d := s.devs[IndexOf(s.devs, id)];
        EventKeeps(s, Route(d), Event.Command(d.host, endpoint, body));
      }
  }

  /** An operation keeps the service invariant exactly when it is admissible. */
  lemma OpKeepsIff(s: World, op: Op)
    requires ServiceInv(s)
    ensures ServiceInv(Run1(s, op)) <==> Admissible(s, op)
  {
    hide ServiceInv, ReloadAll, Connect, StaysApart, NoOrphans, IsForest, ConnectAll;
    ServiceForest(s);
    if Admissible(s, op) {
      OpKeeps(s, op);
    } else if ServiceInv(Run1(s, op)) {
      ServiceForest(Run1(s, op));
      if op.Restart? {
        ForestNoOrphans(s.devs);
      } else {
        var d := Added(op.host, op.port, op.key, op.name, op.discovery, op.cloud);
        AddIs(s, op.host, op.port, op.key, op.name, op.discovery, op.cloud, op.fails);
        ConnectDevs(s.(devs := s.devs + [d]), op.host, op.fails);
        ForestApart(s.devs);
        ForestApart(s.devs + [d]);
        AppendApart(s.devs, d);
      }
    }
  }

  lemma ConnectDevs(s: World, host: Text, fails: bool)
    ensures Connect(s, host, fails).devs == s.devs
  {
  }

  lemma ForestApart(devs: Devs)
    requires IsForest(devs)
    ensures Apart(devs)
  {
  }

  lemma ServiceForest(s: World)
    requires ServiceInv(s)
    ensures IsForest(s.devs)
  {
  }

  /** Every operation is admissible in the state it comes in. */
  ghost predicate AllAdmissible(s: World, ops: seq<Op>) {
    forall n :: 0 <= n < |ops| ==> Admissible(Run(s, ops[..n]), ops[n])
  }

  lemma AdmissibleFront(s: World, ops: seq<Op>)
    requires AllAdmissible(s, ops) && ops != []
    ensures AllAdmissible(s, ops[..|ops| - 1]) && Admissible(Run(s, ops[..|ops| - 1]), ops[|ops| - 1])
  {
    hide Admissible, Run;
    var front := ops[..|ops| - 1];
    forall n | 0 <= n < |front|
      ensures Admissible(Run(s, front[..n]), front[n])
    {
      assert front[..n] == ops[..n];
    }
  }

  /**
   In every state of every run: hosts are distinct, sub-devices hang on top-level devices of the list,
   the connection map is exactly theirs, and each connection keeps its session, history and
   availability invariants.
   */
  lemma {:induction false} RunKeeps(s: World, ops: seq<Op>)
    requires ServiceInv(s) && AllAdmissible(s, ops)
    ensures ServiceInv(Run(s, ops))
  {
    hide ServiceInv, Run1, Admissible, AllAdmissible;
    if ops != [] {
      AdmissibleFront(s, ops);
      RunKeeps(s, ops[..|ops| - 1]);
      OpKeeps(Run(s, ops[..|ops| - 1]), ops[|ops| - 1]);
    }
  }

  /** The invariant holds all along a run exactly when every operation of it is admissible. */
  lemma RunKeepsIff(s: World, ops: seq<Op>)
    requires ServiceInv(s)
    ensures (forall n :: 0 <= n <= |ops| ==> ServiceInv(Run(s, ops[..n]))) <==> AllAdmissible(s, ops)
  {
    hide ServiceInv, Run1, Admissible, Run;
    if AllAdmissible(s, ops) {
      forall n | 0 <= n <= |ops|
        ensures ServiceInv(Run(s, ops[..n]))
      {
        AdmissibleUpTo(s, ops, n);
        RunKeeps(s, ops[..n]);
      }
    }
    if forall n :: 0 <= n <= |ops| ==> ServiceInv(Run(s, ops[..n])) {
      forall n | 0 <= n < |ops|
        ensures Admissible(Run(s, ops[..n]), ops[n])
      {
        assert ops[..n + 1][..n] == ops[..n];
        RunNext(s, ops[..n + 1]);
        OpKeepsIff(Run(s, ops[..n]), ops[n]);
      }
    }
  }

  lemma AdmissibleUpTo(s: World, ops: seq<Op>, n: nat)
    requires AllAdmissible(s, ops) && n <= |ops|
    ensures AllAdmissible(s, ops[..n])
  {
    hide Admissible, Run;
    forall k | 0 <= k < n
      ensures Admissible(Run(s, ops[..n][..k]), ops[..n][k])
    {
      assert ops[..n][..k] == ops[..k];
    }
  }

  lemma RunNext(s: World, ops: seq<Op>)
    requires ops != []
    ensures Run(s, ops) == Run1(Run(s, ops[..|ops| - 1]), ops[|ops| - 1])
  {
    hide Run1;
  }
}
