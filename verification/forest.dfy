/** The device list as a forest of two levels, and what a connection may do to it. */
module Forest {
  import opened Order
  import opened Texts
  import opened Slots
  import opened Devices
  import opened Discovery
  import opened Connection

  /** What the address of a sub-device of `host` can be. */
  predicate Under(s: Text, host: Text) {
    host + "_" <= s && ' ' !in s[|host| + 1..]
  }

  /** A device whose address is under that of its parent. */
  predicate SubOf(d: Dev, host: Text) {
    d.parent == host && Under(d.host, host)
  }

  predicate IsTop(devs: Devs, host: Text) {
    Has(devs, host) && Find(devs, host).parent == ""
  }

  /** A top-level device with a host and a key, or a sub-device of a top-level device of the list. */
  predicate Rooted(devs: Devs, d: Dev) {
    if d.parent == "" then d.host != "" && d.key != "" else IsTop(devs, d.parent) && SubOf(d, d.parent)
  }

  /** No top-level device has the address of a possible sub-device of another. */
  predicate Apart(devs: Devs) {
    forall i, j :: 0 <= i < |devs| && 0 <= j < |devs| && devs[i].parent == "" && devs[j].parent == "" ==>
                     !Under(devs[i].host, devs[j].host)
  }

  predicate IsForest(devs: Devs) {
    && DistinctHosts(devs) && Apart(devs)
    && forall i :: 0 <= i < |devs| ==> Rooted(devs, devs[i]) && Contiguous(devs[i].slots)
  }

  // ---------------------------------------------------------------- what a connection keeps

  /** What a connection keeps of a device: its identity, and its slot map grows at the end only. */
  predicate Grown(d: Dev, e: Dev) {
    && e.host == d.host && e.port == d.port && e.key == d.key && e.active == d.active
    && (Contiguous(d.slots) ==> Contiguous(e.slots) && Extends(d.slots, e.slots))
  }

  /** What else the connection of `host` keeps: the parent link, and everything if the device is not its own. */
  predicate Tame(host: Text, d: Dev, e: Dev) {
    && e.parent == d.parent
    && (d.host != host && d.parent != host ==> e == d)
  }

  /** The list keeps its devices in their places; new ones may follow. */
  predicate Follows(devs: Devs, devs': Devs) {
    |devs| <= |devs'| && forall i :: 0 <= i < |devs| ==> Grown(devs[i], devs'[i])
  }

  predicate Careful(host: Text, devs: Devs, devs': Devs) {
    && |devs| <= |devs'| && DistinctHosts(devs')
    && (forall i :: 0 <= i < |devs| ==> Tame(host, devs[i], devs'[i]))
    && (forall i :: |devs| <= i < |devs'| ==> SubOf(devs'[i], host) && Contiguous(devs'[i].slots))
  }

  /** What the connection of `host` may do to the list: anything grows, and a forest stays one. */
  predicate Tended(host: Text, devs: Devs, devs': Devs) {
    Follows(devs, devs') && (IsForest(devs) && IsTop(devs, host) ==> Careful(host, devs, devs'))
  }

  lemma FollowsFind(a: Devs, b: Devs, host: Text)
    requires Follows(a, b) && Has(a, host)
    ensures Has(b, host) && Grown(Find(a, host), Find(b, host)) && IndexOfHost(b, host) == IndexOfHost(a, host)
  {
    var i := IndexOfHost(a, host);
    assert Grown(a[i], b[i]);
    forall j | 0 <= j < i
      ensures b[j].host != host
    {
      assert Grown(a[j], b[j]);
    }
    assert IndexOfHost(b, host) == i;
  }

  /** A forest tended by the connection of a top-level device is a forest with the same top-level devices. */
  lemma TendedForest(host: Text, a: Devs, b: Devs)
    requires Tended(host, a, b) && IsForest(a) && IsTop(a, host)
    ensures IsForest(b) && forall x :: IsTop(b, x) <==> IsTop(a, x)
  {
    hide Contiguous;
    HostNotEmpty(a, host);
    forall i | |a| <= i < |b|
      ensures b[i].parent == host != ""
    {
      assert SubOf(b[i], host);
    }
    forall x | Has(a, x)
      ensures Has(b, x) && Find(b, x).parent == Find(a, x).parent
    {
      FollowsFind(a, b, x);
      assert Tame(host, a[IndexOfHost(a, x)], b[IndexOfHost(a, x)]);
    }
    forall x | IsTop(b, x)
      ensures IsTop(a, x)
    {
      var i := IndexOfHost(b, x);
      assert i < |a|;
      assert Tame(host, a[i], b[i]) && Grown(a[i], b[i]);
    }
    forall i | 0 <= i < |b|
      ensures Rooted(b, b[i]) && Contiguous(b[i].slots)
    {
      if i < |a| {
        assert Tame(host, a[i], b[i]) && Grown(a[i], b[i]) && Rooted(a, a[i]);
      } else {
        assert SubOf(b[i], host);
      }
    }
  }

  lemma HostNotEmpty(devs: Devs, host: Text)
    requires IsForest(devs) && IsTop(devs, host)
    ensures host != ""
  {
    assert Rooted(devs, devs[IndexOfHost(devs, host)]);
  }

  lemma TendedSelf(host: Text, devs: Devs)
    ensures Tended(host, devs, devs)
  {
  }

  lemma TendedTransitive(host: Text, a: Devs, b: Devs, c: Devs)
    requires Tended(host, a, b) && Tended(host, b, c)
    ensures Tended(host, a, c)
  {
    hide IsForest, IsTop, Contiguous, Extends, DistinctHosts, SubOf;
    ExtendsTransitive();
    forall i | 0 <= i < |a|
      ensures Grown(a[i], c[i])
    {
      assert Grown(a[i], b[i]) && Grown(b[i], c[i]);
    }
    if IsForest(a) && IsTop(a, host) {
      TendedForest(host, a, b);
      forall i | 0 <= i < |c|
        ensures i < |a| ==> Tame(host, a[i], c[i])
        ensures |a| <= i ==> SubOf(c[i], host) && Contiguous(c[i].slots)
      {
        if i < |a| {
          assert Grown(a[i], b[i]) && Tame(host, a[i], b[i]) && Tame(host, b[i], c[i]);
        } else if i < |b| {
          assert Grown(b[i], c[i]) && Tame(host, b[i], c[i]);
          SubOfKept(b[i], c[i], host);
        }
      }
    }
  }

  lemma SubOfKept(d: Dev, e: Dev, host: Text)
    requires SubOf(d, host) && e.host == d.host && e.parent == d.parent
    ensures SubOf(e, host)
  {
  }

  lemma ExtendsTransitive()
    ensures forall l: SlotMap, m: SlotMap, n: SlotMap :: Extends(l, m) && Extends(m, n) ==> Extends(l, n)
  {
  }

  // ---------------------------------------------------------------- the single changes

  /** New contents for one device that keep its identity. */
  lemma TendedPut(host: Text, devs: Devs, d: Dev)
    requires Has(devs, d.host) && Grown(Find(devs, d.host), d)
    requires IsForest(devs) && IsTop(devs, host) ==> Tame(host, Find(devs, d.host), d)
    ensures Tended(host, devs, Put(devs, d))
  {
    hide Contiguous, Extends, Rooted;
    GrownSelf();
  }

  lemma GrownSelf()
    ensures forall d: Dev :: Grown(d, d)
  {
  }

  lemma GrownApplied(d: Dev, infos: seq<EntityInfo>)
    ensures var e := Applied(d, infos);
            Grown(d, e) && e == d.(slots := e.slots, endpoints := e.endpoints, options := e.options)
  {
    hide EndpointsOf, OptionsOf, EndpointIds, Round;
    if Contiguous(d.slots) {
      RoundShape(d.slots, Asks(infos));
    }
  }

  lemma TendedOnline(devs: Devs, host: Text, online: bool)
    ensures Tended(host, devs, SetOnline(devs, host, online))
  {
    hide Tended;
    TendedSelf(host, devs);
    if Has(devs, host) {
      TendedPut(host, devs, Find(devs, host).(online := online));
    }
  }

  /** Of two hosts that a text can be an address under, one can be an address under the other. */
  lemma PrefixUnique(p: Text, h: Text, s: Text)
    requires Under(s, p) && Under(s, h) && |p| <= |h|
    ensures p == h || Under(h, p)
  {
    assert p == s[..|p|] && h == s[..|h|];
    if |p| < |h| {
      assert p + "_" == s[..|p| + 1] == h[..|p| + 1];
      assert h[|p| + 1..] == s[|p| + 1..][..|h| - |p| - 1];
    }
  }

  lemma TopsApart(devs: Devs, i: nat, j: nat)
    requires Apart(devs) && i < |devs| && j < |devs| && devs[i].parent == "" && devs[j].parent == ""
    ensures !Under(devs[i].host, devs[j].host)
  {
  }

  /** In a forest, a device with an address under a top-level host is a sub-device of that host. */
  lemma UnderHost(devs: Devs, host: Text, i: nat)
    requires IsForest(devs) && IsTop(devs, host) && i < |devs| && Under(devs[i].host, host)
    ensures devs[i].parent == host
  {
    hide Under, Contiguous, Apart;
    var d, h := devs[i], IndexOfHost(devs, host);
    assert Rooted(devs, d);
    if d.parent == "" {
      TopsApart(devs, i, h);
    } else {
      var p := IndexOfHost(devs, d.parent);
      TopsApart(devs, p, h);
      TopsApart(devs, h, p);
      if |d.parent| <= |host| {
        PrefixUnique(d.parent, host, d.host);
      } else {
        PrefixUnique(host, d.parent, d.host);
      }
    }
  }

  lemma AddressUnder(host: Text, name: Text)
    ensures Under(SubAddress(host, name), host)
  {
    assert SubAddress(host, name)[|host| + 1..] == NoSpaces(name);
  }

  lemma TendedOffline(devs: Devs, host: Text, names: Names)
    ensures Tended(host, devs, SetOffline(devs, KnownAddresses(host, names)))
  {
    hide IsForest, IsTop, SubAddress;
    var known := KnownAddresses(host, names);
    if IsForest(devs) && IsTop(devs, host) {
      DistinctForest(devs);
      forall i | 0 <= i < |devs|
        ensures Tame(host, devs[i], SetOffline(devs, known)[i])
      {
        if devs[i].host in known {
          var id :| id in names && devs[i].host == SubAddress(host, names[id]);
          AddressUnder(host, names[id]);
          UnderHost(devs, host, i);
        }
      }
    }
  }

  lemma DistinctForest(devs: Devs)
    requires IsForest(devs)
    ensures DistinctHosts(devs)
  {
  }

  lemma TendedSub(devs: Devs, host: Text, name: Text)
    requires Has(devs, host)
    ensures Tended(host, devs, WithSub(devs, Find(devs, host), name))
  {
    hide SubAddress, Tended;
    var main, address := Find(devs, host), SubAddress(host, name);
    TendedSelf(host, devs);
    AddressUnder(host, name);
    EmptyContiguous();
    TendedAppend(devs, host, NewDev(name, address, main.port, main.key).(parent := main.host, cloud := main.cloud));
  }

  lemma TendedAppend(devs: Devs, host: Text, d: Dev)
    ensures !Has(devs, d.host) && SubOf(d, host) && Contiguous(d.slots) ==> Tended(host, devs, devs + [d])
  {
    hide IsTop, SubOf, Contiguous, Rooted;
    GrownSelf();
    HasIff(devs, d.host);
  }

  lemma EmptyContiguous()
    ensures Contiguous(map[])
  {
  }

  lemma TendedRenewed(devs: Devs, host: Text, main: Dev, name: Text, infos: seq<EntityInfo>)
    requires Has(devs, SubAddress(host, name)) && main.host == host
    ensures Tended(host, devs, Put(devs, Applied(Renewed(Find(devs, SubAddress(host, name)), main, name), infos)))
  {
    hide IsForest, IsTop, Tended, SubAddress, Applied, Contiguous, Extends;
    var d := Find(devs, SubAddress(host, name));
    GrownApplied(Renewed(d, main, name), infos);
    if IsForest(devs) && IsTop(devs, host) {
      AddressUnder(host, name);
      UnderHost(devs, host, IndexOfHost(devs, SubAddress(host, name)));
      HostNotEmpty(devs, host);
    }
    TendedPut(host, devs, Applied(Renewed(d, main, name), infos));
  }

  lemma TendedGroup(devs: Devs, host: Text, names: Names, id: int, infos: seq<EntityInfo>)
    ensures Tended(host, devs, ApplyGroup(devs, host, names, id, infos))
  {
    hide Tended, Applied, SubAddress;
    if Has(devs, host) {
      var main, name := Find(devs, host), NameOf(names, id);
      TendedSub(devs, host, name);
      TendedRenewed(WithSub(devs, main, name), host, main, name, infos);
      TendedTransitive(host, devs, WithSub(devs, main, name), ApplyGroup(devs, host, names, id, infos));
    } else {
      TendedSelf(host, devs);
    }
  }

  lemma {:induction false} TendedGroups(devs: Devs, host: Text, names: Names, pending: seq<EntityInfo>, ids: seq<int>)
    ensures Tended(host, devs, ApplyGroups(devs, host, names, pending, ids))
  {
    hide Tended, ApplyGroup;
    if ids == [] {
      TendedSelf(host, devs);
    } else {
      var devs1 := ApplyGroups(devs, host, names, pending, ids[..|ids| - 1]);
      TendedGroups(devs, host, names, pending, ids[..|ids| - 1]);
      TendedGroup(devs1, host, names, ids[|ids| - 1], Group(pending, ids[|ids| - 1]));
      TendedTransitive(host, devs, devs1, ApplyGroups(devs, host, names, pending, ids));
    }
  }

  lemma TendedDiscovered(devs: Devs, host: Text, names: Names, pending: seq<EntityInfo>)
    ensures Tended(host, devs, ApplyDiscovered(devs, host, names, pending))
  {
    hide Tended, ApplyGroups, Applied, Contiguous, Extends;
    if Has(devs, host) {
      var d := Applied(Find(devs, host), Group(pending, 0));
      GrownApplied(Find(devs, host), Group(pending, 0));
      TendedPut(host, devs, d);
      TendedGroups(Put(devs, d), host, names, pending, Ascending(GroupIds(pending)));
      TendedTransitive(host, devs, Put(devs, d), ApplyDiscovered(devs, host, names, pending));
    } else {
      TendedSelf(host, devs);
    }
  }
}
