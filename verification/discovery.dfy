/** The device list as a value, and what a finished discovery does to it. */
module Discovery {
  import opened Order
  import opened Texts
  import opened Devices

  type Devs = seq<Dev>
  type Names = map<int, Text>

  // ---------------------------------------------------------------- the list

  /** Position of the first device with a host; the length of the list if there is none. */
  function IndexOfHost(devs: Devs, host: Text): (i: nat)
    ensures i <= |devs|
    ensures i < |devs| ==> devs[i].host == host
    ensures forall j :: 0 <= j < i ==> devs[j].host != host
    decreases |devs|
  {
    if devs == [] then 0
    else if IndexOfHost(devs[..|devs| - 1], host) < |devs| - 1 then IndexOfHost(devs[..|devs| - 1], host)
    else if devs[|devs| - 1].host == host then |devs| - 1
    else |devs|
  }

  /** Position of the first device with a name; the length of the list if there is none. */
  function IndexOfName(devs: Devs, name: Text): (i: nat)
    ensures i <= |devs|
    ensures i < |devs| ==> devs[i].name == name
    ensures forall j :: 0 <= j < i ==> devs[j].name != name
    decreases |devs|
  {
    if devs == [] then 0
    else if IndexOfName(devs[..|devs| - 1], name) < |devs| - 1 then IndexOfName(devs[..|devs| - 1], name)
    else if devs[|devs| - 1].name == name then |devs| - 1
    else |devs|
  }

  predicate Has(devs: Devs, host: Text) { IndexOfHost(devs, host) < |devs| }

  /** `byHost`, for a host the list has. */
  function Find(devs: Devs, host: Text): (d: Dev)
    requires Has(devs, host)
    ensures d in devs && d.host == host
  {
    devs[IndexOfHost(devs, host)]
  }

  /** The list with new contents for the device of the same host. */
  function Put(devs: Devs, d: Dev): (r: Devs)
    ensures |r| == |devs|
  {
    if Has(devs, d.host) then devs[IndexOfHost(devs, d.host) := d] else devs
  }

  predicate DistinctHosts(devs: Devs) {
    forall i, j :: 0 <= i < j < |devs| ==> devs[i].host != devs[j].host
  }

  lemma HasIff(devs: Devs, host: Text)
    ensures Has(devs, host) <==> exists i :: 0 <= i < |devs| && devs[i].host == host
  {
  }

  /** With distinct hosts, every device is the one found under its host. */
  lemma FindAt(devs: Devs, i: nat)
    requires DistinctHosts(devs) && i < |devs|
    ensures IndexOfHost(devs, devs[i].host) == i
  {
    var j := IndexOfHost(devs, devs[i].host);
    assert j <= i;
  }

  lemma SameHosts(a: Devs, b: Devs, host: Text)
    requires |a| == |b| && forall i :: 0 <= i < |a| ==> a[i].host == b[i].host
    ensures IndexOfHost(a, host) == IndexOfHost(b, host)
  {
  }

  lemma PutFind(devs: Devs, d: Dev, host: Text)
    requires Has(devs, d.host)
    ensures Has(Put(devs, d), host) <==> Has(devs, host)
    ensures Has(devs, host) ==> Find(Put(devs, d), host) == if host == d.host then d else Find(devs, host)
    ensures IndexOfHost(Put(devs, d), host) == IndexOfHost(devs, host)
  {
    var r, i, j := Put(devs, d), IndexOfHost(Put(devs, d), host), IndexOfHost(devs, host);
    assert forall k :: 0 <= k < |devs| ==> r[k].host == devs[k].host;
  }

  lemma AppendFind(devs: Devs, d: Dev, host: Text)
    ensures Has(devs + [d], host) <==> Has(devs, host) || host == d.host
    ensures Has(devs, host) ==>
              IndexOfHost(devs + [d], host) == IndexOfHost(devs, host) && Find(devs + [d], host) == Find(devs, host)
    ensures !Has(devs, host) && host == d.host ==> Find(devs + [d], host) == d
  {
    assert (devs + [d])[..|devs|] == devs;
  }

  // ---------------------------------------------------------------- sub-devices

  function NoSpaces(name: Text): (s: Text)
    ensures |s| == |name|
  {
    seq(|name|, i requires 0 <= i < |name| => if name[i] == ' ' then '_' else name[i])
  }

  /** The address of a sub-device: its parent's address, an underscore, its name without spaces. */
  function SubAddress(host: Text, name: Text): Text {
    host + "_" + NoSpaces(name)
  }

  lemma SubAddressLonger(host: Text, name: Text)
    ensures SubAddress(host, name) != host
  {
  }

  /** The name of a sub-device id; an id that was not announced goes by its number. */
  function NameOf(names: Names, id: int): Text {
    if id in names then names[id] else NumberText(id)
  }

  function AddressOf(host: Text, names: Names, id: int): Text {
    SubAddress(host, NameOf(names, id))
  }

  /** The list with a device for the address of a sub-device, new if there was none. */
  function WithSub(devs: Devs, main: Dev, name: Text): (r: Devs)
    ensures Has(r, SubAddress(main.host, name))
  {
    var address := SubAddress(main.host, name);
    if Has(devs, address) then devs
    else
      var d := NewDev(name, address, main.port, main.key).(parent := main.host, cloud := main.cloud);
      AppendFind(devs, d, address);
      devs + [d]
  }

  /** `subDevice` on the device found: name, model and parent are taken over, and it is online. */
  function Renewed(d: Dev, main: Dev, name: Text): Dev {
    d.(name := name, manufacturer := main.manufacturer, model := "Subdev " + name + " of " + main.name,
       parent := main.host, online := true)
  }

  /** One group of entities applied to the sub-device it belongs to. */
  function ApplyGroup(devs: Devs, host: Text, names: Names, id: int, infos: seq<EntityInfo>): Devs {
    if !Has(devs, host) then devs
    else
      var main, name := Find(devs, host), NameOf(names, id);
      var devs1 := WithSub(devs, main, name);
      Put(devs1, Applied(Renewed(Find(devs1, SubAddress(host, name)), main, name), infos))
  }

  /** The entities of one sub-device id, in their order. */
  function Group(pending: seq<EntityInfo>, id: int): seq<EntityInfo> {
    if pending == [] then []
    else Group(pending[..|pending| - 1], id) +
         if pending[|pending| - 1].deviceId == id then [pending[|pending| - 1]] else []
  }

  /** The sub-device ids that have entities. */
  function GroupIds(pending: seq<EntityInfo>): set<int> {
    set i | 0 <= i < |pending| && pending[i].deviceId != 0 :: pending[i].deviceId
  }

  /** The groups of the first `ids`, one after the other. */
  function ApplyGroups(devs: Devs, host: Text, names: Names, pending: seq<EntityInfo>, ids: seq<int>): Devs {
    if ids == [] then devs
    else
      var id := ids[|ids| - 1];
      ApplyGroup(ApplyGroups(devs, host, names, pending, ids[..|ids| - 1]), host, names, id, Group(pending, id))
  }

  /** `applyDiscoveredEntities`: the main device first, then the sub-devices in the order of their ids. */
  function ApplyDiscovered(devs: Devs, host: Text, names: Names, pending: seq<EntityInfo>): Devs {
    if !Has(devs, host) then devs
    else
      var devs1 := Put(devs, Applied(Find(devs, host), Group(pending, 0)));
      ApplyGroups(devs1, host, names, pending, Ascending(GroupIds(pending)))
  }
}
