/** Devices and the device list as objects that are updated in place. */
module Objects {
  import opened Bytes
  import opened Order
  import opened Texts
  import opened ObjectIds
  import opened Slots
  import opened Devices
  import opened Discovery
  import opened Database

  class DeviceObject {
    const host: Text
    const port: u16
    const key: Text
    var name: Text
    var parent: Text
    var active: bool
    var discovery: bool
    var cloud: bool
    var online: bool
    var manufacturer: Text
    var model: Text
    var version: Text
    var lastSeen: int
    var published: seq<Text>
    var slots: SlotMap
    var endpoints: map<byte, Endpoint>
    var options: map<Text, Opt>

    function View(): Dev
      reads this
    {
      Dev(name, host, port, key, parent, active, discovery, cloud, online, manufacturer, model, version,
          lastSeen, published, slots, endpoints, options)
    }

    constructor (name: Text, host: Text, port: u16, key: Text)
      ensures View() == NewDev(name, host, port, key)
    {
      this.name, this.host, this.port, this.key := name, host, port, key;
      parent, active, discovery, cloud, online := "", true, true, true, false;
      manufacturer, model, version, lastSeen, published := "", "", "", 0, [];
      slots, endpoints, options := map[], map[], map[];
    }

    /** The number of a special entity: the first one its name holds that is unused, or else the first free one. */
    method ChooseNumber(used: set<int>, name: Text) returns (number: int)
      ensures number == NumberFor(slots, used, name)
    {
      number := 0;
      var keys := Ascending(slots.Keys);
      for k := 0 to |keys|
        invariant number == 0
        invariant forall j :: 0 <= j < k ==> keys[j] !in Candidates(slots, used, name)
      {
        assert keys[k] in keys;
        if slots[keys[k]] == name && keys[k] !in used {
          number := keys[k];
          LeastIs(Candidates(slots, used, name), keys, k);
          break;
        }
      }
      if number == 0 {
        NoCandidates(slots, used, name, keys);
        number := 1;
        while number in slots || number in used
          invariant FirstFree(slots.Keys + used, number) == FirstFree(slots.Keys + used, 1)
          decreases AtLeast(slots.Keys + used, number)
        {
          assert number in AtLeast(slots.Keys + used, number) && number !in AtLeast(slots.Keys + used, number + 1);
          number := number + 1;
        }
      }
    }

    /** The first pass: the slot map goes on, and special entities get their numbers. */
    method ReserveNumbers(infos: seq<EntityInfo>) returns (ids: seq<byte>, used: set<int>)
      modifies this
      ensures View() == old(View()).(slots := Round(old(slots), Asks(infos)).slots)
      ensures used == Round(old(slots), Asks(infos)).used && ids == Cast(Round(old(slots), Asks(infos)).numbers)
    {
      ids, used := [], {};
      ghost var numbers: seq<int>, asks := [], Asks(infos);
      for i := 0 to |infos|
        invariant View() == old(View()).(slots := slots)
        invariant Round(old(slots), asks[..i]) == Alloc(slots, used, numbers) && ids == Cast(numbers)
      {
        assert asks[..i + 1][..i] == asks[..i];
        if !IsSpecial(infos[i]) {
          ids, numbers := ids + [0], numbers + [0];
          continue;
        }
        var number := ChooseNumber(used, infos[i].name);
        slots := slots[number := infos[i].name];
        used := used + {number};
        ids, numbers := ids + [number % 0x100], numbers + [number];
      }
      assert asks[..|infos|] == asks;
    }

    /** The last loop of `applyEntitiesToDevice`: an endpoint and its options for every entity. */
    method BuildEndpoints(infos: seq<EntityInfo>, ids: seq<byte>, objectIds: seq<Text>)
      requires |ids| == |infos| == |objectIds|
      requires forall i :: 0 <= i < |infos| ==> objectIds[i] == Id(Bases(infos), i)
      modifies this`endpoints, this`options
      ensures endpoints == EndpointsOf(ids, infos, |infos|) && options == OptionsOf(infos, |infos|)
    {
      hide Id, Bases, OptionEntries, Title, Positive, EndpointOf, InsertAll;
      endpoints, options := map[], map[];
      for i := 0 to |infos|
        invariant endpoints == EndpointsOf(ids, infos, i) && options == OptionsOf(infos, i)
      {
        var info, objectId := infos[i], objectIds[i];
        options := AddOptions(options, OptionEntries(info.kind, objectId, Title(info, objectId), info.selectOptions,
                                                     Positive(info.minMireds) || Positive(info.maxMireds)));
        endpoints := endpoints[ids[i] := EndpointOf(info, objectId)];
      }
    }

    /** `applyEntitiesToDevice`. */
    method ApplyEntities(infos: seq<EntityInfo>)
      modifies this
      ensures View() == Applied(old(View()), infos)
    {
      hide Id, Round, Asks, EndpointIds, EndpointsOf, OptionsOf;
      PassLength(slots, Asks(infos));
      EndpointIdsAre(slots, Asks(infos));
      var objectIds := ObjectIdsOf(infos);
      var ids, used := ReserveNumbers(infos);
      ids := PackCommon(ids, used);
      BuildEndpoints(infos, ids, objectIds);
    }
  }

  lemma LeastIs(s: set<int>, keys: seq<int>, k: nat)
    requires Increasing(keys) && k < |keys| && keys[k] in s
    requires forall x :: x in s ==> x in keys
    requires forall j :: 0 <= j < k ==> keys[j] !in s
    ensures s != {} && Least(s) == keys[k]
  {
    var m := Least(s);
    var j :| 0 <= j < |keys| && keys[j] == m;
  }

  lemma NoCandidates(m: SlotMap, used: set<int>, name: Text, keys: seq<int>)
    requires forall x :: x in m ==> x in keys
    ensures (forall j :: 0 <= j < |keys| ==> keys[j] !in Candidates(m, used, name)) ==> Candidates(m, used, name) == {}
  {
    if Candidates(m, used, name) != {} {
      var x := SomeElement(Candidates(m, used, name));
      assert x in keys;
    }
  }

  /** The options with entries inserted in order. */
  method AddOptions(options: map<Text, Opt>, entries: seq<(Text, Opt)>) returns (r: map<Text, Opt>)
    ensures r == InsertAll(options, entries)
  {
    r := options;
    for i := 0 to |entries|
      invariant r == InsertAll(options, entries[..i])
    {
      r := r[entries[i].0 := entries[i].1];
      assert entries[..i + 1][..i] == entries[..i];
    }
    assert entries[..|entries|] == entries;
  }

  /** The ids of a round, with the running counts of `objectIdCount`. */
  method ObjectIdsOf(infos: seq<EntityInfo>) returns (ids: seq<Text>)
    ensures |ids| == |infos|
    ensures forall i :: 0 <= i < |infos| ==> ids[i] == Id(Bases(infos), i)
  {
    hide Words, CamelCase, Decimal, Label, Bases;
    ghost var bases := Bases(infos);
    var counts: map<Text, nat> := map[];
    ids := [];
    for i := 0 to |infos|
      invariant |ids| == i
      invariant forall j :: 0 <= j < i ==> ids[j] == Id(bases, j)
      invariant forall b :: (if b in counts then counts[b] else 0) == Occurrences(bases[..i], b)
    {
      var base := ToCamelCase(Label(infos[i]));
      BaseAt(infos, i);
      var count := (if base in counts then counts[base] else 0) + 1;
      counts := counts[base := count];
      ids := ids + [if count > 1 then base + Decimal(count) else base];
      assert bases[..i + 1][..i] == bases[..i];
    }
  }

  lemma BaseAt(infos: seq<EntityInfo>, i: nat)
    requires i < |infos|
    ensures Bases(infos)[i] == CamelCase(Words(Label(infos[i])))
  {
  }

  /** The second pass: common entities get the numbers left over. */
  method PackCommon(first: seq<byte>, reserved: set<int>) returns (ids: seq<byte>)
    ensures ids == Cast(Packed(first, 1, reserved))
  {
    hide Packed, Cast;
    ids := first;
    var used, next := reserved, 1;
    for i := 0 to |first|
      invariant |ids| == |first| && next >= 1
      invariant ids[i..] == first[i..]
      invariant Cast(Packed(first, 1, reserved)) == ids[..i] + Cast(Packed(first[i..], next, used))
    {
      ghost var left := first[i..];
      assert left[0] == ids[i] && left[1..] == first[i + 1..];
      PackedStep(left, next, used);
      if ids[i] != 0 {
        assert ids[..i + 1] == ids[..i] + [ids[i]];
        continue;
      }
      ghost var from, before := next, ids;
      while next in used
        invariant from <= next && FirstFree(used, next) == FirstFree(used, from)
        decreases AtLeast(used, next)
      {
        assert next in AtLeast(used, next) && next !in AtLeast(used, next + 1);
        next := next + 1;
      }
      ids := ids[i := next % 0x100];
      assert ids[..i + 1] == before[..i] + [next % 0x100];
      used := used + {next};
      next := next + 1;
    }
    assert ids[..|first|] == ids;
    PackedNone(next, used);
    assert first[|first|..] == [];
  }

  lemma PackedNone(next: int, used: set<int>)
    ensures Cast(Packed([], next, used)) == []
  {
  }

  lemma PackedStep(left: seq<byte>, next: int, used: set<int>)
    requires left != []
    ensures left[0] != 0 ==> Cast(Packed(left, next, used)) == [left[0]] + Cast(Packed(left[1..], next, used))
    ensures left[0] == 0 ==> var n := FirstFree(used, next);
              Cast(Packed(left, next, used)) == [n % 0x100] + Cast(Packed(left[1..], n + 1, used + {n}))
  {
    var n := FirstFree(used, next);
    CastFirst(left[0], Packed(left[1..], next, used));
    CastFirst(n, Packed(left[1..], n + 1, used + {n}));
  }

  lemma EndpointIdsAre(m: SlotMap, asks: seq<Ask>)
    ensures EndpointIds(m, asks) == Cast(Packed(Cast(Round(m, asks).numbers), 1, Round(m, asks).used))
  {
  }

  lemma CastFirst(n: int, rest: seq<int>)
    ensures Cast([n] + rest) == [n % 0x100] + Cast(rest)
  {
  }

  // ---------------------------------------------------------------- the list

  function Views(items: seq<DeviceObject>): (devs: Devs)
    reads items
    ensures |devs| == |items|
    ensures forall i :: 0 <= i < |items| ==> devs[i] == items[i].View()
  {
    seq(|items|, i requires 0 <= i < |items| reads items => items[i].View())
  }

  class DeviceList {
    var items: seq<DeviceObject>

    function View(): Devs
      reads this, items
    {
      Views(items)
    }

    constructor ()
      ensures items == []
    {
      items := [];
    }

    method ByName(name: Text) returns (device: DeviceObject?, index: nat)
      ensures index == IndexOfName(View(), name)
      ensures if index < |items| then device == items[index] else device == null
    {
      for i := 0 to |items|
        invariant forall j :: 0 <= j < i ==> items[j].name != name
      {
        if items[i].name == name {
          return items[i], i;
        }
      }
      return null, |items|;
    }

    method ByHost(host: Text) returns (device: DeviceObject?)
      ensures Has(View(), host) <==> device != null
      ensures device != null ==> device == items[IndexOfHost(View(), host)]
    {
      for i := 0 to |items|
        invariant forall j :: 0 <= j < i ==> items[j].host != host
      {
        if items[i].host == host {
          assert IndexOfHost(View(), host) == i;
          return items[i];
        }
      }
      return null;
    }

    method Append(device: DeviceObject)
      modifies this
      ensures items == old(items) + [device]
    {
      items := items + [device];
    }

    /** Position of an object in the list; -1 if it is not there. */
    method IndexOfObject(device: DeviceObject) returns (index: int)
      ensures device !in items <==> index == -1
      ensures device in items ==> 0 <= index < |items| && items[index] == device && device !in items[..index]
    {
      for i := 0 to |items|
        invariant device !in items[..i]
      {
        if items[i] == device {
          return i;
        }
        assert items[..i + 1] == items[..i] + [items[i]];
      }
      assert items[..|items|] == items;
      return -1;
    }

    method RemoveAt(i: nat)
      requires i < |items|
      modifies this
      ensures items == old(items[..i] + items[i + 1..])
    {
      items := items[..i] + items[i + 1..];
    }

    /** `serialize`. */
    method Serialize() returns (js: seq<Json>)
      ensures js == DevicesJson(View())
    {
      js := [];
      for i := 0 to |items|
        invariant js == DevicesJson(View()[..i])
      {
        js := js + [DeviceJson(items[i].View())];
        assert View()[..i + 1] == View()[..i] + [items[i].View()];
      }
      assert View()[..|items|] == View();
    }

    /** `unserialize`. */
    method Unserialize(js: seq<Json>)
      modifies this
      ensures View() == old(View()) + ParseAll(js)
      ensures |items| >= |old(items)| && items[..|old(items)|] == old(items)
      ensures forall i :: |old(items)| <= i < |items| ==> fresh(items[i])
    {
      hide Parse, Views;
      assert js[..0] == [];
      for i := 0 to |js|
        invariant View() == old(View()) + ParseAll(js[..i])
        invariant |items| >= |old(items)| && items[..|old(items)|] == old(items)
        invariant forall i :: |old(items)| <= i < |items| ==> fresh(items[i])
      {
        var device := ParseDevice(js[i]);
        assert js[..i + 1][..i] == js[..i];
        if device != null {
          items := items + [device];
        }
      }
      assert js[..|js|] == js;
    }
  }

  /** `parse`. */
  method ParseDevice(j: Json) returns (device: DeviceObject?)
    ensures Parse(j).None? <==> device == null
    ensures device != null ==> fresh(device) && device.View() == Parse(j).value
  {
    hide TextAt, NumberAt, FlagAt, RowsAt, ItemsAt, ReadEndpoints, ReadOptions, SlotsOf, TextsOf;
    var name, host, key := TextAt(j, NameM), TextAt(j, HostM), TextAt(j, EncryptionKeyM);
    if name == "" || host == "" || key == "" {
      return null;
    }
    var published := ReadTexts(ItemsAt(j, PublishedEndpointsM));
    var slots := ReadSlots(RowsAt(j, SpecialSlotsM));
    var d := new DeviceObject(name, host, NumberAt(j, PortM, 6053) % 0x1_0000, key);
    ReadDetails(d, j, published, slots);
    SetupEndpoints(d, ItemsAt(j, EntitiesM));
    device := d;
  }

  /** The setters of `parse`. */
  method ReadDetails(d: DeviceObject, j: Json, published: seq<Text>, slots: SlotMap)
    modifies d
    ensures d.View() == Dev(d.name, d.host, d.port, d.key, TextAt(j, ParentAddressM), FlagAt(j, ActiveM, true),
                            FlagAt(j, DiscoveryM, true), FlagAt(j, CloudM, true), old(d.online),
                            TextAt(j, ManufacturerNameM), TextAt(j, ModelNameM), TextAt(j, EsphomeVersionM),
                            NumberAt(j, LastSeenM, 0), published, slots, old(d.endpoints), old(d.options))
    ensures d.name == old(d.name)
  {
    hide TextAt, NumberAt, FlagAt;
    d.active := FlagAt(j, ActiveM, true);
    d.discovery := FlagAt(j, DiscoveryM, true);
    d.cloud := FlagAt(j, CloudM, true);
    d.lastSeen := NumberAt(j, LastSeenM, 0);
    d.manufacturer := TextAt(j, ManufacturerNameM);
    d.published := published;
    d.model := TextAt(j, ModelNameM);
    d.version := TextAt(j, EsphomeVersionM);
    d.slots := slots;
    d.parent := TextAt(j, ParentAddressM);
  }

  method ReadTexts(js: seq<Json>) returns (items: seq<Text>)
    ensures items == TextsOf(js)
  {
    items := [];
    for i := 0 to |js|
      invariant items == TextsOf(js[..i])
    {
      items := items + [if js[i].Str? then js[i].text else ""];
    }
    assert js[..|js|] == js;
  }

  method ReadSlots(rows: seq<Row>) returns (m: SlotMap)
    ensures m == SlotsOf(rows)
  {
    hide ToInt;
    m := map[];
    for i := 0 to |rows|
      invariant m == SlotsOf(rows[..i])
    {
      m := m[ToInt(rows[i].name) := rows[i].text];
      assert rows[..i + 1][..i] == rows[..i];
    }
    assert rows[..|rows|] == rows;
  }

  /** `setupEndpoints`. */
  method SetupEndpoints(d: DeviceObject, js: seq<Json>)
    requires d.options == map[]
    modifies d`endpoints, d`options
    ensures d.endpoints == ReadEndpoints(js, |js|) && d.options == ReadOptions(js, |js|)
  {
    hide ReadEndpoint, ReadEntries, Complete;
    d.endpoints := map[];
    for i := 0 to |js|
      invariant d.endpoints == ReadEndpoints(js, i) && d.options == ReadOptions(js, i)
    {
      var ep := ReadEndpoint(js[i]);
      if !Complete(ep) {
        continue;
      }
      d.options := AddOptions(d.options, ReadEntries(js[i]));
      d.endpoints := d.endpoints[(i + 1) % 0x100 := ep];
    }
  }
}
