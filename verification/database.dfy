/** The device database: a device as JSON, and back. */
module Database {
  import opened Bytes
  import opened Order
  import opened Texts
  import opened ObjectIds
  import opened Slots
  import opened Devices

  /** The member names of the objects written. */
  datatype Member =
    | NameM | HostM | PortM | EncryptionKeyM | ActiveM | DiscoveryM | CloudM | LastSeenM
    | ManufacturerNameM | ModelNameM | EsphomeVersionM | EntitiesM | PublishedEndpointsM
    | SpecialSlotsM | ParentAddressM | KeyM | TypeM | ObjectIdM | OptionsM | MinMiredsM | MaxMiredsM

  /** JSON values; a table is an object whose members are all texts. */
  datatype Json =
    | Null
    | Bool(flag: bool)
    | Num(number: int)
    | Str(text: Text)
    | Arr(items: seq<Json>)
    | Obj(members: map<Member, Json>)
    | Table(rows: seq<Row>)

  datatype Row = Row(name: Text, text: Text)

  function Get(j: Json, m: Member): Json {
    if j.Obj? && m in j.members then j.members[m] else Null
  }

  function TextAt(j: Json, m: Member): Text {
    if Get(j, m).Str? then Get(j, m).text else ""
  }

  function FlagAt(j: Json, m: Member, default: bool): bool {
    if Get(j, m).Bool? then Get(j, m).flag else default
  }

  function NumberAt(j: Json, m: Member, default: int): int {
    if Get(j, m).Num? then Get(j, m).number else default
  }

  function ItemsAt(j: Json, m: Member): seq<Json> {
    if Get(j, m).Arr? then Get(j, m).items else []
  }

  function RowsAt(j: Json, m: Member): seq<Row> {
    if Get(j, m).Table? then Get(j, m).rows else []
  }

  // ---------------------------------------------------------------- writing

  /** What the options hold under a name; a missing entry reads as an empty one. */
  function OptionAt(options: map<Text, Opt>, name: Text): Opt {
    if name in options then options[name] else Opt("", [], false)
  }

  /** The value `serialize` inserts under a member name of an endpoint. */
  function EntityMember(ep: Endpoint, options: map<Text, Opt>, m: Member): Json {
    match m
    case KeyM => Num(ep.key)
    case TypeM => Str(ep.kind)
    case ObjectIdM => Str(ep.objectId)
    case NameM =>
      var title := OptionAt(options, ep.objectId).title;
      if title != "" && title != ep.objectId then Str(title) else Null
    case OptionsM =>
      if ep.kind == "select" then Str(Join(OptionAt(options, ep.objectId).enum, '\n')) else Null
    case MinMiredsM => if ep.kind == "light" && OptionAt(options, "colorTemperature").mireds then Num(0) else Null
    case MaxMiredsM => if ep.kind == "light" && OptionAt(options, "colorTemperature").mireds then Num(0) else Null
    case _ => Null
  }

  function EntityJson(ep: Endpoint, options: map<Text, Opt>): Json {
    Obj(map m: Member | EntityMember(ep, options, m) != Null :: EntityMember(ep, options, m))
  }

  /** The endpoints of a device in the order of their ids. */
  function Listed(endpoints: map<byte, Endpoint>): (eps: seq<Endpoint>)
    ensures |eps| == |endpoints|
  {
    var ids := Ascending(endpoints.Keys);
    seq(|ids|, i requires 0 <= i < |ids| =>
      assert ids[i] in ids && ids[i] in endpoints.Keys;
      var id: byte := ids[i];
      endpoints[id])
  }

  function EntitiesJson(eps: seq<Endpoint>, options: map<Text, Opt>): (js: seq<Json>)
    ensures |js| == |eps|
  {
    seq(|eps|, i requires 0 <= i < |eps| => EntityJson(eps[i], options))
  }

  function SlotRows(m: SlotMap): (rows: seq<Row>)
    ensures |rows| == |m|
  {
    var keys := Ascending(m.Keys);
    seq(|keys|, i requires 0 <= i < |keys| => assert keys[i] in keys; Row(NumberText(keys[i]), m[keys[i]]))
  }

  function TextsJson(items: seq<Text>): (js: seq<Json>)
    ensures |js| == |items|
  {
    seq(|items|, i requires 0 <= i < |items| => Str(items[i]))
  }

  /** The value `serialize` inserts under a member name of a device. */
  function DeviceMember(d: Dev, m: Member): Json {
    match m
    case NameM => Str(d.name)
    case HostM => Str(d.host)
    case PortM => Num(d.port)
    case EncryptionKeyM => Str(d.key)
    case ActiveM => Bool(d.active)
    case DiscoveryM => Bool(d.discovery)
    case CloudM => Bool(d.cloud)
    case LastSeenM => Num(d.lastSeen)
    case ManufacturerNameM => Str(d.manufacturer)
    case ModelNameM => Str(d.model)
    case EsphomeVersionM => Str(d.version)
    case EntitiesM => Arr(EntitiesJson(Listed(d.endpoints), d.options))
    case PublishedEndpointsM => Arr(TextsJson(d.published))
    case SpecialSlotsM => Table(SlotRows(d.slots))
    case ParentAddressM => if d.parent != "" then Str(d.parent) else Null
    case _ => Null
  }

  /** `serialize` for one device. */
  function DeviceJson(d: Dev): Json {
    Obj(map m: Member | DeviceMember(d, m) != Null :: DeviceMember(d, m))
  }

  // ---------------------------------------------------------------- reading

  /** The members of a table whose names are numbers, inserted in order. */
  function SlotsOf(rows: seq<Row>): SlotMap {
    if rows == [] then map[]
    else SlotsOf(rows[..|rows| - 1])[ToInt(rows[|rows| - 1].name) := rows[|rows| - 1].text]
  }

  function TextsOf(js: seq<Json>): (items: seq<Text>)
    ensures |items| == |js|
  {
    seq(|js|, i requires 0 <= i < |js| => if js[i].Str? then js[i].text else "")
  }

  /** An entity is kept when it has a type, an id and a key. */
  predicate Complete(ep: Endpoint) {
    ep.kind != "" && ep.objectId != "" && ep.key != 0
  }

  function ReadEndpoint(j: Json): Endpoint {
    Endpoint(NumberAt(j, KeyM, 0) % 0x1_0000_0000, TextAt(j, TypeM), TextAt(j, ObjectIdM), false)
  }

  function ReadEntries(j: Json): seq<(Text, Opt)> {
    var ep := ReadEndpoint(j);
    var title := if TextAt(j, NameM) == "" then ep.objectId else TextAt(j, NameM);
    if ep.kind == "lock" then []
    else OptionEntries(ep.kind, ep.objectId, title, Split(TextAt(j, OptionsM), '\n'),
                       Get(j, MinMiredsM) != Null && Get(j, MaxMiredsM) != Null)
  }

  /** `setupEndpoints` on the first `n` entities: the i-th gets id i + 1. */
  function ReadEndpoints(js: seq<Json>, n: nat): map<byte, Endpoint>
    requires n <= |js|
  {
    if n == 0 then map[]
    else
      var ep := ReadEndpoint(js[n - 1]);
      if Complete(ep) then ReadEndpoints(js, n - 1)[n % 0x100 := ep] else ReadEndpoints(js, n - 1)
  }

  function ReadOptions(js: seq<Json>, n: nat): map<Text, Opt>
    requires n <= |js|
  {
    if n == 0 then map[]
    else if Complete(ReadEndpoint(js[n - 1])) then InsertAll(ReadOptions(js, n - 1), ReadEntries(js[n - 1]))
    else ReadOptions(js, n - 1)
  }

  /** `parse`: nothing without a name, a host and a key. */
  function Parse(j: Json): Option<Dev> {
    if TextAt(j, NameM) == "" || TextAt(j, HostM) == "" || TextAt(j, EncryptionKeyM) == "" then None
    else
      var entities := ItemsAt(j, EntitiesM);
      Some(Dev(
        TextAt(j, NameM), TextAt(j, HostM), NumberAt(j, PortM, 6053) % 0x1_0000, TextAt(j, EncryptionKeyM),
        TextAt(j, ParentAddressM), FlagAt(j, ActiveM, true), FlagAt(j, DiscoveryM, true), FlagAt(j, CloudM, true),
        false, TextAt(j, ManufacturerNameM), TextAt(j, ModelNameM), TextAt(j, EsphomeVersionM),
        NumberAt(j, LastSeenM, 0), TextsOf(ItemsAt(j, PublishedEndpointsM)),
        SlotsOf(RowsAt(j, SpecialSlotsM)), ReadEndpoints(entities, |entities|), ReadOptions(entities, |entities|)))
  }

  /** The devices of an array, in order; entries that are no device are left out. */
  function ParseAll(js: seq<Json>): seq<Dev> {
    if js == [] then []
    else ParseAll(js[..|js| - 1]) + match Parse(js[|js| - 1]) case None => [] case Some(d) => [d]
  }

  function DevicesJson(devs: seq<Dev>): (js: seq<Json>)
    ensures |js| == |devs|
  {
    seq(|devs|, i requires 0 <= i < |devs| => DeviceJson(devs[i]))
  }

  // ---------------------------------------------------------------- the round trip

  /** `parse` after `serialize`: what is left of a device over a restart. */
  function Reloaded(d: Dev): Option<Dev> {
    Parse(DeviceJson(d))
  }

  /** A device comes back exactly when it has a name, a host and a key. */
  lemma ReloadedIff(d: Dev)
    ensures Reloaded(d).Some? <==> d.name != "" && d.host != "" && d.key != ""
  {
    hide Listed, EntitiesJson, ReadEndpoints, ReadOptions, SlotsOf, SlotRows, TextsOf, TextsJson;
  }

  lemma SlotRow(m: SlotMap, i: nat)
    requires i < |m|
    ensures var k := Ascending(m.Keys)[i]; k in m && SlotRows(m)[i] == Row(NumberText(k), m[k])
  {
    assert Ascending(m.Keys)[i] in Ascending(m.Keys);
  }

  lemma {:induction false} SlotRowsPrefix(m: SlotMap, n: nat)
    requires n <= |m|
    ensures SlotsOf(SlotRows(m)[..n]).Keys == set k | k in Ascending(m.Keys)[..n]
    ensures forall k :: k in SlotsOf(SlotRows(m)[..n]) ==> k in m && SlotsOf(SlotRows(m)[..n])[k] == m[k]
  {
    hide NumberText, ToInt, Ascending, SlotRows;
    if n > 0 {
      var rows, keys := SlotRows(m), Ascending(m.Keys);
      SlotRowsPrefix(m, n - 1);
      SlotRow(m, n - 1);
      NumberTextRoundTrip(keys[n - 1]);
      assert rows[..n][..n - 1] == rows[..n - 1];
      assert keys[..n] == keys[..n - 1] + [keys[n - 1]];
    }
  }

  /** The slot map survives a restart. */
  lemma SlotsReloaded(m: SlotMap)
    ensures SlotsOf(SlotRows(m)) == m
  {
    hide NumberText, ToInt, Ascending, SlotsOf;
    var keys := Ascending(m.Keys);
    SlotRowsPrefix(m, |keys|);
    assert SlotRows(m)[..|keys|] == SlotRows(m) && keys[..|keys|] == keys;
  }

  lemma MemberWritten(d: Dev, m: Member)
    ensures Get(DeviceJson(d), m) == DeviceMember(d, m)
  {
    hide Listed, EntitiesJson, SlotRows, TextsJson;
  }

  lemma TextsWritten(d: Dev)
    ensures var j := DeviceJson(d);
            && TextAt(j, NameM) == d.name && TextAt(j, HostM) == d.host && TextAt(j, EncryptionKeyM) == d.key
            && TextAt(j, ManufacturerNameM) == d.manufacturer && TextAt(j, ModelNameM) == d.model
            && TextAt(j, EsphomeVersionM) == d.version && TextAt(j, ParentAddressM) == d.parent
  {
    hide DeviceJson, Get, Listed, EntitiesJson, SlotRows, TextsJson;
    MemberWritten(d, NameM);
    MemberWritten(d, HostM);
    MemberWritten(d, EncryptionKeyM);
    MemberWritten(d, ManufacturerNameM);
    MemberWritten(d, ModelNameM);
    MemberWritten(d, EsphomeVersionM);
    MemberWritten(d, ParentAddressM);
  }

  lemma NumbersWritten(d: Dev)
    ensures var j := DeviceJson(d);
            && NumberAt(j, PortM, 6053) == d.port && NumberAt(j, LastSeenM, 0) == d.lastSeen
            && FlagAt(j, ActiveM, true) == d.active && FlagAt(j, DiscoveryM, true) == d.discovery
            && FlagAt(j, CloudM, true) == d.cloud
  {
    hide DeviceJson, Get, Listed, EntitiesJson, SlotRows, TextsJson;
    MemberWritten(d, PortM);
    MemberWritten(d, LastSeenM);
    MemberWritten(d, ActiveM);
    MemberWritten(d, DiscoveryM);
    MemberWritten(d, CloudM);
  }

  lemma RestWritten(d: Dev)
    ensures var j := DeviceJson(d);
            && RowsAt(j, SpecialSlotsM) == SlotRows(d.slots)
            && ItemsAt(j, PublishedEndpointsM) == TextsJson(d.published)
            && ItemsAt(j, EntitiesM) == EntitiesJson(Listed(d.endpoints), d.options)
  {
    hide DeviceJson, Get, Listed, EntitiesJson, SlotRows, TextsJson;
    MemberWritten(d, SpecialSlotsM);
    MemberWritten(d, PublishedEndpointsM);
    MemberWritten(d, EntitiesM);
  }

  lemma ScalarsWritten(d: Dev)
    ensures var j := DeviceJson(d);
            && TextAt(j, NameM) == d.name && TextAt(j, HostM) == d.host && TextAt(j, EncryptionKeyM) == d.key
            && NumberAt(j, PortM, 6053) == d.port && NumberAt(j, LastSeenM, 0) == d.lastSeen
            && FlagAt(j, ActiveM, true) == d.active && FlagAt(j, DiscoveryM, true) == d.discovery
            && FlagAt(j, CloudM, true) == d.cloud && TextAt(j, ManufacturerNameM) == d.manufacturer
            && TextAt(j, ModelNameM) == d.model && TextAt(j, EsphomeVersionM) == d.version
            && TextAt(j, ParentAddressM) == d.parent && RowsAt(j, SpecialSlotsM) == SlotRows(d.slots)
            && ItemsAt(j, PublishedEndpointsM) == TextsJson(d.published)
            && ItemsAt(j, EntitiesM) == EntitiesJson(Listed(d.endpoints), d.options)
  {
    hide DeviceJson, Get, Listed, EntitiesJson, SlotRows, TextsJson, DeviceMember;
    TextsWritten(d);
    NumbersWritten(d);
    RestWritten(d);
  }

  lemma TextsReloaded(items: seq<Text>)
    ensures TextsOf(TextsJson(items)) == items
  {
  }

  /** Every identity field, the parent link and the slot map come back as they were. */
  lemma IdentityReloaded(d: Dev)
    requires d.name != "" && d.host != "" && d.key != ""
    ensures Reloaded(d).Some?
    ensures Reloaded(d).value ==
            d.(online := false, endpoints := Reloaded(d).value.endpoints, options := Reloaded(d).value.options)
  {
    hide DeviceJson, Get, TextsOf, TextsJson, SlotsOf, SlotRows, ReadEndpoints, ReadOptions,
      TextAt, NumberAt, FlagAt, RowsAt, ItemsAt;
    ScalarsWritten(d);
    SlotsReloaded(d.slots);
    TextsReloaded(d.published);
  }

  // ---------------------------------------------------------------- endpoints over a restart

  /** An endpoint as it is read back: "special" is set only by discovery. */
  function Plain(ep: Endpoint): Endpoint { ep.(special := false) }

  function PlainAll(eps: seq<Endpoint>): (r: seq<Endpoint>)
    ensures |r| == |eps|
  {
    seq(|eps|, i requires 0 <= i < |eps| => Plain(eps[i]))
  }

  lemma EntityMemberWritten(ep: Endpoint, options: map<Text, Opt>, m: Member)
    ensures Get(EntityJson(ep, options), m) == EntityMember(ep, options, m)
  {
    hide OptionAt, Join;
  }

  lemma EntityReloaded(ep: Endpoint, options: map<Text, Opt>)
    ensures ReadEndpoint(EntityJson(ep, options)) == Plain(ep) && (Complete(Plain(ep)) <==> Complete(ep))
    ensures TextAt(EntityJson(ep, options), OptionsM) ==
            if ep.kind == "select" then Join(OptionAt(options, ep.objectId).enum, '\n') else ""
    ensures var title := OptionAt(options, ep.objectId).title;
            TextAt(EntityJson(ep, options), NameM) == if title == ep.objectId then "" else title
  {
    hide EntityJson, Get, OptionAt, Join;
    EntityMemberWritten(ep, options, NameM);
    EntityMemberWritten(ep, options, KeyM);
    EntityMemberWritten(ep, options, TypeM);
    EntityMemberWritten(ep, options, ObjectIdM);
    EntityMemberWritten(ep, options, OptionsM);
  }

  /** In `r` the complete ones of the first `n` endpoints stand under their position. */
  predicate ReadUpTo(eps: seq<Endpoint>, r: map<byte, Endpoint>, n: nat)
    requires n <= |eps|
  {
    && (forall id :: id in r ==> 1 <= id <= n && Complete(eps[id - 1]) && r[id] == Plain(eps[id - 1]))
    && (forall i :: 0 <= i < n && Complete(eps[i]) ==> i + 1 in r)
  }

  lemma ReadNone(eps: seq<Endpoint>)
    ensures ReadUpTo(eps, map[], 0)
  {
  }

  lemma ReadNext(eps: seq<Endpoint>, r: map<byte, Endpoint>, n: nat)
    requires 0 < n <= |eps| <= 0xFF && ReadUpTo(eps, r, n - 1)
    ensures ReadUpTo(eps, if Complete(eps[n - 1]) then r[n := Plain(eps[n - 1])] else r, n)
  {
    hide Complete, Plain;
  }

  /** Reading gives id i + 1 to the i-th entity, and leaves out the incomplete ones. */
  lemma {:induction false} ReadEndpointsAt(eps: seq<Endpoint>, options: map<Text, Opt>, n: nat)
    requires n <= |eps| <= 0xFF
    ensures ReadUpTo(eps, ReadEndpoints(EntitiesJson(eps, options), n), n)
  {
    hide EntityJson, ReadEndpoint, Complete, Plain, ReadUpTo;
    if n == 0 {
      ReadNone(eps);
    } else {
      ReadEndpointsAt(eps, options, n - 1);
      EntityReloaded(eps[n - 1], options);
      assert EntitiesJson(eps, options)[n - 1] == EntityJson(eps[n - 1], options);
      ReadNext(eps, ReadEndpoints(EntitiesJson(eps, options), n - 1), n);
    }
  }

  /** The endpoints read back from a device's own list. */
  function EndpointsReloaded(d: Dev): map<byte, Endpoint> {
    var js := EntitiesJson(Listed(d.endpoints), d.options);
    ReadEndpoints(js, |js|)
  }

  lemma ReloadedEndpoints(d: Dev)
    requires d.name != "" && d.host != "" && d.key != ""
    ensures Reloaded(d).Some? && Reloaded(d).value.endpoints == EndpointsReloaded(d)
    ensures Reloaded(d).value.options ==
            ReadOptions(EntitiesJson(Listed(d.endpoints), d.options), |d.endpoints|)
  {
    hide DeviceJson, EntitiesJson, ReadEndpoints, ReadOptions, Listed, TextAt, NumberAt, FlagAt, RowsAt, ItemsAt,
        SlotsOf, TextsOf;
    ScalarsWritten(d);
  }

  /**
   The list of endpoints (key, type and id, in the order of their numbers) comes back exactly when
   every endpoint has a key, a type and an id. For the numbers see `NumbersReloadedIff`.
   */
  lemma EndpointListReloadedIff(d: Dev)
    requires d.name != "" && d.host != "" && d.key != "" && |d.endpoints| <= 0xFF
    ensures Reloaded(d).Some?
    ensures Listed(Reloaded(d).value.endpoints) == PlainAll(Listed(d.endpoints)) <==>
            forall ep :: ep in Listed(d.endpoints) ==> Complete(ep)
  {
    hide Reloaded, EntitiesJson, ReadEndpoints, Listed;
    ReloadedEndpoints(d);
    var eps, r := Listed(d.endpoints), EndpointsReloaded(d);
    EndpointListIff(eps, d.options, r);
  }

  lemma EndpointListIff(eps: seq<Endpoint>, options: map<Text, Opt>, r: map<byte, Endpoint>)
    requires |eps| <= 0xFF && r == ReadEndpoints(EntitiesJson(eps, options), |EntitiesJson(eps, options)|)
    ensures Listed(r) == PlainAll(eps) <==> forall ep :: ep in eps ==> Complete(ep)
  {
    hide EntitiesJson, ReadEndpoints, Complete, Plain, Listed;
    ReadEndpointsAt(eps, options, |eps|);
    if forall ep :: ep in eps ==> Complete(ep) {
      forall x: int
        ensures x in r.Keys <==> x in Range(1, |eps|)
      {
        if 1 <= x <= |eps| {
          assert eps[x - 1] in eps;
          assert (x - 1) + 1 in r;
        }
      }
      ListedCounting(r, |eps|);
    } else {
      var i :| 0 <= i < |eps| && !Complete(eps[i]);
      assert i + 1 !in r.Keys;
      SubsetSize(r.Keys, Range(1, |eps|) - {i + 1});
      assert |r| == |r.Keys|;
    }
  }

  lemma ListedCounting(r: map<byte, Endpoint>, n: nat)
    requires n <= 0xFF && r.Keys == Range(1, n)
    ensures |Listed(r)| == n && forall i :: 0 <= i < n ==> Listed(r)[i] == r[i + 1]
  {
    var ids := Ascending(r.Keys);
    assert |r| == |r.Keys|;
    CountingUp(ids, n);
  }

  // ---------------------------------------------------------------- endpoint numbers over a restart

  /** In `r` endpoint i, in the order of the numbers, stands under i + 1; incomplete ones are left out. */
  predicate Renumbered(endpoints: map<byte, Endpoint>, r: map<byte, Endpoint>) {
    ReadUpTo(Listed(endpoints), r, |endpoints|)
  }

  /** A restart numbers the endpoints by position. */
  lemma EndpointsRenumbered(d: Dev)
    requires d.name != "" && d.host != "" && d.key != "" && |d.endpoints| <= 0xFF
    ensures Reloaded(d).Some? && Renumbered(d.endpoints, Reloaded(d).value.endpoints)
  {
    hide Reloaded, EntitiesJson, ReadEndpoints, Listed, Renumbered;
    ReloadedEndpoints(d);
    ReadRenumbered(d.endpoints, d.options);
  }

  lemma ReadRenumbered(endpoints: map<byte, Endpoint>, options: map<Text, Opt>)
    requires |endpoints| <= 0xFF
    ensures var js := EntitiesJson(Listed(endpoints), options); Renumbered(endpoints, ReadEndpoints(js, |js|))
  {
    hide EntitiesJson, ReadEndpoints, Listed, Complete, Plain;
    ReadEndpointsAt(Listed(endpoints), options, |endpoints|);
  }

  /** The endpoints as they would come back if every one kept its number. */
  function PlainMap(endpoints: map<byte, Endpoint>): map<byte, Endpoint> {
    map id | id in endpoints :: Plain(endpoints[id])
  }

  predicate AllComplete(endpoints: map<byte, Endpoint>) {
    forall id :: id in endpoints ==> Complete(endpoints[id])
  }

  /** Every endpoint keeps its number over a restart exactly when all are complete and the numbers are 1..n. */
  lemma NumbersReloadedIff(d: Dev)
    requires d.name != "" && d.host != "" && d.key != "" && |d.endpoints| <= 0xFF
    ensures Reloaded(d).Some?
    ensures Reloaded(d).value.endpoints == PlainMap(d.endpoints) <==>
            AllComplete(d.endpoints) && d.endpoints.Keys == Range(1, |d.endpoints|)
  {
    hide Reloaded, Renumbered, PlainMap, AllComplete, Range;
    EndpointsRenumbered(d);
    var r := Reloaded(d).value.endpoints;
    if r == PlainMap(d.endpoints) {
      KeptCounts(d.endpoints, r);
    }
    if AllComplete(d.endpoints) && d.endpoints.Keys == Range(1, |d.endpoints|) {
      CountingKept(d.endpoints, r);
    }
  }

  lemma KeptCounts(endpoints: map<byte, Endpoint>, r: map<byte, Endpoint>)
    requires Renumbered(endpoints, r) && r == PlainMap(endpoints)
    ensures AllComplete(endpoints) && endpoints.Keys == Range(1, |endpoints|)
  {
    hide Listed;
    assert r.Keys == endpoints.Keys && |endpoints| == |endpoints.Keys|;
    SubsetSize(r.Keys, Range(1, |endpoints|));
    forall id | id in endpoints
      ensures Complete(endpoints[id])
    {
      assert id in r && r[id] == Plain(endpoints[id]);
    }
  }

  lemma CountingKept(endpoints: map<byte, Endpoint>, r: map<byte, Endpoint>)
    requires Renumbered(endpoints, r) && AllComplete(endpoints) && |endpoints| <= 0xFF
    requires endpoints.Keys == Range(1, |endpoints|)
    ensures r == PlainMap(endpoints)
  {
    hide Listed, Complete, Plain, Range;
    CountingIn(endpoints, r, |endpoints|);
    ListedCounting(endpoints, |endpoints|);
    assert r.Keys == endpoints.Keys;
    forall id | id in r
      ensures r[id] == Plain(endpoints[id])
    {
      assert Listed(endpoints)[id - 1] == endpoints[(id - 1) + 1];
    }
  }

  /** Complete endpoints get the numbers 1..n. */
  lemma CountingIn(endpoints: map<byte, Endpoint>, r: map<byte, Endpoint>, n: nat)
    requires Renumbered(endpoints, r) && AllComplete(endpoints) && n == |endpoints|
    ensures r.Keys == Range(1, n)
  {
    hide Listed, Complete, Plain, AllComplete, Range;
    forall x | 1 <= x <= n
      ensures x in r.Keys
    {
      ListedFrom(endpoints, x - 1);
      assert (x - 1) + 1 in r;
    }
  }

  /** Complete endpoints get the numbers 1..n in a restart. */
  lemma CompleteRenumbered(d: Dev)
    requires d.name != "" && d.host != "" && d.key != "" && |d.endpoints| <= 0xFF && AllComplete(d.endpoints)
    ensures Reloaded(d).Some? && Reloaded(d).value.endpoints.Keys == Range(1, |d.endpoints|)
  {
    hide Reloaded, Renumbered, AllComplete, Range;
    EndpointsRenumbered(d);
    CountingIn(d.endpoints, Reloaded(d).value.endpoints, |d.endpoints|);
  }

  lemma ListedFrom(endpoints: map<byte, Endpoint>, i: nat)
    requires i < |endpoints| && AllComplete(endpoints)
    ensures Complete(Listed(endpoints)[i])
  {
    hide Complete;
    assert |Ascending(endpoints.Keys)| == |endpoints.Keys| == |endpoints|;
    assert Ascending(endpoints.Keys)[i] in endpoints.Keys;
  }

  /**
   After a round every endpoint keeps its number over a restart exactly when each has a key, a type and
   an id and no special number exceeds the number of entities.
   */
  lemma RoundReloadedIff(d: Dev, infos: seq<EntityInfo>)
    requires d.name != "" && d.host != "" && d.key != "" && Fits(d.slots, Asks(infos))
    ensures Reloaded(Applied(d, infos)).Some?
    ensures Reloaded(Applied(d, infos)).value.endpoints == PlainMap(Applied(d, infos).endpoints) <==>
            && (forall n :: n in Round(d.slots, Asks(infos)).numbers ==> n <= |infos|)
            && (forall i :: 0 <= i < |infos| ==> HasAll(infos, i))
  {
    hide Reloaded, PlainMap, HasAll, Id, Bases, Round, Fits, Applied, AllComplete;
    AppliedNamed(d, infos);
    AppliedCountsUpIff(d, infos);
    NumbersReloadedIff(Applied(d, infos));
    AppliedCompleteIff(d, infos);
  }

  /** The entity has a key, a kind and an id. */
  predicate HasAll(infos: seq<EntityInfo>, i: nat)
    requires i < |infos|
  {
    infos[i].key != 0 && infos[i].kind != "" && Id(Bases(infos), i) != ""
  }

  lemma CompleteHasAll(infos: seq<EntityInfo>, i: nat, ep: Endpoint)
    requires i < |infos| && Describes(ep, infos, i)
    ensures Complete(ep) <==> HasAll(infos, i)
  {
    hide Id, Bases;
  }

  lemma AppliedNamed(d: Dev, infos: seq<EntityInfo>)
    ensures var r := Applied(d, infos); r.name == d.name && r.host == d.host && r.key == d.key
  {
  }

  lemma AppliedCompleteIff(d: Dev, infos: seq<EntityInfo>)
    requires Fits(d.slots, Asks(infos))
    ensures AllComplete(Applied(d, infos).endpoints) <==>
            forall i :: 0 <= i < |infos| ==> HasAll(infos, i)
  {
    hide Complete, HasAll, Id, Bases, Round, Fits, Applied, EndpointIds;
    AppliedKeys(d, infos);
    forall i | 0 <= i < |infos|
      ensures var id := EndpointIds(d.slots, Asks(infos))[i];
              && id in Applied(d, infos).endpoints
              && (Complete(Applied(d, infos).endpoints[id]) <==> HasAll(infos, i))
    {
      EndpointsKept(d, infos, i);
      CompleteHasAll(infos, i, Applied(d, infos).endpoints[EndpointIds(d.slots, Asks(infos))[i]]);
    }
    forall id | id in Applied(d, infos).endpoints
      ensures exists i :: 0 <= i < |infos| && EndpointIds(d.slots, Asks(infos))[i] == id
    {
      assert id in Applied(d, infos).endpoints.Keys;
    }
  }

  /**
   A concrete move: the device has announced "A" and "B", which have the numbers 1 and 2, and then
   announces "B" alone. Its endpoint has number 2, and number 1 after a restart.
   */
  lemma VanishedMoves(d: Dev, b: EntityInfo)
    requires d.name != "" && d.host != "" && d.key != "" && d.slots == map[1 := "A", 2 := "B"]
    requires b.name == "B" && b.key != 0 && b.kind == "light"
    ensures Applied(d, [b]).endpoints.Keys == {2}
    ensures Reloaded(Applied(d, [b])).Some? && Reloaded(Applied(d, [b])).value.endpoints.Keys == {1}
  {
    hide Reloaded, Applied, EndpointIds, Round, Fits, Complete, HasAll, Id, Bases, AllComplete;
    assert Asks([b]) == [Some("B")];
    OnlyNumber(d.slots, "B", 2);
    assert Elements([2]) == {2};
    AppliedKeys(d, [b]);
    AppliedNamed(d, [b]);
    LightComplete(b);
    AppliedCompleteIff(d, [b]);
    var r := Applied(d, [b]);
    assert |r.endpoints| == |r.endpoints.Keys| == 1;
    CompleteRenumbered(r);
    assert Range(1, |r.endpoints|) == {1};
  }

  lemma LightComplete(b: EntityInfo)
    requires b.name == "B" && b.key != 0 && b.kind == "light"
    ensures HasAll([b], 0)
  {
    hide Words, CamelCase;
    OneWord("B");
    CamelCaseEmpty(["B"]);
    assert Bases([b])[..0] == [];
  }

  // ---------------------------------------------------------------- the values of a select over a restart

  /** Reading entity `j` leaves the options entry of `id` alone. */
  predicate Spares(ep: Endpoint, id: Text) {
    ep.objectId != id && (ep.kind == "light" ==> id != "light" && id != "colorTemperature")
  }

  lemma InsertAllSpares(options: map<Text, Opt>, ep: Endpoint, title: Text, enum: seq<Text>, mireds: bool, id: Text)
    requires Spares(ep, id)
    ensures OptionAt(InsertAll(options, OptionEntries(ep.kind, ep.objectId, title, enum, mireds)), id) ==
            OptionAt(options, id)
  {
    var entries := OptionEntries(ep.kind, ep.objectId, title, enum, mireds);
    assert forall e :: e in entries ==> e.0 != id;
    InsertAllOther(options, entries, id);
  }

  lemma {:induction false} InsertAllOther(options: map<Text, Opt>, entries: seq<(Text, Opt)>, id: Text)
    requires forall e :: e in entries ==> e.0 != id
    ensures OptionAt(InsertAll(options, entries), id) == OptionAt(options, id)
  {
    if entries != [] {
      assert entries[|entries| - 1] in entries;
      InsertAllOther(options, entries[..|entries| - 1], id);
    }
  }

  /** The kinds whose options entry is read back; that of a lock is not. */
  predicate ReadBack(kind: Text) {
    kind in {"switch", "binary_sensor", "sensor", "text_sensor", "select", "number", "button"}
  }

  lemma EntryInserted(options: map<Text, Opt>, j: Json)
    requires ReadEndpoint(j).kind != "light"
    ensures var ep := ReadEndpoint(j);
            OptionAt(InsertAll(options, ReadEntries(j)), ep.objectId) ==
            if ReadBack(ep.kind) then
              Opt(if TextAt(j, NameM) == "" then ep.objectId else TextAt(j, NameM),
                  if ep.kind == "select" then Split(TextAt(j, OptionsM), '\n') else [], false)
            else OptionAt(options, ep.objectId)
  {
    hide Split, TextAt;
    var entries := ReadEntries(j);
    if ReadBack(ReadEndpoint(j).kind) {
      assert |entries| == 1;
      assert InsertAll(options, entries[..0]) == options;
    } else {
      assert entries == [];
    }
  }

  lemma ReadEntriesSpare(options: map<Text, Opt>, j: Json, id: Text)
    requires Spares(ReadEndpoint(j), id)
    ensures OptionAt(InsertAll(options, ReadEntries(j)), id) == OptionAt(options, id)
  {
    hide Spares, Split, TextAt, OptionAt, ReadEndpoint, OptionEntries;
    var ep := ReadEndpoint(j);
    var title := if TextAt(j, NameM) == "" then ep.objectId else TextAt(j, NameM);
    InsertAllSpares(options, ep, title, Split(TextAt(j, OptionsM), '\n'),
                    Get(j, MinMiredsM) != Null && Get(j, MaxMiredsM) != Null, id);
    NothingInserted(options);
  }

  lemma NothingInserted(options: map<Text, Opt>)
    ensures InsertAll(options, []) == options
  {
  }

  /** What a restart makes of the options entry of an endpoint. */
  function Back(ep: Endpoint, o: Opt): Opt {
    if ReadBack(ep.kind)
    then Opt(if o.title == "" then ep.objectId else o.title,
             if ep.kind == "select" then Split(Join(o.enum, '\n'), '\n') else [], false)
    else Opt("", [], false)
  }

  lemma {:induction false} OptionRead(eps: seq<Endpoint>, options: map<Text, Opt>, i: nat, n: nat)
    requires i < |eps| && n <= |eps| && eps[i].kind != "light" && forall ep :: ep in eps ==> Complete(ep)
    requires forall j :: 0 <= j < |eps| && j != i ==> Spares(eps[j], eps[i].objectId)
    ensures OptionAt(ReadOptions(EntitiesJson(eps, options), n), eps[i].objectId) ==
            if i < n then Back(eps[i], OptionAt(options, eps[i].objectId)) else Opt("", [], false)
  {
    hide EntityJson, ReadEndpoint, ReadEntries, Split, Join, Spares, Complete, TextAt;
    if n > 0 {
      var js := EntitiesJson(eps, options);
      assert js[n - 1] == EntityJson(eps[n - 1], options) && eps[n - 1] in eps;
      EntityReloaded(eps[n - 1], options);
      PlainComplete(eps[n - 1]);
      OptionRead(eps, options, i, n - 1);
      var before := ReadOptions(js, n - 1);
      if i != n - 1 {
        PlainSpares(eps[n - 1], eps[i].objectId);
        ReadEntriesSpare(before, js[n - 1], eps[i].objectId);
      } else {
        EntryInserted(before, js[n - 1]);
      }
    }
  }

  lemma PlainComplete(ep: Endpoint)
    ensures Complete(Plain(ep)) <==> Complete(ep)
  {
  }

  lemma PlainSpares(ep: Endpoint, id: Text)
    ensures Spares(Plain(ep), id) <==> Spares(ep, id)
  {
  }

  /**
   The values of a select come back exactly when they are non-empty and free of line breaks, given
   complete endpoints no other of which writes the options entry the select's id names.
   */
  lemma SelectReloadedIff(d: Dev, i: nat)
    requires d.name != "" && d.host != "" && d.key != ""
    requires i < |d.endpoints| && Listed(d.endpoints)[i].kind == "select"
    requires forall ep :: ep in Listed(d.endpoints) ==> Complete(ep)
    requires forall j :: 0 <= j < |d.endpoints| && j != i ==>
               Spares(Listed(d.endpoints)[j], Listed(d.endpoints)[i].objectId)
    ensures Reloaded(d).Some?
    ensures var id := Listed(d.endpoints)[i].objectId;
            OptionAt(Reloaded(d).value.options, id).enum == OptionAt(d.options, id).enum <==>
            Splittable(OptionAt(d.options, id).enum, '\n')
  {
    hide Reloaded, Listed, OptionAt, Split, Join, Splittable, Spares, Complete;
    OptionReloaded(d, i);
    SplitJoinIff(OptionAt(d.options, Listed(d.endpoints)[i].objectId).enum, '\n');
  }

  /** The options entry of an endpoint over a restart, under the same conditions. */
  lemma OptionReloaded(d: Dev, i: nat)
    requires d.name != "" && d.host != "" && d.key != ""
    requires i < |d.endpoints| && Listed(d.endpoints)[i].kind != "light"
    requires forall ep :: ep in Listed(d.endpoints) ==> Complete(ep)
    requires forall j :: 0 <= j < |d.endpoints| && j != i ==>
               Spares(Listed(d.endpoints)[j], Listed(d.endpoints)[i].objectId)
    ensures Reloaded(d).Some?
    ensures var ep := Listed(d.endpoints)[i];
            OptionAt(Reloaded(d).value.options, ep.objectId) == Back(ep, OptionAt(d.options, ep.objectId))
  {
    hide Reloaded, EntitiesJson, ReadOptions, Listed, OptionAt, Back, Spares, Complete;
    ReloadedEndpoints(d);
    OptionRead(Listed(d.endpoints), d.options, i, |d.endpoints|);
  }

  /**
   Under the same conditions a title comes back, that of an entity without one as its id, except for a lock,
   a cover and a climate device, whose entries are not read back.
   */
  lemma TitleReloadedIff(d: Dev, i: nat)
    requires d.name != "" && d.host != "" && d.key != ""
    requires i < |d.endpoints| && Listed(d.endpoints)[i].kind != "light"
    requires forall ep :: ep in Listed(d.endpoints) ==> Complete(ep)
    requires forall j :: 0 <= j < |d.endpoints| && j != i ==>
               Spares(Listed(d.endpoints)[j], Listed(d.endpoints)[i].objectId)
    ensures Reloaded(d).Some?
    ensures var ep := Listed(d.endpoints)[i];
            var title := OptionAt(d.options, ep.objectId).title;
            && (OptionAt(Reloaded(d).value.options, ep.objectId).title == title <==>
                  (title != "" <==> ep.kind in {"switch", "binary_sensor", "sensor", "text_sensor", "select",
                                                "number", "button"}))
            && (title == "" && ReadBack(ep.kind) ==>
                  OptionAt(Reloaded(d).value.options, ep.objectId).title == ep.objectId)
  {
    hide Reloaded, Listed, OptionAt, Spares, Split, Join;
    OptionReloaded(d, i);
    var ep := Listed(d.endpoints)[i];
    assert ep in Listed(d.endpoints) && ep.objectId != "";
  }

  // ---------------------------------------------------------------- the options of a round

  /**
   The entry of an entity that has one, when no later entity writes it: its name, or else its id, as the
   title, and the values of a select.
   */
  lemma {:induction false} OptionKept(infos: seq<EntityInfo>, i: nat, n: nat)
    requires i < n <= |infos|
    requires ReadBack(infos[i].kind) || infos[i].kind == "lock"
    requires forall j :: i < j < |infos| ==> Spares(EndpointOf(infos[j], Id(Bases(infos), j)), Id(Bases(infos), i))
    ensures OptionAt(OptionsOf(infos, n), Id(Bases(infos), i)) ==
            Opt(if infos[i].name == "" then Id(Bases(infos), i) else infos[i].name,
                if infos[i].kind == "select" then infos[i].selectOptions else [], false)
  {
    hide Id, Bases, OptionAt, Spares, OptionEntries;
    var k := n - 1;
    var info, objectId, before := infos[k], Id(Bases(infos), k), OptionsOf(infos, k);
    var mireds := Positive(info.minMireds) || Positive(info.maxMireds);
    var entries := OptionEntries(info.kind, objectId, Title(info, objectId), info.selectOptions, mireds);
    assert OptionsOf(infos, n) == InsertAll(before, entries);
    if i < k {
      OptionKept(infos, i, k);
      InsertAllSpares(before, EndpointOf(info, objectId), Title(info, objectId), info.selectOptions, mireds,
                      Id(Bases(infos), i));
    } else {
      OneInserted(before, info, objectId, mireds);
    }
  }

  lemma OneInserted(options: map<Text, Opt>, info: EntityInfo, objectId: Text, mireds: bool)
    requires ReadBack(info.kind) || info.kind == "lock"
    ensures var entries := OptionEntries(info.kind, objectId, Title(info, objectId), info.selectOptions, mireds);
            OptionAt(InsertAll(options, entries), objectId) ==
            Opt(if info.name == "" then objectId else info.name,
                if info.kind == "select" then info.selectOptions else [], false)
  {
    var entries := OptionEntries(info.kind, objectId, Title(info, objectId), info.selectOptions, mireds);
    assert |entries| == 1 && InsertAll(options, entries[..0]) == options;
  }

  /** There is a color temperature exactly when some light has one, given that no entity has that id. */
  lemma {:induction false} MiredsIff(infos: seq<EntityInfo>, n: nat)
    requires n <= |infos| && forall i :: 0 <= i < |infos| ==> Id(Bases(infos), i) != "colorTemperature"
    ensures "colorTemperature" in OptionsOf(infos, n) <==>
            exists i :: 0 <= i < n && infos[i].kind == "light"
                        && (Positive(infos[i].minMireds) || Positive(infos[i].maxMireds))
  {
    hide Id, Bases, OptionEntries, Positive;
    if n > 0 {
      MiredsIff(infos, n - 1);
      var info, objectId := infos[n - 1], Id(Bases(infos), n - 1);
      var mireds := Positive(info.minMireds) || Positive(info.maxMireds);
      MiredsInserted(OptionsOf(infos, n - 1), info.kind, objectId, Title(info, objectId), info.selectOptions, mireds);
    }
  }

  lemma MiredsInserted(options: map<Text, Opt>, kind: Text, objectId: Text, title: Text, enum: seq<Text>, mireds: bool)
    requires objectId != "colorTemperature"
    ensures "colorTemperature" in InsertAll(options, OptionEntries(kind, objectId, title, enum, mireds)) <==>
            "colorTemperature" in options || (kind == "light" && mireds)
  {
    var entries := OptionEntries(kind, objectId, title, enum, mireds);
    if |entries| == 2 {
      assert entries[..1] == [entries[0]] && entries[..1][..0] == [];
      assert InsertAll(options, entries[..1]) == InsertAll(options, [])[entries[0].0 := entries[0].1];
    } else if |entries| == 1 {
      assert entries[..0] == [];
      assert InsertAll(options, entries) == InsertAll(options, [])[entries[0].0 := entries[0].1];
    }
  }

  // ---------------------------------------------------------------- what is missing

  /** A device written with its name, its host and its key alone. */
  lemma ParseDefaults(j: Json, name: Text, host: Text, key: Text)
    requires name != "" && host != "" && key != ""
    requires j == Obj(map[NameM := Str(name), HostM := Str(host), EncryptionKeyM := Str(key)])
    ensures Parse(j).Some?
    ensures var d := Parse(j).value;
            && d.name == name && d.host == host && d.key == key && d.port == 6053
            && d.active && d.discovery && d.cloud && !d.online && d.lastSeen == 0
            && d.manufacturer == d.model == d.version == d.parent == "" && d.published == []
            && d.slots == map[] && d.endpoints == map[] && d.options == map[]
  {
  }
}
