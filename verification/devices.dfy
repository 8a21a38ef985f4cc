/** Devices, their endpoints, and what one discovery round makes of them. */
module Devices {
  import opened Bytes
  import opened Order
  import opened Texts
  import opened ObjectIds
  import opened Slots

  /** An entity as its device announces it. */
  datatype EntityInfo = EntityInfo(
    key: u32,
    deviceId: u32, // 0: the main device
    kind: Text,
    name: Text,
    deviceClass: Text,
    toggle: bool, // a switch of category config or diagnostic
    selectOptions: seq<Text>,
    minMireds: u32, // 32-bit patterns of floats
    maxMireds: u32
  )

  datatype Endpoint = Endpoint(key: u32, kind: Text, objectId: Text, special: bool)

  /** An entry of a device's options: its title, its list of values, and whether it is a mireds range. */
  datatype Opt = Opt(title: Text, enum: seq<Text>, mireds: bool)

  datatype Dev = Dev(
    name: Text,
    host: Text,
    port: u16,
    key: Text,
    parent: Text, // address of the parent of a sub-device, "" for a top-level device
    active: bool,
    discovery: bool,
    cloud: bool,
    online: bool,
    manufacturer: Text,
    model: Text,
    version: Text,
    lastSeen: int,
    published: seq<Text>,
    slots: SlotMap,
    endpoints: map<byte, Endpoint>,
    options: map<Text, Opt>
  )

  /** A device as its constructor leaves it. */
  function NewDev(name: Text, host: Text, port: u16, key: Text): Dev {
    Dev(name, host, port, key, "", true, true, true, false, "", "", "", 0, [], map[], map[], map[])
  }

  predicate IsSpecial(info: EntityInfo) {
    || info.kind == "light" || info.kind == "cover" || info.kind == "climate" || info.kind == "lock"
    || (info.kind == "switch" && !info.toggle)
  }

  function AskOf(info: EntityInfo): Ask {
    if IsSpecial(info) then Some(info.name) else None
  }

  function Asks(infos: seq<EntityInfo>): (asks: seq<Ask>)
    ensures |asks| == |infos|
  {
    seq(|infos|, i requires 0 <= i < |infos| => AskOf(infos[i]))
  }

  /** Whether the bit pattern of a float is that of a number above 0. */
  predicate Positive(bits: u32) { 0 < bits <= 0x7F80_0000 }

  /** By sign, exponent and fraction: neither negative, nor zero, nor "not a number". */
  lemma PositiveIff(bits: u32)
    ensures var sign, exponent, fraction := bits / 0x8000_0000, bits / 0x80_0000 % 0x100, bits % 0x80_0000;
            Positive(bits) <==>
            sign == 0 && (exponent != 0 || fraction != 0) && (exponent == 0xFF ==> fraction == 0)
  {
  }

  /** The text an id is made from: the name, or else the device class, or else the type. */
  function Label(info: EntityInfo): Text {
    if info.name != "" then info.name else if info.deviceClass != "" then info.deviceClass else info.kind
  }

  function Bases(infos: seq<EntityInfo>): (bases: seq<Text>)
    ensures |bases| == |infos|
  {
    seq(|infos|, i requires 0 <= i < |infos| => CamelCase(Words(Label(infos[i]))))
  }

  function EndpointOf(info: EntityInfo, objectId: Text): Endpoint {
    Endpoint(info.key, info.kind, objectId, IsSpecial(info))
  }

  /** The entries an endpoint of a kind adds to the options, in order. */
  function OptionEntries(kind: Text, objectId: Text, title: Text, enum: seq<Text>, mireds: bool): seq<(Text, Opt)> {
    if kind == "light" then
      [("light", Opt("", [], false))] + if mireds then [("colorTemperature", Opt("", [], true))] else []
    else if kind in {"switch", "lock", "binary_sensor", "sensor", "text_sensor", "select", "number", "button"} then
      [(objectId, Opt(title, if kind == "select" then enum else [], false))]
    else []
  }

  function InsertAll(options: map<Text, Opt>, entries: seq<(Text, Opt)>): map<Text, Opt> {
    if entries == [] then options
    else InsertAll(options, entries[..|entries| - 1])[entries[|entries| - 1].0 := entries[|entries| - 1].1]
  }

  function Title(info: EntityInfo, objectId: Text): Text {
    if info.name == "" then objectId else info.name
  }

  /** The endpoints of the first `n` entities, inserted under their ids. */
  function EndpointsOf(ids: seq<byte>, infos: seq<EntityInfo>, n: nat): map<byte, Endpoint>
    requires n <= |infos| <= |ids|
  {
    if n == 0 then map[]
    else EndpointsOf(ids, infos, n - 1)[ids[n - 1] := EndpointOf(infos[n - 1], Id(Bases(infos), n - 1))]
  }

  /** The options the first `n` entities leave. */
  function OptionsOf(infos: seq<EntityInfo>, n: nat): map<Text, Opt>
    requires n <= |infos|
  {
    if n == 0 then map[]
    else
      var info, objectId := infos[n - 1], Id(Bases(infos), n - 1);
      InsertAll(OptionsOf(infos, n - 1),
                OptionEntries(info.kind, objectId, Title(info, objectId), info.selectOptions,
                              Positive(info.minMireds) || Positive(info.maxMireds)))
  }

  lemma {:induction false} PassLength(m: SlotMap, asks: seq<Ask>)
    ensures |Round(m, asks).numbers| == |asks|
  {
    if asks != [] {
      PassLength(m, asks[..|asks| - 1]);
    }
  }

  /** `applyEntitiesToDevice`: endpoints and options are rebuilt, the slot map goes on. */
  function Applied(d: Dev, infos: seq<EntityInfo>): Dev {
    PassLength(d.slots, Asks(infos));
    d.(slots := Round(d.slots, Asks(infos)).slots,
       endpoints := EndpointsOf(EndpointIds(d.slots, Asks(infos)), infos, |infos|),
       options := OptionsOf(infos, |infos|))
  }

  lemma {:induction false} EndpointsOfHas(ids: seq<byte>, infos: seq<EntityInfo>, n: nat, i: nat)
    requires i < n <= |infos| == |ids| && Distinct(ids)
    ensures ids[i] in EndpointsOf(ids, infos, n)
    ensures EndpointsOf(ids, infos, n)[ids[i]] == EndpointOf(infos[i], Id(Bases(infos), i))
  {
    hide Id, Bases, EndpointOf;
    if i < n - 1 {
      EndpointsOfHas(ids, infos, n - 1, i);
    }
  }

  lemma {:induction false} EndpointsOfKeys(ids: seq<byte>, infos: seq<EntityInfo>, n: nat)
    requires n <= |infos| == |ids|
    ensures EndpointsOf(ids, infos, n).Keys == Elements(ids[..n])
  {
    hide Id, Bases, EndpointOf;
    if n > 0 {
      EndpointsOfKeys(ids, infos, n - 1);
      assert ids[..n] == ids[..n - 1] + [ids[n - 1]];
    }
  }

  /** The numbers under which the device keeps its endpoints are the ids of the round. */
  lemma AppliedKeys(d: Dev, infos: seq<EntityInfo>)
    ensures Applied(d, infos).endpoints.Keys == Elements(EndpointIds(d.slots, Asks(infos)))
    ensures |EndpointIds(d.slots, Asks(infos))| == |infos| == |Round(d.slots, Asks(infos)).numbers|
  {
    hide EndpointsOf, EndpointIds, Round, OptionsOf;
    var ids := EndpointIds(d.slots, Asks(infos));
    PassLength(d.slots, Asks(infos));
    EndpointsOfKeys(ids, infos, |infos|);
    assert ids[..|infos|] == ids;
  }

  /**
   On every slot map: there are as many endpoints as entities, none under 0, and the special ones under
   their stable numbers, exactly when the round has at most 255 entities and its numbers fit eight bits.
   */
  lemma EndpointsKeptIff(d: Dev, infos: seq<EntityInfo>)
    ensures (&& |Applied(d, infos).endpoints| == |infos| && 0 !in Applied(d, infos).endpoints
             && Faithful(EndpointIds(d.slots, Asks(infos)), Round(d.slots, Asks(infos)).numbers)) <==>
            Fits(d.slots, Asks(infos))
  {
    hide EndpointIds, Round, Fits, Applied, Distinct, Faithful;
    AppliedKeys(d, infos);
    EndpointIdsIff(d.slots, Asks(infos));
    DistinctSizeIff(EndpointIds(d.slots, Asks(infos)));
    assert |Applied(d, infos).endpoints| == |Applied(d, infos).endpoints.Keys|;
    assert 0 in Applied(d, infos).endpoints <==> 0 in Applied(d, infos).endpoints.Keys;
  }

  /** What an endpoint holds of its entity: the key that commands go by, the kind, and the id. */
  predicate Describes(ep: Endpoint, infos: seq<EntityInfo>, i: nat)
    requires i < |infos|
  {
    && ep.key == infos[i].key && ep.kind == infos[i].kind && ep.objectId == Id(Bases(infos), i)
    && (ep.special <==> infos[i].kind in {"light", "cover", "climate", "lock"}
                        || (infos[i].kind == "switch" && !infos[i].toggle))
  }

  /** Entity `i` then has its endpoint under its id, which is its stable number if it is special. */
  lemma EndpointsKept(d: Dev, infos: seq<EntityInfo>, i: nat)
    requires Fits(d.slots, Asks(infos)) && i < |infos|
    ensures |EndpointIds(d.slots, Asks(infos))| == |infos| == |Round(d.slots, Asks(infos)).numbers|
    ensures var id := EndpointIds(d.slots, Asks(infos))[i];
            && id in Applied(d, infos).endpoints
            && Describes(Applied(d, infos).endpoints[id], infos, i)
            && (if IsSpecial(infos[i]) then id == Round(d.slots, Asks(infos)).numbers[i] else 1 <= id <= |infos|)
  {
    hide EndpointIds, Round, Fits, EndpointsOf, OptionsOf, EndpointOf, Id, Bases, Distinct;
    var asks := Asks(infos);
    FittingIds(d.slots, asks);
    EndpointsOfHas(EndpointIds(d.slots, asks), infos, |infos|, i);
    assert asks[i] == AskOf(infos[i]) && EndpointIds(d.slots, asks)[i] in EndpointIds(d.slots, asks);
    EndpointDescribes(infos, i);
  }

  lemma EndpointDescribes(infos: seq<EntityInfo>, i: nat)
    requires i < |infos|
    ensures Describes(EndpointOf(infos[i], Id(Bases(infos), i)), infos, i)
  {
    hide Id, Bases;
  }

  /**
   The id of an entity is made of its name, or else its class, or else its kind, and has a number behind
   it, from 2 on, when as many entities before it have the same base.
   */
  lemma ObjectIdIs(infos: seq<EntityInfo>, i: nat)
    requires i < |infos|
    ensures var text := if infos[i].name != "" then infos[i].name
                        else if infos[i].deviceClass != "" then infos[i].deviceClass else infos[i].kind;
            var base := CamelCase(Words(text));
            var same := set j | 0 <= j < i && Bases(infos)[j] == base;
            && Bases(infos)[i] == base
            && Id(Bases(infos), i) == if same == {} then base else base + Decimal(|same| + 1)
  {
    hide CamelCase, Words, Decimal;
    var bases := Bases(infos);
    OccurrencesAre(bases, i, bases[i]);
  }

  lemma {:induction false} OccurrencesAre(bases: seq<Text>, i: nat, base: Text)
    requires i <= |bases|
    ensures Occurrences(bases[..i], base) == |set j | 0 <= j < i && bases[j] == base|
  {
    var same := set j | 0 <= j < i && bases[j] == base;
    if i > 0 {
      OccurrencesAre(bases, i - 1, base);
      var before := set j | 0 <= j < i - 1 && bases[j] == base;
      assert bases[..i][..i - 1] == bases[..i - 1];
      assert same == if bases[i - 1] == base then before + {i - 1} else before;
    }
  }

  /** The endpoints have the numbers 1..n exactly when no special number exceeds the number of entities. */
  lemma AppliedCountsUpIff(d: Dev, infos: seq<EntityInfo>)
    requires Fits(d.slots, Asks(infos))
    ensures |Applied(d, infos).endpoints| == |infos| <= 0xFF
    ensures Applied(d, infos).endpoints.Keys == Range(1, |infos|) <==>
            forall n :: n in Round(d.slots, Asks(infos)).numbers ==> n <= |infos|
  {
    hide EndpointIds, Round, Applied, Faithful;
    AppliedKeys(d, infos);
    EndpointsKeptIff(d, infos);
    CountsUpIff(d.slots, Asks(infos));
  }

  /** Every id of a round is made of letters and digits; all are distinct exactly when no two bases clash. */
  lemma ObjectIdsOfRound(infos: seq<EntityInfo>)
    ensures var bases := Bases(infos);
            && (forall i :: 0 <= i < |bases| ==> '_' !in Id(bases, i))
            && ((forall i, j :: 0 <= i < j < |bases| ==> Id(bases, i) != Id(bases, j)) <==>
                forall b, c :: b in bases && c in bases ==> !Clashes(bases, b, c))
  {
    hide Clashes;
    forall i | 0 <= i < |infos|
      ensures '_' !in Id(Bases(infos), i)
    {
      CamelCaseAlphanumeric(Words(Label(infos[i])));
    }
    IdsDistinctIff(Bases(infos));
  }
}
