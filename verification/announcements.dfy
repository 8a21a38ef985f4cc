/** What the payloads of announcements say, field by field. */
module Announcements {
  import opened Bytes
  import opened Proto
  import opened Texts
  import opened Devices
  import opened Messages
  import Order

  // ---------------------------------------------------------------- the last field with a number and a type

  function LastField(fields: seq<ProtoField>, number: int, wireType: nat): Option<ProtoField> {
    if fields == [] then None
    else
      var f := fields[|fields| - 1];
      if f.field == number && f.wireType == wireType then Some(f)
      else LastField(fields[..|fields| - 1], number, wireType)
  }

  /** It is the last one, indeed. */
  lemma {:induction false} LastFieldIff(fields: seq<ProtoField>, number: int, wireType: nat)
    ensures LastField(fields, number, wireType).None? <==>
            forall f :: f in fields ==> !(f.field == number && f.wireType == wireType)
    ensures LastField(fields, number, wireType).Some? ==>
              exists i :: 0 <= i < |fields| && fields[i] == LastField(fields, number, wireType).value
                          && fields[i].field == number && fields[i].wireType == wireType
                          && forall j :: i < j < |fields| ==>
                                           !(fields[j].field == number && fields[j].wireType == wireType)
  {
    if fields != [] {
      var front, last := fields[..|fields| - 1], fields[|fields| - 1];
      LastFieldIff(front, number, wireType);
      assert fields == front + [last];
    }
  }

  /** The number of a varint field, the word of a fixed one: 0 when there is none. */
  function NumberOf(fields: seq<ProtoField>, number: int): u64 {
    match LastField(fields, number, 0) case None => 0 case Some(f) => f.varint
  }

  function WordOf(fields: seq<ProtoField>, number: int): u32 {
    match LastField(fields, number, 5) case None => 0 case Some(f) => f.bits
  }

  function TextOf(fields: seq<ProtoField>, number: int): Text {
    match LastField(fields, number, 2) case None => "" case Some(f) => FromUtf8(f.raw)
  }

  function MaybeText(fields: seq<ProtoField>, number: int): Option<Text> {
    match LastField(fields, number, 2) case None => None case Some(f) => Some(FromUtf8(f.raw))
  }

  /** All texts under a number, in order. */
  function TextsOf(fields: seq<ProtoField>, number: int): seq<Text> {
    if fields == [] then []
    else
      var f := fields[|fields| - 1];
      TextsOf(fields[..|fields| - 1], number) +
      if f.field == number && f.wireType == 2 then [FromUtf8(f.raw)] else []
  }

  // ---------------------------------------------------------------- entities

  /** The messages that announce entities, with the fields of the sub-device's id and of the class (0: none). */
  predicate Layout(msg: int, kind: Text, idField: int, classField: int) {
    || (msg == 12 && kind == "binary_sensor" && idField == 10 && classField == 5)
    || (msg == 13 && kind == "cover" && idField == 13 && classField == 8)
    || (msg == 15 && kind == "light" && idField == 16 && classField == 0)
    || (msg == 16 && kind == "sensor" && idField == 14 && classField == 9)
    || (msg == 17 && kind == "switch" && idField == 10 && classField == 9)
    || (msg == 18 && kind == "text_sensor" && idField == 9 && classField == 8)
    || (msg == 46 && kind == "climate" && idField == 26 && classField == 0)
    || (msg == 49 && kind == "number" && idField == 14 && classField == 0)
    || (msg == 52 && kind == "select" && idField == 9 && classField == 0)
    || (msg == 58 && kind == "lock" && idField == 12 && classField == 0)
    || (msg == 61 && kind == "button" && idField == 9 && classField == 8)
  }

  /** The fields of a single-precision word are carried as a varint too. */
  predicate Decoded32(fields: seq<ProtoField>) {
    forall f :: f in fields && f.wireType == 5 ==> f.varint == f.bits
  }

  /** What an entity message says. */
  function Said(msg: u16, fields: seq<ProtoField>, kind: Text, idField: int, classField: int): EntityInfo {
    EntityInfo(
      WordOf(fields, 2),
      NumberOf(fields, idField) % 0x1_0000_0000,
      kind,
      TextOf(fields, 3),
      if classField == 0 then "" else TextOf(fields, classField),
      msg == 17 && (NumberOf(fields, 8) == 1 || NumberOf(fields, 8) == 2),
      if msg == 52 then TextsOf(fields, 6) else [],
      if msg == 15 then WordOf(fields, 9) else 0,
      if msg == 15 then WordOf(fields, 10) else 0)
  }

  /** One field more. */
  lemma NextField(front: seq<ProtoField>, f: ProtoField, number: int, wireType: nat)
    ensures LastField(front + [f], number, wireType) ==
            if f.field == number && f.wireType == wireType then Some(f) else LastField(front, number, wireType)
    ensures TextsOf(front + [f], number) ==
            TextsOf(front, number) + if f.field == number && f.wireType == 2 then [FromUtf8(f.raw)] else []
  {
    hide FromUtf8;
    assert (front + [f])[..|front|] == front;
  }

  lemma SaidNext(msg: u16, front: seq<ProtoField>, f: ProtoField, kind: Text, idField: int, classField: int)
    requires Layout(msg, kind, idField, classField) && (f.wireType == 5 ==> f.varint == f.bits)
    ensures Said(msg, front + [f], kind, idField, classField) ==
            AddToEntity(msg, Said(msg, front, kind, idField, classField), f)
  {
    hide FromUtf8, LastField, TextsOf;
    NextField(front, f, 2, 5);
    NextField(front, f, 3, 2);
    NextField(front, f, idField, 0);
    NextField(front, f, classField, 2);
    NextField(front, f, 8, 0);
    NextField(front, f, 6, 2);
    NextField(front, f, 9, 5);
    NextField(front, f, 10, 5);
  }

  lemma {:induction false} EntitySaid(msg: u16, fields: seq<ProtoField>, kind: Text, idField: int, classField: int)
    requires Layout(msg, kind, idField, classField) && Decoded32(fields)
    ensures EntityFrom(msg, fields) == Said(msg, fields, kind, idField, classField)
  {
    hide AddToEntity, LastField, Said;
    if fields == [] {
      NothingSaid(msg, kind, idField, classField);
    } else {
      var front, f := fields[..|fields| - 1], fields[|fields| - 1];
      EntitySaid(msg, front, kind, idField, classField);
      assert fields == front + [f] && f in fields;
      SaidNext(msg, front, f, kind, idField, classField);
    }
  }

  lemma NothingSaid(msg: u16, kind: Text, idField: int, classField: int)
    requires Layout(msg, kind, idField, classField)
    ensures EntityFrom(msg, []) == Said(msg, [], kind, idField, classField)
  {
  }

  /** The decoder fills a 32-bit field in both ways. */
  lemma {:induction false} RunWords(data: seq<byte>, pos: int, left: set<int>)
    requires pos <= |data| < 0x8000_0000
    ensures Decoded32(DecodeRun(data, pos, left).fields)
    decreases left
  {
    hide FieldIn;
    if 0 <= pos < |data| && pos in left {
      match FieldIn(data[pos..], pos)
      case NoField =>
      case Field(f, next) =>
        FieldWords(data[pos..], pos);
        RunWords(data, next, left - {pos});
    }
  }

  lemma FieldWords(s: seq<byte>, pos: nat)
    requires pos + |s| < 0x8000_0000 && FieldIn(s, pos).Field?
    ensures FieldIn(s, pos).field.wireType == 5 ==> FieldIn(s, pos).field.varint == FieldIn(s, pos).field.bits
  {
    hide VarintIn, DelimitedBody, Word32;
    match VarintIn(s)
    case Got(tag, rest) =>
      if WireType(tag) == 2 && VarintIn(rest).Got? {
        DelimitedTyped(VarintIn(rest).rest, pos + |s| - |VarintIn(rest).rest|, TagNumber(tag), VarintIn(rest).value);
      }
  }

  lemma DelimitedTyped(s: seq<byte>, pos: nat, number: i32, len: u64)
    requires pos + |s| < 0x8000_0000
    ensures DelimitedBody(s, pos, number, len).Field? ==> DelimitedBody(s, pos, number, len).field.wireType == 2
  {
  }

  /**
   An entity message announces one entity, unless its key is 0. The key is the last word 2, the name the
   last text 3, the sub-device the last number under the type's own field; kind and class go by the type,
   and so do the values of a select, the category of a switch and the color temperatures of a light.
   */
  lemma AnnouncedIs(msg: u16, payload: Payload, kind: Text, idField: int, classField: int)
    requires Layout(msg, kind, idField, classField)
    ensures WordOf(Decode(payload), 2) == 0 ==> Announced(msg, payload) == []
    ensures var fields := Decode(payload);
            WordOf(fields, 2) != 0 ==>
              |Announced(msg, payload)| == 1
              && var info := Announced(msg, payload)[0];
                 && info.key == WordOf(fields, 2)
                 && info.name == TextOf(fields, 3)
                 && info.deviceId == NumberOf(fields, idField) % 0x1_0000_0000
                 && info.kind == kind
                 && info.deviceClass == (if classField == 0 then "" else TextOf(fields, classField))
                 && (info.toggle <==> msg == 17 && (NumberOf(fields, 8) == 1 || NumberOf(fields, 8) == 2))
                 && info.selectOptions == (if msg == 52 then TextsOf(fields, 6) else [])
                 && info.minMireds == (if msg == 15 then WordOf(fields, 9) else 0)
                 && info.maxMireds == (if msg == 15 then WordOf(fields, 10) else 0)
  {
    hide Decode, EntityFrom, LastField, TextsOf;
    DecodedWords(payload);
    EntitySaid(msg, Decode(payload), kind, idField, classField);
  }

  lemma DecodedWords(payload: Payload)
    ensures Decoded32(Decode(payload))
  {
    hide Decoded32, DecodeRun;
    RunWords(payload, 0, Order.Range(0, |payload| - 1));
  }

  /** Entity messages are those of these types; others announce nothing. */
  lemma EntityMessageIff(msg: u16)
    ensures IsEntityMessage(msg) <==> msg in {12, 13, 15, 16, 17, 18, 46, 49, 52, 58, 61}
    ensures IsEntityMessage(msg) <==>
            exists kind: Text, idField: int, classField: int :: Layout(msg, kind, idField, classField)
  {
    if IsEntityMessage(msg) {
      assert Layout(msg, Kind(msg), DeviceIdField(msg), ClassField(msg));
    }
  }

  // ---------------------------------------------------------------- entities as the peer encodes them

  /** The field numbers that survive their tag. */
  predicate Numbered(calls: seq<Call>) {
    forall c :: c in calls ==> 0 <= c.field < 0x1000_0000
  }

  function LastWord(calls: seq<Call>, number: int): u32 {
    if calls == [] then 0
    else
      match calls[|calls| - 1]
      case AddFixed32(field, word) => if field == number then word else LastWord(calls[..|calls| - 1], number)
      case _ => LastWord(calls[..|calls| - 1], number)
  }

  function LastBytes(calls: seq<Call>, number: int): Option<seq<byte>> {
    if calls == [] then None
    else
      match calls[|calls| - 1]
      case AddBytes(field, bytes) => if field == number then Some(bytes) else LastBytes(calls[..|calls| - 1], number)
      case _ => LastBytes(calls[..|calls| - 1], number)
  }

  function LastNumber(calls: seq<Call>, number: int): u64 {
    if calls == [] then 0
    else
      match calls[|calls| - 1]
      case AddVarint(field, value) => if field == number then value else LastNumber(calls[..|calls| - 1], number)
      case _ => LastNumber(calls[..|calls| - 1], number)
  }

  function FieldsOf(calls: seq<Call>): (fields: seq<ProtoField>)
    ensures |fields| == |calls|
  {
    seq(|calls|, i requires 0 <= i < |calls| => FieldOf(calls[i]))
  }

  lemma {:induction false} LastOfCalls(calls: seq<Call>, number: int)
    requires Numbered(calls)
    ensures WordOf(FieldsOf(calls), number) == LastWord(calls, number)
    ensures NumberOf(FieldsOf(calls), number) == LastNumber(calls, number)
    ensures MaybeText(FieldsOf(calls), number) ==
            match LastBytes(calls, number) case None => None case Some(b) => Some(FromUtf8(b))
  {
    hide FromUtf8, FieldOf;
    if calls != [] {
      var front, c := calls[..|calls| - 1], calls[|calls| - 1];
      LastOfCalls(front, number);
      assert FieldsOf(calls) == FieldsOf(front) + [FieldOf(c)];
      NextField(FieldsOf(front), FieldOf(c), number, 0);
      NextField(FieldsOf(front), FieldOf(c), number, 2);
      NextField(FieldsOf(front), FieldOf(c), number, 5);
      assert c in calls;
      KeptCall(c);
    }
  }

  lemma KeptCall(c: Call)
    requires 0 <= c.field < 0x1000_0000
    ensures FieldOf(c) == match c
                          case AddVarint(field, value) => ProtoField(field, 0, value, 0, [])
                          case AddFixed32(field, word) => ProtoField(field, 5, word, word, [])
                          case AddBytes(field, bytes) => ProtoField(field, 2, 0, 0, bytes)
  {
    hide KeptNumber;
    FieldNumberKeptIff(c.field);
  }

  /** Whatever a peer encodes as an entity message is announced with its key, its name and its sub-device. */
  lemma EncodedAnnounced(msg: u16, calls: Calls, kind: Text, idField: int, classField: int)
    requires Layout(msg, kind, idField, classField) && Numbered(calls) && |EncodedAll(calls)| <= 0xFFFF
    requires LastWord(calls, 2) != 0
    ensures |Announced(msg, EncodedAll(calls))| == 1
    ensures var info := Announced(msg, EncodedAll(calls))[0];
            && info.key == LastWord(calls, 2) && info.kind == kind
            && info.name == (match LastBytes(calls, 3) case None => "" case Some(b) => FromUtf8(b))
            && info.deviceId == LastNumber(calls, idField) % 0x1_0000_0000
  {
    hide EncodedAll, Decoded, FieldOf, Announced, FromUtf8, LastField, TextsOf, LastWord, LastBytes, LastNumber;
    CodecRoundTrip(calls);
    assert Decode(EncodedAll(calls)) == FieldsOf(calls);
    AnnouncedIs(msg, EncodedAll(calls), kind, idField, classField);
    LastOfCalls(calls, 2);
    LastOfCalls(calls, 3);
    LastOfCalls(calls, idField);
  }

  // ---------------------------------------------------------------- device information

  /** The name that the last entry for a sub-device id gives it. */
  function SubNameAt(fields: seq<ProtoField>, id: int): Option<Text> {
    if fields == [] then None
    else
      var f := fields[|fields| - 1];
      if f.field == 20 && f.wireType == 2 && NumberOf(Nested(f.raw), 1) % 0x1_0000_0000 == id
      then Some(TextOf(Nested(f.raw), 2))
      else SubNameAt(fields[..|fields| - 1], id)
  }

  lemma {:induction false} SubSaid(fields: seq<ProtoField>)
    ensures SubId(fields) == NumberOf(fields, 1) % 0x1_0000_0000 && SubName(fields) == TextOf(fields, 2)
  {
    hide FromUtf8;
    if fields != [] {
      SubSaid(fields[..|fields| - 1]);
    }
  }

  /**
   A DeviceInfoResponse gives the version as text 4, the model as 6 and the manufacturer as 12, and in its
   fields 20 the sub-devices: each id but 0 with the name of the last entry that has this id.
   */
  lemma {:induction false} InfoSaid(fields: seq<ProtoField>)
    ensures var info := InfoFrom(fields);
            && info.version == MaybeText(fields, 4) && info.model == MaybeText(fields, 6)
            && info.manufacturer == MaybeText(fields, 12)
            && forall id: u32 :: (id in info.subNames <==> id != 0 && SubNameAt(fields, id).Some?)
                                 && (id in info.subNames ==> info.subNames[id] == SubNameAt(fields, id).value)
  {
    hide FromUtf8, Nested, SubId, SubName;
    if fields != [] {
      var front, f := fields[..|fields| - 1], fields[|fields| - 1];
      InfoSaid(front);
      SubSaid(Nested(f.raw));
    }
  }
}
