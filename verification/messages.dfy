/** Message types, and what their payloads say. */
module Messages {
  import opened Bytes
  import opened Proto
  import opened Texts
  import opened Devices

  type Payload = p: seq<byte> | |p| <= 0xFFFF

  const HELLO_REQUEST: u16 := 1
  const HELLO_RESPONSE: u16 := 2
  const DISCONNECT_REQUEST: u16 := 5
  const DISCONNECT_RESPONSE: u16 := 6
  const PING_REQUEST: u16 := 7
  const DEVICE_INFO_REQUEST: u16 := 9
  const DEVICE_INFO_RESPONSE: u16 := 10
  const LIST_ENTITIES_REQUEST: u16 := 11
  const LIST_BINARY: u16 := 12
  const LIST_COVER: u16 := 13
  const LIST_LIGHT: u16 := 15
  const LIST_SENSOR: u16 := 16
  const LIST_SWITCH: u16 := 17
  const LIST_TEXT_SENSOR: u16 := 18
  const LIST_DONE: u16 := 19
  const SUBSCRIBE_STATES: u16 := 20
  const LIST_CLIMATE: u16 := 46
  const LIST_NUMBER: u16 := 49
  const LIST_SELECT: u16 := 52
  const LIST_LOCK: u16 := 58
  const LIST_BUTTON: u16 := 61

  predicate IsEntityMessage(msg: u16) {
    msg in {LIST_BINARY, LIST_COVER, LIST_LIGHT, LIST_SENSOR, LIST_SWITCH, LIST_TEXT_SENSOR, LIST_CLIMATE,
            LIST_NUMBER, LIST_SELECT, LIST_LOCK, LIST_BUTTON}
  }

  /** The types of the messages that carry a command to a device. */
  predicate IsCommand(msg: u16) {
    msg in {30, 32, 33, 48, 51, 54, 60, 62}
  }

  /** What `QString::fromUtf8` makes of bytes: a parameter of the model, of which nothing is assumed. */
  const Utf8: seq<byte> -> Text

  function FromUtf8(b: seq<byte>): Text { Utf8(b) }

  /** The type of the message with a command to an entity of a kind; 0 for a kind that takes no commands. */
  function CommandType(kind: Text): u16 {
    if kind == "switch" then 33
    else if kind == "lock" then 60
    else if kind == "light" then 32
    else if kind == "cover" then 30
    else if kind == "climate" then 48
    else if kind == "select" then 54
    else if kind == "number" then 51
    else if kind == "button" then 62
    else 0
  }

  /** Its payload: the key of the entity, and what the action and its value add. */
  function CommandPayload(key: u32, body: Calls): seq<byte> {
    EncodedAll([AddFixed32(1, key)] + body)
  }

  // ---------------------------------------------------------------- device information

  /** What a DeviceInfoResponse says; texts that are not given stay None. */
  datatype Info = Info(version: Option<Text>, model: Option<Text>, manufacturer: Option<Text>, subNames: map<u32, Text>)

  function SubId(fields: seq<ProtoField>): u32 {
    if fields == [] then 0
    else
      var f := fields[|fields| - 1];
      if f.field == 1 && f.wireType == 0 then f.varint % 0x1_0000_0000 else SubId(fields[..|fields| - 1])
  }

  function SubName(fields: seq<ProtoField>): Text {
    if fields == [] then ""
    else
      var f := fields[|fields| - 1];
      if f.field == 2 && f.wireType == 2 then FromUtf8(f.raw) else SubName(fields[..|fields| - 1])
  }

  /** Decoding a nested message; payloads never reach the limit. */
  function Nested(raw: seq<byte>): seq<ProtoField> {
    if |raw| < 0x8000_0000 then Decode(raw) else []
  }

  function AddInfo(info: Info, f: ProtoField): Info {
    if f.wireType != 2 then info
    else if f.field == 4 then info.(version := Some(FromUtf8(f.raw)))
    else if f.field == 6 then info.(model := Some(FromUtf8(f.raw)))
    else if f.field == 12 then info.(manufacturer := Some(FromUtf8(f.raw)))
    else if f.field == 20 then
      var fields := Nested(f.raw);
      if SubId(fields) > 0 then info.(subNames := info.subNames[SubId(fields) := SubName(fields)]) else info
    else info
  }

  function InfoFrom(fields: seq<ProtoField>): Info {
    if fields == [] then Info(None, None, None, map[])
    else AddInfo(InfoFrom(fields[..|fields| - 1]), fields[|fields| - 1])
  }

  // ---------------------------------------------------------------- entities

  function DeviceIdField(msg: u16): int {
    match msg
    case 12 => 10 case 13 => 13 case 15 => 16 case 16 => 14 case 17 => 10 case 18 => 9
    case 46 => 26 case 49 => 14 case 52 => 9 case 58 => 12 case _ => 9
  }

  /** The field with the device class; 0 for a type without one. */
  function ClassField(msg: u16): int {
    match msg
    case 12 => 5 case 13 => 8 case 16 => 9 case 17 => 9 case 18 => 8 case 61 => 8 case _ => 0
  }

  function Kind(msg: u16): Text {
    match msg
    case 12 => "binary_sensor" case 13 => "cover" case 15 => "light" case 16 => "sensor" case 17 => "switch"
    case 18 => "text_sensor" case 46 => "climate" case 49 => "number" case 52 => "select" case 58 => "lock"
    case _ => "button"
  }

  function AddToEntity(msg: u16, info: EntityInfo, f: ProtoField): EntityInfo {
    if f.field == 3 && f.wireType == 2 then info.(name := FromUtf8(f.raw))
    else if f.field == 2 && f.wireType == 5 then info.(key := f.varint % 0x1_0000_0000)
    else if f.field == DeviceIdField(msg) && f.wireType == 0 then info.(deviceId := f.varint % 0x1_0000_0000)
    else if f.field == ClassField(msg) && f.field != 0 && f.wireType == 2 then info.(deviceClass := FromUtf8(f.raw))
    else if msg == LIST_SWITCH && f.field == 8 && f.wireType == 0 then info.(toggle := f.varint == 1 || f.varint == 2)
    else if msg == LIST_SELECT && f.field == 6 && f.wireType == 2 then
      info.(selectOptions := info.selectOptions + [FromUtf8(f.raw)])
    else if msg == LIST_LIGHT && f.field == 9 && f.wireType == 5 then info.(minMireds := f.bits)
    else if msg == LIST_LIGHT && f.field == 10 && f.wireType == 5 then info.(maxMireds := f.bits)
    else info
  }

  function EntityFrom(msg: u16, fields: seq<ProtoField>): EntityInfo {
    if fields == [] then EntityInfo(0, 0, Kind(msg), "", "", false, [], 0, 0)
    else AddToEntity(msg, EntityFrom(msg, fields[..|fields| - 1]), fields[|fields| - 1])
  }

  /** What an entity message adds to the pending list: nothing when its key is 0. */
  function Announced(msg: u16, payload: Payload): (infos: seq<EntityInfo>)
    ensures |infos| <= 1 && forall info :: info in infos ==> info.key != 0
  {
    var info := EntityFrom(msg, Decode(payload));
    if info.key == 0 then [] else [info]
  }
}
