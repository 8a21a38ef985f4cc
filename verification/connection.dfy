/**
 One connection: frames cut from the byte stream, the handshake, decrypted messages and their effects,
 socket and timer events. Every function gives the state after a slot of the connection has run.
 */
module Connection {
  import opened Bytes
  import opened Proto
  import opened Noise
  import opened Texts
  import opened Devices
  import opened Messages
  import opened Discovery

  datatype Socket = Unconnected | Connecting | Connected | Closing

  datatype State =
    | Disconnected | Dialing | ClientHello | ServerHello | NoiseHandshake | Ready | ListEntities | Subscribe

  /** What a connection has done, for the properties of its history. */
  datatype Action =
    | Opened
    | Closed
    | CloseRequested
    | Wrote(bytes: seq<byte>)
    | Sent(msg: u16, body: seq<byte>)
    | Dispatched(msg: u16, payload: Payload)
    | Announces(names: Names)
    | Applies(names: Names, entities: seq<EntityInfo>, devs: Devs) // a finished discovery, and the list before it

  datatype Conn = Conn(
    host: Text,
    socket: Socket,
    state: State,
    rx: seq<byte>,
    noise: Option<Session>,
    ping: bool, // the three timers: whether they are armed
    reconnect: bool,
    handshake: bool,
    deferrals: nat, // how many more requests to close the socket will put off
    names: Names,
    pending: seq<EntityInfo>,
    log: seq<Action>
  )

  /** A connection together with the device list it shares. */
  datatype Hub = Hub(conn: Conn, devs: Devs)

  function NewConn(host: Text): Conn {
    Conn(host, Unconnected, Disconnected, [], None, false, false, false, 0, map[], [], [])
  }

  function Log(c: Conn, a: Action): Conn {
    c.(log := c.log + [a])
  }

  predicate InSession(s: State) {
    s == Ready || s == ListEntities || s == Subscribe
  }

  predicate Active(h: Hub) {
    Has(h.devs, h.conn.host) && Find(h.devs, h.conn.host).active
  }

  // ---------------------------------------------------------------- the device list

  function SetOnline(devs: Devs, host: Text, online: bool): Devs {
    if Has(devs, host) then Put(devs, Find(devs, host).(online := online)) else devs
  }

  function SetOffline(devs: Devs, hosts: set<Text>): (r: Devs)
    ensures |r| == |devs|
  {
    seq(|devs|, i requires 0 <= i < |devs| => if devs[i].host in hosts then devs[i].(online := false) else devs[i])
  }

  /** The addresses of the sub-devices the connection knows. */
  function KnownAddresses(host: Text, names: Names): set<Text> {
    set id | id in names :: SubAddress(host, names[id])
  }

  // ---------------------------------------------------------------- closing

  /** `onDisconnected`. */
  function OnDisconnected(h: Hub): (r: Hub)
    ensures r.conn.rx == [] && h.conn.log <= r.conn.log
  {
    var c := h.conn;
    var devs :=
      if InSession(c.state) then SetOffline(SetOnline(h.devs, c.host, false), KnownAddresses(c.host, c.names))
      else h.devs;
    Hub(Log(c.(ping := false, handshake := false, rx := [], state := Disconnected, noise := None,
               reconnect := Active(h) || c.reconnect), Closed),
        devs)
  }

  /** `disconnectFromHost` on a connected or closing socket: it closes now, or later. */
  function RequestClose(h: Hub): (r: Hub)
    ensures (r.conn.rx == h.conn.rx || r.conn.rx == []) && h.conn.log + [CloseRequested] <= r.conn.log
  {
    var c := Log(h.conn, CloseRequested);
    if c.deferrals == 0 then OnDisconnected(h.(conn := c.(socket := Unconnected)))
    else h.(conn := c.(socket := Closing, deferrals := c.deferrals - 1))
  }

  /** `abort`: synchronous on a connected or closing socket, silent on any other. */
  function Abort(h: Hub): Hub {
    var dead := h.(conn := h.conn.(socket := Unconnected));
    if h.conn.socket == Connected || h.conn.socket == Closing then OnDisconnected(dead) else dead
  }

  // ---------------------------------------------------------------- sending

  function Frame(body: seq<byte>): seq<byte> {
    [1, Hi(|body|), Lo(|body|)] + body
  }

  /** The text encrypted for a message. */
  function Inner(msg: u16, payload: seq<byte>): seq<byte> {
    [Hi(msg), Lo(msg), Hi(|payload|), Lo(|payload|)] + payload
  }

  /** `sendMessage`. */
  function SendMessage(c: Conn, msg: u16, payload: seq<byte>): (r: Conn)
    ensures r.rx == c.rx && c.log <= r.log
  {
    if c.noise.None? || c.noise.value.phase != Complete then c
    else
      var (session, body) := Encrypt(c.noise.value, Inner(msg, payload));
      Log(Log(c.(noise := Some(session)), Sent(msg, payload)), Wrote(Frame(body)))
  }

  const CLIENT_NAME: seq<byte> := [104, 111, 109, 101, 100, 45, 101, 115, 112, 104, 111, 109, 101] // homed-esphome

  function HelloPayload(): seq<byte> {
    EncodedAll([AddBytes(1, CLIENT_NAME), AddVarint(2, 1), AddVarint(3, 14)])
  }

  // ---------------------------------------------------------------- receiving

  function WithInfo(d: Dev, info: Info): Dev {
    d.(version := if info.version.Some? then info.version.value else d.version,
       model := if info.model.Some? then info.model.value else d.model,
       manufacturer := if info.manufacturer.Some? then info.manufacturer.value else d.manufacturer)
  }

  /** A DeviceInfoResponse starts a new list of entities. */
  function OnDeviceInfo(h: Hub, payload: Payload): (r: Hub)
    ensures r.conn.rx == h.conn.rx && h.conn.log <= r.conn.log
  {
    var info := InfoFrom(Decode(payload));
    var c := Log(h.conn.(names := info.subNames, pending := [], state := ListEntities), Announces(info.subNames));
    Hub(SendMessage(c, LIST_ENTITIES_REQUEST, []),
        if Has(h.devs, c.host) then Put(h.devs, WithInfo(Find(h.devs, c.host), info)) else h.devs)
  }

  /** A ListEntitiesDone applies the pending entities. */
  function OnListDone(h: Hub): (r: Hub)
    ensures r.conn.rx == h.conn.rx && h.conn.log <= r.conn.log
  {
    var c := h.conn;
    Hub(SendMessage(Log(c, Applies(c.names, c.pending, h.devs)).(state := Subscribe), SUBSCRIBE_STATES, []),
        ApplyDiscovered(h.devs, c.host, c.names, c.pending))
  }

  /** `processMessage`; state updates and ping responses touch nothing kept here. */
  function ProcessMessage(h: Hub, msg: u16, payload: Payload): (r: Hub)
    ensures (r.conn.rx == h.conn.rx || r.conn.rx == []) && h.conn.log + [Dispatched(msg, payload)] <= r.conn.log
  {
    var c := Log(h.conn, Dispatched(msg, payload));
    if msg == HELLO_RESPONSE then h.(conn := SendMessage(c, DEVICE_INFO_REQUEST, []))
    else if msg == DEVICE_INFO_RESPONSE then OnDeviceInfo(h.(conn := c), payload)
    else if IsEntityMessage(msg) then h.(conn := c.(pending := c.pending + Announced(msg, payload)))
    else if msg == LIST_DONE then OnListDone(h.(conn := c))
    else if msg == DISCONNECT_REQUEST then RequestClose(h.(conn := SendMessage(c, DISCONNECT_RESPONSE, [])))
    else h.(conn := c)
  }

  /** Position of the first 0 from position 1 on; the length if there is none. */
  function NameEnd(s: seq<byte>, from: nat): (i: nat)
    requires 1 <= from <= |s|
    ensures from <= i <= |s|
    ensures (i < |s| ==> s[i] == 0) && forall j :: from <= j < i ==> s[j] != 0
    decreases |s| - from
  {
    if from == |s| || s[from] == 0 then from else NameEnd(s, from + 1)
  }

  /** A device that still goes by its address adopts the name in the server's greeting. */
  function AdoptName(devs: Devs, host: Text, greeting: seq<byte>): Devs
    requires |greeting| > 0
  {
    var end := NameEnd(greeting, 1);
    if 1 < end < |greeting| && FromUtf8(greeting[1..end]) != "" && Has(devs, host) && Find(devs, host).name == host
    then Put(devs, Find(devs, host).(name := FromUtf8(greeting[1..end])))
    else devs
  }

  /** The state after a frame, and whether the slot returns there instead of going on. */
  datatype Outcome = Outcome(hub: Hub, stop: bool)

  function OnServerHello(h: Hub, frame: seq<byte>): (o: Outcome)
    ensures (o.hub.conn.rx == h.conn.rx || o.hub.conn.rx == []) && h.conn.log <= o.hub.conn.log
  {
    if frame == [] || frame[0] != 1 then Outcome(RequestClose(h), true)
    else Outcome(Hub(h.conn.(state := NoiseHandshake), AdoptName(h.devs, h.conn.host, frame)), false)
  }

  function OnHandshakeAnswer(h: Hub, frame: seq<byte>): (o: Outcome)
    ensures (o.hub.conn.rx == h.conn.rx || o.hub.conn.rx == []) && h.conn.log <= o.hub.conn.log
  {
    if frame == [] || frame[0] != 0 then Outcome(RequestClose(h), true)
    else if h.conn.noise.None? then Outcome(h, true) // a null object in the source
    else
      var session := ReadHandshake(h.conn.noise.value, frame[1..]);
      var c := h.conn.(noise := Some(session));
      if h.conn.noise.value.phase == Complete || session.phase != Complete then
        Outcome(RequestClose(h.(conn := c)), true)
      else
        Outcome(Hub(SendMessage(c.(state := Ready, handshake := false, ping := true), HELLO_REQUEST, HelloPayload()),
                    SetOnline(h.devs, c.host, true)), false)
  }

  function OnSealedFrame(h: Hub, frame: seq<byte>): (o: Outcome)
    ensures (o.hub.conn.rx == h.conn.rx || o.hub.conn.rx == []) && h.conn.log <= o.hub.conn.log
  {
    if h.conn.noise.None? || h.conn.noise.value.phase != Complete then Outcome(h, true)
    else
      var (session, plain) := Decrypt(h.conn.noise.value, frame);
      OnPlain(h.(conn := h.conn.(noise := Some(session))), plain)
  }

  /** What the size field of a decrypted text leaves of its payload. */
  function PayloadOf(plain: seq<byte>): Payload
    requires |plain| >= 4
  {
    var size: u16 := Word(plain[2], plain[3]);
    if 4 + size <= |plain| then plain[4..4 + size] else plain[4..]
  }

  /** A decrypted text; the empty one stands for a failure. */
  function OnPlain(h: Hub, plain: seq<byte>): (o: Outcome)
    ensures (o.hub.conn.rx == h.conn.rx || o.hub.conn.rx == []) && h.conn.log <= o.hub.conn.log
  {
    if plain == [] then Outcome(RequestClose(h), true)
    else if |plain| < 4 then Outcome(h, false)
    else Outcome(ProcessMessage(h, Word(plain[0], plain[1]), PayloadOf(plain)), false)
  }

  function HandleFrame(h: Hub, frame: seq<byte>): (o: Outcome)
    ensures (o.hub.conn.rx == h.conn.rx || o.hub.conn.rx == []) && h.conn.log <= o.hub.conn.log
  {
    match h.conn.state
    case ServerHello => OnServerHello(h, frame)
    case NoiseHandshake => OnHandshakeAnswer(h, frame)
    case Ready => OnSealedFrame(h, frame)
    case ListEntities => OnSealedFrame(h, frame)
    case Subscribe => OnSealedFrame(h, frame)
    case _ => Outcome(h, false)
  }

  /** A buffer that holds no complete frame and no bad frame indicator either: the slot waits for more. */
  predicate Waits(rx: seq<byte>) {
    |rx| < 3 || (rx[0] == 1 && |rx| < 3 + Word(rx[1], rx[2]))
  }

  /** The size of the first frame of a buffer, with its header. */
  function FrameSize(rx: seq<byte>): (n: nat)
    requires |rx| >= 3
    ensures n >= 3
  {
    3 + Word(rx[1], rx[2])
  }

  /** The loop of `onReadyRead`. */
  function Pump(h: Hub): (r: Hub)
    ensures h.conn.log <= r.conn.log
    decreases |h.conn.rx|
  {
    var rx := h.conn.rx;
    if Waits(rx) then h
    else if rx[0] != 1 then RequestClose(h)
    else
      var n := FrameSize(rx);
      var o := HandleFrame(h.(conn := h.conn.(rx := rx[n..])), rx[3..n]);
      if o.stop then o.hub else Pump(o.hub)
  }

  /** One round of the loop. */
  lemma PumpStep(h: Hub)
    ensures var rx := h.conn.rx;
            Pump(h) ==
            if Waits(rx) then h
            else if rx[0] != 1 then RequestClose(h)
            else
              var o := HandleFrame(h.(conn := h.conn.(rx := rx[FrameSize(rx)..])), rx[3..FrameSize(rx)]);
              if o.stop then o.hub else Pump(o.hub)
  {
  }

  /** `onReadyRead` with the bytes that have come in. */
  function ReadyRead(h: Hub, bytes: seq<byte>): (r: Hub)
    ensures h.conn.log <= r.conn.log
  {
    Pump(h.(conn := h.conn.(rx := h.conn.rx + bytes)))
  }
}
