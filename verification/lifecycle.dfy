/** The events of a connection and what they keep: session, timers, and the device list they share. */
module Lifecycle {
  import opened Bytes
  import opened Proto
  import opened Noise
  import opened Texts
  import opened Messages
  import opened Discovery
  import opened Connection
  import opened Forest

  // ---------------------------------------------------------------- slots

  /** `connectToDevice`; `fails`: the socket reports an error before `connectToHost` returns. */
  function ConnectToDevice(h: Hub, fails: bool): Hub {
    if h.conn.state != Disconnected then h
    else
      var c := h.conn.(state := Dialing, rx := [], socket := Connecting);
      if fails then OnError(h.(conn := c.(socket := Unconnected))) else h.(conn := c)
  }

  /** `disconnectFromDevice`: the state is reset first; a socket that is not open has nothing to close. */
  function Teardown(h: Hub): Hub {
    var h1 := h.(conn := h.conn.(ping := false, reconnect := false, handshake := false, state := Disconnected));
    if h.conn.socket == Connected || h.conn.socket == Closing then RequestClose(h1) else h1
  }

  /** Tearing a connection down leaves every device as it was, whatever the state it is in. */
  lemma TeardownSpares(h: Hub)
    ensures Teardown(h).devs == h.devs && Teardown(h).conn.state == Disconnected
    ensures !Teardown(h).conn.ping && !Teardown(h).conn.handshake
  {
  }

  function OnError(h: Hub): Hub {
    h.(conn := h.conn.(reconnect := Active(h) || h.conn.reconnect))
  }

  /** `onConnected` with the keys of a new session. */
  function OnConnected(h: Hub, keys: Keys): Hub {
    var (session, message) := WriteHandshake(Begin(keys));
    var c := Log(h.conn.(socket := Connected, reconnect := false, handshake := true, noise := Some(session)), Opened);
    h.(conn := Log(c, Wrote(Frame([]) + Frame([0] + message))).(state := ServerHello))
  }

  function OnPingTimer(h: Hub): Hub {
    if h.conn.state == Ready || h.conn.state == Subscribe then h.(conn := SendMessage(h.conn, PING_REQUEST, [])) else h
  }

  /** `onReconnectTimer`: `abort` may run `onDisconnected`, which arms the timer again. */
  function OnReconnectTimer(h: Hub, fails: bool): Hub {
    var h1 := Abort(h);
    var h2 := h1.(conn := h1.conn.(reconnect := false, state := Disconnected));
    if Active(h2) then ConnectToDevice(h2, fails) else h2
  }

  /** `sendCommand`: one message for an endpoint the device has, in state Subscribe only. */
  function SendCommand(h: Hub, host: Text, id: byte, body: Calls): Hub {
    if h.conn.state != Subscribe then h
    else if !Has(h.devs, host) || id !in Find(h.devs, host).endpoints then h
    else
      var ep := Find(h.devs, host).endpoints[id];
      if CommandType(ep.kind) == 0 then h
      else h.(conn := SendMessage(h.conn, CommandType(ep.kind), CommandPayload(ep.key, body)))
  }

  /** A command sends one message of a command's type, or does nothing. */
  lemma CommandSends(h: Hub, host: Text, id: byte, body: Calls) returns (msg: u16, payload: seq<byte>)
    ensures SendCommand(h, host, id, body) == h
            || (h.conn.state == Subscribe && IsCommand(msg)
                && SendCommand(h, host, id, body) == h.(conn := SendMessage(h.conn, msg, payload)))
  {
    hide SendMessage, CommandPayload;
    if Has(h.devs, host) && id in Find(h.devs, host).endpoints {
      var ep := Find(h.devs, host).endpoints[id];
      msg, payload := CommandType(ep.kind), CommandPayload(ep.key, body);
    } else {
      msg, payload := 0, [];
    }
  }

  // ---------------------------------------------------------------- events

  datatype Event =
    | Connects(keys: Keys)
    | DialFails
    | Fails // an error that leaves the socket as it is
    | Drops // the peer closes, or a request to close is carried out
    | Reads(bytes: seq<byte>, deferrals: nat)
    | PingTimer
    | ReconnectTimer(fails: bool)
    | HandshakeTimer
    | Command(host: Text, id: byte, body: Calls)

  predicate Open(s: Socket) { s == Connected || s == Closing }

  /** One event; one that cannot happen changes nothing. */
  function Step(h: Hub, e: Event): Hub {
    var c := h.conn;
    match e
    case Connects(keys) => if c.socket == Connecting then OnConnected(h, keys) else h
    case DialFails => if c.socket == Connecting then OnError(h.(conn := c.(socket := Unconnected))) else h
    case Fails => OnError(h)
    case Drops => if Open(c.socket) then OnDisconnected(h.(conn := c.(socket := Unconnected))) else h
    case Reads(bytes, deferrals) =>
      if Open(c.socket) then ReadyRead(h.(conn := c.(deferrals := deferrals)), bytes) else h
    case PingTimer => if c.ping then OnPingTimer(h) else h
    case ReconnectTimer(fails) => if c.reconnect then OnReconnectTimer(h.(conn := c.(reconnect := false)), fails) else h
    case HandshakeTimer => if c.handshake then Abort(h.(conn := c.(handshake := false))) else h
    case Command(host, id, body) => SendCommand(h, host, id, body)
  }

  // ---------------------------------------------------------------- the session invariant

  predicate Greeting(s: State) { s == ServerHello || s == NoiseHandshake }

  /**
   In session the noise object exists and is complete; the ping timer runs exactly in session and the
   handshake timer exactly before it; without an open socket there is neither session nor data.
   */
  predicate SessionInv(c: Conn) {
    && (c.ping <==> InSession(c.state))
    && (c.handshake <==> Greeting(c.state))
    && (Open(c.socket) <==> InSession(c.state) || Greeting(c.state))
    && (InSession(c.state) ==> c.noise.Some? && c.noise.value.phase == Complete)
    && (Greeting(c.state) ==> c.noise.Some? && c.noise.value.phase != Complete)
    && (!Open(c.socket) ==> c.noise.None? && c.rx == [] && (c.state == Disconnected || c.state == Dialing))
    && (c.socket == Connecting ==> c.state == Dialing)
  }

  /** The noise object is there as before, in the same phase, with the same keys and receive counter. */
  ghost predicate SameSession(c: Conn, r: Conn) {
    && (r.noise.Some? <==> c.noise.Some?)
    && (c.noise.Some? ==> r.noise.value == c.noise.value.(sent := r.noise.value.sent))
  }

  /** Sending touches the send counter and the history only. */
  lemma SendKeeps(c: Conn, msg: u16, payload: seq<byte>)
    ensures var r := SendMessage(c, msg, payload);
            r == c.(noise := r.noise, log := r.log) && SameSession(c, r)
  {
  }

  lemma CloseKeeps(h: Hub)
    requires SessionInv(h.conn) && Open(h.conn.socket)
    ensures SessionInv(RequestClose(h).conn)
  {
  }

  lemma InfoShape(h: Hub, payload: Payload)
    ensures var names, r := InfoFrom(Proto.Decode(payload)).subNames, OnDeviceInfo(h, payload).conn;
            && r == h.conn.(names := names, pending := [], state := ListEntities, noise := r.noise, log := r.log)
            && SameSession(h.conn, r)
  {
    hide InfoFrom, SendMessage, WithInfo;
    var names := InfoFrom(Proto.Decode(payload)).subNames;
    SendKeeps(Log(h.conn.(names := names, pending := [], state := ListEntities), Announces(names)),
              LIST_ENTITIES_REQUEST, []);
  }

  lemma DoneShape(h: Hub)
    ensures var r := OnListDone(h).conn;
            r == h.conn.(state := Subscribe, noise := r.noise, log := r.log) && SameSession(h.conn, r)
  {
    hide ApplyDiscovered, SendMessage;
    SendKeeps(Log(h.conn, Applies(h.conn.names, h.conn.pending, h.devs)).(state := Subscribe), SUBSCRIBE_STATES, []);
  }

  lemma MessageKeeps(h: Hub, msg: u16, payload: Payload)
    requires SessionInv(h.conn) && InSession(h.conn.state)
    ensures SessionInv(ProcessMessage(h, msg, payload).conn)
  {
    hide OnDeviceInfo, OnListDone, Announced, SendMessage;
    var c := Log(h.conn, Dispatched(msg, payload));
    if msg == HELLO_RESPONSE {
      SendKeeps(c, DEVICE_INFO_REQUEST, []);
    } else if msg == DEVICE_INFO_RESPONSE {
      InfoShape(h.(conn := c), payload);
    } else if msg == LIST_DONE {
      DoneShape(h.(conn := c));
    } else if msg == DISCONNECT_REQUEST {
      SendKeeps(c, DISCONNECT_RESPONSE, []);
      CloseKeeps(h.(conn := SendMessage(c, DISCONNECT_RESPONSE, [])));
    }
  }

  lemma AnswerKeeps(h: Hub, frame: seq<byte>)
    requires SessionInv(h.conn) && h.conn.state == NoiseHandshake
    ensures SessionInv(OnHandshakeAnswer(h, frame).hub.conn)
  {
    hide SetOnline, HelloPayload, SendMessage, RequestClose;
    CloseKeeps(h);
    if frame != [] && frame[0] == 0 {
      var session := ReadHandshake(h.conn.noise.value, frame[1..]);
      var c := h.conn.(noise := Some(session));
      if session.phase == Complete {
        SendKeeps(c.(state := Ready, handshake := false, ping := true), HELLO_REQUEST, HelloPayload());
      } else {
        CloseKeeps(h.(conn := c));
      }
    }
  }

  lemma SealedKeeps(h: Hub, frame: seq<byte>)
    requires SessionInv(h.conn) && InSession(h.conn.state)
    ensures SessionInv(OnSealedFrame(h, frame).hub.conn)
  {
    hide ProcessMessage, RequestClose, Word, PayloadOf;
    var (session, plain) := Decrypt(h.conn.noise.value, frame);
    var h1 := h.(conn := h.conn.(noise := Some(session)));
    CloseKeeps(h1);
    if |plain| >= 4 {
      MessageKeeps(h1, Word(plain[0], plain[1]), PayloadOf(plain));
    }
  }

  lemma FrameKeeps(h: Hub, frame: seq<byte>)
    requires SessionInv(h.conn) && Open(h.conn.socket)
    ensures SessionInv(HandleFrame(h, frame).hub.conn)
  {
    hide OnHandshakeAnswer, OnSealedFrame, RequestClose, AdoptName;
    if h.conn.state == ServerHello {
      CloseKeeps(h);
    } else if h.conn.state == NoiseHandshake {
      AnswerKeeps(h, frame);
    } else {
      SealedKeeps(h, frame);
    }
  }

  lemma {:induction false} PumpKeeps(h: Hub)
    requires SessionInv(h.conn)
    ensures SessionInv(Pump(h).conn)
    decreases |h.conn.rx|
  {
    hide HandleFrame, RequestClose;
    var rx := h.conn.rx;
    if !Waits(rx) {
      CloseKeeps(h);
      if rx[0] == 1 {
        var n := FrameSize(rx);
        var h1 := h.(conn := h.conn.(rx := rx[n..]));
        FrameKeeps(h1, rx[3..n]);
        if !HandleFrame(h1, rx[3..n]).stop {
          PumpKeeps(HandleFrame(h1, rx[3..n]).hub);
        }
      }
    }
  }

  lemma ConnectKeeps(h: Hub, fails: bool)
    requires SessionInv(h.conn) && h.conn.socket == Unconnected
    ensures SessionInv(ConnectToDevice(h, fails).conn)
  {
    hide Active;
  }

  lemma AbortKeeps(h: Hub)
    requires SessionInv(h.conn.(handshake := Greeting(h.conn.state)))
    requires h.conn.handshake ==> Greeting(h.conn.state)
    ensures SessionInv(Abort(h).conn) && Abort(h).conn.socket == Unconnected
  {
    hide SetOnline, SetOffline, Active;
  }

  /** Every event keeps the session invariant. */
  lemma StepKeepsSession(h: Hub, e: Event)
    requires SessionInv(h.conn)
    ensures SessionInv(Step(h, e).conn)
  {
    hide SetOnline, SetOffline, Active, SendMessage, Pump, Abort, OnReconnectTimer;
    var c := h.conn;
    match e
    case Reads(bytes, deferrals) =>
      if Open(c.socket) {
        PumpKeeps(h.(conn := c.(deferrals := deferrals, rx := c.rx + bytes)));
      }
    case PingTimer => SendKeeps(c, PING_REQUEST, []);
    case ReconnectTimer(fails) => ReconnectKeeps(h.(conn := c.(reconnect := false)), fails);
    case HandshakeTimer =>
      if c.handshake {
        AbortKeeps(h.(conn := c.(handshake := false)));
      }
    case Command(host, id, body) =>
      var msg, payload := CommandSends(h, host, id, body);
      SendKeeps(c, msg, payload);
    case _ =>
  }

  lemma ReconnectKeeps(h: Hub, fails: bool)
    requires SessionInv(h.conn)
    ensures SessionInv(OnReconnectTimer(h, fails).conn)
  {
    hide Abort, Active, ConnectToDevice;
    AbortKeeps(h);
    var h2 := Abort(h).(conn := Abort(h).conn.(reconnect := false, state := Disconnected));
    ConnectKeeps(h2, fails);
  }

  // ---------------------------------------------------------------- what happens to the device list

  lemma TendedDisconnected(h: Hub)
    ensures Tended(h.conn.host, h.devs, OnDisconnected(h).devs) && OnDisconnected(h).conn.host == h.conn.host
  {
    hide SetOnline, SetOffline, Tended, KnownAddresses, Active;
    var host := h.conn.host;
    TendedSelf(host, h.devs);
    TendedOnline(h.devs, host, false);
    TendedOffline(SetOnline(h.devs, host, false), host, h.conn.names);
    TendedTransitive(host, h.devs, SetOnline(h.devs, host, false),
                     SetOffline(SetOnline(h.devs, host, false), KnownAddresses(host, h.conn.names)));
  }

  lemma TendedClose(h: Hub)
    ensures Tended(h.conn.host, h.devs, RequestClose(h).devs) && RequestClose(h).conn.host == h.conn.host
    ensures Tended(h.conn.host, h.devs, Abort(h).devs) && Abort(h).conn.host == h.conn.host
  {
    hide OnDisconnected, Tended;
    TendedSelf(h.conn.host, h.devs);
    TendedDisconnected(h.(conn := Log(h.conn, CloseRequested).(socket := Unconnected)));
    TendedDisconnected(h.(conn := h.conn.(socket := Unconnected)));
  }

  lemma TendedInfo(h: Hub, payload: Payload)
    ensures Tended(h.conn.host, h.devs, OnDeviceInfo(h, payload).devs)
  {
    hide InfoFrom, SendMessage, Tended;
    TendedSelf(h.conn.host, h.devs);
    if Has(h.devs, h.conn.host) {
      TendedPut(h.conn.host, h.devs, WithInfo(Find(h.devs, h.conn.host), InfoFrom(Proto.Decode(payload))));
    }
  }

  lemma TendedMessage(h: Hub, msg: u16, payload: Payload)
    ensures Tended(h.conn.host, h.devs, ProcessMessage(h, msg, payload).devs)
    ensures ProcessMessage(h, msg, payload).conn.host == h.conn.host
  {
    hide OnDeviceInfo, ApplyDiscovered, Announced, SendMessage, Tended, RequestClose;
    TendedSelf(h.conn.host, h.devs);
    var c := Log(h.conn, Dispatched(msg, payload));
    TendedDiscovered(h.devs, c.host, c.names, c.pending);
    TendedInfo(h.(conn := c), payload);
    InfoShape(h.(conn := c), payload);
    DoneShape(h.(conn := c));
    SendKeeps(c, DEVICE_INFO_REQUEST, []);
    SendKeeps(c, DISCONNECT_RESPONSE, []);
    TendedClose(h.(conn := SendMessage(c, DISCONNECT_RESPONSE, [])));
  }

  lemma TendedAdopted(devs: Devs, host: Text, frame: seq<byte>)
    requires frame != []
    ensures Tended(host, devs, AdoptName(devs, host, frame))
  {
    hide Tended, FromUtf8;
    TendedSelf(host, devs);
    if Has(devs, host) && 1 < NameEnd(frame, 1) {
      var name := FromUtf8(frame[1..NameEnd(frame, 1)]);
      TendedPut(host, devs, Find(devs, host).(name := name));
    }
  }

  lemma TendedAnswer(h: Hub, frame: seq<byte>)
    ensures Tended(h.conn.host, h.devs, OnHandshakeAnswer(h, frame).hub.devs)
    ensures OnHandshakeAnswer(h, frame).hub.conn.host == h.conn.host
  {
    hide SetOnline, HelloPayload, SendMessage, RequestClose, Tended;
    TendedSelf(h.conn.host, h.devs);
    TendedOnline(h.devs, h.conn.host, true);
    TendedClose(h);
    if h.conn.noise.Some? && frame != [] {
      var c := h.conn.(noise := Some(ReadHandshake(h.conn.noise.value, frame[1..])));
      TendedClose(h.(conn := c));
      SendKeeps(c.(state := Ready, handshake := false, ping := true), HELLO_REQUEST, HelloPayload());
    }
  }

  lemma TendedSealed(h: Hub, frame: seq<byte>)
    ensures Tended(h.conn.host, h.devs, OnSealedFrame(h, frame).hub.devs)
    ensures OnSealedFrame(h, frame).hub.conn.host == h.conn.host
  {
    hide ProcessMessage, RequestClose, Tended, Word, PayloadOf;
    TendedSelf(h.conn.host, h.devs);
    if h.conn.noise.Some? {
      var (session, plain) := Decrypt(h.conn.noise.value, frame);
      var h1 := h.(conn := h.conn.(noise := Some(session)));
      TendedClose(h1);
      if |plain| >= 4 {
        TendedMessage(h1, Word(plain[0], plain[1]), PayloadOf(plain));
      }
    }
  }

  lemma TendedFrame(h: Hub, frame: seq<byte>)
    ensures Tended(h.conn.host, h.devs, HandleFrame(h, frame).hub.devs)
    ensures HandleFrame(h, frame).hub.conn.host == h.conn.host
  {
    hide OnHandshakeAnswer, OnSealedFrame, AdoptName, RequestClose, Tended;
    TendedSelf(h.conn.host, h.devs);
    TendedClose(h);
    if frame != [] {
      TendedAdopted(h.devs, h.conn.host, frame);
    }
    TendedAnswer(h, frame);
    TendedSealed(h, frame);
  }

  lemma {:induction false} TendedPump(h: Hub)
    ensures Tended(h.conn.host, h.devs, Pump(h).devs) && Pump(h).conn.host == h.conn.host
    decreases |h.conn.rx|
  {
    hide HandleFrame, RequestClose, Tended;
    TendedSelf(h.conn.host, h.devs);
    TendedClose(h);
    var rx := h.conn.rx;
    if !Waits(rx) && rx[0] == 1 {
      var n := FrameSize(rx);
      var h1 := h.(conn := h.conn.(rx := rx[n..]));
      var o := HandleFrame(h1, rx[3..n]);
      TendedFrame(h1, rx[3..n]);
      if !o.stop {
        TendedPump(o.hub);
        TendedTransitive(h.conn.host, h.devs, o.hub.devs, Pump(h).devs);
      }
    }
  }

  /**
   No event of a connection removes a device, changes its identity, its parent or its "active" flag,
   moves a number, or touches another connection's devices at all; new devices are sub-devices of its own.
   */
  lemma StepTended(h: Hub, e: Event)
    ensures Tended(h.conn.host, h.devs, Step(h, e).devs) && Step(h, e).conn.host == h.conn.host
  {
    hide Pump, Abort, OnDisconnected, Tended, SendMessage, Active;
    TendedSelf(h.conn.host, h.devs);
    var c := h.conn;
    match e
    case Drops => TendedDisconnected(h.(conn := c.(socket := Unconnected)));
    case Reads(bytes, deferrals) => TendedPump(h.(conn := c.(deferrals := deferrals, rx := c.rx + bytes)));
    case PingTimer => SendKeeps(c, PING_REQUEST, []);
    case ReconnectTimer(_) => TendedClose(h.(conn := c.(reconnect := false)));
    case HandshakeTimer => TendedClose(h.(conn := c.(handshake := false)));
    case Command(host, id, body) =>
      var msg, payload := CommandSends(h, host, id, body);
      SendKeeps(c, msg, payload);
    case _ =>
  }

  // ---------------------------------------------------------------- never stuck

  /** A connection without a socket will dial again. */
  predicate NotStuck(c: Conn) {
    c.socket == Unconnected ==> c.reconnect
  }

  lemma CloseNotStuck(h: Hub)
    requires Active(h)
    ensures NotStuck(RequestClose(h).conn) && RequestClose(h).conn.host == h.conn.host
    ensures Abort(h).conn.host == h.conn.host
  {
  }

  lemma MessageNotStuck(h: Hub, msg: u16, payload: Payload)
    requires Active(h) && NotStuck(h.conn)
    ensures NotStuck(ProcessMessage(h, msg, payload).conn) && ProcessMessage(h, msg, payload).conn.host == h.conn.host
  {
    hide OnDeviceInfo, OnListDone, Announced, SendMessage, RequestClose, Active;
    var c := Log(h.conn, Dispatched(msg, payload));
    if msg == HELLO_RESPONSE {
      SendKeeps(c, DEVICE_INFO_REQUEST, []);
    } else if msg == DEVICE_INFO_RESPONSE {
      InfoShape(h.(conn := c), payload);
    } else if msg == LIST_DONE {
      DoneShape(h.(conn := c));
    } else if msg == DISCONNECT_REQUEST {
      SendKeeps(c, DISCONNECT_RESPONSE, []);
      ActiveSame(h, h.(conn := SendMessage(c, DISCONNECT_RESPONSE, [])));
      CloseNotStuck(h.(conn := SendMessage(c, DISCONNECT_RESPONSE, [])));
    }
  }

  lemma AnswerNotStuck(h: Hub, frame: seq<byte>)
    requires Active(h) && NotStuck(h.conn)
    ensures NotStuck(OnHandshakeAnswer(h, frame).hub.conn) && OnHandshakeAnswer(h, frame).hub.conn.host == h.conn.host
  {
    hide RequestClose, SendMessage, HelloPayload, SetOnline;
    CloseNotStuck(h);
    if h.conn.noise.Some? && frame != [] {
      var c := h.conn.(noise := Some(ReadHandshake(h.conn.noise.value, frame[1..])));
      CloseNotStuck(h.(conn := c));
      SendKeeps(c.(state := Ready, handshake := false, ping := true), HELLO_REQUEST, HelloPayload());
    }
  }

  lemma SealedNotStuck(h: Hub, frame: seq<byte>)
    requires Active(h) && NotStuck(h.conn)
    ensures NotStuck(OnSealedFrame(h, frame).hub.conn) && OnSealedFrame(h, frame).hub.conn.host == h.conn.host
  {
    hide ProcessMessage, RequestClose, Word, PayloadOf;
    if h.conn.noise.Some? {
      var (session, plain) := Decrypt(h.conn.noise.value, frame);
      var h1 := h.(conn := h.conn.(noise := Some(session)));
      CloseNotStuck(h1);
      if |plain| >= 4 {
        MessageNotStuck(h1, Word(plain[0], plain[1]), PayloadOf(plain));
      }
    }
  }

  lemma FrameNotStuck(h: Hub, frame: seq<byte>)
    requires Active(h) && NotStuck(h.conn)
    ensures NotStuck(HandleFrame(h, frame).hub.conn) && HandleFrame(h, frame).hub.conn.host == h.conn.host
  {
    hide OnHandshakeAnswer, OnSealedFrame, RequestClose, AdoptName;
    CloseNotStuck(h);
    AnswerNotStuck(h, frame);
    SealedNotStuck(h, frame);
  }

  lemma {:induction false} PumpNotStuck(h: Hub)
    requires Active(h) && NotStuck(h.conn)
    ensures NotStuck(Pump(h).conn) && Pump(h).conn.host == h.conn.host
    decreases |h.conn.rx|
  {
    hide HandleFrame, RequestClose;
    CloseNotStuck(h);
    var rx := h.conn.rx;
    if !Waits(rx) && rx[0] == 1 {
      var n := FrameSize(rx);
      var h1 := h.(conn := h.conn.(rx := rx[n..]));
      FrameNotStuck(h1, rx[3..n]);
      TendedFrame(h1, rx[3..n]);
      ActiveKept(h, HandleFrame(h1, rx[3..n]).hub);
      if !HandleFrame(h1, rx[3..n]).stop {
        PumpNotStuck(HandleFrame(h1, rx[3..n]).hub);
      }
    }
  }

  /**
   The connection of an active device is never stuck: whatever happens, once its socket is down the
   reconnect timer is armed (and `SessionInv` arms the handshake timer while a greeting is awaited).
   */
  lemma StepNotStuck(h: Hub, e: Event)
    requires SessionInv(h.conn) && NotStuck(h.conn) && Active(h)
    ensures NotStuck(Step(h, e).conn) && Step(h, e).conn.host == h.conn.host
  {
    hide Pump, OnDisconnected, SendMessage, Abort, Active, OnReconnectTimer;
    var c := h.conn;
    match e
    case Drops =>
      ActiveSame(h, h.(conn := c.(socket := Unconnected)));
      DisconnectedNotStuck(h.(conn := c.(socket := Unconnected)));
    case Reads(bytes, deferrals) =>
      var h1 := h.(conn := c.(deferrals := deferrals, rx := c.rx + bytes));
      ActiveSame(h, h1);
      PumpNotStuck(h1);
    case PingTimer => SendKeeps(c, PING_REQUEST, []);
    case ReconnectTimer(fails) =>
      ActiveSame(h, h.(conn := c.(reconnect := false)));
      ReconnectNotStuck(h.(conn := c.(reconnect := false)), fails);
    case HandshakeTimer =>
      if c.handshake {
        AbortNotStuck(h);
      }
    case Command(host, id, body) =>
      var msg, payload := CommandSends(h, host, id, body);
      SendKeeps(c, msg, payload);
    case DialFails => ActiveSame(h, h.(conn := c.(socket := Unconnected)));
    case _ =>
  }

  lemma ActiveSame(h: Hub, h': Hub)
    requires h.devs == h'.devs && h.conn.host == h'.conn.host
    ensures Active(h) <==> Active(h')
  {
  }

  lemma DisconnectedNotStuck(h: Hub)
    requires Active(h)
    ensures NotStuck(OnDisconnected(h).conn) && OnDisconnected(h).conn.host == h.conn.host
  {
  }

  lemma AbortNotStuck(h: Hub)
    requires Active(h) && SessionInv(h.conn) && h.conn.handshake
    ensures NotStuck(Abort(h.(conn := h.conn.(handshake := false))).conn)
    ensures Abort(h.(conn := h.conn.(handshake := false))).conn.host == h.conn.host
  {
  }

  lemma ReconnectNotStuck(h: Hub, fails: bool)
    requires Active(h) && SessionInv(h.conn)
    ensures NotStuck(OnReconnectTimer(h, fails).conn) && OnReconnectTimer(h, fails).conn.host == h.conn.host
  {
    hide Abort, Active;
    AbortKeeps(h);
    TendedClose(h);
    CloseNotStuck(h);
    ActiveKept(h, Abort(h));
    var h1 := Abort(h);
    var h2 := h1.(conn := h1.conn.(reconnect := false, state := Disconnected));
    ActiveSame(h1, h2);
    ActiveSame(h2, h2.(conn := h2.conn.(state := Dialing, rx := [], socket := Unconnected)));
  }

  lemma ActiveKept(h: Hub, h': Hub)
    requires Active(h) && Tended(h.conn.host, h.devs, h'.devs) && h.conn.host == h'.conn.host
    ensures Active(h')
  {
    FollowsFind(h.devs, h'.devs, h.conn.host);
  }
}
