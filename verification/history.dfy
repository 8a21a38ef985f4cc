/** What the history of a connection says about its commands, and about the entities it applies. */
module History {
  import opened Bytes
  import opened Noise
  import opened Devices
  import opened Messages
  import opened Discovery
  import opened Connection
  import opened Lifecycle

  /** A ListEntitiesDone has been dispatched on the connection that is open now. */
  function Discovered(log: seq<Action>): bool {
    if log == [] then false
    else
      match log[|log| - 1]
      case Opened => false
      case Closed => false
      case Dispatched(msg, _) => msg == LIST_DONE || Discovered(log[..|log| - 1])
      case _ => Discovered(log[..|log| - 1])
  }

  /** The entities with a key announced since the last DeviceInfoResponse, in order. */
  function Collected(log: seq<Action>): seq<EntityInfo> {
    if log == [] then []
    else
      var front := log[..|log| - 1];
      match log[|log| - 1]
      case Dispatched(msg, payload) =>
        if msg == DEVICE_INFO_RESPONSE then []
        else if IsEntityMessage(msg) then Collected(front) + Announced(msg, payload)
        else Collected(front)
      case _ => Collected(front)
  }

  /** The sub-devices announced last. */
  function AnnouncedNames(log: seq<Action>): Names {
    if log == [] then map[]
    else if log[|log| - 1].Announces? then log[|log| - 1].names
    else AnnouncedNames(log[..|log| - 1])
  }

  /** What must have happened before an action. */
  predicate Justified(a: Action, before: seq<Action>) {
    match a
    case Sent(msg, _) => IsCommand(msg) ==> Discovered(before)
    case Applies(names, entities, _) => entities == Collected(before) && names == AnnouncedNames(before)
    case _ => true
  }

  /**
   Every command was sent after a ListEntitiesDone on its own connection, and every round applied
   exactly the entities collected since the last DeviceInfoResponse; the fields agree with the history.
   */
  predicate HistoryInv(c: Conn) {
    && (c.state == Subscribe ==> Discovered(c.log))
    && c.pending == Collected(c.log) && c.names == AnnouncedNames(c.log)
    && forall i :: 0 <= i < |c.log| ==> Justified(c.log[i], c.log[..i])
  }

  /** The part of the invariant that is about the history alone. */
  predicate AllJustified(log: seq<Action>) {
    forall i :: 0 <= i < |log| ==> Justified(log[i], log[..i])
  }

  lemma LogJustified(log: seq<Action>, a: Action)
    requires AllJustified(log) && Justified(a, log)
    ensures AllJustified(log + [a])
  {
    hide Justified;
    forall i | 0 <= i < |log + [a]|
      ensures Justified((log + [a])[i], (log + [a])[..i])
    {
      if i < |log| {
        assert (log + [a])[..i] == log[..i];
      } else {
        assert (log + [a])[..i] == log;
      }
    }
  }

  /** Actions that say nothing about discovery. */
  predicate Neutral(a: Action) {
    a.Wrote? || a.Sent? || a.CloseRequested? || a.Applies?
    || (a.Dispatched? && a.msg != LIST_DONE && a.msg != DEVICE_INFO_RESPONSE && !IsEntityMessage(a.msg))
  }

  lemma NeutralKeeps(log: seq<Action>, a: Action)
    requires Neutral(a)
    ensures Discovered(log + [a]) == Discovered(log) && Collected(log + [a]) == Collected(log)
    ensures AnnouncedNames(log + [a]) == AnnouncedNames(log)
  {
    assert (log + [a])[..|log|] == log;
  }

  lemma NeutralLogged(c: Conn, a: Action)
    requires HistoryInv(c) && Neutral(a) && Justified(a, c.log)
    ensures HistoryInv(Log(c, a))
  {
    hide Discovered, Collected, AnnouncedNames, Justified;
    NeutralKeeps(c.log, a);
    LogJustified(c.log, a);
  }

  lemma SendHistory(c: Conn, msg: u16, payload: seq<byte>)
    requires HistoryInv(c) && (IsCommand(msg) ==> Discovered(c.log))
    ensures HistoryInv(SendMessage(c, msg, payload))
  {
    hide HistoryInv, Inner, Frame, Discovered;
    if c.noise.Some? && c.noise.value.phase == Complete {
      var e := Encrypt(c.noise.value, Inner(msg, payload));
      var c1 := c.(noise := Some(e.0));
      SameHistory(c, c1);
      NeutralLogged(c1, Sent(msg, payload));
      NeutralLogged(Log(c1, Sent(msg, payload)), Wrote(Frame(e.1)));
    }
  }

  lemma SameHistory(c: Conn, r: Conn)
    requires HistoryInv(c) && r.log == c.log && r.pending == c.pending && r.names == c.names
    requires r.state == Subscribe ==> c.state == Subscribe
    ensures HistoryInv(r)
  {
  }

  lemma ClosedHistory(h: Hub)
    requires HistoryInv(h.conn)
    ensures HistoryInv(OnDisconnected(h).conn)
  {
    hide SetOnline, SetOffline, Active;
    var log := h.conn.log;
    LogJustified(log, Closed);
    assert (log + [Closed])[..|log|] == log;
  }

  lemma CloseHistory(h: Hub)
    requires HistoryInv(h.conn)
    ensures HistoryInv(RequestClose(h).conn) && HistoryInv(Abort(h).conn)
  {
    hide HistoryInv, OnDisconnected;
    var c := Log(h.conn, CloseRequested);
    NeutralLogged(h.conn, CloseRequested);
    SameHistory(c, c.(socket := Unconnected));
    SameHistory(h.conn, h.conn.(socket := Unconnected));
    ClosedHistory(h.(conn := c.(socket := Unconnected)));
    ClosedHistory(h.(conn := h.conn.(socket := Unconnected)));
    if c.deferrals > 0 {
      SameHistory(c, c.(socket := Closing, deferrals := c.deferrals - 1));
    }
  }

  lemma InfoHistory(h: Hub, payload: Payload)
    requires HistoryInv(h.conn)
    ensures HistoryInv(OnDeviceInfo(h.(conn := Log(h.conn, Dispatched(DEVICE_INFO_RESPONSE, payload))), payload).conn)
  {
    hide InfoFrom, SendMessage, WithInfo, Justified;
    var names := InfoFrom(Proto.Decode(payload)).subNames;
    var d := Dispatched(DEVICE_INFO_RESPONSE, payload);
    var log := h.conn.log + [d];
    assert log[..|h.conn.log|] == h.conn.log && (log + [Announces(names)])[..|log|] == log;
    AlwaysJustified(d, h.conn.log);
    AlwaysJustified(Announces(names), log);
    LogJustified(h.conn.log, d);
    LogJustified(log, Announces(names));
    var c := Log(Log(h.conn, d).(names := names, pending := [], state := ListEntities), Announces(names));
    assert c.log == log + [Announces(names)] && Collected(log) == [];
    assert AnnouncedNames(c.log) == names && Collected(c.log) == Collected(log);
    SendHistory(c, LIST_ENTITIES_REQUEST, []);
  }

  lemma AlwaysJustified(a: Action, before: seq<Action>)
    requires !a.Sent? && !a.Applies?
    ensures Justified(a, before)
  {
  }

  lemma DoneHistory(h: Hub, payload: Payload)
    requires HistoryInv(h.conn)
    ensures HistoryInv(OnListDone(h.(conn := Log(h.conn, Dispatched(LIST_DONE, payload)))).conn)
  {
    hide ApplyDiscovered, SendMessage;
    var d := Dispatched(LIST_DONE, payload);
    var log := h.conn.log + [d];
    assert log[..|h.conn.log|] == h.conn.log;
    LogJustified(h.conn.log, d);
    var a := Applies(h.conn.names, h.conn.pending, h.devs);
    LogJustified(log, a);
    NeutralKeeps(log, a);
    SendHistory(Log(Log(h.conn, d), a).(state := Subscribe), SUBSCRIBE_STATES, []);
  }

  lemma EntityHistory(c: Conn, msg: u16, payload: Payload)
    requires HistoryInv(c) && IsEntityMessage(msg)
    ensures HistoryInv(Log(c, Dispatched(msg, payload)).(pending := c.pending + Announced(msg, payload)))
  {
    hide Announced;
    var d := Dispatched(msg, payload);
    assert (c.log + [d])[..|c.log|] == c.log;
    LogJustified(c.log, d);
  }

  lemma MessageHistory(h: Hub, msg: u16, payload: Payload)
    requires HistoryInv(h.conn)
    ensures HistoryInv(ProcessMessage(h, msg, payload).conn)
  {
    hide HistoryInv, OnDeviceInfo, OnListDone, Announced, SendMessage, RequestClose;
    if msg == DEVICE_INFO_RESPONSE {
      InfoHistory(h, payload);
    } else if msg == LIST_DONE {
      DoneHistory(h, payload);
    } else if IsEntityMessage(msg) {
      EntityHistory(h.conn, msg, payload);
    } else {
      var c := Log(h.conn, Dispatched(msg, payload));
      NeutralLogged(h.conn, Dispatched(msg, payload));
      SendHistory(c, DEVICE_INFO_REQUEST, []);
      SendHistory(c, DISCONNECT_RESPONSE, []);
      CloseHistory(h.(conn := SendMessage(c, DISCONNECT_RESPONSE, [])));
    }
  }

  lemma FrameHistory(h: Hub, frame: seq<byte>)
    requires HistoryInv(h.conn)
    ensures HistoryInv(HandleFrame(h, frame).hub.conn)
  {
    hide HistoryInv, OnHandshakeAnswer, OnPlain, RequestClose, AdoptName, Decrypt;
    CloseHistory(h);
    SameHistory(h.conn, h.conn.(state := NoiseHandshake));
    AnswerHistory(h, frame);
    if h.conn.noise.Some? {
      var r := Decrypt(h.conn.noise.value, frame);
      var h1 := h.(conn := h.conn.(noise := Some(r.0)));
      SameHistory(h.conn, h1.conn);
      PlainHistory(h1, r.1);
    }
  }

  lemma PlainHistory(h: Hub, plain: seq<byte>)
    requires HistoryInv(h.conn)
    ensures HistoryInv(OnPlain(h, plain).hub.conn)
  {
    hide HistoryInv, ProcessMessage, RequestClose, Word, PayloadOf;
    CloseHistory(h);
    if |plain| >= 4 {
      MessageHistory(h, Word(plain[0], plain[1]), PayloadOf(plain));
    }
  }

  lemma AnswerHistory(h: Hub, frame: seq<byte>)
    requires HistoryInv(h.conn)
    ensures HistoryInv(OnHandshakeAnswer(h, frame).hub.conn)
  {
    hide HistoryInv, RequestClose, SendMessage, SetOnline, HelloPayload, Discovered;
    CloseHistory(h);
    if h.conn.noise.Some? && frame != [] {
      var c := h.conn.(noise := Some(ReadHandshake(h.conn.noise.value, frame[1..])));
      SameHistory(h.conn, c);
      CloseHistory(h.(conn := c));
      SameHistory(c, c.(state := Ready, handshake := false, ping := true));
      SendHistory(c.(state := Ready, handshake := false, ping := true), HELLO_REQUEST, HelloPayload());
    }
  }

  lemma {:induction false} PumpHistory(h: Hub)
    requires HistoryInv(h.conn)
    ensures HistoryInv(Pump(h).conn)
    decreases |h.conn.rx|
  {
    hide HistoryInv, HandleFrame, RequestClose;
    CloseHistory(h);
    var rx := h.conn.rx;
    if !Waits(rx) && rx[0] == 1 {
      var n := FrameSize(rx);
      var h1 := h.(conn := h.conn.(rx := rx[n..]));
      SameHistory(h.conn, h1.conn);
      FrameHistory(h1, rx[3..n]);
      if !HandleFrame(h1, rx[3..n]).stop {
        PumpHistory(HandleFrame(h1, rx[3..n]).hub);
      }
    }
  }

  lemma OpenedHistory(h: Hub, keys: Keys)
    requires HistoryInv(h.conn)
    ensures HistoryInv(OnConnected(h, keys).conn)
  {
    hide Frame, WriteHandshake;
    var c := h.conn;
    var (session, message) := WriteHandshake(Begin(keys));
    LogJustified(c.log, Opened);
    LogJustified(c.log + [Opened], Wrote(Frame([]) + Frame([0] + message)));
    assert (c.log + [Opened])[..|c.log|] == c.log;
    NeutralKeeps(c.log + [Opened], Wrote(Frame([]) + Frame([0] + message)));
  }

  lemma ReconnectHistory(h: Hub, fails: bool)
    requires HistoryInv(h.conn)
    ensures HistoryInv(OnReconnectTimer(h, fails).conn)
  {
    hide HistoryInv, Abort, Active;
    CloseHistory(h);
    SameHistory(Abort(h).conn, OnReconnectTimer(h, fails).conn);
  }

  /** Every event keeps the history invariant. */
  lemma StepHistory(h: Hub, e: Event)
    requires HistoryInv(h.conn)
    ensures HistoryInv(Step(h, e).conn)
  {
    hide HistoryInv, Discovered, OnConnected, OnDisconnected, SendMessage, Pump, Abort, OnReconnectTimer, Active;
    var c := h.conn;
    match e
    case Connects(keys) => OpenedHistory(h, keys);
    case DialFails => SameHistory(c, Step(h, e).conn);
    case Fails => SameHistory(c, Step(h, e).conn);
    case Drops =>
      SameHistory(c, c.(socket := Unconnected));
      ClosedHistory(h.(conn := c.(socket := Unconnected)));
    case Reads(bytes, deferrals) =>
      SameHistory(c, c.(deferrals := deferrals, rx := c.rx + bytes));
      PumpHistory(h.(conn := c.(deferrals := deferrals, rx := c.rx + bytes)));
    case PingTimer => SendHistory(c, PING_REQUEST, []);
    case ReconnectTimer(fails) =>
      SameHistory(c, c.(reconnect := false));
      ReconnectHistory(h.(conn := c.(reconnect := false)), fails);
    case HandshakeTimer =>
      SameHistory(c, c.(handshake := false));
      CloseHistory(h.(conn := c.(handshake := false)));
    case Command(host, id, body) =>
      var msg, payload := CommandSends(h, host, id, body);
      if c.state == Subscribe {
        SubscribedDiscovered(c);
        SendHistory(c, msg, payload);
      }
  }

  lemma SubscribedDiscovered(c: Conn)
    requires HistoryInv(c) && c.state == Subscribe
    ensures Discovered(c.log)
  {
  }
}
