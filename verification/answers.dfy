/** What a history must answer, and what it may say unasked. */
module Answers {
  import opened Bytes
  import opened Noise
  import opened Devices
  import opened Messages
  import opened Discovery
  import opened Connection
  import opened Lifecycle

  /** The last thing said before `i` was receiving a message of this type, `back` actions before. */
  predicate AskedBefore(log: seq<Action>, i: nat, back: nat, msg: u16)
    requires i < |log|
  {
    i >= back && log[i - back].Dispatched? && log[i - back].msg == msg
  }

  /**
   What stands at `i` has its answer right behind it: a hello asks for device information; that is taken
   over and asks for the entities; the end of their list applies them and asks for states; a request to
   disconnect is confirmed, and the socket asked to close.
   */
  predicate AnsweredAt(log: seq<Action>, i: nat)
    requires i < |log|
  {
    match log[i]
    case Dispatched(msg, payload) =>
      && (msg == 2 ==> i + 1 < |log| && log[i + 1] == Sent(9, []))
      && (msg == 10 ==>
            i + 2 < |log| && log[i + 1] == Announces(InfoFrom(Proto.Decode(payload)).subNames)
            && log[i + 2] == Sent(11, []))
      && (msg == 19 ==> i + 2 < |log| && log[i + 1].Applies? && log[i + 2] == Sent(20, []))
      && (msg == 5 ==>
            i + 3 < |log| && log[i + 1] == Sent(6, []) && log[i + 2].Wrote? && log[i + 3] == CloseRequested)
    case Sent(_, _) => i + 1 < |log| && log[i + 1].Wrote?
    case Opened => i + 1 < |log| && log[i + 1].Wrote?
    case _ => true
  }

  /** What stands at `i` was asked for: these messages are sent, and entities applied, as answers only. */
  predicate PromptedAt(log: seq<Action>, i: nat)
    requires i < |log|
  {
    match log[i]
    case Sent(msg, payload) =>
      && (msg == 9 ==> AskedBefore(log, i, 1, 2)) && (msg == 6 ==> AskedBefore(log, i, 1, 5))
      && (msg == 11 ==> AskedBefore(log, i, 2, 10)) && (msg == 20 ==> AskedBefore(log, i, 2, 19))
      && (msg in {6, 7, 9, 11, 20} ==> payload == []) && (msg == 1 ==> payload == HelloPayload())
      && msg in {1, 6, 7, 9, 11, 20, 30, 32, 33, 48, 51, 54, 60, 62}
    case Wrote(_) => i > 0 && (log[i - 1].Sent? || log[i - 1].Opened?)
    case Announces(_) => AskedBefore(log, i, 1, 10)
    case Applies(_, _, _) => AskedBefore(log, i, 1, 19)
    case _ => true
  }

  /** Everything is answered, and nothing said unasked. */
  predicate Orderly(log: seq<Action>) {
    forall i :: 0 <= i < |log| ==> AnsweredAt(log, i) && PromptedAt(log, i)
  }

  lemma OrderlyConcat(a: seq<Action>, b: seq<Action>)
    requires Orderly(a) && Orderly(b)
    ensures Orderly(a + b)
  {
    hide InfoFrom, HelloPayload;
    var log := a + b;
    forall i | 0 <= i < |log|
      ensures AnsweredAt(log, i) && PromptedAt(log, i)
    {
      if i < |a| {
        assert AnsweredAt(a, i) && PromptedAt(a, i);
      } else {
        var k := i - |a|;
        assert AnsweredAt(b, k) && PromptedAt(b, k);
        assert forall j :: 0 <= j < |b| ==> log[|a| + j] == b[j];
      }
    }
  }

  // ---------------------------------------------------------------- what every event adds

  /** `b` is `a` and an orderly history. */
  predicate Adds(a: seq<Action>, b: seq<Action>) {
    a <= b && Orderly(b[|a|..])
  }

  lemma AddsTransitive(a: seq<Action>, b: seq<Action>, c: seq<Action>)
    requires Adds(a, b) && Adds(b, c)
    ensures Adds(a, c)
  {
    hide Orderly;
    assert c[|a|..] == b[|a|..] + c[|b|..];
    OrderlyConcat(b[|a|..], c[|b|..]);
  }

  lemma AddsNothing(a: seq<Action>)
    ensures Adds(a, a)
  {
  }

  /** Sending on a complete session. */
  lemma SendAdds(c: Conn, msg: u16, payload: seq<byte>) returns (w: Action)
    requires c.noise.Some? && c.noise.value.phase == Complete
    ensures SendMessage(c, msg, payload).log == c.log + [Sent(msg, payload), w] && w.Wrote?
  {
    hide Frame, Inner, Encrypt;
    w := Wrote(Frame(Encrypt(c.noise.value, Inner(msg, payload)).1));
  }

  /** Messages that are no answers. */
  lemma SendAlone(c: Conn, msg: u16, payload: seq<byte>)
    requires msg in {1, 7} || IsCommand(msg)
    requires (msg == 7 ==> payload == []) && (msg == 1 ==> payload == HelloPayload())
    ensures Adds(c.log, SendMessage(c, msg, payload).log)
  {
    hide HelloPayload, SendMessage;
    if c.noise.Some? && c.noise.value.phase == Complete {
      var w := SendAdds(c, msg, payload);
      var log := SendMessage(c, msg, payload).log;
      assert log[|c.log|..] == [Sent(msg, payload), w];
    } else {
      SilentSend(c, msg, payload);
    }
  }

  lemma SilentSend(c: Conn, msg: u16, payload: seq<byte>)
    requires c.noise.None? || c.noise.value.phase != Complete
    ensures SendMessage(c, msg, payload) == c
  {
  }

  lemma ClosedAdds(h: Hub)
    ensures Adds(h.conn.log, OnDisconnected(h).conn.log)
  {
    hide SetOnline, SetOffline, Active;
    assert OnDisconnected(h).conn.log[|h.conn.log|..] == [Closed];
  }

  lemma CloseAdds(h: Hub)
    ensures Adds(h.conn.log, RequestClose(h).conn.log) && Adds(h.conn.log, Abort(h).conn.log)
    ensures CloseRequested == RequestClose(h).conn.log[|h.conn.log|]
  {
    hide OnDisconnected;
    var c := Log(h.conn, CloseRequested);
    assert c.log[|h.conn.log|..] == [CloseRequested];
    ClosedAdds(h.(conn := c.(socket := Unconnected)));
    ClosedAdds(h.(conn := h.conn.(socket := Unconnected)));
    AddsNothing(h.conn.log);
    if c.deferrals == 0 {
      AddsTransitive(h.conn.log, c.log, RequestClose(h).conn.log);
    }
  }

  lemma HelloAnswered(c: Conn, payload: Payload)
    requires c.noise.Some? && c.noise.value.phase == Complete
    ensures Adds(c.log, SendMessage(Log(c, Dispatched(2, payload)), 9, []).log)
  {
    hide SendMessage, Orderly;
    var c1 := Log(c, Dispatched(2, payload));
    var w := SendAdds(c1, 9, []);
    assert SendMessage(c1, 9, []).log[|c.log|..] == [Dispatched(2, payload), Sent(9, []), w];
    HelloBlock(payload, w);
  }

  lemma HelloBlock(payload: Payload, w: Action)
    requires w.Wrote?
    ensures Orderly([Dispatched(2, payload), Sent(9, []), w])
  {
  }

  lemma InfoAnswered(h: Hub, payload: Payload)
    requires h.conn.noise.Some? && h.conn.noise.value.phase == Complete
    ensures Adds(h.conn.log, OnDeviceInfo(h.(conn := Log(h.conn, Dispatched(10, payload))), payload).conn.log)
  {
    hide SendMessage, InfoFrom, WithInfo, Orderly;
    var names := InfoFrom(Proto.Decode(payload)).subNames;
    var c1 := Log(h.conn, Dispatched(10, payload));
    var c2 := Log(c1.(names := names, pending := [], state := ListEntities), Announces(names));
    var w := SendAdds(c2, 11, []);
    assert SendMessage(c2, 11, []).log[|h.conn.log|..] ==
           [Dispatched(10, payload), Announces(names), Sent(11, []), w];
    InfoBlock(payload, names, w);
  }

  lemma InfoBlock(payload: Payload, names: Names, w: Action)
    requires names == InfoFrom(Proto.Decode(payload)).subNames && w.Wrote?
    ensures Orderly([Dispatched(10, payload), Announces(names), Sent(11, []), w])
  {
    hide InfoFrom;
  }

  lemma DoneAnswered(h: Hub, payload: Payload)
    requires h.conn.noise.Some? && h.conn.noise.value.phase == Complete
    ensures Adds(h.conn.log, OnListDone(h.(conn := Log(h.conn, Dispatched(19, payload)))).conn.log)
  {
    hide SendMessage, ApplyDiscovered, Orderly;
    var a := Applies(h.conn.names, h.conn.pending, h.devs);
    var c2 := Log(Log(h.conn, Dispatched(19, payload)), a).(state := Subscribe);
    var w := SendAdds(c2, 20, []);
    assert SendMessage(c2, 20, []).log[|h.conn.log|..] == [Dispatched(19, payload), a, Sent(20, []), w];
    DoneBlock(payload, a, w);
  }

  lemma DoneBlock(payload: Payload, a: Action, w: Action)
    requires a.Applies? && w.Wrote?
    ensures Orderly([Dispatched(19, payload), a, Sent(20, []), w])
  {
  }

  lemma LeaveAnswered(h: Hub, payload: Payload)
    requires h.conn.noise.Some? && h.conn.noise.value.phase == Complete
    ensures var h1 := h.(conn := SendMessage(Log(h.conn, Dispatched(5, payload)), 6, []));
            Adds(h.conn.log, RequestClose(h1).conn.log)
  {
    hide SendMessage, OnDisconnected, Orderly;
    var c1 := Log(h.conn, Dispatched(5, payload));
    var w := SendAdds(c1, 6, []);
    var c2 := Log(SendMessage(c1, 6, []), CloseRequested);
    assert c2.log[|h.conn.log|..] == [Dispatched(5, payload), Sent(6, []), w, CloseRequested];
    LeaveBlock(payload, w);
    if c2.deferrals == 0 {
      ClosedAdds(h.(conn := c2.(socket := Unconnected)));
      AddsTransitive(h.conn.log, c2.log, OnDisconnected(h.(conn := c2.(socket := Unconnected))).conn.log);
    }
  }

  lemma LeaveBlock(payload: Payload, w: Action)
    requires w.Wrote?
    ensures Orderly([Dispatched(5, payload), Sent(6, []), w, CloseRequested])
  {
  }

  lemma MessageAnswered(h: Hub, msg: u16, payload: Payload)
    requires h.conn.noise.Some? && h.conn.noise.value.phase == Complete
    ensures Adds(h.conn.log, ProcessMessage(h, msg, payload).conn.log)
  {
    hide OnDeviceInfo, OnListDone, Announced, SendMessage, RequestClose;
    if msg == 2 {
      HelloAnswered(h.conn, payload);
    } else if msg == 10 {
      InfoAnswered(h, payload);
    } else if msg == 19 {
      DoneAnswered(h, payload);
    } else if msg == 5 {
      LeaveAnswered(h, payload);
    } else {
      assert (h.conn.log + [Dispatched(msg, payload)])[|h.conn.log|..] == [Dispatched(msg, payload)];
    }
  }

  lemma SealedAnswered(h: Hub, frame: seq<byte>)
    requires SessionInv(h.conn) && InSession(h.conn.state)
    ensures Adds(h.conn.log, OnSealedFrame(h, frame).hub.conn.log)
  {
    hide ProcessMessage, RequestClose, Word, PayloadOf, Adds;
    var (session, plain) := Decrypt(h.conn.noise.value, frame);
    var h1 := h.(conn := h.conn.(noise := Some(session)));
    CloseAdds(h1);
    AddsNothing(h.conn.log);
    if |plain| >= 4 {
      MessageAnswered(h1, Word(plain[0], plain[1]), PayloadOf(plain));
    }
  }

  lemma HandshakeAnswered(h: Hub, frame: seq<byte>)
    ensures Adds(h.conn.log, OnHandshakeAnswer(h, frame).hub.conn.log)
  {
    hide RequestClose, SendMessage, HelloPayload, SetOnline, Adds;
    CloseAdds(h);
    AddsNothing(h.conn.log);
    if h.conn.noise.Some? && frame != [] {
      var c := h.conn.(noise := Some(ReadHandshake(h.conn.noise.value, frame[1..])));
      CloseAdds(h.(conn := c));
      SendAlone(c.(state := Ready, handshake := false, ping := true), HELLO_REQUEST, HelloPayload());
    }
  }

  lemma FrameAnswered(h: Hub, frame: seq<byte>)
    requires SessionInv(h.conn)
    ensures Adds(h.conn.log, HandleFrame(h, frame).hub.conn.log)
  {
    hide OnHandshakeAnswer, OnSealedFrame, RequestClose, AdoptName, Adds, SessionInv;
    CloseAdds(h);
    AddsNothing(h.conn.log);
    if h.conn.state == NoiseHandshake {
      HandshakeAnswered(h, frame);
    } else if InSession(h.conn.state) {
      SealedAnswered(h, frame);
    }
  }

  lemma {:induction false} PumpAnswered(h: Hub)
    requires SessionInv(h.conn)
    ensures Adds(h.conn.log, Pump(h).conn.log)
    decreases |h.conn.rx|
  {
    hide HandleFrame, RequestClose, Adds;
    AddsNothing(h.conn.log);
    CloseAdds(h);
    var rx := h.conn.rx;
    if !Waits(rx) && rx[0] == 1 {
      var n := FrameSize(rx);
      var h1 := h.(conn := h.conn.(rx := rx[n..]));
      var o := HandleFrame(h1, rx[3..n]);
      FrameAnswered(h1, rx[3..n]);
      FrameKeeps(h1, rx[3..n]);
      if !o.stop {
        PumpAnswered(o.hub);
        AddsTransitive(h.conn.log, o.hub.conn.log, Pump(h).conn.log);
      }
    }
  }

  lemma OpenedAdds(h: Hub, keys: Keys)
    ensures Adds(h.conn.log, OnConnected(h, keys).conn.log)
  {
    hide Frame, WriteHandshake;
    var w := Wrote(Frame([]) + Frame([0] + WriteHandshake(Begin(keys)).1));
    assert OnConnected(h, keys).conn.log[|h.conn.log|..] == [Opened, w];
  }

  lemma ReconnectAdds(h: Hub, fails: bool)
    ensures Adds(h.conn.log, OnReconnectTimer(h, fails).conn.log)
  {
    hide Abort, Active, Adds;
    CloseAdds(h);
  }

  /** Every event adds an orderly history: all messages it takes in are answered, and nothing else is. */
  lemma StepAnswers(h: Hub, e: Event)
    requires SessionInv(h.conn)
    ensures Adds(h.conn.log, Step(h, e).conn.log)
    ensures Orderly(h.conn.log) ==> Orderly(Step(h, e).conn.log)
  {
    hide Step, Orderly;
    EventAdds(h, e);
    var log, log' := h.conn.log, Step(h, e).conn.log;
    if Orderly(log) {
      assert log' == log + log'[|log|..];
      OrderlyConcat(log, log'[|log|..]);
    }
  }

  lemma EventAdds(h: Hub, e: Event)
    requires SessionInv(h.conn)
    ensures Adds(h.conn.log, Step(h, e).conn.log)
  {
    hide OnConnected, OnDisconnected, SendMessage, Pump, Abort, OnReconnectTimer, Active, SendCommand, Adds;
    var c := h.conn;
    AddsNothing(c.log);
    match e
    case Connects(keys) => OpenedAdds(h, keys);
    case Drops => ClosedAdds(h.(conn := c.(socket := Unconnected)));
    case Reads(bytes, deferrals) =>
      if Open(c.socket) {
        PumpAnswered(h.(conn := c.(deferrals := deferrals, rx := c.rx + bytes)));
      }
    case PingTimer => SendAlone(c, PING_REQUEST, []);
    case ReconnectTimer(fails) => ReconnectAdds(h.(conn := c.(reconnect := false)), fails);
    case HandshakeTimer => CloseAdds(h.(conn := c.(handshake := false)));
    case Command(host, id, body) =>
      var msg, payload := CommandSends(h, host, id, body);
      if SendCommand(h, host, id, body) != h {
        SendAlone(c, msg, payload);
      }
    case _ =>
  }
}
