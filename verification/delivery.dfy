/** From `sendMessage` on one side to `processMessage` on the other, over any cutting of the stream. */
module Delivery {
  import opened Bytes
  import opened Noise
  import opened Messages
  import opened Discovery
  import opened Connection
  import opened Lifecycle
  import opened Chunks

  datatype Msg = Msg(msg: u16, payload: seq<byte>)

  // ---------------------------------------------------------------- the sender

  /** The bytes a session writes for a row of messages. */
  function Sealed(s: Session, msgs: seq<Msg>): seq<byte>
    decreases |msgs|
  {
    if msgs == [] then []
    else
      var r := Encrypt(s, Inner(msgs[0].msg, msgs[0].payload));
      Frame(r.1) + Sealed(r.0, msgs[1..])
  }

  function SendAll(c: Conn, msgs: seq<Msg>): (r: Conn)
    ensures c.log <= r.log
    decreases |msgs|
  {
    if msgs == [] then c else SendAll(SendMessage(c, msgs[0].msg, msgs[0].payload), msgs[1..])
  }

  /** All bytes written in a history. */
  function Written(s: seq<Action>): seq<byte> {
    if s == [] then []
    else (if s[0].Wrote? then s[0].bytes else []) + Written(s[1..])
  }

  lemma {:induction false} WrittenConcat(a: seq<Action>, b: seq<Action>)
    ensures Written(a + b) == Written(a) + Written(b)
  {
    if a == [] {
      assert a + b == b;
    } else {
      assert (a + b)[1..] == a[1..] + b;
      WrittenConcat(a[1..], b);
    }
  }

  lemma SendWrites(c: Conn, msg: u16, payload: seq<byte>)
    requires c.noise.Some? && c.noise.value.phase == Complete
    ensures var r, e := SendMessage(c, msg, payload), Encrypt(c.noise.value, Inner(msg, payload));
            r.noise == Some(e.0) && r.log == c.log + [Sent(msg, payload), Wrote(Frame(e.1))]
            && Written([Sent(msg, payload), Wrote(Frame(e.1))]) == Frame(e.1)
  {
    hide Encrypt, Inner, Frame;
    var r, e := SendMessage(c, msg, payload), Encrypt(c.noise.value, Inner(msg, payload));
    assert r.log == c.log + [Sent(msg, payload)] + [Wrote(Frame(e.1))];
    var w: seq<Action> := [Wrote(Frame(e.1))];
    assert [Sent(msg, payload), Wrote(Frame(e.1))][1..] == w && w[1..] == [];
    assert Written(w) == Frame(e.1) + Written([]) == Frame(e.1);
  }

  /** `sendMessage` on a complete session writes exactly the sealed messages. */
  lemma {:induction false} SendAllWrites(c: Conn, msgs: seq<Msg>)
    requires c.noise.Some? && c.noise.value.phase == Complete
    ensures Written(SendAll(c, msgs).log[|c.log|..]) == Sealed(c.noise.value, msgs)
    decreases |msgs|
  {
    hide SendMessage, Frame, Inner;
    if msgs != [] {
      var m := msgs[0];
      var c1 := SendMessage(c, m.msg, m.payload);
      var e := Encrypt(c.noise.value, Inner(m.msg, m.payload));
      SendWrites(c, m.msg, m.payload);
      SendAllWrites(c1, msgs[1..]);
      var last := SendAll(c, msgs).log;
      assert last[|c.log|..] == [Sent(m.msg, m.payload), Wrote(Frame(e.1))] + last[|c1.log|..];
      WrittenConcat([Sent(m.msg, m.payload), Wrote(Frame(e.1))], last[|c1.log|..]);
    }
  }

  // ---------------------------------------------------------------- the receiver

  /** The messages dispatched in a history. */
  function Dispatches(s: seq<Action>): seq<Msg> {
    if s == [] then []
    else DispatchOf(s[0]) + Dispatches(s[1..])
  }

  function DispatchOf(a: Action): seq<Msg> {
    if a.Dispatched? then [Msg(a.msg, a.payload)] else []
  }

  lemma {:induction false} DispatchesConcat(a: seq<Action>, b: seq<Action>)
    ensures Dispatches(a + b) == Dispatches(a) + Dispatches(b)
  {
    hide DispatchOf;
    if a == [] {
      assert a + b == b;
    } else {
      assert (a + b)[1..] == a[1..] + b;
      DispatchesConcat(a[1..], b);
    }
  }

  predicate NoDispatch(s: seq<Action>) {
    forall a :: a in s ==> !a.Dispatched?
  }

  lemma {:induction false} NoDispatchNone(s: seq<Action>)
    requires NoDispatch(s)
    ensures Dispatches(s) == [] && NoDispatch(Cut(s)) && Dispatches(Cut(s)) == []
  {
    if s != [] {
      assert s == [s[0]] + s[1..];
      NoDispatchNone(s[1..]);
      CutConcat([s[0]], s[1..]);
      assert Cut(s) == if s[0] == CloseRequested then [s[0]] else [s[0]] + Cut(s[1..]);
      DispatchesConcat([s[0]], Cut(s[1..]));
    }
  }

  /** Largest payload that is delivered: 4 bytes of header and 16 of tag go with it into a 16-bit length. */
  const MAX_PAYLOAD := 65515

  /** The messages that arrive: up to the first that is too long, and up to a DisconnectRequest. */
  function Deliverable(msgs: seq<Msg>): seq<Msg> {
    if msgs == [] || |msgs[0].payload| > MAX_PAYLOAD then []
    else if msgs[0].msg == DISCONNECT_REQUEST then [msgs[0]]
    else [msgs[0]] + Deliverable(msgs[1..])
  }

  /** All messages arrive exactly when none is too long and only the last may be a DisconnectRequest. */
  lemma {:induction false} AllDeliverableIff(msgs: seq<Msg>)
    ensures Deliverable(msgs) == msgs <==>
            && (forall i :: 0 <= i < |msgs| ==> |msgs[i].payload| <= MAX_PAYLOAD)
            && (forall i :: 0 <= i < |msgs| - 1 ==> msgs[i].msg != DISCONNECT_REQUEST)
    decreases |msgs|
  {
    if msgs != [] {
      var rest := msgs[1..];
      AllDeliverableIff(rest);
      assert msgs == [msgs[0]] + rest;
      assert forall i :: 0 < i < |msgs| ==> msgs[i] == rest[i - 1];
      assert forall i :: 0 <= i < |rest| ==> rest[i] == msgs[i + 1];
    }
  }

  /** The receiver decrypts what the sender's session encrypts next. */
  ghost predicate InStep(h: Hub, s: Session) {
    && SessionInv(h.conn) && InSession(h.conn.state)
    && s.phase == Complete && Sound(s.keys.send)
    && h.conn.noise.value.keys.receive == s.keys.send
    && h.conn.noise.value.received == s.sent
  }

  lemma ReadBackInner(msg: u16, payload: seq<byte>)
    requires |payload| <= MAX_PAYLOAD
    ensures var p := Inner(msg, payload);
            |p| == |payload| + 4 && Word(p[0], p[1]) == msg && PayloadOf(p) == payload
  {
    hide Hi, Lo, Word;
    var p := Inner(msg, payload);
    WordOf(msg);
    WordOf(|payload|);
    assert p[4..4 + |payload|] == payload;
  }

  lemma WordOf(n: u16)
    ensures Word(Hi(n), Lo(n)) == n
  {
  }

  lemma FrameHead(body: seq<byte>, t: seq<byte>)
    requires |body| <= 0xFFFF
    ensures var rx := Frame(body) + t;
            !Waits(rx) && rx[0] == 1 && FrameSize(rx) == 3 + |body|
            && rx[3..3 + |body|] == body && rx[3 + |body|..] == t
  {
    var rx := Frame(body) + t;
    assert rx[1] == Hi(|body|) && rx[2] == Lo(|body|);
    assert Word(rx[1], rx[2]) == |body|;
  }

  /** Nothing dispatched and no close asked for between two histories. */
  predicate Plainly(a: seq<Action>, b: seq<Action>) {
    a <= b && NoDispatch(b[|a|..]) && CloseRequested !in b[|a|..]
  }

  lemma SendLogs(c: Conn, msg: u16, payload: seq<byte>)
    ensures Plainly(c.log, SendMessage(c, msg, payload).log)
    ensures var r := SendMessage(c, msg, payload); r == c.(noise := r.noise, log := r.log) && SameSession(c, r)
  {
    SendKeeps(c, msg, payload);
  }

  lemma InfoLogs(h: Hub, payload: Payload)
    ensures Plainly(h.conn.log, OnDeviceInfo(h, payload).conn.log)
    ensures var r := OnDeviceInfo(h, payload).conn; InSession(r.state) && SameSession(h.conn, r)
  {
    hide InfoFrom, WithInfo, SendMessage;
    var names := InfoFrom(Proto.Decode(payload)).subNames;
    SendLogs(Log(h.conn.(names := names, pending := [], state := ListEntities), Announces(names)),
             LIST_ENTITIES_REQUEST, []);
  }

  lemma DoneLogs(h: Hub)
    ensures Plainly(h.conn.log, OnListDone(h).conn.log)
    ensures var r := OnListDone(h).conn; InSession(r.state) && SameSession(h.conn, r)
  {
    hide ApplyDiscovered, SendMessage;
    SendLogs(Log(h.conn, Applies(h.conn.names, h.conn.pending, h.devs)).(state := Subscribe), SUBSCRIBE_STATES, []);
  }

  lemma CloseLogs(h: Hub)
    ensures var log := RequestClose(h).conn.log;
            h.conn.log <= log && NoDispatch(log[|h.conn.log|..]) && CloseRequested in log[|h.conn.log|..]
  {
    hide SetOnline, SetOffline, Active;
    assert RequestClose(h).conn.log[|h.conn.log|] == CloseRequested;
  }

  lemma LogsSince(h: Hub, r: Hub, a: Action)
    requires h.conn.log + [a] <= r.conn.log
    ensures var d := Since(h, r);
            && d == [a] + d[1..] && d[1..] == r.conn.log[|h.conn.log| + 1..]
            && (a != CloseRequested ==> (CloseRequested in d <==> CloseRequested in d[1..]))
  {
    var d := Since(h, r);
    assert d[0] == a;
  }

  /** The history of a message begins with its dispatch and has no other. */
  lemma MessageLogs(h: Hub, msg: u16, payload: Payload)
    ensures var d := Since(h, ProcessMessage(h, msg, payload));
            && d == [Dispatched(msg, payload)] + d[1..] && NoDispatch(d[1..])
            && (CloseRequested in d <==> msg == DISCONNECT_REQUEST)
  {
    hide OnDeviceInfo, OnListDone, Announced, SendMessage, RequestClose;
    hide Since;
    var c := Log(h.conn, Dispatched(msg, payload));
    if msg == HELLO_RESPONSE {
      SendLogs(c, DEVICE_INFO_REQUEST, []);
    } else if msg == DEVICE_INFO_RESPONSE {
      InfoLogs(h.(conn := c), payload);
    } else if msg == LIST_DONE {
      DoneLogs(h.(conn := c));
    } else if msg == DISCONNECT_REQUEST {
      SendLogs(c, DISCONNECT_RESPONSE, []);
      CloseLogs(h.(conn := SendMessage(c, DISCONNECT_RESPONSE, [])));
    }
    LogsSince(h, ProcessMessage(h, msg, payload), Dispatched(msg, payload));
  }

  /** Any other message than a DisconnectRequest leaves the session as it is. */
  lemma MessageSession(h: Hub, msg: u16, payload: Payload)
    requires InSession(h.conn.state) && msg != DISCONNECT_REQUEST
    ensures var r := ProcessMessage(h, msg, payload).conn;
            InSession(r.state) && r.rx == h.conn.rx && SameSession(h.conn, r)
  {
    hide OnDeviceInfo, OnListDone, Announced, SendMessage, RequestClose;
    var c := Log(h.conn, Dispatched(msg, payload));
    SendLogs(c, DEVICE_INFO_REQUEST, []);
    InfoLogs(h.(conn := c), payload);
    DoneLogs(h.(conn := c));
  }

  /** The receiver once it has decrypted one more text, with `rx` in its buffer. */
  function Counted(h: Hub, rx: seq<byte>): Hub {
    match h.conn.noise
    case None => h
    case Some(n) => h.(conn := h.conn.(rx := rx, noise := Some(n.(received := n.received + 1))))
  }

  lemma SealedOpens(h: Hub, s: Session, m: Msg)
    requires InStep(h, s) && |m.payload| <= MAX_PAYLOAD && s.sent < LAST_NONCE
    ensures var e := Encrypt(s, Inner(m.msg, m.payload));
            && e.0 == s.(sent := s.sent + 1) && |e.1| <= 0xFFFF
            && HandleFrame(h, e.1) == Outcome(ProcessMessage(Counted(h, h.conn.rx), m.msg, m.payload), false)
  {
    hide ProcessMessage, Inner, Word, PayloadOf;
    ReadBackInner(m.msg, m.payload);
  }

  /** The first sealed message in the buffer is dispatched, and the rest is still in step. */
  lemma FirstArrives(h: Hub, s: Session, m: Msg, rest: seq<Msg>)
    requires InStep(h, s) && |m.payload| <= MAX_PAYLOAD && s.sent < LAST_NONCE
    requires h.conn.rx == Sealed(s, [m] + rest)
    ensures var s' := s.(sent := s.sent + 1);
            Pump(h) == Pump(ProcessMessage(Counted(h, Sealed(s', rest)), m.msg, m.payload))
  {
    hide ProcessMessage, Pump, Waits, FrameSize, Frame, Inner, HandleFrame, Encrypt;
    var e := Encrypt(s, Inner(m.msg, m.payload));
    assert ([m] + rest)[1..] == rest;
    assert h.conn.rx == Frame(e.1) + Sealed(e.0, rest);
    var h1 := h.(conn := h.conn.(rx := Sealed(e.0, rest)));
    InStepTouched(h, h1, s);
    SealedOpens(h1, s, m);
    FrameHead(e.1, Sealed(e.0, rest));
    PumpStep(h);
  }

  lemma InStepTouched(h: Hub, h1: Hub, s: Session)
    requires InStep(h, s) && h1 == h.(conn := h.conn.(rx := h1.conn.rx))
    ensures InStep(h1, s)
  {
  }

  /** A message that is too long leaves an empty frame, which closes the connection. */
  lemma TooLongCloses(h: Hub, s: Session, m: Msg, rest: seq<Msg>)
    requires InStep(h, s) && |m.payload| > MAX_PAYLOAD && h.conn.rx == Sealed(s, [m] + rest)
    ensures Dispatches(Cut(Since(h, Pump(h)))) == [] && CloseRequested in Since(h, Pump(h))
  {
    hide Pump, Waits, FrameSize, Word, RequestClose;
    var e := Encrypt(s, Inner(m.msg, m.payload));
    assert e == (s, []);
    assert ([m] + rest)[1..] == rest;
    FrameHead([], Sealed(e.0, rest));
    PumpStep(h);
    var h1 := h.(conn := h.conn.(rx := Sealed(s, rest)));
    assert Pump(h) == RequestClose(h1);
    CloseLogs(h1);
    NoDispatchNone(Since(h, Pump(h)));
  }

  lemma StillInStep(h: Hub, s: Session, m: Msg, rx: seq<byte>)
    requires InStep(h, s) && |m.payload| <= MAX_PAYLOAD && m.msg != DISCONNECT_REQUEST
    ensures var r := ProcessMessage(Counted(h, rx), m.msg, m.payload);
            InStep(r, s.(sent := s.sent + 1)) && r.conn.rx == rx
  {
    hide ProcessMessage;
    var h1 := Counted(h, rx);
    MessageKeeps(h1, m.msg, m.payload);
    MessageSession(h1, m.msg, m.payload);
  }

  /** Everything sealed is dispatched, in order, as far as it is deliverable. */
  lemma {:induction false} PumpDelivers(h: Hub, s: Session, msgs: seq<Msg>)
    requires InStep(h, s) && s.sent + |msgs| <= LAST_NONCE && h.conn.rx == Sealed(s, msgs)
    ensures Dispatches(Cut(Since(h, Pump(h)))) == Deliverable(msgs)
    decreases |msgs|
  {
    hide Pump, InStep, ProcessMessage, Cut, Dispatches;
    if msgs == [] {
      PumpNothing(h);
      assert Since(h, Pump(h)) == [];
      NoDispatchNone([]);
    } else {
      var m, rest := msgs[0], msgs[1..];
      assert msgs == [m] + rest;
      if |m.payload| > MAX_PAYLOAD {
        TooLongCloses(h, s, m, rest);
      } else {
        var s' := s.(sent := s.sent + 1);
        var h1 := Counted(h, Sealed(s', rest));
        var h2 := ProcessMessage(h1, m.msg, m.payload);
        FirstArrives(h, s, m, rest);
        MessageLogs(h1, m.msg, m.payload);
        FirstCut(Since(h1, h2), m);
        SinceConcat(h1, h2, Pump(h));
        CutConcat(Since(h1, h2), Since(h2, Pump(h)));
        if m.msg != DISCONNECT_REQUEST {
          StillInStep(h, s, m, Sealed(s', rest));
          PumpDelivers(h2, s', rest);
          DispatchesConcat(Since(h1, h2), Cut(Since(h2, Pump(h))));
        }
      }
    }
  }

  lemma FirstCut(d: seq<Action>, m: Msg)
    requires |m.payload| <= 0xFFFF && d != []
    requires d == [Dispatched(m.msg, m.payload)] + d[1..] && NoDispatch(d[1..])
    ensures Dispatches(d) == [m] && Dispatches(Cut(d)) == [m]
  {
    NoDispatchNone(d[1..]);
    assert Cut(d) == [d[0]] + Cut(d[1..]);
    DispatchesConcat([d[0]], Cut(d[1..]));
    DispatchesConcat([d[0]], d[1..]);
    assert Dispatches([d[0]]) == [m] + Dispatches([d[0]][1..]) == [m];
  }

  /**
   End to end: the receiver, in step with the sender and its buffer empty, reads what `sendMessage`
   wrote for `msgs`, cut in any way. Up to the first close it dispatches exactly the deliverable
   messages in order, hence all of them exactly when none is longer than 65515 bytes and only the
   last may ask to disconnect.
   */
  lemma EndToEnd(h: Hub, sender: Conn, msgs: seq<Msg>, chunks: seq<Chunk>)
    requires sender.noise.Some? && sender.noise.value.sent + |msgs| <= LAST_NONCE
    requires InStep(h, sender.noise.value) && h.conn.rx == []
    requires Joined(chunks) == Written(SendAll(sender, msgs).log[|sender.log|..])
    ensures Dispatches(Cut(Since(h, ReadAll(h, chunks)))) == Deliverable(msgs)
    ensures Dispatches(Cut(Since(h, ReadAll(h, chunks)))) == msgs <==>
            && (forall i :: 0 <= i < |msgs| ==> |msgs[i].payload| <= MAX_PAYLOAD)
            && (forall i :: 0 <= i < |msgs| - 1 ==> msgs[i].msg != DISCONNECT_REQUEST)
  {
    hide Pump, Cut, Dispatches, Deliverable, SendAll, Sealed, Written, ReadAll, Joined;
    var s := sender.noise.value;
    SendAllWrites(sender, msgs);
    Chunking(h, chunks, 0);
    var h1 := Touch(h, Joined(chunks), 0);
    assert h1.conn.rx == Sealed(s, msgs);
    assert Since(h, ReadOnce(h, chunks, 0)) == Since(h1, Pump(h1));
    PumpDelivers(h1, s, msgs);
    AllDeliverableIff(msgs);
  }
}
