/** While a connection is subscribed, its devices have the endpoints that its last round gave them. */
module Standing {
  import opened Bytes
  import opened Noise
  import opened Order
  import opened Texts
  import opened Slots
  import opened Devices
  import opened Messages
  import opened Discovery
  import opened Connection
  import opened Forest
  import opened Lifecycle

  /** The list a round leaves. */
  function AppliedTo(host: Text, a: Action): Devs
    requires a.Applies?
  {
    ApplyDiscovered(a.devs, host, a.names, a.entities)
  }

  /** The last round of a history. */
  function LastRound(log: seq<Action>): (a: Option<Action>)
    ensures a.Some? ==> a.value.Applies?
  {
    if log == [] then None
    else if log[|log| - 1].Applies? then Some(log[|log| - 1])
    else LastRound(log[..|log| - 1])
  }

  /** The device of the connection and its sub-devices: each has in `devs` the endpoints it has in `r`. */
  predicate SameEndpoints(host: Text, devs: Devs, r: Devs) {
    forall i :: 0 <= i < |devs| && (devs[i].host == host || devs[i].parent == host) ==>
                  Has(r, devs[i].host) && Find(r, devs[i].host).endpoints == devs[i].endpoints
  }

  predicate Current(c: Conn, devs: Devs) {
    c.state == Subscribe ==>
      LastRound(c.log).Some? && SameEndpoints(c.host, devs, AppliedTo(c.host, LastRound(c.log).value))
  }

  /** A history with these actions more, none of which is a round. */
  predicate NoRound(a: seq<Action>, b: seq<Action>) {
    a <= b && forall i :: |a| <= i < |b| ==> !b[i].Applies?
  }

  lemma {:induction false} NoRoundLast(a: seq<Action>, b: seq<Action>)
    requires NoRound(a, b)
    ensures LastRound(b) == LastRound(a)
  {
    if |a| < |b| {
      var front := b[..|b| - 1];
      assert a <= front && forall i :: |a| <= i < |front| ==> front[i] == b[i];
      NoRoundLast(a, front);
    } else {
      assert a == b;
    }
  }

  // ---------------------------------------------------------------- an event of the connection itself

  /** From `h` to `r`: not subscribed any more, or a new round, or nothing that matters. */
  ghost predicate Onward(h: Hub, r: Hub) {
    && r.conn.host == h.conn.host
    && (r.conn.state == Subscribe ==>
          || (h.conn.state == Subscribe && r.devs == h.devs && NoRound(h.conn.log, r.conn.log))
          || (LastRound(r.conn.log).Some? && r.devs == AppliedTo(h.conn.host, LastRound(r.conn.log).value)))
  }

  lemma OnwardTransitive(a: Hub, b: Hub, c: Hub)
    requires Onward(a, b) && Onward(b, c)
    ensures Onward(a, c)
  {
    hide AppliedTo;
    if c.conn.state == Subscribe && b.conn.state == Subscribe && c.devs == b.devs && NoRound(b.conn.log, c.conn.log) {
      NoRoundLast(b.conn.log, c.conn.log);
    }
  }

  lemma OnwardCurrent(h: Hub, r: Hub)
    requires Onward(h, r) && Current(h.conn, h.devs) && DistinctHosts(r.devs)
    ensures Current(r.conn, r.devs)
  {
    hide AppliedTo;
    if r.conn.state == Subscribe {
      if h.conn.state == Subscribe && r.devs == h.devs && NoRound(h.conn.log, r.conn.log) {
        NoRoundLast(h.conn.log, r.conn.log);
      } else {
        forall i | 0 <= i < |r.devs|
          ensures Has(r.devs, r.devs[i].host) && Find(r.devs, r.devs[i].host) == r.devs[i]
        {
          FindAt(r.devs, i);
        }
      }
    }
  }

  lemma SendNoRound(c: Conn, msg: u16, payload: seq<byte>)
    ensures NoRound(c.log, SendMessage(c, msg, payload).log)
  {
    hide Encrypt, Frame, Inner;
  }

  /** A state in which the connection is not subscribed. */
  lemma OnwardAway(h: Hub, r: Hub)
    requires r.conn.host == h.conn.host && r.conn.state != Subscribe
    ensures Onward(h, r)
  {
  }

  lemma OnwardSame(h: Hub, r: Hub)
    requires r.conn.host == h.conn.host && r.devs == h.devs && NoRound(h.conn.log, r.conn.log)
    requires r.conn.state == Subscribe ==> h.conn.state == Subscribe
    ensures Onward(h, r)
  {
  }

  lemma CloseOnward(h: Hub)
    ensures Onward(h, RequestClose(h)) && Onward(h, Abort(h)) && Onward(h, OnDisconnected(h))
  {
    hide SetOnline, SetOffline, Active;
    var c := Log(h.conn, CloseRequested);
    if c.deferrals > 0 {
      OnwardSame(h, RequestClose(h));
    }
    if !Open(h.conn.socket) {
      OnwardSame(h, Abort(h));
    }
  }

  lemma DoneOnward(h: Hub)
    ensures Onward(h, OnListDone(h))
  {
    hide SendMessage, ApplyDiscovered;
    var a := Applies(h.conn.names, h.conn.pending, h.devs);
    var c := Log(h.conn, a).(state := Subscribe);
    SendNoRound(c, SUBSCRIBE_STATES, []);
    SendKeeps(c, SUBSCRIBE_STATES, []);
    NoRoundLast(c.log, OnListDone(h).conn.log);
    assert LastRound(c.log) == Some(a);
  }

  lemma MessageOnward(h: Hub, msg: u16, payload: Payload)
    ensures Onward(h, ProcessMessage(h, msg, payload))
  {
    hide OnDeviceInfo, OnListDone, Announced, SendMessage, RequestClose, Onward;
    var h1 := h.(conn := Log(h.conn, Dispatched(msg, payload)));
    OnwardSame(h, h1);
    if msg == HELLO_RESPONSE {
      SendNoRound(h1.conn, DEVICE_INFO_REQUEST, []);
      SendKeeps(h1.conn, DEVICE_INFO_REQUEST, []);
      OnwardSame(h1, ProcessMessage(h, msg, payload));
      OnwardTransitive(h, h1, ProcessMessage(h, msg, payload));
    } else if msg == DEVICE_INFO_RESPONSE {
      InfoShape(h1, payload);
      OnwardAway(h, ProcessMessage(h, msg, payload));
    } else if IsEntityMessage(msg) {
      OnwardSame(h, ProcessMessage(h, msg, payload));
    } else if msg == LIST_DONE {
      DoneOnward(h1);
      OnwardTransitive(h, h1, OnListDone(h1));
    } else if msg == DISCONNECT_REQUEST {
      var h2 := h1.(conn := SendMessage(h1.conn, DISCONNECT_RESPONSE, []));
      SendNoRound(h1.conn, DISCONNECT_RESPONSE, []);
      SendKeeps(h1.conn, DISCONNECT_RESPONSE, []);
      OnwardSame(h1, h2);
      CloseOnward(h2);
      OnwardTransitive(h1, h2, RequestClose(h2));
      OnwardTransitive(h, h1, RequestClose(h2));
    }
  }

  lemma SealedOnward(h: Hub, frame: seq<byte>)
    ensures Onward(h, OnSealedFrame(h, frame).hub)
  {
    hide ProcessMessage, RequestClose, Word, PayloadOf, Onward;
    OnwardSame(h, h);
    if h.conn.noise.Some? {
      var (session, plain) := Decrypt(h.conn.noise.value, frame);
      var h1 := h.(conn := h.conn.(noise := Some(session)));
      OnwardSame(h, h1);
      CloseOnward(h1);
      OnwardTransitive(h, h1, RequestClose(h1));
      if |plain| >= 4 {
        var msg, payload := Word(plain[0], plain[1]), PayloadOf(plain);
        MessageOnward(h1, msg, payload);
        OnwardTransitive(h, h1, ProcessMessage(h1, msg, payload));
      }
    }
  }

  lemma AnswerOnward(h: Hub, frame: seq<byte>)
    requires h.conn.state == NoiseHandshake
    ensures Onward(h, OnHandshakeAnswer(h, frame).hub)
  {
    hide RequestClose, SendMessage, HelloPayload, SetOnline;
    CloseOnward(h);
    if h.conn.noise.Some? && frame != [] {
      var c := h.conn.(noise := Some(ReadHandshake(h.conn.noise.value, frame[1..])));
      CloseOnward(h.(conn := c));
      SendKeeps(c.(state := Ready, handshake := false, ping := true), HELLO_REQUEST, HelloPayload());
    }
  }

  lemma FrameOnward(h: Hub, frame: seq<byte>)
    ensures Onward(h, HandleFrame(h, frame).hub)
  {
    hide OnHandshakeAnswer, OnSealedFrame, RequestClose, AdoptName, Onward;
    CloseOnward(h);
    OnwardSame(h, h);
    if h.conn.state == ServerHello {
      if frame != [] && frame[0] == 1 {
        OnwardAway(h, HandleFrame(h, frame).hub);
      }
    } else if h.conn.state == NoiseHandshake {
      AnswerOnward(h, frame);
    } else {
      SealedOnward(h, frame);
    }
  }

  lemma {:induction false} PumpOnward(h: Hub)
    ensures Onward(h, Pump(h))
    decreases |h.conn.rx|
  {
    hide HandleFrame, RequestClose, Onward;
    OnwardSame(h, h);
    CloseOnward(h);
    var rx := h.conn.rx;
    if !Waits(rx) && rx[0] == 1 {
      var n := FrameSize(rx);
      var h1 := h.(conn := h.conn.(rx := rx[n..]));
      OnwardSame(h, h1);
      FrameOnward(h1, rx[3..n]);
      var o := HandleFrame(h1, rx[3..n]);
      OnwardTransitive(h, h1, o.hub);
      if !o.stop {
        PumpOnward(o.hub);
        OnwardTransitive(h, o.hub, Pump(h));
      }
    }
  }

  lemma StepOnward(h: Hub, e: Event)
    ensures Onward(h, Step(h, e))
  {
    hide OnDisconnected, SendMessage, Pump, Abort, Active, SendCommand, Onward;
    var c := h.conn;
    OnwardSame(h, h);
    match e
    case Connects(keys) =>
      if c.socket == Connecting {
        OnwardAway(h, Step(h, e));
      }
    case DialFails => OnwardSame(h, Step(h, e));
    case Fails => OnwardSame(h, Step(h, e));
    case Drops =>
      CloseOnward(h.(conn := c.(socket := Unconnected)));
      OnwardSame(h, h.(conn := c.(socket := Unconnected)));
      if Open(c.socket) {
        OnwardTransitive(h, h.(conn := c.(socket := Unconnected)), Step(h, e));
      }
    case Reads(bytes, deferrals) =>
      var h1 := h.(conn := c.(deferrals := deferrals, rx := c.rx + bytes));
      OnwardSame(h, h1);
      PumpOnward(h1);
      OnwardTransitive(h, h1, Pump(h1));
    case PingTimer =>
      SendNoRound(c, PING_REQUEST, []);
      SendKeeps(c, PING_REQUEST, []);
      OnwardSame(h, Step(h, e));
    case ReconnectTimer(fails) => ReconnectOnward(h, fails);
    case HandshakeTimer =>
      var h1 := h.(conn := c.(handshake := false));
      OnwardSame(h, h1);
      CloseOnward(h1);
      OnwardTransitive(h, h1, Abort(h1));
    case Command(host, id, body) =>
      var msg, payload := CommandSends(h, host, id, body);
      SendNoRound(c, msg, payload);
      SendKeeps(c, msg, payload);
      OnwardSame(h, h.(conn := SendMessage(c, msg, payload)));
  }

  lemma ReconnectOnward(h: Hub, fails: bool)
    ensures Onward(h, Step(h, ReconnectTimer(fails)))
  {
    hide OnDisconnected, Active, Onward;
    OnwardSame(h, h);
    if h.conn.reconnect {
      TendedClose(h.(conn := h.conn.(reconnect := false)));
      OnwardAway(h, Step(h, ReconnectTimer(fails)));
    }
  }

  /** Every event of the connection keeps this. */
  lemma StepCurrent(h: Hub, e: Event)
    requires Current(h.conn, h.devs) && DistinctHosts(Step(h, e).devs)
    ensures Current(Step(h, e).conn, Step(h, e).devs)
  {
    hide Step, Current, Onward;
    StepOnward(h, e);
    OnwardCurrent(h, Step(h, e));
  }

  // ---------------------------------------------------------------- everything else

  /** Each of these devices was in `a`, with the same endpoints. */
  predicate Endures(host: Text, a: Devs, b: Devs) {
    forall i :: 0 <= i < |b| && (b[i].host == host || b[i].parent == host) ==>
                  exists j :: 0 <= j < |a| && a[j].host == b[i].host && a[j].parent == b[i].parent
                              && a[j].endpoints == b[i].endpoints
  }

  lemma EnduresCurrent(c: Conn, a: Devs, b: Devs)
    requires Current(c, a) && Endures(c.host, a, b)
    ensures Current(c, b)
  {
    hide AppliedTo;
  }

  /** The connection of another device leaves this one's alone. */
  lemma OtherEndures(host: Text, a: Devs, b: Devs, other: Text)
    requires Tended(host, a, b) && IsForest(a) && IsTop(a, host) && IsTop(a, other) && other != host
    ensures Endures(other, a, b)
  {
    hide Contiguous, Extends, Apart;
    HostNotEmpty(a, host);
    FollowsFind(a, b, other);
    forall i | 0 <= i < |b| && (b[i].host == other || b[i].parent == other)
      ensures i < |a| && a[i] == b[i]
    {
      assert i >= |a| ==> SubOf(b[i], host);
      assert IndexOfHost(a, other) < |a| && b[IndexOfHost(a, other)].host == other;
      if i < |a| {
        assert Tame(host, a[i], b[i]) && Grown(a[i], b[i]);
        if a[i].parent == "" {
          FindAt(a, i);
        }
      }
    }
  }
}
