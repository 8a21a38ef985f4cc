/** The discovery rounds a run performs, and the numbers they give. */
module Rounds {
  import opened Bytes
  import opened Noise
  import opened Texts
  import opened ObjectIds
  import opened Slots
  import opened Devices
  import opened Messages
  import opened Discovery
  import opened Connection
  import opened Forest
  import opened Lifecycle
  import opened Chunks
  import opened Standing
  import opened Service
  import opened Runs
  import Conservation
  import Database

  // ---------------------------------------------------------------- histories with rounds

  /** From `start` through the lists of the rounds in `acts` to `end` the list is tended by `host` only. */
  ghost predicate Chain(host: Text, start: Devs, acts: seq<Action>, end: Devs) {
    if acts == [] then Tended(host, start, end)
    else
      var front, a := acts[..|acts| - 1], acts[|acts| - 1];
      if a.Applies? then Chain(host, start, front, a.devs) && Tended(host, AppliedTo(host, a), end)
      else Chain(host, start, front, end)
  }

  predicate Quiet(acts: seq<Action>) {
    forall a :: a in acts ==> !a.Applies?
  }

  lemma {:induction false} ChainQuiet(host: Text, start: Devs, acts: seq<Action>, end: Devs)
    requires Quiet(acts) && Tended(host, start, end)
    ensures Chain(host, start, acts, end)
  {
    hide Tended, AppliedTo;
    if acts != [] {
      assert acts[|acts| - 1] in acts;
      ChainQuiet(host, start, acts[..|acts| - 1], end);
    }
  }

  lemma {:induction false} ChainTended(host: Text, start: Devs, acts: seq<Action>, end: Devs)
    requires Chain(host, start, acts, end)
    ensures Tended(host, start, end)
  {
    hide Tended, ApplyDiscovered;
    if acts != [] {
      var front, a := acts[..|acts| - 1], acts[|acts| - 1];
      if a.Applies? {
        ChainTended(host, start, front, a.devs);
        TendedDiscovered(a.devs, host, a.names, a.entities);
        TendedTransitive(host, start, a.devs, AppliedTo(host, a));
        TendedTransitive(host, start, AppliedTo(host, a), end);
      } else {
        ChainTended(host, start, front, end);
      }
    }
  }

  lemma {:induction false} ChainMore(host: Text, start: Devs, acts: seq<Action>, mid: Devs, end: Devs)
    requires Chain(host, start, acts, mid) && Tended(host, mid, end)
    ensures Chain(host, start, acts, end)
  {
    hide Tended, AppliedTo;
    if acts == [] {
      TendedTransitive(host, start, mid, end);
    } else {
      var front, a := acts[..|acts| - 1], acts[|acts| - 1];
      if a.Applies? {
        TendedTransitive(host, AppliedTo(host, a), mid, end);
      } else {
        ChainMore(host, start, front, mid, end);
      }
    }
  }

  lemma {:induction false} ChainConcat(host: Text, start: Devs, acts: seq<Action>, mid: Devs, more: seq<Action>,
                                       end: Devs)
    requires Chain(host, start, acts, mid) && Chain(host, mid, more, end)
    ensures Chain(host, start, acts + more, end)
  {
    hide Tended, AppliedTo;
    if more == [] {
      assert acts + more == acts;
      ChainMore(host, start, acts, mid, end);
    } else {
      var front, a := more[..|more| - 1], more[|more| - 1];
      assert (acts + more)[..|acts + more| - 1] == acts + front;
      ChainConcat(host, start, acts, mid, front, if a.Applies? then a.devs else end);
    }
  }

  /** A round of the history: before it the list was tended, and so it is behind it. */
  lemma {:induction false} ChainAt(host: Text, start: Devs, acts: seq<Action>, end: Devs, k: nat)
    requires Chain(host, start, acts, end) && k < |acts| && acts[k].Applies?
    ensures Tended(host, start, acts[k].devs) && Tended(host, AppliedTo(host, acts[k]), end)
  {
    hide Tended, ApplyDiscovered;
    var front, a := acts[..|acts| - 1], acts[|acts| - 1];
    if k == |front| {
      ChainTended(host, start, front, a.devs);
    } else if a.Applies? {
      ChainAt(host, start, front, a.devs, k);
      TendedDiscovered(a.devs, host, a.names, a.entities);
      TendedTransitive(host, AppliedTo(host, acts[k]), a.devs, AppliedTo(host, a));
      TendedTransitive(host, AppliedTo(host, acts[k]), AppliedTo(host, a), end);
    } else {
      ChainAt(host, start, front, end, k);
    }
  }

  /** And between two of them. */
  lemma {:induction false} ChainBetween(host: Text, start: Devs, acts: seq<Action>, end: Devs, k: nat, l: nat)
    requires Chain(host, start, acts, end) && k < l < |acts| && acts[k].Applies? && acts[l].Applies?
    ensures Tended(host, AppliedTo(host, acts[k]), acts[l].devs)
  {
    hide Tended, AppliedTo;
    var front, a := acts[..|acts| - 1], acts[|acts| - 1];
    if l == |front| {
      ChainAt(host, start, front, a.devs, k);
    } else {
      ChainBetween(host, start, front, if a.Applies? then a.devs else end, k, l);
    }
  }

  // ---------------------------------------------------------------- one event

  /** From one state of a connection to a later one. */
  ghost predicate Chained(h: Hub, r: Hub) {
    h.conn.log <= r.conn.log && Chain(h.conn.host, h.devs, Since(h, r), r.devs) && r.conn.host == h.conn.host
  }

  /** Nothing applied in between. */
  predicate QuietBetween(a: seq<Action>, b: seq<Action>) {
    a <= b && Quiet(b[|a|..])
  }

  lemma QuietChained(h: Hub, r: Hub)
    requires QuietBetween(h.conn.log, r.conn.log) && r.conn.host == h.conn.host && Tended(h.conn.host, h.devs, r.devs)
    ensures Chained(h, r)
  {
    hide Tended;
    ChainQuiet(h.conn.host, h.devs, Since(h, r), r.devs);
  }

  lemma ChainedTransitive(a: Hub, b: Hub, c: Hub)
    requires Chained(a, b) && Chained(b, c)
    ensures Chained(a, c)
  {
    hide Chain;
    SinceConcat(a, b, c);
    ChainConcat(a.conn.host, a.devs, Since(a, b), b.devs, Since(b, c), c.devs);
  }

  lemma QuietTransitive(a: seq<Action>, b: seq<Action>, c: seq<Action>)
    requires QuietBetween(a, b) && QuietBetween(b, c)
    ensures QuietBetween(a, c)
  {
    assert c[|a|..] == b[|a|..] + c[|b|..];
  }

  lemma SendQuiet(c: Conn, msg: u16, payload: seq<byte>)
    ensures QuietBetween(c.log, SendMessage(c, msg, payload).log)
  {
  }

  lemma CloseQuiet(h: Hub)
    ensures QuietBetween(h.conn.log, RequestClose(h).conn.log) && QuietBetween(h.conn.log, OnDisconnected(h).conn.log)
    ensures QuietBetween(h.conn.log, Abort(h).conn.log)
  {
    hide SetOnline, SetOffline, Active, KnownAddresses;
  }

  lemma InfoQuiet(h: Hub, payload: Payload)
    ensures QuietBetween(h.conn.log, OnDeviceInfo(h, payload).conn.log)
  {
    hide InfoFrom, SendMessage, WithInfo;
    var names := InfoFrom(Proto.Decode(payload)).subNames;
    var c := Log(h.conn.(names := names, pending := [], state := ListEntities), Announces(names));
    SendQuiet(c, LIST_ENTITIES_REQUEST, []);
    QuietTransitive(h.conn.log, c.log, OnDeviceInfo(h, payload).conn.log);
  }

  /** A ListEntitiesDone performs one round. */
  lemma DoneChained(h: Hub)
    ensures Chained(h, OnListDone(h))
  {
    hide ApplyDiscovered, SendMessage, Tended;
    var c, r := h.conn, OnListDone(h);
    var a := Applies(c.names, c.pending, h.devs);
    var c1 := Log(c, a).(state := Subscribe);
    SendKeeps(c1, SUBSCRIBE_STATES, []);
    SendQuiet(c1, SUBSCRIBE_STATES, []);
    TendedSelf(c.host, h.devs);
    TendedSelf(c.host, r.devs);
    assert [a][..0] == [] && Chain(c.host, h.devs, [], h.devs);
    assert Chain(c.host, h.devs, [a], r.devs);
    ChainQuiet(c.host, r.devs, r.conn.log[|c1.log|..], r.devs);
    ChainConcat(c.host, h.devs, [a], r.devs, r.conn.log[|c1.log|..], r.devs);
    assert Since(h, r) == [a] + r.conn.log[|c1.log|..];
  }

  lemma MessageChained(h: Hub, msg: u16, payload: Payload)
    ensures Chained(h, ProcessMessage(h, msg, payload))
  {
    hide OnDeviceInfo, OnListDone, Announced, SendMessage, RequestClose, Chained, Tended, QuietBetween;
    var c := Log(h.conn, Dispatched(msg, payload));
    var h1, r := h.(conn := c), ProcessMessage(h, msg, payload);
    LoggedQuiet(h.conn, Dispatched(msg, payload));
    TendedMessage(h, msg, payload);
    if msg == LIST_DONE {
      TendedSelf(h.conn.host, h.devs);
      QuietChained(h, h1);
      DoneChained(h1);
      ChainedTransitive(h, h1, r);
    } else {
      MessageQuiet(h1, msg, payload, r);
      QuietTransitive(h.conn.log, c.log, r.conn.log);
      QuietChained(h, r);
    }
  }

  lemma LoggedQuiet(c: Conn, a: Action)
    requires !a.Applies?
    ensures QuietBetween(c.log, Log(c, a).log)
  {
  }

  lemma MessageQuiet(h: Hub, msg: u16, payload: Payload, r: Hub)
    requires msg != LIST_DONE && h.conn.log != [] && h.conn.log[|h.conn.log| - 1] == Dispatched(msg, payload)
    requires r == ProcessMessage(h.(conn := h.conn.(log := h.conn.log[..|h.conn.log| - 1])), msg, payload)
    ensures QuietBetween(h.conn.log, r.conn.log)
  {
    hide OnDeviceInfo, OnListDone, Announced, SendMessage, RequestClose;
    assert h.conn.log[..|h.conn.log| - 1] + [Dispatched(msg, payload)] == h.conn.log;
    if msg == HELLO_RESPONSE {
      SendQuiet(h.conn, DEVICE_INFO_REQUEST, []);
    } else if msg == DEVICE_INFO_RESPONSE {
      InfoQuiet(h, payload);
    } else if msg == DISCONNECT_REQUEST {
      var c := SendMessage(h.conn, DISCONNECT_RESPONSE, []);
      SendQuiet(h.conn, DISCONNECT_RESPONSE, []);
      CloseQuiet(h.(conn := c));
      QuietTransitive(h.conn.log, c.log, r.conn.log);
    }
  }

  lemma AnswerQuiet(h: Hub, frame: seq<byte>)
    ensures QuietBetween(h.conn.log, OnHandshakeAnswer(h, frame).hub.conn.log)
  {
    hide SetOnline, HelloPayload, SendMessage, RequestClose;
    CloseQuiet(h);
    if h.conn.noise.Some? && frame != [] {
      var c := h.conn.(noise := Some(ReadHandshake(h.conn.noise.value, frame[1..])));
      CloseQuiet(h.(conn := c));
      SendQuiet(c.(state := Ready, handshake := false, ping := true), HELLO_REQUEST, HelloPayload());
    }
  }

  lemma SealedChained(h: Hub, frame: seq<byte>)
    ensures Chained(h, OnSealedFrame(h, frame).hub)
  {
    hide ProcessMessage, RequestClose, Tended, Word, PayloadOf, Chain;
    TendedSelf(h.conn.host, h.devs);
    QuietChained(h, h);
    if h.conn.noise.Some? && h.conn.noise.value.phase == Complete {
      var (session, plain) := Decrypt(h.conn.noise.value, frame);
      var h1 := h.(conn := h.conn.(noise := Some(session)));
      QuietChained(h, h1);
      if plain == [] {
        TendedClose(h1);
        CloseQuiet(h1);
        QuietChained(h1, RequestClose(h1));
      } else if |plain| >= 4 {
        MessageChained(h1, Word(plain[0], plain[1]), PayloadOf(plain));
      }
    }
  }

  lemma FrameChained(h: Hub, frame: seq<byte>)
    ensures Chained(h, HandleFrame(h, frame).hub)
  {
    hide OnHandshakeAnswer, OnSealedFrame, AdoptName, RequestClose, Tended, Chained;
    TendedFrame(h, frame);
    var r := HandleFrame(h, frame).hub;
    if InSession(h.conn.state) {
      SealedChained(h, frame);
    } else {
      CloseQuiet(h);
      AnswerQuiet(h, frame);
      QuietChained(h, r);
    }
  }

  lemma {:induction false} PumpChained(h: Hub)
    ensures Chained(h, Pump(h))
    decreases |h.conn.rx|
  {
    hide HandleFrame, RequestClose, Tended, Chain, Pump;
    PumpStep(h);
    TendedSelf(h.conn.host, h.devs);
    QuietChained(h, h);
    var rx := h.conn.rx;
    if !Waits(rx) {
      if rx[0] != 1 {
        TendedClose(h);
        CloseQuiet(h);
        QuietChained(h, RequestClose(h));
      } else {
        var h1 := h.(conn := h.conn.(rx := rx[FrameSize(rx)..]));
        var o := HandleFrame(h1, rx[3..FrameSize(rx)]);
        FrameChained(h1, rx[3..FrameSize(rx)]);
        if !o.stop {
          PumpChained(o.hub);
          ChainedTransitive(h1, o.hub, Pump(h));
        }
      }
    }
  }

  /** The rounds of an event: the history of the event has their lists, in order, each tended from the one before. */
  lemma StepChained(h: Hub, e: Event)
    ensures Chained(h, Step(h, e))
  {
    hide Pump, Abort, OnDisconnected, Tended, SendMessage, Active, Chain, OnReconnectTimer;
    StepTended(h, e);
    var c, r := h.conn, Step(h, e);
    if e.Reads? && Open(c.socket) {
      PumpChained(h.(conn := c.(deferrals := e.deferrals, rx := c.rx + e.bytes)));
    } else {
      StepQuiet(h, e);
      QuietChained(h, r);
    }
  }

  lemma StepQuiet(h: Hub, e: Event)
    requires !e.Reads? || !Open(h.conn.socket)
    ensures QuietBetween(h.conn.log, Step(h, e).conn.log)
  {
    hide Pump, Abort, OnDisconnected, SendMessage, Active, OnReconnectTimer, Frame;
    var c := h.conn;
    match e
    case Drops => CloseQuiet(h.(conn := c.(socket := Unconnected)));
    case PingTimer => SendQuiet(c, PING_REQUEST, []);
    case ReconnectTimer(fails) => ReconnectQuiet(h.(conn := c.(reconnect := false)), fails);
    case HandshakeTimer => CloseQuiet(h.(conn := c.(handshake := false)));
    case Command(host, id, body) =>
      var msg, payload := CommandSends(h, host, id, body);
      SendQuiet(c, msg, payload);
    case _ =>
  }

  lemma ReconnectQuiet(h: Hub, fails: bool)
    ensures QuietBetween(h.conn.log, OnReconnectTimer(h, fails).conn.log)
  {
    hide Abort, Active;
    CloseQuiet(h);
  }

  // ---------------------------------------------------------------- the device a round serves

  /** The slot map at an address: that of its device, or that of a new one. */
  function SlotsBefore(devs: Devs, address: Text): SlotMap {
    if Has(devs, address) then Find(devs, address).slots else map[]
  }

  /**
   A round on the connection of `host` gives the device at `address` the entities `infos`: it is the
   main device, or the device of a sub-device id that has this address for itself.
   */
  ghost predicate Serves(host: Text, a: Action, address: Text, infos: seq<EntityInfo>)
    requires a.Applies?
  {
    || (address == host && infos == Group(a.entities, 0))
    || (exists id :: id in GroupIds(a.entities) && Conservation.SoleOfAddress(host, a.names, a.entities, id)
                     && address == AddressOf(host, a.names, id) && infos == Group(a.entities, id))
  }

  /** Such a device has been through exactly one allocation round, on the slot map it had. */
  lemma ServedRound(host: Text, a: Action, address: Text, infos: seq<EntityInfo>) returns (d: Dev)
    requires a.Applies? && Has(a.devs, host) && Serves(host, a, address, infos)
    ensures var r := AppliedTo(host, a);
            && Has(r, address) && Find(r, address) == Applied(d, infos) && d.slots == SlotsBefore(a.devs, address)
  {
    hide Applied, ApplyDiscovered, AddressOf, Group, GroupIds, Renewed;
    var main := Applied(Find(a.devs, host), Group(a.entities, 0));
    if address == host && infos == Group(a.entities, 0) {
      Conservation.DiscoveryConserves(a.devs, host, a.names, a.entities);
      d := Find(a.devs, host);
    } else {
      var id :| id in GroupIds(a.entities) && Conservation.SoleOfAddress(host, a.names, a.entities, id)
                && address == AddressOf(host, a.names, id) && infos == Group(a.entities, id);
      Conservation.SoleCarries(a.devs, host, a.names, a.entities, id);
      d := Renewed(Conservation.Target(Put(a.devs, main), host, a.names, id), main, NameOf(a.names, id));
      TargetSlots(a.devs, host, a.names, a.entities, id);
    }
  }

  lemma TargetSlots(devs: Devs, host: Text, names: Names, entities: seq<EntityInfo>, id: int)
    requires Has(devs, host)
    ensures var main := Applied(Find(devs, host), Group(entities, 0));
            && Has(Put(devs, main), host)
            && Renewed(Conservation.Target(Put(devs, main), host, names, id), main, NameOf(names, id)).slots ==
               SlotsBefore(devs, AddressOf(host, names, id))
  {
    hide Applied, SubAddress;
    var main, address := Applied(Find(devs, host), Group(entities, 0)), AddressOf(host, names, id);
    Conservation.MainHost(Find(devs, host), Group(entities, 0));
    PutFind(devs, main, host);
    PutFind(devs, main, address);
    SubAddressLonger(host, NameOf(names, id));
    Conservation.WithSubNew(Put(devs, main), Find(Put(devs, main), host), NameOf(names, id));
  }

  // ---------------------------------------------------------------- the rounds of a run

  /** The history an operation adds to the connection of `host`. */
  function NewActions(s: World, op: Op, host: Text): seq<Action> {
    if op.Happens? && op.host == host && host in s.conns then
      StepMore(Hub(s.conns[host], s.devs), op.event);
      Since(Hub(s.conns[host], s.devs), Step(Hub(s.conns[host], s.devs), op.event))
    else []
  }

  lemma StepMore(h: Hub, e: Event)
    ensures h.conn.log <= Step(h, e).conn.log
  {
    hide Step, Chain;
    StepChained(h, e);
  }

  /** Operation `n` of a run performs round `a` on the connection of `host`, as action `k` of its history. */
  ghost predicate Performs(s: World, ops: seq<Op>, n: nat, host: Text, k: nat, a: Action) {
    n < |ops| && k < |NewActions(Run(s, ops[..n]), ops[n], host)| && NewActions(Run(s, ops[..n]), ops[n], host)[k]
        == a && a.Applies?
  }

  /** The list of the round comes from the list before the operation, and that after it from the round's. */
  lemma PerformedWithin(s: World, ops: seq<Op>, n: nat, host: Text, k: nat, a: Action)
    requires ServiceInv(s) && AllAdmissible(s, ops) && Performs(s, ops, n, host, k, a)
    ensures ServiceInv(Run(s, ops[..n])) && IsTop(Run(s, ops[..n]).devs, host)
    ensures Tended(host, Run(s, ops[..n]).devs, a.devs)
    ensures Tended(host, AppliedTo(host, a), Run(s, ops[..n + 1]).devs)
  {
    hide ServiceInv, Run1, Step, Chain, Tended, AllAdmissible, ApplyDiscovered, Run, IsTop;
    AdmissibleUpTo(s, ops, n);
    RunKeeps(s, ops[..n]);
    var w := Run(s, ops[..n]);
    var h := Hub(w.conns[host], w.devs);
    StepChained(h, ops[n].event);
    ConnHost(w, host);
    ChainAt(host, h.devs, NewActions(w, ops[n], host), Step(h, ops[n].event).devs, k);
    assert ops[..n + 1][..n] == ops[..n];
    RunNext(s, ops[..n + 1]);
    HappensStep(w, ops[n]);
  }

  lemma ConnHost(s: World, host: Text)
    requires ServiceInv(s) && host in s.conns
    ensures s.conns[host].host == host && IsTop(s.devs, host)
  {
    hide IsForest, IsTop, SessionInv;
  }

  lemma HappensStep(s: World, op: Op)
    requires op.Happens? && op.host in s.conns
    ensures Run1(s, op).devs == Step(Hub(s.conns[op.host], s.devs), op.event).devs
  {
    hide Step;
  }

  /** While the device stays in the list its slot map only grows. */
  lemma {:induction false} ExtendsBetween(s: World, ops: seq<Op>, address: Text, n: nat, q: nat)
    requires ServiceInv(s) && AllAdmissible(s, ops) && n <= q <= |ops|
    requires forall k :: n <= k <= q ==> Has(Run(s, ops[..k]).devs, address)
    ensures Extends(SlotsAt(Run(s, ops[..n]).devs, address), SlotsAt(Run(s, ops[..q]).devs, address))
    decreases q
  {
    hide ServiceInv, Run1, AllAdmissible, Run;
    if n < q {
      ExtendsBetween(s, ops, address, n, q - 1);
      AdmissibleUpTo(s, ops, q - 1);
      RunKeeps(s, ops[..q - 1]);
      assert ops[..q][..q - 1] == ops[..q - 1];
      RunNext(s, ops[..q]);
      AdmissibleAt(s, ops, q - 1);
      OpExtends(Run(s, ops[..q - 1]), ops[q - 1], address);
      ExtendsTransitive();
    }
  }

  lemma AdmissibleAt(s: World, ops: seq<Op>, n: nat)
    requires AllAdmissible(s, ops) && n < |ops|
    ensures Admissible(Run(s, ops[..n]), ops[n])
  {
    hide Admissible, Run;
  }

  // ---------------------------------------------------------------- stable numbers, round by round

  /** Round `b` comes after round `a` in the run, and the device at `address` is in the list all along. */
  ghost predicate Later(s: World, ops: seq<Op>, n: nat, k: nat, q: nat, l: nat, address: Text) {
    && (n < q || (n == q && k < l))
    && forall m :: n < m <= q <= |ops| ==> Has(Run(s, ops[..m]).devs, address)
  }

  lemma TendedExtends(host: Text, a: Devs, b: Devs, address: Text)
    requires Tended(host, a, b) && IsForest(a) && Has(a, address)
    ensures Has(b, address) && Extends(SlotsAt(a, address), SlotsAt(b, address))
  {
    hide Contiguous, Extends, Careful;
    FollowsFind(a, b, address);
    assert Rooted(a, a[IndexOfHost(a, address)]) && Contiguous(a[IndexOfHost(a, address)].slots);
  }

  /** The list of a performed round is a forest, and so is the one it leaves. */
  lemma PerformedForest(s: World, ops: seq<Op>, n: nat, host: Text, k: nat, a: Action)
    requires ServiceInv(s) && AllAdmissible(s, ops) && Performs(s, ops, n, host, k, a)
    ensures IsForest(a.devs) && IsTop(a.devs, host) && IsForest(AppliedTo(host, a))
  {
    hide ServiceInv, Run, AllAdmissible, NewActions, Tended, IsForest, ApplyDiscovered;
    PerformedWithin(s, ops, n, host, k, a);
    ServiceForest(Run(s, ops[..n]));
    TendedForest(host, Run(s, ops[..n]).devs, a.devs);
    TendedDiscovered(a.devs, host, a.names, a.entities);
    TendedForest(host, a.devs, AppliedTo(host, a));
  }

  /** Between two rounds the slot map of the device grows at its end only. */
  lemma GrowsBetween(s: World, ops: seq<Op>, n: nat, host: Text, k: nat, a: Action,
                     q: nat, host': Text, l: nat, b: Action, address: Text)
    requires ServiceInv(s) && AllAdmissible(s, ops)
    requires Performs(s, ops, n, host, k, a) && Performs(s, ops, q, host', l, b) && Later(s, ops, n, k, q, l, address)
    requires Has(AppliedTo(host, a), address)
    ensures Extends(SlotsAt(AppliedTo(host, a), address), SlotsBefore(b.devs, address))
  {
    hide ServiceInv, AllAdmissible, Tended, IsForest, ApplyDiscovered, Run, NewActions, SlotsAt;
    PerformedForest(s, ops, n, host, k, a);
    if n < q {
      PerformedWithin(s, ops, n, host, k, a);
      PerformedWithin(s, ops, q, host', l, b);
      TendedExtends(host, AppliedTo(host, a), Run(s, ops[..n + 1]).devs, address);
      ExtendsBetween(s, ops, address, n + 1, q);
      ServiceForest(Run(s, ops[..q]));
      TendedExtends(host', Run(s, ops[..q]).devs, b.devs, address);
      ExtendsTransitive();
    } else {
      SameEvent(s, ops, n, host, k, a, host', l, b);
      TendedExtends(host, AppliedTo(host, a), b.devs, address);
    }
    SlotsFound(b.devs, address);
  }

  lemma SlotsFound(devs: Devs, address: Text)
    requires Has(devs, address)
    ensures SlotsBefore(devs, address) == SlotsAt(devs, address)
  {
  }

  lemma SameEvent(s: World, ops: seq<Op>, n: nat, host: Text, k: nat, a: Action, host': Text, l: nat, b: Action)
    requires ServiceInv(s) && AllAdmissible(s, ops)
    requires Performs(s, ops, n, host, k, a) && Performs(s, ops, n, host', l, b) && k < l
    ensures Tended(host, AppliedTo(host, a), b.devs)
  {
    hide ServiceInv, Run1, Step, Chain, Tended, AllAdmissible, ApplyDiscovered, Run, IsTop;
    AdmissibleUpTo(s, ops, n);
    RunKeeps(s, ops[..n]);
    var w := Run(s, ops[..n]);
    var h := Hub(w.conns[host], w.devs);
    StepChained(h, ops[n].event);
    ConnHost(w, host);
    ChainBetween(host, h.devs, NewActions(w, ops[n], host), Step(h, ops[n].event).devs, k, l);
  }

  /** The endpoint id that a round on the list `devs` gives to entity `i` of the device at `address`. */
  function IdGiven(devs: Devs, address: Text, infos: seq<EntityInfo>, i: nat): byte {
    var ids := EndpointIds(SlotsBefore(devs, address), Asks(infos));
    if i < |ids| then ids[i] else 0
  }

  /** How many special entities of the same name come before entity `i`. */
  function Rank(infos: seq<EntityInfo>, i: nat): nat
    requires i < |infos|
  {
    Count(Asks(infos)[..i], infos[i].name)
  }

  /** The number of the first pass that a round on the list `devs` gives to entity `i`; 0 for a common one. */
  function NumberGiven(devs: Devs, address: Text, infos: seq<EntityInfo>, i: nat): int {
    var numbers := Round(SlotsBefore(devs, address), Asks(infos)).numbers;
    if i < |numbers| then numbers[i] else 0
  }

  /** Round `a` serves the device at `address` with `infos`. */
  ghost predicate ServesDevice(host: Text, a: Action, address: Text, infos: seq<EntityInfo>)
    requires a.Applies?
  {
    Has(a.devs, host) && Serves(host, a, address, infos) && Has(AppliedTo(host, a), address)
  }

  /** It does so without an overflow of eight bits. */
  ghost predicate ServesFitting(host: Text, a: Action, address: Text, infos: seq<EntityInfo>)
    requires a.Applies?
  {
    ServesDevice(host, a, address, infos) && Fits(SlotsBefore(a.devs, address), Asks(infos))
  }

  /** The slot map that a round leaves is that of one allocation, on a map without gaps. */
  lemma SlotsServed(host: Text, a: Action, address: Text, infos: seq<EntityInfo>)
    requires a.Applies? && ServesDevice(host, a, address, infos) && IsForest(a.devs)
    ensures var m := SlotsBefore(a.devs, address);
            && Contiguous(m) && SlotsAt(AppliedTo(host, a), address) == Round(m, Asks(infos)).slots
            && |Round(m, Asks(infos)).numbers| == |infos|
  {
    hide AppliedTo, Serves, Contiguous, EndpointsOf, OptionsOf, EndpointOf, Id, Bases, EndpointIds, Round;
    var d := ServedRound(host, a, address, infos);
    BeforeContiguous(a.devs, address);
    PassLength(SlotsBefore(a.devs, address), Asks(infos));
  }

  /** After a round, entity `i` has its endpoint under the id given, and that is its stable number if it is special. */
  lemma GivenStands(host: Text, a: Action, address: Text, infos: seq<EntityInfo>, i: nat)
    requires a.Applies? && ServesFitting(host, a, address, infos) && i < |infos|
    ensures var d, id := Find(AppliedTo(host, a), address), IdGiven(a.devs, address, infos, i);
            && id in d.endpoints && Describes(d.endpoints[id], infos, i)
            && (IsSpecial(infos[i]) ==> id == NumberGiven(a.devs, address, infos, i))
  {
    hide AppliedTo, Serves, Contiguous, EndpointsOf, OptionsOf, Describes, EndpointIds, Round, Fits;
    var d := ServedRound(host, a, address, infos);
    EndpointsKept(d, infos, i);
  }

  /**
   After a round every endpoint of the device keeps its number over a restart exactly when each is
   complete and no special number exceeds the number of entities.
   */
  lemma ServedReloadedIff(host: Text, a: Action, address: Text, infos: seq<EntityInfo>)
    requires a.Applies? && ServesFitting(host, a, address, infos)
    requires var d := Find(AppliedTo(host, a), address); d.name != "" && d.host != "" && d.key != ""
    ensures var d := Find(AppliedTo(host, a), address);
            && Database.Reloaded(d).Some?
            && (Database.Reloaded(d).value.endpoints == Database.PlainMap(d.endpoints) <==>
                && (forall i :: 0 <= i < |infos| ==> NumberGiven(a.devs, address, infos, i) <= |infos|)
                && (forall i :: 0 <= i < |infos| ==> Database.HasAll(infos, i)))
  {
    hide AppliedTo, Serves, Database.Reloaded, Database.HasAll, Database.PlainMap, Id, Bases,
        EndpointIds, Round, Fits, Applied;
    var d := ServedRound(host, a, address, infos);
    Database.AppliedNamed(d, infos);
    Database.RoundReloadedIff(d, infos);
    NumbersAtMost(a.devs, address, infos);
  }

  lemma NumbersAtMost(devs: Devs, address: Text, infos: seq<EntityInfo>)
    ensures (forall i :: 0 <= i < |infos| ==> NumberGiven(devs, address, infos, i) <= |infos|) <==>
            forall n :: n in Round(SlotsBefore(devs, address), Asks(infos)).numbers ==> n <= |infos|
  {
    hide Round, SlotsBefore;
    PassLength(SlotsBefore(devs, address), Asks(infos));
    var numbers := Round(SlotsBefore(devs, address), Asks(infos)).numbers;
    assert forall i :: 0 <= i < |infos| ==> numbers[i] in numbers && NumberGiven(devs, address, infos, i) == numbers[i];
  }

  lemma BeforeContiguous(devs: Devs, address: Text)
    requires IsForest(devs)
    ensures Contiguous(SlotsBefore(devs, address))
  {
    hide Contiguous, Apart;
    EmptyContiguous();
    if Has(devs, address) {
      assert Rooted(devs, devs[IndexOfHost(devs, address)]) && Contiguous(devs[IndexOfHost(devs, address)].slots);
    }
  }

  /**
   Of any two rounds a run performs on a device that stays in the list, on whatever connection and with
   whatever in between, restarts included: two special entities get the same number exactly when they
   have the same name and the same rank among the special entities of it.
   */
  lemma RoundsNumbered(s: World, ops: seq<Op>, n: nat, host: Text, k: nat, a: Action,
                       q: nat, host': Text, l: nat, b: Action,
                       address: Text, infos: seq<EntityInfo>, i: nat, infos': seq<EntityInfo>, j: nat)
    requires ServiceInv(s) && AllAdmissible(s, ops)
    requires Performs(s, ops, n, host, k, a) && Performs(s, ops, q, host', l, b) && Later(s, ops, n, k, q, l, address)
    requires ServesDevice(host, a, address, infos) && ServesDevice(host', b, address, infos')
    requires i < |infos| && IsSpecial(infos[i]) && j < |infos'| && IsSpecial(infos'[j])
    ensures NumberGiven(a.devs, address, infos, i) == NumberGiven(b.devs, address, infos', j) <==>
            infos[i].name == infos'[j].name && Rank(infos, i) == Rank(infos', j)
  {
    hide ServiceInv, AllAdmissible, NewActions, Run, Later, Serves, AppliedTo, IsForest, Contiguous, Extends,
        Round, EndpointOf, Id, Bases, SlotsBefore, IsSpecial, SlotsAt;
    PerformedForest(s, ops, n, host, k, a);
    PerformedForest(s, ops, q, host', l, b);
    SlotsServed(host, a, address, infos);
    SlotsServed(host', b, address, infos');
    GrowsBetween(s, ops, n, host, k, a, q, host', l, b, address);
    assert Asks(infos)[i] == AskOf(infos[i]) && Asks(infos')[j] == AskOf(infos'[j]);
    SameNumberLaterIff(SlotsBefore(a.devs, address), Asks(infos), i, SlotsBefore(b.devs, address), Asks(infos'), j);
  }

  /**
   While the numbers of the two rounds fit eight bits, two special entities have their endpoints under
   the same id exactly when they have the same name and the same rank among the special entities of it.
   */
  lemma RoundsStable(s: World, ops: seq<Op>, n: nat, host: Text, k: nat, a: Action,
                     q: nat, host': Text, l: nat, b: Action,
                     address: Text, infos: seq<EntityInfo>, i: nat, infos': seq<EntityInfo>, j: nat)
    requires ServiceInv(s) && AllAdmissible(s, ops)
    requires Performs(s, ops, n, host, k, a) && Performs(s, ops, q, host', l, b) && Later(s, ops, n, k, q, l, address)
    requires ServesFitting(host, a, address, infos) && ServesFitting(host', b, address, infos')
    requires i < |infos| && IsSpecial(infos[i]) && j < |infos'| && IsSpecial(infos'[j])
    ensures IdGiven(a.devs, address, infos, i) == IdGiven(b.devs, address, infos', j) <==>
            infos[i].name == infos'[j].name && Rank(infos, i) == Rank(infos', j)
    ensures var d, d' := Find(AppliedTo(host, a), address), Find(AppliedTo(host', b), address);
            var id, id' := IdGiven(a.devs, address, infos, i), IdGiven(b.devs, address, infos', j);
            && id in d.endpoints && Describes(d.endpoints[id], infos, i)
            && id' in d'.endpoints && Describes(d'.endpoints[id'], infos', j)
  {
    hide ServiceInv, AllAdmissible, NewActions, Run, Later, Serves, AppliedTo, IdGiven, NumberGiven, Fits, Rank,
        Describes, IsSpecial;
    GivenStands(host, a, address, infos, i);
    GivenStands(host', b, address, infos', j);
    RoundsNumbered(s, ops, n, host, k, a, q, host', l, b, address, infos, i, infos', j);
  }
}
