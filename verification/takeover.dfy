/**
 What an inadmissible host leads to: a discovery over the wire that takes a top-level device over. So the
 condition on hosts is exact for what the users of the service rely on, and not only for its invariant.
 */
module Takeovers {
  import opened Bytes
  import opened Noise
  import opened Proto
  import opened Texts
  import opened Devices
  import opened Messages
  import opened Discovery
  import opened Connection
  import opened Forest
  import opened Lifecycle
  import opened Chunks
  import opened Delivery
  import opened Service
  import opened History
  import opened Availabilities
  import opened Runs

  // ---------------------------------------------------------------- what the peer says

  /** A sub-device with id 1 and the name that these bytes spell. */
  function SubDeviceInfo(name: seq<byte>): seq<Call>
    requires |name| < 0x8000_0000
    ensures Encodable(SubDeviceInfo(name))
  {
    [AddVarint(1, 1), AddBytes(2, name)]
  }

  function InfoCalls(name: seq<byte>): seq<Call>
    requires |name| <= 0xF000
    ensures Encodable(InfoCalls(name)) && |EncodedAll(InfoCalls(name))| <= |name| + 90
  {
    InfoSize(name);
    [AddBytes(20, EncodedAll(SubDeviceInfo(name)))]
  }

  lemma EncodedSize(c: Call)
    requires c.AddBytes? ==> |c.bytes| < 0x8000_0000
    ensures |Encoded(c)| <= 20 + if c.AddBytes? then |c.bytes| else 0
  {
    VarintTenBytes(Tag(c.field, CallType(c)));
    match c
    case AddVarint(_, value) => VarintTenBytes(value);
    case AddFixed32(_, _) =>
    case AddBytes(_, bytes) => VarintTenBytes(|bytes|);
  }

  lemma EncodedOne(a: Call)
    requires Encodable([a])
    ensures EncodedAll([a]) == Encoded(a)
  {
    hide Encoded;
    assert [a][1..] == [];
    assert EncodedAll([a]) == Encoded(a) + EncodedAll([]);
  }

  lemma EncodedTwo(a: Call, b: Call)
    requires Encodable([a, b])
    ensures EncodedAll([a, b]) == Encoded(a) + Encoded(b)
  {
    hide Encoded;
    assert [a, b][1..] == [b];
    EncodedOne(b);
  }

  lemma InfoSize(name: seq<byte>)
    requires |name| <= 0xF000
    ensures |EncodedAll(SubDeviceInfo(name))| <= |name| + 40
    ensures Encodable([AddBytes(20, EncodedAll(SubDeviceInfo(name)))])
    ensures |EncodedAll([AddBytes(20, EncodedAll(SubDeviceInfo(name)))])| <= |name| + 90
  {
    hide Encoded;
    EncodedTwo(AddVarint(1, 1), AddBytes(2, name));
    EncodedSize(AddVarint(1, 1));
    EncodedSize(AddBytes(2, name));
    var sub := EncodedAll(SubDeviceInfo(name));
    EncodedOne(AddBytes(20, sub));
    EncodedSize(AddBytes(20, sub));
  }

  /** A light of sub-device 1 with key 1. */
  function LightCalls(): (calls: seq<Call>)
    ensures Encodable(calls)
  {
    [AddFixed32(2, 1), AddVarint(16, 1)]
  }

  lemma LightSize()
    ensures |EncodedAll(LightCalls())| <= 40
  {
    hide Encoded;
    EncodedTwo(AddFixed32(2, 1), AddVarint(16, 1));
    EncodedSize(AddFixed32(2, 1));
    EncodedSize(AddVarint(16, 1));
  }

  lemma TwoFields(a: Call, b: Call)
    requires Encodable([a, b]) && |EncodedAll([a, b])| < 0x8000_0000
    ensures Decode(EncodedAll([a, b])) == [FieldOf(a), FieldOf(b)]
  {
    hide Decoded, EncodedAll, FieldOf;
    CodecRoundTrip([a, b]);
    assert Decode(EncodedAll([a, b])) == seq(2, i requires 0 <= i < 2 => FieldOf([a, b][i]));
  }

  lemma OneField(a: Call)
    requires Encodable([a]) && |EncodedAll([a])| < 0x8000_0000
    ensures Decode(EncodedAll([a])) == [FieldOf(a)]
  {
    hide Decoded, EncodedAll, FieldOf;
    CodecRoundTrip([a]);
    assert Decode(EncodedAll([a])) == seq(1, i requires 0 <= i < 1 => FieldOf([a][i]));
  }

  /** The receiver takes the announced name over. */
  lemma InfoRead(name: seq<byte>)
    requires |name| <= 0xF000
    ensures InfoFrom(Decode(EncodedAll(InfoCalls(name)))).subNames == map[1 := FromUtf8(name)]
  {
    hide EncodedAll, Decode, FromUtf8;
    InfoSize(name);
    var sub := EncodedAll(SubDeviceInfo(name));
    TwoFields(AddVarint(1, 1), AddBytes(2, name));
    OneField(AddBytes(20, sub));
    FieldNumberKeptIff(1);
    FieldNumberKeptIff(2);
    FieldNumberKeptIff(20);
    SubRead(ProtoField(1, 0, 1, 0, []), ProtoField(2, 2, 0, 0, name), name);
    var f := ProtoField(20, 2, 0, 0, sub);
    assert [f][..0] == [];
    assert InfoFrom([f]) == AddInfo(InfoFrom([]), f);
  }

  lemma SubRead(a: ProtoField, b: ProtoField, name: seq<byte>)
    requires a == ProtoField(1, 0, 1, 0, []) && b == ProtoField(2, 2, 0, 0, name)
    ensures SubId([a, b]) == 1 && SubName([a, b]) == FromUtf8(name)
  {
    hide FromUtf8;
    assert [a, b][..1] == [a];
  }

  /** The receiver announces one entity of sub-device 1. */
  lemma LightRead() returns (e: EntityInfo)
    ensures |EncodedAll(LightCalls())| <= 0xFFFF && Announced(LIST_LIGHT, EncodedAll(LightCalls())) == [e]
    ensures e.deviceId == 1
  {
    hide EncodedAll, Decode;
    LightSize();
    TwoFields(AddFixed32(2, 1), AddVarint(16, 1));
    FieldNumberKeptIff(2);
    FieldNumberKeptIff(16);
    var a, b := ProtoField(2, 5, 1, 1, []), ProtoField(16, 0, 1, 0, []);
    assert [a, b][..1] == [a] && [a][..0] == [];
    e := EntityFrom(LIST_LIGHT, [a, b]);
    assert EntityFrom(LIST_LIGHT, [a]) == AddToEntity(LIST_LIGHT, EntityFrom(LIST_LIGHT, []), a);
    assert e == AddToEntity(LIST_LIGHT, EntityFrom(LIST_LIGHT, [a]), b);
  }

  /** The messages of the peer in session: its sub-device, one light of it, and the end of the list. */
  function Story(name: seq<byte>): (msgs: seq<Msg>)
    requires |name| <= 0xF000
    ensures forall m :: m in msgs ==> |m.payload| <= MAX_PAYLOAD && m.msg != DISCONNECT_REQUEST
  {
    LightSize();
    [Msg(DEVICE_INFO_RESPONSE, EncodedAll(InfoCalls(name))), Msg(LIST_LIGHT, EncodedAll(LightCalls())),
     Msg(LIST_DONE, [])]
  }

  /** All it writes: its greeting, its handshake message, and the sealed messages. */
  function Script(peer: Session, answer: seq<byte>, name: seq<byte>): seq<byte>
    requires |name| <= 0xF000
  {
    Frame([1]) + (Frame([0] + answer) + Sealed(peer, Story(name)))
  }

  /** `peer` is the other end of a session with these keys, which accept its answer. */
  ghost predicate Peers(keys: Keys, peer: Session, answer: seq<byte>) {
    && peer.phase == Complete && peer.sent == 0 && peer.keys.send == keys.receive && Sound(keys.receive)
    && |answer| < 0xFFFF && keys.accepts(answer)
  }

  // ---------------------------------------------------------------- how the receiver takes it

  lemma GreetingRead(h: Hub, rest: seq<byte>)
    requires h.conn.state == ServerHello && h.conn.rx == Frame([1]) + rest
    ensures Pump(h) == Pump(h.(conn := h.conn.(state := NoiseHandshake, rx := rest)))
  {
    hide Frame, Waits, FrameSize, Pump, RequestClose;
    FrameHead([1], rest);
    PumpStep(h);
    assert NameEnd([1], 1) == 1;
  }

  /** The receiver has read the answer of a peer. */
  lemma AnswerRead(h: Hub, peer: Session, answer: seq<byte>, rest: seq<byte>) returns (r: Hub)
    requires SessionInv(h.conn) && h.conn.state == NoiseHandshake && h.conn.rx == Frame([0] + answer) + rest
    requires h.conn.noise.value.phase == Waiting && h.conn.noise.value.received == 0
    requires Peers(h.conn.noise.value.keys, peer, answer) && Has(h.devs, h.conn.host)
    ensures Pump(h) == Pump(r) && InStep(r, peer) && r.conn.rx == rest
    ensures r.conn.host == h.conn.host && Has(r.devs, r.conn.host)
  {
    hide Frame, Waits, FrameSize, Pump, RequestClose, SendMessage, SetOnline, HelloPayload;
    var frame := [0] + answer;
    FrameHead(frame, rest);
    PumpStep(h);
    var h1 := h.(conn := h.conn.(rx := rest));
    assert frame[1..] == answer;
    r := OnHandshakeAnswer(h1, frame).hub;
    AnswerKeeps(h1, frame);
    var n := h.conn.noise.value.(phase := Complete);
    SendKeeps(h1.conn.(noise := Some(n), state := Ready, handshake := false, ping := true),
              HELLO_REQUEST, HelloPayload());
    OnlineHas(h.devs, h.conn.host, true);
  }

  lemma OnlineHas(devs: Devs, host: Text, online: bool)
    requires Has(devs, host)
    ensures Has(SetOnline(devs, host, online), host)
  {
    PutFind(devs, Find(devs, host).(online := online), host);
  }

  /** The sub-device is known, and the list of entities begins. */
  lemma InfoTaken(h: Hub, name: seq<byte>) returns (payload: Payload, r: Hub)
    requires |name| <= 0xF000 && Has(h.devs, h.conn.host)
    ensures payload == EncodedAll(InfoCalls(name)) && r == ProcessMessage(h, DEVICE_INFO_RESPONSE, payload)
    ensures r.conn.names == map[1 := FromUtf8(name)] && r.conn.pending == []
    ensures r.conn.host == h.conn.host && Has(r.devs, r.conn.host)
  {
    hide EncodedAll, FromUtf8, InfoFrom, SendMessage, WithInfo, InfoCalls;
    InfoRead(name);
    payload := EncodedAll(InfoCalls(name));
    r := ProcessMessage(h, DEVICE_INFO_RESPONSE, payload);
    var h1 := h.(conn := Log(h.conn, Dispatched(DEVICE_INFO_RESPONSE, payload)));
    assert r == OnDeviceInfo(h1, payload);
    InfoShape(h1, payload);
    InfoHas(h.devs, h.conn.host, InfoFrom(Decode(payload)));
  }

  lemma InfoHas(devs: Devs, host: Text, info: Info)
    requires Has(devs, host)
    ensures Has(Put(devs, WithInfo(Find(devs, host), info)), host)
  {
    PutFind(devs, WithInfo(Find(devs, host), info), host);
  }

  /** One entity of the sub-device is pending. */
  lemma LightTaken(h: Hub) returns (payload: Payload, e: EntityInfo, r: Hub)
    ensures payload == EncodedAll(LightCalls()) && r == ProcessMessage(h, LIST_LIGHT, payload)
    ensures e.deviceId == 1 && r.devs == h.devs
    ensures r.conn == h.conn.(pending := h.conn.pending + [e], log := r.conn.log)
  {
    hide EncodedAll, Announced, LightCalls;
    e := LightRead();
    payload := EncodedAll(LightCalls());
    r := ProcessMessage(h, LIST_LIGHT, payload);
  }

  /** The end of the list applies the group, and the device at the address becomes a sub-device. */
  lemma DoneTakes(h: Hub, e: EntityInfo, name: Text)
    requires h.conn.names == map[1 := name] && h.conn.pending == [e] && e.deviceId == 1
    requires Has(h.devs, h.conn.host) && h.conn.host != ""
    ensures !IsTop(ProcessMessage(h, LIST_DONE, []).devs, SubAddress(h.conn.host, name))
  {
    hide ApplyDiscovered, SendMessage, IsTop, SubAddress;
    DiscoveryTakes(h.devs, h.conn.host, name, e);
  }

  /** Once in session, the story takes the device at the address of the sub-device over. */
  lemma StoryTakes(h: Hub, peer: Session, name: seq<byte>)
    requires InStep(h, peer) && peer.sent == 0 && |name| <= 0xF000 && h.conn.rx == Sealed(peer, Story(name))
    requires Has(h.devs, h.conn.host) && h.conn.host != ""
    ensures !IsTop(Pump(h).devs, SubAddress(h.conn.host, FromUtf8(name)))
  {
    hide Pump, ProcessMessage, Sealed, IsTop, FromUtf8, SubAddress, EncodedAll, InStep, LightCalls, InfoCalls, Has;
    var m1, m2, m3 := Story(name)[0], Story(name)[1], Story(name)[2];
    var s1, s2 := peer.(sent := 1), peer.(sent := 2);
    assert Story(name) == [m1] + [m2, m3] && [m2, m3] == [m2] + [m3] && [m3] == [m3] + [];
    FirstArrives(h, peer, m1, [m2, m3]);
    StillInStep(h, peer, m1, Sealed(s1, [m2, m3]));
    CountedSame(h, Sealed(s1, [m2, m3]));
    var p1, h1 := InfoTaken(Counted(h, Sealed(s1, [m2, m3])), name);
    FirstArrives(h1, s1, m2, [m3]);
    StillInStep(h1, s1, m2, Sealed(s2, [m3]));
    CountedSame(h1, Sealed(s2, [m3]));
    var p2, e, h2 := LightTaken(Counted(h1, Sealed(s2, [m3])));
    FirstArrives(h2, s2, m3, []);
    StillInStep(h2, s2, m3, Sealed(peer.(sent := 3), []));
    CountedSame(h2, Sealed(peer.(sent := 3), []));
    DoneTakes(Counted(h2, Sealed(peer.(sent := 3), [])), e, FromUtf8(name));
    SealedNothing(peer.(sent := 3));
    PumpNothing(ProcessMessage(Counted(h2, []), LIST_DONE, []));
  }

  lemma SealedNothing(s: Session)
    ensures Sealed(s, []) == []
  {
  }

  lemma CountedSame(h: Hub, rx: seq<byte>)
    ensures Counted(h, rx).devs == h.devs && Counted(h, rx).conn.host == h.conn.host
    ensures Counted(h, rx).conn.names == h.conn.names && Counted(h, rx).conn.pending == h.conn.pending
  {
  }

  /** From a dialling connection: the peer connects, and its whole script comes in at once. */
  lemma ScriptTakes(h: Hub, keys: Keys, peer: Session, answer: seq<byte>, name: seq<byte>)
    requires h.conn.socket == Connecting && SessionInv(h.conn) && Has(h.devs, h.conn.host) && h.conn.host != ""
    requires Peers(keys, peer, answer) && |name| <= 0xF000
    ensures var r := Step(Step(h, Connects(keys)), Reads(Script(peer, answer, name), 0));
            !IsTop(r.devs, SubAddress(h.conn.host, FromUtf8(name)))
  {
    hide Pump, Frame, Sealed, IsTop, FromUtf8, SubAddress, Story, Has;
    var h1 := Step(h, Connects(keys));
    StepKeepsSession(h, Connects(keys));
    var script, rest := Script(peer, answer, name), Frame([0] + answer) + Sealed(peer, Story(name));
    var h2 := h1.(conn := h1.conn.(deferrals := 0, rx := script));
    assert h1.conn.rx + script == script;
    assert Step(h1, Reads(script, 0)) == Pump(h2);
    GreetingRead(h2, rest);
    var h3 := h2.(conn := h2.conn.(state := NoiseHandshake, rx := rest));
    var h4 := AnswerRead(h3, peer, answer, Sealed(peer, Story(name)));
    StoryTakes(h4, peer, name);
  }

  // ---------------------------------------------------------------- from any state

  /** Whatever state the connection of an active device is in: it is lost, and dialled again. */
  function Redial(h: Hub): Hub {
    Step(Step(Step(h, Drops), DialFails), ReconnectTimer(false))
  }

  lemma StepActive(h: Hub, e: Event)
    requires Active(h)
    ensures Active(Step(h, e)) && Step(h, e).conn.host == h.conn.host
  {
    hide Step, Grown, Careful;
    StepTended(h, e);
    FollowsFind(h.devs, Step(h, e).devs, h.conn.host);
    GrownActive(Find(h.devs, h.conn.host), Find(Step(h, e).devs, h.conn.host));
  }

  lemma GrownActive(d: Dev, e: Dev)
    requires Grown(d, e)
    ensures e.active == d.active
  {
  }

  lemma RedialConnects(h: Hub)
    requires SessionInv(h.conn) && NotStuck(h.conn) && Active(h)
    ensures var r := Redial(h);
            r.conn.socket == Connecting && SessionInv(r.conn) && r.conn.host == h.conn.host && Has(r.devs, r.conn.host)
  {
    hide Step, Active, SessionInv, NotStuck;
    var h1 := Step(h, Drops);
    LosesSocket(h);
    StepActive(h, Drops);
    StepKeepsSession(h, Drops);
    var h2 := Step(h1, DialFails);
    StepActive(h1, DialFails);
    StepKeepsSession(h1, DialFails);
    StepActive(h2, ReconnectTimer(false));
    StepKeepsSession(h2, ReconnectTimer(false));
    TimerDials(h2);
    ActiveHas(Redial(h));
  }

  lemma LosesSocket(h: Hub)
    requires NotStuck(h.conn) && Active(h)
    ensures var r := Step(Step(h, Drops), DialFails); r.conn.socket == Unconnected && r.conn.reconnect
  {
    hide SetOnline, SetOffline;
    var h1 := Step(h, Drops);
    assert h1.conn.socket == Connecting || (h1.conn.socket == Unconnected && h1.conn.reconnect);
    if h1.conn.socket == Connecting {
      assert h1 == h;
    }
  }

  lemma ActiveHas(h: Hub)
    requires Active(h)
    ensures Has(h.devs, h.conn.host)
  {
  }

  lemma TimerDials(h: Hub)
    requires h.conn.socket == Unconnected && h.conn.reconnect && Active(h)
    ensures Step(h, ReconnectTimer(false)).conn.socket == Connecting
  {
  }

  /** The events of a connection on which its device takes another over. */
  function Takeover(keys: Keys, peer: Session, answer: seq<byte>, name: seq<byte>): seq<Event>
    requires |name| <= 0xF000
  {
    [Drops, DialFails, ReconnectTimer(false), Connects(keys), Reads(Script(peer, answer, name), 0)]
  }

  function Steps(h: Hub, events: seq<Event>): Hub {
    if events == [] then h else Step(Steps(h, events[..|events| - 1]), events[|events| - 1])
  }

  lemma FiveSteps(h: Hub, a: Event, b: Event, c: Event, d: Event, e: Event)
    ensures Steps(h, [a, b, c, d, e]) == Step(Step(Step(Step(Step(h, a), b), c), d), e)
  {
    hide Step;
    assert [a, b, c, d, e][..4] == [a, b, c, d] && [a, b, c, d][..3] == [a, b, c] && [a, b, c][..2] == [a, b];
    assert [a, b][..1] == [a] && [a][..0] == [];
    assert Steps(h, [a]) == Step(h, a);
    assert Steps(h, [a, b, c]) == Step(Steps(h, [a, b]), c);
    assert Steps(h, [a, b, c, d]) == Step(Steps(h, [a, b, c]), d);
  }

  lemma TakeoverTakes(h: Hub, keys: Keys, peer: Session, answer: seq<byte>, name: seq<byte>)
    requires SessionInv(h.conn) && NotStuck(h.conn) && Active(h) && h.conn.host != ""
    requires Peers(keys, peer, answer) && |name| <= 0xF000
    ensures !IsTop(Steps(h, Takeover(keys, peer, answer, name)).devs, SubAddress(h.conn.host, FromUtf8(name)))
  {
    hide Step, Script, SessionInv, NotStuck, Active, Has, IsTop, SubAddress, FromUtf8, Peers;
    RedialConnects(h);
    ScriptTakes(Redial(h), keys, peer, answer, name);
    FiveSteps(h, Drops, DialFails, ReconnectTimer(false), Connects(keys), Reads(Script(peer, answer, name), 0));
  }

  // ---------------------------------------------------------------- in the service

  /** The events as operations. */
  function At(host: Text, events: seq<Event>): (ops: seq<Op>)
    ensures |ops| == |events| && forall op :: op in ops ==> op.Happens?
  {
    seq(|events|, i requires 0 <= i < |events| => Happens(host, events[i]))
  }

  /** A run of events of one connection is its steps, and leaves the other connections alone. */
  lemma {:induction false} RunSteps(s: World, host: Text, events: seq<Event>)
    requires host in s.conns
    ensures var r := Run(s, At(host, events));
            host in r.conns && r == World(r.devs, s.conns[host := r.conns[host]])
            && Hub(r.conns[host], r.devs) == Steps(Hub(s.conns[host], s.devs), events)
  {
    hide Step;
    if events != [] {
      var front := events[..|events| - 1];
      RunSteps(s, host, front);
      assert At(host, events)[..|events| - 1] == At(host, front);
    }
  }

  /** What users rely on: the devices form a tree, and exactly the top-level ones have a connection. */
  ghost predicate Intact(s: World) {
    IsTree(s.devs) && forall host :: host in s.conns <==> IsTop(s.devs, host)
  }

  lemma InvIntact(s: World)
    requires ServiceInv(s)
    ensures Intact(s)
  {
    hide ConnInv, SubOf, Apart;
    forall i | 0 <= i < |s.devs| && s.devs[i].parent != ""
      ensures IsTop(s.devs, s.devs[i].parent)
    {
      assert Rooted(s.devs, s.devs[i]);
    }
  }

  /** The suffix that makes `x` an address under `host` can come over the wire. */
  ghost predicate Spelled(x: Text, host: Text) {
    Under(x, host) ==> exists name :: |name| <= 0xF000 && FromUtf8(name) == x[|host| + 1..]
  }

  ghost predicate EventsIntact(s: World) {
    forall ops: seq<Op> :: (forall op :: op in ops ==> op.Happens?) ==> Intact(Run(s, ops))
  }

  /** A top-level device that can be taken over by another, active one will be on some run of events. */
  lemma LostSomewhere(s: World, host: Text, other: Text, keys: Keys, peer: Session, answer: seq<byte>)
    requires host in s.conns && other in s.conns && host != "" && s.conns[host].host == host
    requires SessionInv(s.conns[host]) && NotStuck(s.conns[host]) && ActiveAt(s.devs, host)
    requires Under(other, host) && Spelled(other, host) && Peers(keys, peer, answer)
    ensures !EventsIntact(s)
  {
    hide SessionInv, NotStuck, IsTop, Peers, FromUtf8, Under, IsTree;
    var name := UnderBytes(other, host);
    var events := Takeover(keys, peer, answer, name);
    TakeoverTakes(Hub(s.conns[host], s.devs), keys, peer, answer, name);
    RunSteps(s, host, events);
    assert !Intact(Run(s, At(host, events)));
  }

  lemma UnderBytes(other: Text, host: Text) returns (name: seq<byte>)
    requires Under(other, host) && Spelled(other, host)
    ensures |name| <= 0xF000 && SubAddress(host, FromUtf8(name)) == other
  {
    name :| |name| <= 0xF000 && FromUtf8(name) == other[|host| + 1..];
    assert NoSpaces(FromUtf8(name)) == FromUtf8(name);
    assert other == host + "_" + FromUtf8(name);
  }

  lemma EventsAdmissible(s: World, ops: seq<Op>)
    requires forall op :: op in ops ==> op.Happens?
    ensures AllAdmissible(s, ops)
  {
    hide Run;
    assert forall n :: 0 <= n < |ops| ==> ops[n] in ops;
  }

  /**
   Of a new device's host: the tree and the routes survive every run of events after it was added exactly
   when neither its host nor that of any top-level device is an address under the other. So the condition
   on hosts is the weakest one, given active devices whose connections are not stuck, hosts that can be
   spelled on the wire, and a peer that can complete a session.
   */
  lemma AddStaysIntactIff(s: World, op: Op, keys: Keys, peer: Session, answer: seq<byte>)
    requires ServiceInv(s) && op.AddDevice? && op.host != "" && |op.key| == KEY_LENGTH && !Has(s.devs, op.host)
    requires forall x :: x in s.conns ==> ActiveAt(s.devs, x) && NotStuck(s.conns[x])
    requires forall x :: x in s.conns ==> Spelled(op.host, x) && Spelled(x, op.host)
    requires Peers(keys, peer, answer)
    ensures EventsIntact(Run1(s, op)) <==> StaysApart(s.devs, op.host)
  {
    hide ServiceInv, Run1, StaysApart, NotStuck, ActiveAt, Spelled, Peers, Has, Intact, EventsIntact;
    if StaysApart(s.devs, op.host) {
      AddedIntact(s, op);
    } else {
      var x := NotApart(s, op.host);
      AddedConns(s, op, x);
      if Under(op.host, x) {
        LostSomewhere(Run1(s, op), x, op.host, keys, peer, answer);
      } else {
        LostSomewhere(Run1(s, op), op.host, x, keys, peer, answer);
      }
    }
  }

  lemma AddedIntact(s: World, op: Op)
    requires ServiceInv(s) && op.AddDevice? && StaysApart(s.devs, op.host)
    ensures EventsIntact(Run1(s, op))
  {
    hide ServiceInv, Run1, Intact, StaysApart, AllAdmissible, Run, Has;
    OpKeeps(s, op);
    forall ops: seq<Op> | forall o :: o in ops ==> o.Happens?
      ensures Intact(Run(Run1(s, op), ops))
    {
      EventsAdmissible(Run1(s, op), ops);
      RunKeeps(Run1(s, op), ops);
      InvIntact(Run(Run1(s, op), ops));
    }
  }

  lemma NotApart(s: World, host: Text) returns (x: Text)
    requires ServiceInv(s) && !StaysApart(s.devs, host)
    ensures x in s.conns && (Under(host, x) || Under(x, host)) && x != ""
  {
    hide Under, ConnInv, Apart;
    var i :| 0 <= i < |s.devs| && s.devs[i].parent == ""
             && (Under(host, s.devs[i].host) || Under(s.devs[i].host, host));
    x := s.devs[i].host;
    FindAt(s.devs, i);
    assert Rooted(s.devs, s.devs[i]) && IsTop(s.devs, x);
  }

  /** The new device is dialled, and the connections there were are as before. */
  lemma AddedConns(s: World, op: Op, x: Text)
    requires ServiceInv(s) && op.AddDevice? && op.host != "" && |op.key| == KEY_LENGTH && !Has(s.devs, op.host)
    requires x in s.conns && ActiveAt(s.devs, x) && NotStuck(s.conns[x])
    ensures var r := Run1(s, op);
            && x in r.conns && r.conns[x].host == x && SessionInv(r.conns[x]) && NotStuck(r.conns[x])
            && ActiveAt(r.devs, x)
            && op.host in r.conns && r.conns[op.host].host == op.host && SessionInv(r.conns[op.host])
            && NotStuck(r.conns[op.host]) && ActiveAt(r.devs, op.host)
  {
    hide Run1, Connect, ServiceInv, SessionInv, NotStuck, Dialled;
    var d := Added(op.host, op.port, op.key, op.name, op.discovery, op.cloud);
    var devs := s.devs + [d];
    AddIs(s, op.host, op.port, op.key, op.name, op.discovery, op.cloud, op.fails);
    AppendFind(s.devs, d, x);
    AppendFind(s.devs, d, op.host);
    ServiceRoutes(s, x);
    ServiceRoutes(s, op.host);
    ConnectIs(s.(devs := devs), op.host, op.fails);
    DialledNotStuck(op.host, devs, op.fails);
    DialledSession(op.host, devs, op.fails);
  }

  lemma ServiceRoutes(s: World, x: Text)
    requires ServiceInv(s)
    ensures x in s.conns <==> IsTop(s.devs, x)
    ensures x in s.conns ==> s.conns[x].host == x && SessionInv(s.conns[x])
  {
    hide SessionInv, IsForest, IsTop, HistoryInv, AvailInv;
  }

  lemma DialledSession(host: Text, devs: Devs, fails: bool)
    ensures Dialled(host, devs, fails).host == host && SessionInv(Dialled(host, devs, fails))
  {
  }
}
