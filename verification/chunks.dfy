/** How the byte stream is cut into reads does not matter, up to the first request to close. */
module Chunks {
  import opened Bytes
  import opened Noise
  import opened Messages
  import opened Discovery
  import opened Connection
  import opened Lifecycle

  // ---------------------------------------------------------------- histories up to a close

  /** A history up to and with its first request to close. */
  function Cut(s: seq<Action>): seq<Action> {
    if s == [] then []
    else if s[0] == CloseRequested then [s[0]]
    else [s[0]] + Cut(s[1..])
  }

  lemma {:induction false} CutConcat(a: seq<Action>, b: seq<Action>)
    ensures Cut(a + b) == if CloseRequested in a then Cut(a) else a + Cut(b)
  {
    hide Cut;
    if a == [] {
      assert a + b == b == [] + b;
      CutNothing(b);
    } else {
      CutConcat(a[1..], b);
      CutFirst(a[0], a[1..] + b);
      CutFirst(a[0], a[1..]);
      assert a == [a[0]] + a[1..] && a + b == [a[0]] + (a[1..] + b);
      assert [a[0]] + (a[1..] + Cut(b)) == a + Cut(b);
    }
  }

  lemma CutNothing(b: seq<Action>)
    ensures [] + Cut(b) == Cut(b)
  {
  }

  lemma CutFirst(a: Action, rest: seq<Action>)
    ensures Cut([a] + rest) == if a == CloseRequested then [a] else [a] + Cut(rest)
  {
    assert ([a] + rest)[1..] == rest;
  }

  /** Histories that share a prefix with a request to close are the same up to it. */
  lemma CutShared(a: seq<Action>, b: seq<Action>, p: seq<Action>)
    requires p <= a && p <= b && CloseRequested in p
    ensures Cut(a) == Cut(b)
  {
    assert a == p + a[|p|..] && b == p + b[|p|..];
    CutConcat(p, a[|p|..]);
    CutConcat(p, b[|p|..]);
  }

  lemma {:induction false} CutKeepsClose(s: seq<Action>)
    ensures CloseRequested in Cut(s) <==> CloseRequested in s
  {
    if s != [] {
      CutKeepsClose(s[1..]);
      assert s == [s[0]] + s[1..];
    }
  }

  /** What was added to the history between two states. */
  function Since(h: Hub, h': Hub): seq<Action>
    requires h.conn.log <= h'.conn.log
  {
    h'.conn.log[|h.conn.log|..]
  }

  // ---------------------------------------------------------------- one frame

  /** The same state with `b` behind its buffer and another behaviour of the socket on closing. */
  function Touch(h: Hub, b: seq<byte>, k: nat): Hub {
    h.(conn := h.conn.(rx := h.conn.rx + b, deferrals := k))
  }

  lemma CloseTouch(h: Hub, b: seq<byte>, k: nat, base: Hub)
    requires base.conn.log <= h.conn.log
    ensures CloseRequested in Since(base, RequestClose(h))
        && CloseRequested in Since(base, RequestClose(Touch(h, b, k)))
    ensures Cut(Since(base, RequestClose(h))) == Cut(Since(base, RequestClose(Touch(h, b, k))))
  {
    hide OnDisconnected, RequestClose, Cut;
    var p := h.conn.log[|base.conn.log|..] + [CloseRequested];
    var r, r' := RequestClose(h), RequestClose(Touch(h, b, k));
    assert h.conn.log + [CloseRequested] <= r.conn.log && h.conn.log + [CloseRequested] <= r'.conn.log;
    PrefixSince(base.conn.log, h.conn.log, r.conn.log);
    PrefixSince(base.conn.log, h.conn.log, r'.conn.log);
    assert p[|p| - 1] == CloseRequested;
    CutShared(Since(base, r), Since(base, r'), p);
  }

  lemma PrefixSince(a: seq<Action>, b: seq<Action>, c: seq<Action>)
    requires a <= b && b + [CloseRequested] <= c
    ensures b[|a|..] + [CloseRequested] <= c[|a|..]
    ensures CloseRequested in c[|a|..]
  {
    var p := b[|a|..] + [CloseRequested];
    assert p == (b + [CloseRequested])[|a|..];
    assert c[|a|..][|p| - 1] == c[|b|] == CloseRequested;
  }

  lemma SendTouch(c: Conn, b: seq<byte>, k: nat, msg: u16, payload: seq<byte>)
    ensures SendMessage(c.(rx := c.rx + b, deferrals := k), msg, payload)
         == SendMessage(c, msg, payload).(rx := c.rx + b, deferrals := k)
    ensures CloseRequested !in SendMessage(c, msg, payload).log[|c.log|..]
  {
  }

  /** Two outcomes: the same but for the touch when nothing was closed, and else the same up to the close. */
  ghost predicate SameOutcome(base: Hub, o: Outcome, o': Outcome, b: seq<byte>, k: nat)
    requires base.conn.log <= o.hub.conn.log && base.conn.log <= o'.hub.conn.log
  {
    if CloseRequested in Since(base, o.hub) then
      CloseRequested in Since(base, o'.hub) && Cut(Since(base, o.hub)) == Cut(Since(base, o'.hub))
    else o' == Outcome(Touch(o.hub, b, k), o.stop)
  }

  lemma InfoTouch(h: Hub, payload: Payload, b: seq<byte>, k: nat)
    ensures OnDeviceInfo(Touch(h, b, k), payload) == Touch(OnDeviceInfo(h, payload), b, k)
    ensures CloseRequested !in Since(h, OnDeviceInfo(h, payload))
  {
    hide InfoFrom, WithInfo, SendMessage;
    var names := InfoFrom(Proto.Decode(payload)).subNames;
    SendTouch(Log(h.conn.(names := names, pending := [], state := ListEntities), Announces(names)), b, k,
              LIST_ENTITIES_REQUEST, []);
  }

  lemma DoneTouch(h: Hub, b: seq<byte>, k: nat)
    ensures OnListDone(Touch(h, b, k)) == Touch(OnListDone(h), b, k)
    ensures CloseRequested !in Since(h, OnListDone(h))
  {
    hide ApplyDiscovered, SendMessage;
    SendTouch(Log(h.conn, Applies(h.conn.names, h.conn.pending, h.devs)).(state := Subscribe), b, k,
              SUBSCRIBE_STATES, []);
  }

  lemma MessageTouch(h: Hub, msg: u16, payload: Payload, b: seq<byte>, k: nat)
    ensures SameOutcome(h, Outcome(ProcessMessage(h, msg, payload), false),
                        Outcome(ProcessMessage(Touch(h, b, k), msg, payload), false), b, k)
  {
    hide OnDeviceInfo, OnListDone, Announced, SendMessage, RequestClose, Cut;
    var c := Log(h.conn, Dispatched(msg, payload));
    if msg == DISCONNECT_REQUEST {
      SendTouch(c, b, k, DISCONNECT_RESPONSE, []);
      CloseTouch(h.(conn := SendMessage(c, DISCONNECT_RESPONSE, [])), b, k, h);
    } else if msg == HELLO_RESPONSE {
      SendTouch(c, b, k, DEVICE_INFO_REQUEST, []);
    } else if msg == DEVICE_INFO_RESPONSE {
      InfoTouch(h.(conn := c), payload, b, k);
    } else if msg == LIST_DONE {
      DoneTouch(h.(conn := c), b, k);
    }
  }

  lemma AnswerTouch(h: Hub, frame: seq<byte>, b: seq<byte>, k: nat)
    ensures SameOutcome(h, OnHandshakeAnswer(h, frame), OnHandshakeAnswer(Touch(h, b, k), frame), b, k)
  {
    hide SendMessage, RequestClose, Cut, SetOnline, HelloPayload;
    CloseTouch(h, b, k, h);
    if frame != [] && frame[0] == 0 && h.conn.noise.Some? {
      var c := h.conn.(noise := Some(ReadHandshake(h.conn.noise.value, frame[1..])));
      CloseTouch(h.(conn := c), b, k, h);
      SendTouch(c.(state := Ready, handshake := false, ping := true), b, k, HELLO_REQUEST, HelloPayload());
    }
  }

  lemma PlainTouch(h: Hub, plain: seq<byte>, b: seq<byte>, k: nat)
    ensures SameOutcome(h, OnPlain(h, plain), OnPlain(Touch(h, b, k), plain), b, k)
  {
    hide ProcessMessage, RequestClose, Cut, Word, PayloadOf;
    CloseTouch(h, b, k, h);
    if |plain| >= 4 {
      MessageTouch(h, Word(plain[0], plain[1]), PayloadOf(plain), b, k);
    }
  }

  lemma SealedTouch(h: Hub, frame: seq<byte>, b: seq<byte>, k: nat)
    ensures SameOutcome(h, OnSealedFrame(h, frame), OnSealedFrame(Touch(h, b, k), frame), b, k)
  {
    hide OnPlain, Cut, Decrypt;
    if h.conn.noise.Some? {
      var (session, plain) := Decrypt(h.conn.noise.value, frame);
      PlainTouch(h.(conn := h.conn.(noise := Some(session))), plain, b, k);
    }
  }

  lemma FrameTouch(h: Hub, frame: seq<byte>, b: seq<byte>, k: nat)
    ensures SameOutcome(h, HandleFrame(h, frame), HandleFrame(Touch(h, b, k), frame), b, k)
  {
    hide OnHandshakeAnswer, OnSealedFrame, RequestClose, AdoptName, Cut;
    if h.conn.state == ServerHello {
      CloseTouch(h, b, k, h);
    } else if h.conn.state == NoiseHandshake {
      AnswerTouch(h, frame, b, k);
    } else {
      SealedTouch(h, frame, b, k);
    }
  }

  /** In an open session the slot returns early only after a request to close. */
  lemma StopCloses(h: Hub, frame: seq<byte>)
    requires SessionInv(h.conn) && Open(h.conn.socket) && HandleFrame(h, frame).stop
    ensures CloseRequested in Since(h, HandleFrame(h, frame).hub)
  {
    hide ProcessMessage, RequestClose, AdoptName, SetOnline, SendMessage;
    CloseTouch(h, [], 0, h);
    if h.conn.state == NoiseHandshake && frame != [] {
      CloseTouch(h.(conn := h.conn.(noise := Some(ReadHandshake(h.conn.noise.value, frame[1..])))), [], 0, h);
    } else if InSession(h.conn.state) {
      CloseTouch(h.(conn := h.conn.(noise := Some(Decrypt(h.conn.noise.value, frame).0))), [], 0, h);
    }
  }

  // ---------------------------------------------------------------- the whole buffer

  lemma WaitsPrefix(rx: seq<byte>, b: seq<byte>)
    requires !Waits(rx)
    ensures !Waits(rx + b) && (rx + b)[0] == rx[0]
    ensures rx[0] == 1 ==> FrameSize(rx + b) == FrameSize(rx) <= |rx|
    ensures rx[0] == 1 ==> (rx + b)[3..FrameSize(rx)] == rx[3..FrameSize(rx)]
                           && (rx + b)[FrameSize(rx)..] == rx[FrameSize(rx)..] + b
  {
    var r := rx + b;
    assert r[0] == rx[0] && r[1] == rx[1] && r[2] == rx[2];
  }

  /** What `Pump` does first when it does anything. */
  lemma SinceConcat(a: Hub, b: Hub, c: Hub)
    requires a.conn.log <= b.conn.log <= c.conn.log
    ensures Since(a, c) == Since(a, b) + Since(b, c)
  {
  }

  /** Pumping a longer buffer goes on where pumping the shorter one stopped, until a close. */
  lemma {:induction false} PumpTouch(h: Hub, b: seq<byte>, k: nat)
    requires SessionInv(h.conn)
    ensures var p, q := Pump(h), Pump(Touch(h, b, k));
            if CloseRequested in Since(h, p) then CloseRequested in Since(h, q) && Cut(Since(h, q)) == Cut(Since(h, p))
            else q == Pump(Touch(p, b, k)) && Waits(p.conn.rx)
    decreases |h.conn.rx|
  {
    hide HandleFrame, RequestClose, Cut, SessionInv;
    var rx := h.conn.rx;
    if Waits(rx) {
      assert Pump(h) == h;
    } else {
      WaitsPrefix(rx, b);
      if rx[0] != 1 {
        CloseTouch(h, b, k, h);
      } else {
        PumpTouchFrame(h, b, k);
      }
    }
  }

  lemma {:induction false} PumpTouchFrame(h: Hub, b: seq<byte>, k: nat)
    requires SessionInv(h.conn) && !Waits(h.conn.rx) && h.conn.rx[0] == 1
    ensures var p, q := Pump(h), Pump(Touch(h, b, k));
            if CloseRequested in Since(h, p) then CloseRequested in Since(h, q) && Cut(Since(h, q)) == Cut(Since(h, p))
            else q == Pump(Touch(p, b, k)) && Waits(p.conn.rx)
    decreases |h.conn.rx|, 0
  {
    hide HandleFrame, RequestClose, Cut, SessionInv, Pump, Waits, FrameSize;
    var rx := h.conn.rx;
    WaitsPrefix(rx, b);
    var n := FrameSize(rx);
    var frame := rx[3..n];
    var h1 := h.(conn := h.conn.(rx := rx[n..]));
    var o, o' := HandleFrame(h1, frame), HandleFrame(Touch(h1, b, k), frame);
    PumpStep(h);
    PumpStep(Touch(h, b, k));
    assert Touch(h, b, k).(conn := Touch(h, b, k).conn.(rx := (rx + b)[n..])) == Touch(h1, b, k);
    FrameTouch(h1, frame, b, k);
    FrameInv(h, h1, frame);
    var p, q := Pump(h), Pump(Touch(h, b, k));
    assert Since(h1, o.hub) == Since(h, o.hub);
    if CloseRequested in Since(h, o.hub) {
      SinceConcat(h, o.hub, p);
      SinceConcat(h, o'.hub, q);
      CutConcat(Since(h, o.hub), Since(o.hub, p));
      CutConcat(Since(h, o'.hub), Since(o'.hub, q));
    } else {
      PumpTouch(o.hub, b, k);
      SinceConcat(h, o.hub, p);
      SinceConcat(h, o'.hub, q);
      CutConcat(Since(h, o.hub), Since(o.hub, p));
      CutConcat(Since(h, o.hub), Since(o.hub, q));
    }
  }

  lemma FrameInv(h: Hub, h1: Hub, frame: seq<byte>)
    requires SessionInv(h.conn) && !Waits(h.conn.rx) && h1 == h.(conn := h.conn.(rx := h1.conn.rx))
    ensures SessionInv(HandleFrame(h1, frame).hub.conn)
    ensures HandleFrame(h1, frame).stop ==> CloseRequested in Since(h1, HandleFrame(h1, frame).hub)
  {
    hide HandleFrame;
    FrameKeeps(h1, frame);
    if HandleFrame(h1, frame).stop {
      StopCloses(h1, frame);
    }
  }

  // ---------------------------------------------------------------- any number of reads

  datatype Chunk = Chunk(bytes: seq<byte>, deferrals: nat)

  function ReadAll(h: Hub, chunks: seq<Chunk>): (r: Hub)
    ensures h.conn.log <= r.conn.log
  {
    if chunks == [] then h
    else
      var last := chunks[|chunks| - 1];
      Step(ReadAll(h, chunks[..|chunks| - 1]), Reads(last.bytes, last.deferrals))
  }

  function Joined(chunks: seq<Chunk>): seq<byte> {
    if chunks == [] then [] else Joined(chunks[..|chunks| - 1]) + chunks[|chunks| - 1].bytes
  }

  /** A buffer between two reads. */
  lemma TouchTouch(h: Hub, a: seq<byte>, b: seq<byte>, j: nat, k: nat)
    ensures Touch(Touch(h, a, j), b, k) == Touch(h, a + b, k)
  {
    assert h.conn.rx + a + b == h.conn.rx + (a + b);
  }

  lemma ReadIsPump(h: Hub, b: seq<byte>, k: nat)
    requires Open(h.conn.socket)
    ensures Step(h, Reads(b, k)) == Pump(Touch(h, b, k))
  {
    hide Pump;
  }

  lemma SealedSocket(h: Hub, frame: seq<byte>)
    ensures var r := OnSealedFrame(h, frame).hub; r.conn.socket == h.conn.socket || CloseRequested in Since(h, r)
  {
    hide ProcessMessage, RequestClose, Decrypt, Word, PayloadOf;
    if h.conn.noise.Some? {
      var (session, plain) := Decrypt(h.conn.noise.value, frame);
      var h1 := h.(conn := h.conn.(noise := Some(session)));
      CloseTouch(h1, [], 0, h);
      if |plain| >= 4 {
        MessageSocket(h1, Word(plain[0], plain[1]), PayloadOf(plain));
      }
    }
  }

  lemma MessageSocket(h: Hub, msg: u16, payload: Payload)
    ensures var r := ProcessMessage(h, msg, payload); r.conn.socket == h.conn.socket || CloseRequested in Since(h, r)
  {
    hide OnDeviceInfo, OnListDone, Announced, SendMessage, RequestClose;
    var c := Log(h.conn, Dispatched(msg, payload));
    if msg == HELLO_RESPONSE {
      SendKeeps(c, DEVICE_INFO_REQUEST, []);
    } else if msg == DEVICE_INFO_RESPONSE {
      InfoShape(h.(conn := c), payload);
    } else if msg == LIST_DONE {
      DoneShape(h.(conn := c));
    } else if msg == DISCONNECT_REQUEST {
      CloseTouch(h.(conn := SendMessage(c, DISCONNECT_RESPONSE, [])), [], 0, h);
    }
  }

  lemma FrameSocket(h: Hub, frame: seq<byte>)
    ensures var r := HandleFrame(h, frame).hub; r.conn.socket == h.conn.socket || CloseRequested in Since(h, r)
  {
    hide OnSealedFrame, RequestClose, AdoptName, OnHandshakeAnswer;
    SealedSocket(h, frame);
    AnswerSocket(h, frame);
    CloseTouch(h, [], 0, h);
  }

  lemma AnswerSocket(h: Hub, frame: seq<byte>)
    ensures var r := OnHandshakeAnswer(h, frame).hub; r.conn.socket == h.conn.socket || CloseRequested in Since(h, r)
  {
    hide RequestClose, SetOnline, SendMessage, HelloPayload;
    CloseTouch(h, [], 0, h);
    if h.conn.noise.Some? && frame != [] {
      var c := h.conn.(noise := Some(ReadHandshake(h.conn.noise.value, frame[1..])));
      CloseTouch(h.(conn := c), [], 0, h);
      SendKeeps(c.(state := Ready, handshake := false, ping := true), HELLO_REQUEST, HelloPayload());
    }
  }

  lemma {:induction false} PumpSocket(h: Hub)
    ensures Pump(h).conn.socket == h.conn.socket || CloseRequested in Since(h, Pump(h))
    decreases |h.conn.rx|
  {
    hide HandleFrame, RequestClose, FrameSize;
    var rx := h.conn.rx;
    if !Waits(rx) {
      CloseTouch(h, [], 0, h);
      WaitsPrefix(rx, []);
      if rx[0] == 1 {
        var n := FrameSize(rx);
        var h1 := h.(conn := h.conn.(rx := rx[n..]));
        var o := HandleFrame(h1, rx[3..n]);
        FrameSocket(h1, rx[3..n]);
        PumpStep(h);
        if !o.stop {
          PumpSocket(o.hub);
          SinceConcat(h1, o.hub, Pump(h));
        }
      }
    }
  }

  /** Reading everything at once, `k` being the behaviour of the socket on closing. */
  function ReadOnce(h: Hub, chunks: seq<Chunk>, k: nat): (r: Hub)
    ensures h.conn.log <= r.conn.log
  {
    Pump(Touch(h, Joined(chunks), k))
  }

  /**
   However a byte stream is cut into reads, the history up to the first request to close is the same
   as when it is read at once; and when nothing is closed, the whole state is the same, and the
   buffer holds no complete frame.
   */
  lemma {:induction false} Chunking(h: Hub, chunks: seq<Chunk>, k: nat)
    requires SessionInv(h.conn) && Open(h.conn.socket) && Waits(h.conn.rx)
    ensures Cut(Since(h, ReadAll(h, chunks))) == Cut(Since(h, ReadOnce(h, chunks, k)))
    ensures CloseRequested !in Since(h, ReadOnce(h, chunks, k)) ==>
              && Touch(ReadAll(h, chunks), [], k) == ReadOnce(h, chunks, k)
              && Waits(ReadAll(h, chunks).conn.rx)
    decreases |chunks|
  {
    hide Pump, Cut, Step, Waits, SessionInv;
    if chunks == [] {
      WaitsTouch(h, k);
      PumpNothing(Touch(h, [], k));
      assert h.conn.rx + [] == h.conn.rx;
    } else {
      var front, last := chunks[..|chunks| - 1], chunks[|chunks| - 1];
      Chunking(h, front, k);
      ChunkingStep(h, ReadOnce(h, front, k), ReadAll(h, front), Joined(front), last, k);
    }
  }

  /** A buffer is a proper part of a frame from its start on. */
  ghost predicate StartsFrame(rx: seq<byte>) {
    exists body: seq<byte> :: |body| <= 0xFFFF && rx < Frame(body)
  }

  /** What is behind the last complete frame of a buffer. */
  function Unframed(rx: seq<byte>): seq<byte>
    decreases |rx|
  {
    if Waits(rx) || rx[0] != 1 then rx else Unframed(rx[FrameSize(rx)..])
  }

  /** A frame leaves the rest of the buffer alone, unless it closes. */
  lemma FrameLeaves(h: Hub, frame: seq<byte>)
    ensures CloseRequested in Since(h, HandleFrame(h, frame).hub) || HandleFrame(h, frame).hub.conn.rx == h.conn.rx
  {
    hide HandleFrame, Cut;
    FrameTouch(h, frame, [0], h.conn.deferrals);
    var rx := HandleFrame(h, frame).hub.conn.rx;
    assert |rx + [0]| > 0 && (rx + [0])[..|rx|] == rx && (h.conn.rx + [0])[..|h.conn.rx|] == h.conn.rx;
  }

  /** When a read closes nothing it takes the complete frames off the buffer, and nothing else. */
  lemma {:induction false} PumpUnframes(h: Hub)
    requires SessionInv(h.conn) && CloseRequested !in Since(h, Pump(h))
    ensures Pump(h).conn.rx == Unframed(h.conn.rx) && Waits(Unframed(h.conn.rx))
    decreases |h.conn.rx|
  {
    hide HandleFrame, RequestClose, Cut, SessionInv, Pump, FrameSize;
    var rx := h.conn.rx;
    PumpStep(h);
    if !Waits(rx) {
      WaitsPrefix(rx, []);
      if rx[0] != 1 {
        CloseTouch(h, [], 0, h);
      } else {
        var h1 := h.(conn := h.conn.(rx := rx[FrameSize(rx)..]));
        var o := HandleFrame(h1, rx[3..FrameSize(rx)]);
        FrameInv(h, h1, rx[3..FrameSize(rx)]);
        FrameLeaves(h1, rx[3..FrameSize(rx)]);
        SinceConcat(h1, o.hub, Pump(h));
        if !o.stop {
          PumpUnframes(o.hub);
        }
      }
    }
  }

  /**
   What a read leaves in the buffer, when it closes nothing, is what was behind the last complete
   frame; and that is the start of a frame exactly when its first byte, if there is one, is the frame
   indicator. (With a wrong one the slot waits for three bytes before it closes.)
   */
  lemma ResidualIff(h: Hub)
    requires SessionInv(h.conn) && CloseRequested !in Since(h, Pump(h))
    ensures var rest := Unframed(h.conn.rx);
            Pump(h).conn.rx == rest && (StartsFrame(rest) <==> rest == [] || rest[0] == 1)
  {
    hide Pump, SessionInv, Frame, Waits, Unframed, StartsFrame;
    PumpUnframes(h);
    WaitingIff(Unframed(h.conn.rx));
  }

  lemma WaitingIff(rx: seq<byte>)
    requires Waits(rx)
    ensures StartsFrame(rx) <==> rx == [] || rx[0] == 1
  {
    if rx == [] || rx[0] == 1 {
      var size := if |rx| < 2 then 0x100 else if |rx| == 2 then Word(rx[1], 0) else Word(rx[1], rx[2]);
      FilledUp(rx, size);
    }
  }

  /** The buffer filled up with zeros to a frame of `size` bytes. */
  lemma FilledUp(rx: seq<byte>, size: u16)
    requires |rx| < 3 + size
    requires (|rx| > 0 ==> rx[0] == 1) && (|rx| > 1 ==> rx[1] == Hi(size)) && (|rx| > 2 ==> rx[2] == Lo(size))
    ensures StartsFrame(rx)
  {
    hide Hi, Lo, StartsFrame, Frame;
    var head: seq<byte> := [1, Hi(size), Lo(size)];
    if |rx| <= 3 {
      assert rx == head[..|rx|];
      StartsWith(rx, head[|rx|..] + Zeros(size), Zeros(size));
    } else {
      var filler := Zeros(3 + size - |rx|);
      assert head == rx[..3];
      StartsWith(rx, filler, rx[3..] + filler);
    }
  }

  lemma StartsWith(rx: seq<byte>, rest: seq<byte>, body: seq<byte>)
    requires |body| <= 0xFFFF && rest != [] && rx + rest == [1, Hi(|body|), Lo(|body|)] + body
    ensures StartsFrame(rx)
  {
    hide Hi, Lo;
    assert rx < Frame(body);
  }

  function Zeros(n: nat): (s: seq<byte>)
    ensures |s| == n
  {
    seq(n, i => 0)
  }

  lemma PumpNothing(h: Hub)
    requires Waits(h.conn.rx)
    ensures Pump(h) == h
  {
  }

  /** One more chunk: `one` has read `front` at once, `many` in pieces. */
  lemma ChunkingStep(h: Hub, one: Hub, many: Hub, front: seq<byte>, last: Chunk, k: nat)
    requires SessionInv(h.conn) && Open(h.conn.socket)
    requires one == Pump(Touch(h, front, k)) && h.conn.log <= many.conn.log
    requires Cut(Since(h, many)) == Cut(Since(h, one))
    requires CloseRequested !in Since(h, one) ==> Touch(many, [], k) == one
    ensures var one', many' := Pump(Touch(h, front + last.bytes, k)), Step(many, Reads(last.bytes, last.deferrals));
            && h.conn.log <= many'.conn.log && h.conn.log <= one'.conn.log
            && Cut(Since(h, many')) == Cut(Since(h, one'))
            && (CloseRequested !in Since(h, one') ==> Touch(many', [], k) == one' && Waits(many'.conn.rx))
  {
    hide Pump, Cut, Step, Waits, SessionInv;
    var b, j := last.bytes, last.deferrals;
    var h1 := Touch(h, front, k);
    var one', many' := Pump(Touch(h, front + b, k)), Step(many, Reads(b, j));
    assert SessionInv(h1.conn) by { SessionTouch(h, front, k); }
    TouchTouch(h, front, b, k, k);
    PumpTouch(h1, b, k);
    StepLogs(many, b, j);
    assert Since(h1, one) == Since(h, one);
    if CloseRequested in Since(h, one) {
      CutKeepsClose(Since(h, one));
      CutKeepsClose(Since(h, many));
      CutConcat(Since(h, many), Since(many, many'));
      SinceConcat(h, many, many');
    } else {
      assert one' == Pump(Touch(one, b, k));
      PumpSocket(h1);
      PumpKeeps(h1);
      ReadIsPump(many, b, j);
      assert many.conn.rx + [] == many.conn.rx;
      assert Touch(many, b, j) == Touch(one, b, j);
      // the same chunk read with two behaviours of the socket
      assert SessionInv(Touch(one, b, j).conn) by { SessionTouch(one, b, j); }
      PumpTouch(Touch(one, b, j), [], k);
      TouchTouch(one, b, [], j, k);
      assert b + [] == b;
      assert Touch(Touch(one, b, j), [], k) == Touch(one, b, k);
      SinceConcat(h, many, many');
      SinceConcat(h, one, one');
      CutConcat(Since(h, one), Since(one, one'));
      CutConcat(Since(h, one), Since(one, many'));
      if CloseRequested !in Since(one, many') {
        WaitsTouch(many', k);
        PumpNothing(Touch(many', [], k));
      }
    }
  }

  lemma SessionTouch(h: Hub, b: seq<byte>, k: nat)
    requires SessionInv(h.conn) && Open(h.conn.socket)
    ensures SessionInv(Touch(h, b, k).conn)
  {
  }

  lemma WaitsTouch(h: Hub, k: nat)
    requires Waits(h.conn.rx)
    ensures Waits(Touch(h, [], k).conn.rx)
  {
    assert h.conn.rx + [] == h.conn.rx;
  }

  lemma StepLogs(h: Hub, b: seq<byte>, k: nat)
    ensures h.conn.log <= Step(h, Reads(b, k)).conn.log
  {
    hide Pump;
  }
}
