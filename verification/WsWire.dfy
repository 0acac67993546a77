/** Single frames as bytes on the wire, to a client and masked to a server, and what they do. */
module WsWire {
  import opened Bytes
  import opened WsFrame
  import opened WsReceiver
  import opened WsReassembly
  import Utf8

  // ---------------------------------------------------------------- a frame that arrives whole

  /** A header with a one-byte length and without mask. */
  lemma ShortHeader(b0: byte, payload: bytes, h: Header)
    requires |payload| <= 125
    requires h == Header(
      b0 >= 128, b0 / 64 % 2 == 1, b0 / 32 % 2 == 1, b0 / 16 % 2 == 1, b0 % 16, None, |payload|)
    ensures ParseHeader([b0, |payload|] + payload) == Complete(h, 2) && ([b0, |payload|] + payload)[2..] == payload
  {
    var push: bytes := [b0, |payload|] + payload;
    assert push[0] == b0 && push[1] == |payload|;
  }

  /** The same with a mask. */
  lemma MaskedHeader(b0: byte, key: Key, data: bytes, h: Header)
    requires |data| <= 125
    requires h == Header(
      b0 >= 128, b0 / 64 % 2 == 1, b0 / 32 % 2 == 1, b0 / 16 % 2 == 1, b0 % 16, Some(key), |data|)
    ensures
      var push := [b0, 128 + |data|] + key + data;
      ParseHeader(push) == Complete(h, 6) && push[6..] == data
  {
    var push: bytes := [b0, 128 + |data|] + key + data;
    assert push[0] == b0 && push[1] == 128 + |data| && push[2..6] == key;
  }

  /** An open connection between two frames, with nothing in the buffer. */
  predicate Between(c: Conn) {
    c.status.Open? && c.buf == [] && c.large.remaining == 0
  }

  /** One push that is one whole frame. */
  lemma FramePush(cfg: Config, c: Conn, push: bytes, h: Header, n: nat, payload: bytes, c1: Conn)
    requires Between(c) && ParseHeader(push) == Complete(h, n) && 0 < n && |push| == n + h.len <= cfg.cap
    requires payload == Unmask(h.key, push[n..], 0)
    requires HandleFrame(cfg, c.(buf := push), h, payload) == if c1.status.Open? then c1.(buf := push) else c1
    requires c1.status.Open? ==> Between(c1)
    ensures OnData(cfg, c, push) == c1
  {
    var d := c.(buf := push);
    assert c.buf + push == push && StreamConsume(d) == d;
    assert push[n..n + h.len] == push[n..] && push[n + h.len..] == [];
    StepWhole(cfg, d, h, n);
    ProcessNext(cfg, d, Next(c1, c1.status.Open?));
    if c1.status.Open? {
      assert Step(cfg, c1) == Next(c1, false);
      ProcessNext(cfg, c1, Next(c1, false));
    }
  }

  // ---------------------------------------------------------------- control frames

  /** What a ping, a pong and a close with a code do to a connection in any message. */
  function Ponged(c: Conn, payload: bytes): Conn {
    c.(events := c.events + [PongSent(payload)])
  }

  function PongHeard(c: Conn, payload: bytes): Conn {
    c.(events := c.events + [PongSeen(payload)])
  }

  function ClosedWith(c: Conn, code: nat): Conn {
    Conn(if StandardCode(code) then PeerClosed(code, []) else ProtocolError, [], NO_MSG, NO_FRAME, c.events)
  }

  function ControlHeader(opcode: nat, key: Option<Key>, len: nat): Header {
    Header(true, false, false, false, opcode, key, len)
  }

  lemma HandleControl(cfg: Config, d: Conn, opcode: nat, key: Option<Key>, payload: bytes)
    requires d.status.Open? && |payload| <= 125 && (key.Some? <==> !cfg.isClient)
    ensures
      var h := ControlHeader(opcode, key, |payload|);
      && (opcode == 9 ==> HandleFrame(cfg, d, h, payload) == Ponged(d, payload))
      && (opcode == 10 ==> HandleFrame(cfg, d, h, payload) == PongHeard(d, payload))
      && (opcode == 8 && |payload| == 2 ==>
           HandleFrame(cfg, d, h, payload) == ClosedWith(d, payload[0] as int * 256 + payload[1]))
  {
    assert |payload| == 2 ==> payload[2..] == [];
  }

  /** A client answers every ping with its payload, takes every pong, and closes with the code of a close. */
  lemma ClientControl(cfg: Config, c: Conn, payload: bytes)
    requires cfg.isClient && cfg.cap >= 1024 && Between(c) && |payload| <= 125
    ensures OnData(cfg, c, [0x89, |payload|] + payload) == c.(events := c.events + [PongSent(payload)])
    ensures OnData(cfg, c, [0x8A, |payload|] + payload) == c.(events := c.events + [PongSeen(payload)])
    ensures |payload| == 2 ==>
      OnData(cfg, c, [0x88, 2] + payload) == ClosedWith(c, payload[0] as int * 256 + payload[1])
  {
    ClientFrame(cfg, c, 0x89, payload, Ponged(c, payload));
    ClientFrame(cfg, c, 0x8A, payload, PongHeard(c, payload));
    if |payload| == 2 {
      ClientFrame(cfg, c, 0x88, payload, ClosedWith(c, payload[0] as int * 256 + payload[1]));
    }
  }

  lemma ClientFrame(cfg: Config, c: Conn, b0: byte, payload: bytes, c1: Conn)
    requires cfg.isClient && cfg.cap >= 1024 && Between(c) && |payload| <= 125
    requires
      || (b0 == 0x89 && c1 == Ponged(c, payload))
      || (b0 == 0x8A && c1 == PongHeard(c, payload))
      || (b0 == 0x88 && |payload| == 2 && c1 == ClosedWith(c, payload[0] as int * 256 + payload[1]))
    ensures OnData(cfg, c, [b0, |payload|] + payload) == c1
  {
    var push: bytes := [b0, |payload|] + payload;
    var h := ControlHeader(b0 - 128, None, |payload|);
    ShortHeader(b0, payload, h);
    HandleControl(cfg, c.(buf := push), b0 - 128, None, payload);
    FramePush(cfg, c, push, h, 2, payload, c1);
  }

  /** So does a server, whose peer masks the payload. */
  lemma ServerControl(cfg: Config, c: Conn, key: Key, data: bytes, payload: bytes)
    requires !cfg.isClient && cfg.cap >= 1024 && Between(c) && |data| <= 125 && Flipped(data, key, 0, payload)
    ensures OnData(cfg, c, [0x89, 128 + |data|] + key + data) == c.(events := c.events + [PongSent(payload)])
    ensures OnData(cfg, c, [0x8A, 128 + |data|] + key + data) == c.(events := c.events + [PongSeen(payload)])
    ensures |data| == 2 ==>
      OnData(cfg, c, [0x88, 130] + key + data) == ClosedWith(c, payload[0] as int * 256 + payload[1])
  {
    ServerFrame(cfg, c, 0x89, key, data, payload, Ponged(c, payload));
    ServerFrame(cfg, c, 0x8A, key, data, payload, PongHeard(c, payload));
    if |data| == 2 {
      ServerFrame(cfg, c, 0x88, key, data, payload, ClosedWith(c, payload[0] as int * 256 + payload[1]));
    }
  }

  lemma ServerFrame(cfg: Config, c: Conn, b0: byte, key: Key, data: bytes, payload: bytes, c1: Conn)
    requires !cfg.isClient && cfg.cap >= 1024 && Between(c) && |data| <= 125 && Flipped(data, key, 0, payload)
    requires
      || (b0 == 0x89 && c1 == Ponged(c, payload))
      || (b0 == 0x8A && c1 == PongHeard(c, payload))
      || (b0 == 0x88 && |payload| == 2 && c1 == ClosedWith(c, payload[0] as int * 256 + payload[1]))
    ensures OnData(cfg, c, [b0, 128 + |data|] + key + data) == c1
  {
    var push: bytes := [b0, 128 + |data|] + key + data;
    var h := ControlHeader(b0 - 128, Some(key), |data|);
    MaskedHeader(b0, key, data, h);
    MaskExactly(data, key, 0, payload);
    HandleControl(cfg, c.(buf := push), b0 - 128, Some(key), payload);
    FramePush(cfg, c, push, h, 6, payload, c1);
  }

  // ---------------------------------------------------------------- a masked text

  const SERVER := Config(1024, false, false, true)

  const HELLO_KEY: Key := [0x37, 0xFA, 0x21, 0x3D]
  const HELLO_DATA: bytes := [0x7F, 0x9F, 0x4D, 0x51, 0x58]
  const HELLO: bytes := [0x48, 0x65, 0x6C, 0x6C, 0x6F]

  lemma HelloFlipped()
    ensures Flipped(HELLO_DATA, HELLO_KEY, 0, HELLO)
  {
    var s, r := HELLO_DATA, HELLO;
    assert ExclusiveOr(s[0], 0x37, r[0]) && ExclusiveOr(s[1], 0xFA, r[1]) && ExclusiveOr(s[2], 0x21, r[2]);
    assert ExclusiveOr(s[3], 0x3D, r[3]) && ExclusiveOr(s[4], 0x37, r[4]);
  }

  lemma ChunksMasked(was: bytes, mid: bytes, now: bytes, cut: nat, key: Key)
    requires cut <= |was| == |mid| == |now|
    requires mid[0..cut] == Mask(was[0..cut], key, 0) && now[cut..|was|] == Mask(mid[cut..|was|], key, cut)
    requires mid[cut..|was|] == was[cut..|was|] && now[0..cut] == mid[0..cut]
    ensures now == Mask(was, key, 0)
  {
    assert was == was[0..cut] + was[cut..|was|] && now == now[0..cut] + now[cut..|was|];
    MaskConcat(was[0..cut], was[cut..|was|], key, 0);
  }

  /** Wherever a payload is cut, unmasking the two chunks with the running offset gives the clear bytes. */
  method UnmaskChunks(buf: array<byte>, cut: nat, key: Key, ghost clear: bytes)
    requires cut <= buf.Length && Flipped(buf[..], key, 0, clear)
    modifies buf
    ensures buf[..] == clear
  {
    ghost var was, n := buf[..], buf.Length;
    MaskExactly(was, key, 0, clear);
    ApplyMask(buf, 0, cut, key, 0);
    ghost var mid := buf[..];
    SameSlice(was, mid, cut, n);
    ApplyMask(buf, cut, buf.Length, key, cut);
    SameSlice(mid, buf[..], 0, cut);
    ChunksMasked(was, mid, buf[..], cut, key);
  }

  /** Four different key bytes, in chunks of three and two. */
  method UnmaskHello(buf: array<byte>)
    requires buf[..] == HELLO_DATA
    modifies buf
    ensures buf[..] == HELLO
  {
    HelloFlipped();
    UnmaskChunks(buf, 3, HELLO_KEY, HELLO);
  }

  const HELLO_FRAME: bytes := [0x81, 0x85, 0x37, 0xFA, 0x21, 0x3D, 0x7F, 0x9F, 0x4D, 0x51, 0x58]
  const HELLO_HEADER := Header(true, false, false, false, 1, Some(HELLO_KEY), 5)

  /** The reference reads one text message. */
  lemma HelloReads()
    ensures ReadFrames(SERVER, START, HELLO_FRAME) == Read(START.(items := [Plain(false, HELLO)]), [])
  {
    var r1 := START.(items := [Plain(false, HELLO)]);
    MaskedHeader(0x81, HELLO_KEY, HELLO_DATA, HELLO_HEADER);
    assert [0x81, 0x85] + HELLO_KEY + HELLO_DATA == HELLO_FRAME;
    HelloFlipped();
    MaskExactly(HELLO_DATA, HELLO_KEY, 0, HELLO);
    assert HELLO_FRAME[6..11] == HELLO_DATA && HELLO_FRAME[11..] == [];
    ReadWhole(SERVER, START, HELLO_FRAME, HELLO_HEADER, 6);
    HelloFrame(r1);
  }

  lemma HelloFrame(r1: Ref)
    requires r1 == START.(items := [Plain(false, HELLO)])
    ensures RefFrame(SERVER, START, HELLO_HEADER, HELLO) == r1
  {
    HelloValid();
    assert [] + HELLO == HELLO;
  }

  lemma HelloValid()
    ensures Utf8.Valid(HELLO)
  {
    assert HELLO[1..] == [0x65, 0x6C, 0x6C, 0x6F] && HELLO[1..][1..] == [0x6C, 0x6C, 0x6F];
    assert [0x6C, 0x6C, 0x6F][1..] == [0x6C, 0x6F] && [0x6C, 0x6F][1..] == [0x6F] && [0x6F][1..] == [];
  }

  /** However these eleven bytes are cut, a server delivers one text message, "Hello". */
  lemma HelloDelivered(leftover: bytes, pushes: seq<bytes>)
    requires Transport(SERVER, leftover, pushes) && leftover + Flatten(pushes) == HELLO_FRAME
    ensures
      var c := Run(SERVER, leftover, pushes);
      c.status.Open? && c.buf == [] && |Fold(c.events).items| == 1
      && Fold(c.events).items[0] == GotPlain({false}, HELLO, Range(0, 5), true, 5, 0)
  {
    HelloReads();
    WholeFrames(SERVER, leftover, pushes);
    var g := Fold(Run(SERVER, leftover, pushes).events).items[0];
    assert Match(g, Plain(false, HELLO));
    CleanIsWhole(g, Plain(false, HELLO));
  }
}
