/**
 * What the WebSocket receive path computes, as functions on a value.
 *
 * A push of wire bytes is delivered along one of three paths that share the message state: whole
 * frames, accumulation of small fragments in `frag`, and streaming of frames larger than half the
 * receive buffer. The inflater is a sink: only what it is fed is modelled, and it never fails.
 */
module WsReceiver {
  import opened Bytes
  import opened WsFrame
  import Utf8

  /** `cap` is recv_cap; `checkUtf8` is the compile-time switch SEVENT_WS_UTF8_CHECK. */
  datatype Config = Config(cap: nat, isClient: bool, deflate: bool, checkUtf8: bool)

  /** Why the connection left OPEN. `Overflow` is the defensive branch of the push callback. */
  datatype Status = Open | ProtocolError | BadText | BadReason | PeerClosed(code: nat, reason: bytes) | Overflow

  /**
   * Everything observable. `from` and `held` are history: the offset of every byte within its
   * message, and how many accepted bytes stay behind in `frag` while the call is made.
   */
  datatype Event =
    | Message(data: bytes, from: seq<int>, held: nat, binary: bool, fin: bool, total: nat)
    | Inflate(data: bytes, from: seq<int>, held: nat)
    | InflateTail
    | InflatedFin(binary: bool)
    | PongSent(payload: bytes)
    | PongSeen(payload: bytes)

  datatype Mode = Idle | Frag | Stream

  /** The message in progress; `fragFrom` is history like `from`. */
  datatype Msg = Msg(mode: Mode, binary: bool, compressed: bool, total: nat, frag: bytes, fragFrom: seq<int>)

  /** The streamed frame in progress. */
  datatype Large = Large(remaining: nat, fin: bool, key: Option<Key>, off: nat)

  /** `buf` is the unconsumed part of recv_buf; it is dropped once the connection is closed. */
  datatype Conn = Conn(status: Status, buf: bytes, msg: Msg, large: Large, events: seq<Event>)

  const NO_MSG := Msg(Idle, false, false, 0, [], [])
  const NO_FRAME := Large(0, false, None, 0)

  function Min(a: nat, b: nat): nat {
    if a < b then a else b
  }

  /** The offsets `start`, `start + 1`, ... of `n` consecutive bytes. */
  function Range(start: int, n: nat): (r: seq<int>)
    ensures |r| == n
    ensures forall i :: 0 <= i < n ==> r[i] == start + i
  {
    seq(n, i => start + i)
  }

  function Unmask(key: Option<Key>, s: bytes, off: nat): (r: bytes)
    ensures |r| == |s|
  {
    if key.Some? then Mask(s, key.value, off) else s
  }

  // ---------------------------------------------------------------- message level

  function Begin(mode: Mode, h: Header): Msg {
    Msg(mode, h.opcode == OPCODE_BINARY, h.rsv1, 0, [], [])
  }

  function Cleared(m: Msg): Msg {
    m.(frag := [], fragFrom := [])
  }

  /** A piece of a message that does not end it. */
  function Piece(m: Msg, data: bytes, from: seq<int>, held: nat): Event {
    if m.compressed then Inflate(data, from, held) else Message(data, from, held, m.binary, false, 0)
  }

  /** A small fragment joins `frag`, after a flush when it does not fit. */
  function Append(cap: nat, m: Msg, data: bytes): Msg {
    var base := if |m.frag| + |data| > cap then Cleared(m) else m;
    m.(
      total := m.total + |data|,
      frag := base.frag + data, fragFrom := base.fragFrom + Range(m.total, |data|))
  }

  function AppendEvents(cap: nat, m: Msg, data: bytes): seq<Event> {
    if |m.frag| + |data| > cap then [Piece(m, m.frag, m.fragFrom, 0)] else []
  }

  /** After a fragment that does not end the message: a full `frag` goes to the inflater at once. */
  function Flush(cap: nat, m: Msg): Msg {
    if m.compressed && |m.frag| == cap then Cleared(m) else m
  }

  function FlushEvents(cap: nat, m: Msg): seq<Event> {
    if m.compressed && |m.frag| == cap then [Piece(m, m.frag, m.fragFrom, 0)] else []
  }

  /** The end of a message whose last fragment went through `frag`. */
  function EndEvents(cap: nat, m: Msg): seq<Event> {
    if !m.compressed then [Message(m.frag, m.fragFrom, 0, m.binary, true, m.total)]
    else
      (if m.frag == [] then [] else [Piece(m, m.frag, m.fragFrom, 0)])
      + [InflateTail]
      + (if |m.frag| == cap then [] else [InflatedFin(m.binary)])
  }

  /** The only bytes of a fragmented TEXT message that are checked: an end that does not fill `frag`. */
  predicate BadEnd(cfg: Config, m: Msg) {
    cfg.checkUtf8 && !m.compressed && !m.binary && 0 < |m.frag| < cfg.cap && !Utf8.Valid(m.frag)
  }

  /** The result of a data frame: the message left in progress and the calls made. */
  datatype Out = Out(msg: Msg, events: seq<Event>, bad: bool)

  function SingleFrame(cfg: Config, m: Msg, h: Header, payload: bytes): Out {
    var binary := h.opcode == OPCODE_BINARY;
    var from := Range(0, |payload|);
    if h.rsv1 then Out(m, [Inflate(payload, from, 0), InflateTail, InflatedFin(binary)], false)
    else if h.opcode == OPCODE_TEXT && cfg.checkUtf8 && !Utf8.Valid(payload) then Out(m, [], true)
    else Out(m, [Message(payload, from, 0, binary, true, h.len)], false)
  }

  /** The message a small fragment belongs to. */
  function Target(m: Msg, h: Header): Msg {
    if h.opcode == OPCODE_CONT then m else Begin(Frag, h)
  }

  function Fragment(cfg: Config, m0: Msg, h: Header, payload: bytes): Out {
    var m1 := Append(cfg.cap, m0, payload);
    var events := AppendEvents(cfg.cap, m0, payload);
    if !h.fin then Out(Flush(cfg.cap, m1), events + FlushEvents(cfg.cap, m1), false)
    else if BadEnd(cfg, m1) then Out(m1, events, true)
    else Out(NO_MSG, events + EndEvents(cfg.cap, m1), false)
  }

  /** A streamed chunk; `last` when it completes the final frame of the message. */
  function Chunk(m: Msg, data: bytes, start: int, last: bool): Out {
    var from := Range(start, |data|);
    if !m.compressed then
      Out(if last then NO_MSG else m,
          [Message(data, from, |m.frag|, m.binary, last, if last then m.total else 0)], false)
    else
      Out(if last then NO_MSG else m,
          [Inflate(data, from, |m.frag|)] + if last then [InflateTail, InflatedFin(m.binary)] else [], false)
  }

  // ---------------------------------------------------------------- connection level

  /** Nothing but the calls made so far matters once the connection is closed. */
  function Fail(c: Conn, why: Status): Conn {
    Conn(why, [], NO_MSG, NO_FRAME, c.events)
  }

  predicate CloseCodeValid(code: nat) {
    1000 <= code <= 4999 && !(1004 <= code <= 1006) && code != 1015 && !(1016 <= code <= 2999)
  }

  /** What a CLOSE frame with this payload makes of the connection. */
  function CloseVerdict(cfg: Config, payload: bytes): (s: Status)
    ensures s.ProtocolError? || s.BadReason? || s.PeerClosed?
  {
    if |payload| < 2 then PeerClosed(1000, [])
    else
      var code := payload[0] as int * 256 + payload[1];
      if !CloseCodeValid(code) then ProtocolError
      else if |payload| > 2 && cfg.checkUtf8 && !Utf8.Valid(payload[2..]) then BadReason
      else PeerClosed(code, payload[2..])
  }

  /** The codes that section 7.4 of RFC 6455 and the registry it sets up let a CLOSE frame carry. */
  predicate StandardCode(code: nat) {
    1000 <= code <= 1003 || 1007 <= code <= 1014 || 3000 <= code <= 4999
  }

  function CodeOf(payload: bytes): nat
    requires |payload| >= 2
  {
    payload[0] as int * 256 + payload[1]
  }

  /** A CLOSE body by section 5.5.1 of RFC 6455: nothing, or a code and a reason in UTF-8. */
  ghost predicate CloseBodyOk(payload: bytes) {
    payload == [] || (|payload| >= 2 && StandardCode(CodeOf(payload)) && Utf8.IsUtf8(payload[2..]))
  }

  /**
   * With the UTF-8 check, a CLOSE frame is taken as one exactly when its body follows section 5.5.1
   * or is a single byte; a code that may not be sent is a protocol error, a reason that is not UTF-8
   * has its own status, and a body without a code counts as code 1000.
   */
  lemma CloseExactly(cfg: Config, payload: bytes)
    requires cfg.checkUtf8
    ensures CloseVerdict(cfg, payload).PeerClosed? <==> CloseBodyOk(payload) || |payload| == 1
    ensures |payload| <= 1 ==> CloseVerdict(cfg, payload) == PeerClosed(1000, [])
    ensures |payload| >= 2 ==>
      CloseVerdict(cfg, payload)
        == if !StandardCode(CodeOf(payload)) then ProtocolError
           else if !Utf8.IsUtf8(payload[2..]) then BadReason else PeerClosed(CodeOf(payload), payload[2..])
  {
    if |payload| >= 2 {
      Utf8.ValidIffUtf8(payload[2..]);
    }
  }

  /** The checks of the normal branch, for a frame that is complete in the buffer. */
  predicate Rejects(cfg: Config, mode: Mode, h: Header) {
    || h.key.Some? == cfg.isClient
    || h.rsv2 || h.rsv3
    || (h.rsv1 && (h.opcode >= 8 || !cfg.deflate || h.opcode == OPCODE_CONT))
    || if h.rsv1 && h.fin then mode != Idle
       else
         || (h.opcode >= 8 && (h.len > 125 || !h.fin))
         || ((h.opcode == OPCODE_TEXT || h.opcode == OPCODE_BINARY) && mode != Idle)
         || (h.opcode == OPCODE_CONT && mode == Idle)
         || h.opcode !in {OPCODE_CONT, OPCODE_TEXT, OPCODE_BINARY, OPCODE_CLOSE, OPCODE_PING, OPCODE_PONG}
  }

  /** The checks of the streaming branch. */
  predicate StreamRejects(cfg: Config, mode: Mode, h: Header) {
    || h.rsv2 || h.rsv3
    || (h.rsv1 && (!cfg.deflate || h.opcode == OPCODE_CONT))
    || h.key.Some? == cfg.isClient
    || (if mode == Idle then h.opcode != OPCODE_TEXT && h.opcode != OPCODE_BINARY else h.opcode != OPCODE_CONT)
  }

  function HandleFrame(cfg: Config, c: Conn, h: Header, payload: bytes): Conn {
    if Rejects(cfg, c.msg.mode, h) then Fail(c, ProtocolError)
    else if h.opcode == OPCODE_CLOSE then Fail(c, CloseVerdict(cfg, payload))
    else if h.opcode == OPCODE_PING then c.(events := c.events + [PongSent(payload)])
    else if h.opcode == OPCODE_PONG then c.(events := c.events + [PongSeen(payload)])
    else
      var out :=
        if h.fin && h.opcode != OPCODE_CONT then SingleFrame(cfg, c.msg, h, payload)
        else Fragment(cfg, Target(c.msg, h), h, payload);
      var c1 := c.(msg := out.msg, events := c.events + out.events);
      if out.bad then Fail(c1, BadText) else c1
  }

  /** Consumes what the buffer holds of the streamed frame in progress. */
  function StreamConsume(c: Conn): Conn {
    var n := Min(|c.buf|, c.large.remaining);
    if n == 0 then c
    else
      var data := Unmask(c.large.key, c.buf[..n], c.large.off);
      var left := c.large.remaining - n;
      var out := Chunk(c.msg, data, c.msg.total - c.large.remaining, left == 0 && c.large.fin);
      c.(
        buf := c.buf[n..], msg := out.msg, events := c.events + out.events,
        large := c.large.(remaining := left, off := c.large.off + n))
  }

  /** Accumulated fragments leave `frag` before the message switches to streaming. */
  function SwitchToStream(m: Msg, h: Header): Msg {
    var m0 := if m.mode == Idle then Begin(Stream, h) else if m.mode == Frag then Cleared(m).(mode := Stream) else m;
    m0.(total := m0.total + h.len)
  }

  function SwitchEvents(m: Msg): seq<Event> {
    if m.mode == Frag && m.frag != [] then [Piece(m, m.frag, m.fragFrom, 0)] else []
  }

  /** The streaming branch, for a frame of more than cap / 2 bytes that is not complete yet. */
  function StartStream(cfg: Config, c: Conn, h: Header, n: nat): Conn
    requires n <= |c.buf|
  {
    if StreamRejects(cfg, c.msg.mode, h) then Fail(c, ProtocolError)
    else
      StreamConsume(c.(
        buf := c.buf[n..], msg := SwitchToStream(c.msg, h), events := c.events + SwitchEvents(c.msg),
        large := Large(h.len, h.fin, h.key, 0)))
  }

  /** One iteration of the frame loop, and whether the loop goes on. */
  datatype Next = Next(conn: Conn, more: bool)

  function Step(cfg: Config, c: Conn): (r: Next)
    ensures r.more ==> |r.conn.buf| < |c.buf|
  {
    StepOn(cfg, c, ParseHeader(c.buf))
  }

  function StepOn(cfg: Config, c: Conn, p: Parsed): (r: Next)
    requires p.Complete? ==> 0 < p.size <= |c.buf|
    ensures r.more ==> |r.conn.buf| < |c.buf|
  {
    match p
    case NeedMore => Next(c, false)
    case Invalid => Next(Fail(c, ProtocolError), false)
    case Complete(h, n) =>
      if |c.buf| >= n + h.len then
        After(HandleFrame(cfg, c, h, Unmask(h.key, c.buf[n..n + h.len], 0)), c.buf[n + h.len..])
      else Next(if n + h.len > cfg.cap / 2 then StartStream(cfg, c, h, n) else c, false)
  }

  /** Goes on with the bytes after a frame unless the frame closed the connection. */
  function After(c: Conn, rest: bytes): Next {
    if c.status.Open? then Next(c.(buf := rest), true) else Next(c, false)
  }

  /** The frame loop: every complete frame, then possibly the start of a streamed one. */
  function ProcessFrames(cfg: Config, c: Conn): Conn
    decreases |c.buf|
  {
    var next := Step(cfg, c);
    if next.more then ProcessFrames(cfg, next.conn) else next.conn
  }

  lemma StepWhole(cfg: Config, c: Conn, h: Header, n: nat)
    requires 0 < n <= |c.buf| && |c.buf| >= n + h.len
    ensures StepOn(cfg, c, Complete(h, n))
      == After(HandleFrame(cfg, c, h, Unmask(h.key, c.buf[n..n + h.len], 0)), c.buf[n + h.len..])
  {
  }

  lemma ProcessNext(cfg: Config, c: Conn, next: Next)
    requires Step(cfg, c) == next
    ensures ProcessFrames(cfg, c) == if next.more then ProcessFrames(cfg, next.conn) else next.conn
  {
  }

  function FrameData(cfg: Config, c: Conn): Conn {
    var c1 := StreamConsume(c);
    if c1.large.remaining == 0 then ProcessFrames(cfg, c1) else c1
  }

  /** One push from the transport. */
  function OnData(cfg: Config, c: Conn, data: bytes): Conn {
    if !c.status.Open? then c
    else if |c.buf| + |data| > cfg.cap then Fail(c, Overflow)
    else FrameData(cfg, c.(buf := c.buf + data))
  }

  /** The state when the handshake completes with `leftover` bytes already in the buffer. */
  function Initial(leftover: bytes): Conn {
    Conn(Open, leftover, NO_MSG, NO_FRAME, [])
  }

  /** The connection after every push in order. */
  function RunFrom(cfg: Config, c: Conn, pushes: seq<bytes>): Conn
    decreases |pushes|
  {
    if pushes == [] then c else RunFrom(cfg, OnData(cfg, c, pushes[0]), pushes[1..])
  }

  /** A whole connection: what the handshake left in the buffer, then every push. */
  function Run(cfg: Config, leftover: bytes, pushes: seq<bytes>): Conn {
    RunFrom(cfg, ProcessFrames(cfg, Initial(leftover)), pushes)
  }

  /** The transport pushes at most half the buffer at a time. */
  ghost predicate Transport(cfg: Config, leftover: bytes, pushes: seq<bytes>) {
    cfg.cap >= 1024 && |leftover| <= cfg.cap && Pushes(cfg, pushes)
  }

  ghost predicate Pushes(cfg: Config, pushes: seq<bytes>) {
    forall i :: 0 <= i < |pushes| ==> |pushes[i]| <= cfg.cap / 2
  }

  // ---------------------------------------------------------------- the receive buffer never overflows

  /** What holds between pushes: the message state is consistent and the residue fits half the buffer. */
  ghost predicate Wf(cfg: Config, c: Conn) {
    && cfg.cap >= 1024
    && |c.msg.frag| == |c.msg.fragFrom| <= cfg.cap
    && (c.large.remaining > 0 ==> c.msg.mode == Stream)
    && (c.msg.mode == Idle ==> c.msg == NO_MSG)
  }

  ghost predicate Settled(cfg: Config, c: Conn) {
    Wf(cfg, c) && (c.status.Open? ==> |c.buf| <= cfg.cap / 2 && (c.large.remaining > 0 ==> c.buf == []))
  }

  lemma StreamConsumeWf(cfg: Config, c: Conn)
    requires Wf(cfg, c)
    ensures var r := StreamConsume(c);
      Wf(cfg, r) && r.status == c.status && r.buf == c.buf[Min(|c.buf|, c.large.remaining)..]
  {
  }

  lemma HandleFrameWf(cfg: Config, c: Conn, h: Header, payload: bytes)
    requires Wf(cfg, c) && c.status.Open? && c.large.remaining == 0 && |payload| <= cfg.cap
    ensures var r := HandleFrame(cfg, c, h, payload);
      && Wf(cfg, r) && r.status != Overflow
      && (r.status.Open? ==> r.buf == c.buf && r.large == c.large)
  {
  }

  lemma StartStreamWf(cfg: Config, c: Conn, h: Header, n: nat)
    requires Wf(cfg, c) && c.status.Open? && c.large.remaining == 0 && n <= |c.buf| < n + h.len
    ensures var r := StartStream(cfg, c, h, n);
      && Wf(cfg, r) && r.status != Overflow
      && (r.status.Open? ==> r.buf == [] && r.large.remaining > 0)
  {
  }

  ghost predicate NextOk(cfg: Config, c: Conn, r: Next) {
    && Wf(cfg, r.conn) && r.conn.status != Overflow
    && (if r.more then r.conn.status.Open? && r.conn.large == c.large else Settled(cfg, r.conn))
  }

  lemma StepWholeWf(cfg: Config, c: Conn, h: Header, n: nat)
    requires Wf(cfg, c) && c.status.Open? && c.large.remaining == 0 && n + h.len <= |c.buf| <= cfg.cap
    ensures NextOk(cfg, c, After(HandleFrame(cfg, c, h, Unmask(h.key, c.buf[n..n + h.len], 0)), c.buf[n + h.len..]))
  {
    HandleFrameWf(cfg, c, h, Unmask(h.key, c.buf[n..n + h.len], 0));
  }

  lemma StepStreamWf(cfg: Config, c: Conn, h: Header, n: nat)
    requires Wf(cfg, c) && c.status.Open? && c.large.remaining == 0 && n <= |c.buf| < n + h.len
    ensures NextOk(cfg, c, Next(if n + h.len > cfg.cap / 2 then StartStream(cfg, c, h, n) else c, false))
  {
    StartStreamWf(cfg, c, h, n);
  }

  lemma StepWf(cfg: Config, c: Conn, p: Parsed, next: Next)
    requires Wf(cfg, c) && c.status.Open? && c.large.remaining == 0 && |c.buf| <= cfg.cap
    requires (p.NeedMore? ==> |c.buf| < 14) && (p.Complete? ==> 0 < p.size <= |c.buf|)
    requires next == StepOn(cfg, c, p)
    ensures NextOk(cfg, c, next)
  {
    match p
    case NeedMore =>
      assert NextOk(cfg, c, Next(c, false));
    case Invalid =>
      assert NextOk(cfg, c, Next(Fail(c, ProtocolError), false));
    case Complete(h, n) =>
      if |c.buf| >= n + h.len {
        StepWhole(cfg, c, h, n);
        StepWholeWf(cfg, c, h, n);
      } else {
        StepStreamWf(cfg, c, h, n);
      }
  }

  lemma {:induction false} ProcessFramesSettles(cfg: Config, c: Conn)
    requires Wf(cfg, c) && c.status.Open? && c.large.remaining == 0 && |c.buf| <= cfg.cap
    ensures var r := ProcessFrames(cfg, c); Settled(cfg, r) && r.status != Overflow
    decreases |c.buf|
  {
    var next := Step(cfg, c);
    StepWf(cfg, c, ParseHeader(c.buf), next);
    if next.more {
      ProcessFramesSettles(cfg, next.conn);
    }
  }

  lemma OnDataSettles(cfg: Config, c: Conn, data: bytes)
    requires Settled(cfg, c)
    ensures var r := OnData(cfg, c, data);
      Settled(cfg, r) && (c.status != Overflow && |data| <= cfg.cap / 2 ==> r.status != Overflow)
  {
    if c.status.Open? && |c.buf| + |data| <= cfg.cap {
      var d := c.(buf := c.buf + data);
      StreamConsumeWf(cfg, d);
      var e := StreamConsume(d);
      if e.large.remaining == 0 {
        ProcessFramesSettles(cfg, e);
      }
    }
  }

  lemma {:induction false} PushesSettle(cfg: Config, c: Conn, pushes: seq<bytes>)
    requires Settled(cfg, c) && c.status != Overflow && Pushes(cfg, pushes)
    ensures var r := RunFrom(cfg, c, pushes); Settled(cfg, r) && r.status != Overflow
    decreases |pushes|
  {
    if pushes != [] {
      var c1 := OnData(cfg, c, pushes[0]);
      OnDataSettles(cfg, c, pushes[0]);
      PushesSettle(cfg, c1, pushes[1..]);
    }
  }

  /** Pushes of at most cap / 2 never reach the overflow branch, whatever the bytes are. */
  lemma NeverOverflows(cfg: Config, leftover: bytes, pushes: seq<bytes>)
    requires Transport(cfg, leftover, pushes)
    ensures var c := Run(cfg, leftover, pushes); Settled(cfg, c) && c.status != Overflow
  {
    var c := ProcessFrames(cfg, Initial(leftover));
    ProcessFramesSettles(cfg, Initial(leftover));
    PushesSettle(cfg, c, pushes);
  }
}
