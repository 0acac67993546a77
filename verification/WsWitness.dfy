/** Where the receive path departs from the reference, and the input that shows it. */
module WsWitness {
  import opened Bytes
  import opened WsFrame
  import opened WsReceiver
  import opened WsReassembly
  import Utf8

  /** A client without compression; 600 byte payloads are streamed when they arrive in halves. */
  const CLIENT := Config(1024, true, false, false)

  const LARGE_FIRST: bytes := [0x02, 126, 2, 88]
  const LARGE_LAST: bytes := [0x80, 126, 2, 88]

  /** The same client with the UTF-8 check. */
  const CHECKED := CLIENT.(checkUtf8 := true)

  predicate Plainly(cfg: Config) {
    cfg.cap == 1024 && cfg.isClient && !cfg.deflate
  }

  /** A header with a two-byte length and without mask. */
  lemma LongHeader(b0: byte, hi: byte, lo: byte, payload: bytes)
    ensures ParseHeader([b0, 126, hi, lo] + payload) == Complete(
      Header(b0 >= 128, b0 / 64 % 2 == 1, b0 / 32 % 2 == 1, b0 / 16 % 2 == 1, b0 % 16, None, hi as int * 256 + lo), 4)
  {
    var length: bytes := [hi, lo];
    assert FromBigEndian([hi]) == hi by {
      assert [hi][..0] == [];
    }
    assert FromBigEndian(length) == hi as int * 256 + lo by {
      assert length[..1] == [hi];
    }
    assert ([b0, 126, hi, lo] + payload)[2..4] == length;
  }

  /** The connection once a push has started a streamed frame. */
  function Started(c: Conn, h: Header, data: bytes): Conn
    requires |data| < h.len
  {
    var m := SwitchToStream(c.msg, h);
    Conn(
      Open, [], m, Large(h.len - |data|, h.fin, None, |data|),
      c.events + SwitchEvents(c.msg) + Chunk(m, data, m.total - h.len, false).events)
  }

  /** A push that starts a streamed frame. */
  lemma StartPush(cfg: Config, c: Conn, h: Header, push: bytes, c1: Conn)
    requires Plainly(cfg)
    requires c.status.Open? && c.buf == [] && c.large.remaining == 0
    requires ParseHeader(push) == Complete(h, 4) && 4 < |push| < 4 + h.len && |push| <= 1024 && h.len >= 512
    requires !StreamRejects(cfg, c.msg.mode, h) && h.key == None && c1 == Started(c, h, push[4..])
    ensures OnData(cfg, c, push) == c1
  {
    assert c.buf + push == push;
    var d := c.(buf := push);
    StartValue(cfg, d, h, c1);
    StartStep(cfg, d, h, c1);
    NothingToConsume(cfg, d, c1);
  }

  lemma StartValue(cfg: Config, d: Conn, h: Header, d1: Conn)
    requires Plainly(cfg)
    requires d.status.Open? && 4 < |d.buf| < 4 + h.len && !StreamRejects(cfg, d.msg.mode, h) && h.key == None
    requires d1 == Started(d, h, d.buf[4..])
    ensures StartStream(cfg, d, h, 4) == d1
  {
    var data := d.buf[4..];
    assert data[..|data|] == data && data[|data|..] == [];
  }

  lemma NothingToConsume(cfg: Config, d: Conn, d1: Conn)
    requires d.large.remaining == 0 && ProcessFrames(cfg, d) == d1
    ensures FrameData(cfg, d) == d1
  {
    assert StreamConsume(d) == d;
  }

  lemma StartStep(cfg: Config, d: Conn, h: Header, d1: Conn)
    requires cfg.cap == 1024
    requires ParseHeader(d.buf) == Complete(h, 4) && 4 < |d.buf| < 4 + h.len && h.len >= 512
    requires StartStream(cfg, d, h, 4) == d1
    ensures ProcessFrames(cfg, d) == d1
  {
    var next := Step(cfg, d);
    assert StepOn(cfg, d, Complete(h, 4)) == Next(d1, false);
    ProcessNext(cfg, d, next);
  }

  /** A push that completes a streamed frame exactly. */
  lemma FinishPush(cfg: Config, c: Conn, push: bytes)
    requires Plainly(cfg)
    requires c.status.Open? && c.buf == [] && c.large.remaining == |push| && c.large.key == None && 0 < |push| <= 1024
    ensures
      var out := Chunk(c.msg, push, c.msg.total - |push|, c.large.fin);
      OnData(cfg, c, push) == Conn(
        Open, [], out.msg, c.large.(remaining := 0, off := c.large.off + |push|), c.events + out.events)
  {
    assert c.buf + push == push && push[..|push|] == push;
    var d := StreamConsume(c.(buf := push));
    assert d.buf == [] && ParseHeader(d.buf) == NeedMore;
    assert ProcessFrames(cfg, d) == d;
  }

  /** A small CONT frame that arrives whole in the middle of a streamed message. */
  lemma SmallPush(c: Conn, b: byte)
    requires c.status.Open? && c.buf == [] && c.large.remaining == 0
    requires c.msg.mode == Stream && !c.msg.compressed && c.msg.frag == [] && c.msg.fragFrom == []
    ensures OnData(CLIENT, c, [0x00, 1, b])
      == c.(msg := c.msg.(total := c.msg.total + 1, frag := [b], fragFrom := [c.msg.total]))
  {
    var push: bytes := [0x00, 1, b];
    var h := Header(false, false, false, false, 0, None, 1);
    var d := c.(buf := push);
    var c1 := c.(msg := c.msg.(total := c.msg.total + 1, frag := [b], fragFrom := [c.msg.total]));
    assert c.buf + push == push && StreamConsume(d) == d && StreamConsume(c1) == c1;
    SmallHeader(b);
    SmallFrame(d, h, b);
    StepWhole(CLIENT, d, h, 2);
    ProcessNext(CLIENT, d, Next(c1, true));
    assert c1.(buf := []) == c1;
    assert ProcessFrames(CLIENT, c1) == c1 by {
      assert Step(CLIENT, c1) == Next(c1, false);
    }
  }

  lemma SmallHeader(b: byte)
    ensures ParseHeader([0x00, 1, b]) == Complete(Header(false, false, false, false, 0, None, 1), 2)
    ensures [0x00, 1, b][2..3] == [b] && [0x00, 1, b][3..] == []
  {
  }

  lemma SmallFrame(c: Conn, h: Header, b: byte)
    requires c.status.Open? && h == Header(false, false, false, false, 0, None, 1)
    requires c.msg.mode == Stream && !c.msg.compressed && c.msg.frag == [] && c.msg.fragFrom == []
    ensures HandleFrame(CLIENT, c, h, [b])
      == c.(msg := c.msg.(total := c.msg.total + 1, frag := [b], fragFrom := [c.msg.total]))
  {
    var none: seq<Event> := [];
    assert none + none == none && c.events + none == c.events;
    assert Range(c.msg.total, 1) == [c.msg.total];
    var m1 := Append(1024, c.msg, [b]);
    assert m1 == c.msg.(total := c.msg.total + 1, frag := [b], fragFrom := [c.msg.total]);
    assert Fragment(CLIENT, c.msg, h, [b]) == Out(m1, [], false);
  }

  const FIRST := Header(false, false, false, false, 2, None, 600)
  const LAST := Header(true, false, false, false, 0, None, 600)

  function InMessage(total: nat, frag: bytes, fragFrom: seq<int>, large: Large, events: seq<Event>): Conn {
    Conn(Open, [], Msg(Stream, true, false, total, frag, fragFrom), large, events)
  }

  lemma FirstHalves(x1: bytes, x2: bytes)
    requires |x1| == |x2| == 300
    ensures
      var e1, e2 := Message(x1, Range(0, 300), 0, true, false, 0), Message(x2, Range(300, 300), 0, true, false, 0);
      OnData(CLIENT, OnData(CLIENT, Initial([]), LARGE_FIRST + x1), x2)
        == InMessage(600, [], [], Large(0, false, None, 600), [e1, e2])
  {
    var e1 := Message(x1, Range(0, 300), 0, true, false, 0);
    var c1 := InMessage(600, [], [], Large(300, false, None, 300), [e1]);
    LongHeader(0x02, 2, 88, x1);
    assert (LARGE_FIRST + x1)[4..] == x1;
    assert Started(Initial([]), FIRST, x1) == c1;
    StartPush(CLIENT, Initial([]), FIRST, LARGE_FIRST + x1, c1);
    FinishPush(CLIENT, c1, x2);
  }

  lemma LastHalves(c: Conn, b: byte, y1: bytes, y2: bytes, events: seq<Event>)
    requires |y1| == |y2| == 300 && c == InMessage(601, [b], [600], Large(0, false, None, 600), events)
    ensures
      var e1, e2 := Message(y1, Range(601, 300), 1, true, false, 0), Message(y2, Range(901, 300), 1, true, true, 1201);
      OnData(CLIENT, OnData(CLIENT, c, LARGE_LAST + y1), y2)
        == Conn(Open, [], NO_MSG, Large(0, true, None, 600), events + [e1] + [e2])
  {
    var e1 := Message(y1, Range(601, 300), 1, true, false, 0);
    var c1 := InMessage(1201, [b], [600], Large(300, true, None, 300), events + [e1]);
    LongHeader(0x80, 2, 88, y1);
    assert (LARGE_LAST + y1)[4..] == y1;
    assert events + [] == events;
    assert Started(c, LAST, y1) == c1;
    StartPush(CLIENT, c, LAST, LARGE_LAST + y1, c1);
    FinishPush(CLIENT, c1, y2);
  }

  /**
   * A one byte fragment between two streamed ones is overtaken and then lost: the callbacks carry
   * 1200 bytes while fin announces 1201. The reference reads all 1201.
   */
  lemma FragmentLost(x1: bytes, x2: bytes, b: byte, y1: bytes, y2: bytes)
    requires |x1| == |x2| == |y1| == |y2| == 300
    ensures
      var pushes := [LARGE_FIRST + x1, x2, [0x00, 1, b], LARGE_LAST + y1, y2];
      var c := Run(CLIENT, [], pushes);
      c.status.Open? && c.events == [
        Message(x1, Range(0, 300), 0, true, false, 0), Message(x2, Range(300, 300), 0, true, false, 0)]
        + [Message(y1, Range(601, 300), 1, true, false, 0)] + [Message(y2, Range(901, 300), 1, true, true, 1201)]
  {
    var events := [Message(x1, Range(0, 300), 0, true, false, 0), Message(x2, Range(300, 300), 0, true, false, 0)];
    FirstHalves(x1, x2);
    var c2 := InMessage(600, [], [], Large(0, false, None, 600), events);
    SmallPush(c2, b);
    LastHalves(InMessage(601, [b], [600], Large(0, false, None, 600), events), b, y1, y2, events);
    RunFive(Initial([]), [LARGE_FIRST + x1, x2, [0x00, 1, b], LARGE_LAST + y1, y2]);
    assert ProcessFrames(CLIENT, Initial([])) == Initial([]) by {
      assert Step(CLIENT, Initial([])) == Next(Initial([]), false);
    }
  }

  lemma RunFive(c: Conn, p: seq<bytes>)
    requires |p| == 5
    ensures RunFrom(CLIENT, c, p)
      == OnData(CLIENT, OnData(CLIENT, OnData(CLIENT, OnData(CLIENT, OnData(CLIENT, c, p[0]), p[1]), p[2]), p[3]), p[4])
  {
    RunOne(CLIENT, c, p);
    var c1 := OnData(CLIENT, c, p[0]);
    RunOne(CLIENT, c1, p[1..]);
    var c2 := OnData(CLIENT, c1, p[1]);
    RunOne(CLIENT, c2, p[2..]);
    var c3 := OnData(CLIENT, c2, p[2]);
    RunOne(CLIENT, c3, p[3..]);
    var c4 := OnData(CLIENT, c3, p[3]);
    RunOne(CLIENT, c4, p[4..]);
    assert p[1..][1..] == p[2..] && p[2..][1..] == p[3..] && p[3..][1..] == p[4..] && p[4..][1..] == [];
    assert RunFrom(CLIENT, OnData(CLIENT, c4, p[4]), []) == OnData(CLIENT, c4, p[4]);
  }

  lemma RunOne(cfg: Config, c: Conn, p: seq<bytes>)
    requires p != []
    ensures RunFrom(cfg, c, p) == RunFrom(cfg, OnData(cfg, c, p[0]), p[1..])
  {
  }

  /** A TEXT frame with bytes that are not UTF-8 closes the connection only when it arrives whole. */
  lemma TextVerdictDependsOnCut(cfg: Config, c: Conn, s: Conn, r: Ref, h: Header, raw: bytes, rest: bytes)
    requires cfg.checkUtf8 && h.opcode == OPCODE_TEXT && h.fin && !h.rsv1
    requires c.status.Open? && AtBoundary(cfg, c, r)
    requires s.status.Open? && InsideFrame(cfg, s, r, h, raw) && s.buf == rest && |raw + rest| == h.len
    requires !Utf8.IsUtf8(Unmask(h.key, raw + rest, 0))
    ensures HandleFrame(cfg, c, h, Unmask(h.key, raw + rest, 0)).status == BadText
    ensures StreamConsume(s).status.Open?
    ensures AtBoundary(cfg, StreamConsume(s), RefFrame(cfg, r, h, Unmask(h.key, raw + rest, 0)))
  {
    Utf8.ValidIffUtf8(Unmask(h.key, raw + rest, 0));
    RejectsExactly(cfg, c.msg.mode, h);
    ConsumeRest(cfg, s, r, h, raw, |rest|);
    assert rest[..|rest|] == rest;
  }

  // ---------------------------------------------------------------- TEXT on the wire

  const TEXT_WHOLE: bytes := [0x81, 126, 2, 88]
  const TEXT_FIRST: bytes := [0x01, 126, 2, 88]

  function InText(large: Large, events: seq<Event>): Conn {
    Conn(Open, [], Msg(Stream, false, false, 600, [], []), large, events)
  }

  /** The first half of a TEXT frame of 600 bytes; `fin` says whether it ends the message. */
  lemma TextHalf(fin: bool, x: bytes)
    requires |x| == 300
    ensures
      var b0: byte := if fin then 0x81 else 0x01;
      OnData(CHECKED, Initial([]), [b0, 126, 2, 88] + x)
        == InText(Large(300, fin, None, 300), [Message(x, Range(0, 300), 0, false, false, 0)])
  {
    var b0: byte := if fin then 0x81 else 0x01;
    var h := Header(fin, false, false, false, 1, None, 600);
    var push := [b0, 126, 2, 88] + x;
    var c1 := InText(Large(300, fin, None, 300), [Message(x, Range(0, 300), 0, false, false, 0)]);
    LongHeader(b0, 2, 88, x);
    assert push[4..] == x;
    assert Started(Initial([]), h, x) == c1;
    StartPush(CHECKED, Initial([]), h, push, c1);
  }

  lemma NothingReceived(cfg: Config)
    ensures ProcessFrames(cfg, Initial([])) == Initial([])
  {
    assert Step(cfg, Initial([])) == Next(Initial([]), false);
  }

  /** Streamed in two pushes, a TEXT frame is delivered whatever its bytes are. */
  lemma TextStreamed(x1: bytes, x2: bytes)
    requires |x1| == |x2| == 300
    ensures
      var c := Run(CHECKED, [], [TEXT_WHOLE + x1, x2]);
      c.status.Open? && c.events
        == [Message(x1, Range(0, 300), 0, false, false, 0), Message(x2, Range(300, 300), 0, false, true, 600)]
  {
    var pushes := [TEXT_WHOLE + x1, x2];
    var e1 := Message(x1, Range(0, 300), 0, false, false, 0);
    var c1 := InText(Large(300, true, None, 300), [e1]);
    NothingReceived(CHECKED);
    TextHalf(true, x1);
    FinishPush(CHECKED, c1, x2);
    RunOne(CHECKED, Initial([]), pushes);
    RunOne(CHECKED, c1, [x2]);
    assert pushes[1..] == [x2] && [x2][1..] == [];
  }

  /** In one piece, the same bytes close the connection when they are not UTF-8. */
  lemma TextWhole(x: bytes)
    requires |x| == 600 && !Utf8.IsUtf8(x)
    ensures Run(CHECKED, TEXT_WHOLE + x, []).status == BadText
  {
    var c := Initial(TEXT_WHOLE + x);
    var h := Header(true, false, false, false, 1, None, 600);
    LongHeader(0x81, 2, 88, x);
    Utf8.ValidIffUtf8(x);
    assert c.buf[4..604] == x;
    assert SingleFrame(CHECKED, c.msg, h, x).bad;
    StepWhole(CHECKED, c, h, 4);
    ProcessNext(CHECKED, c, Step(CHECKED, c));
  }

  /** One stream, two divisions, two verdicts: invalid TEXT is accepted when it is streamed. */
  lemma InvalidTextAccepted(x1: bytes, x2: bytes)
    requires |x1| == |x2| == 300 && !Utf8.IsUtf8(x1 + x2)
    ensures TEXT_WHOLE + (x1 + x2) == Flatten([TEXT_WHOLE + x1, x2])
    ensures Run(CHECKED, TEXT_WHOLE + (x1 + x2), []).status == BadText
    ensures Run(CHECKED, [], [TEXT_WHOLE + x1, x2]).status.Open?
  {
    TextWhole(x1 + x2);
    TextStreamed(x1, x2);
    TwoPieces(TEXT_WHOLE, x1, x2);
  }

  lemma TwoPieces(a: bytes, b: bytes, c: bytes)
    ensures a + (b + c) == Flatten([a + b, c])
  {
    var pushes := [a + b, c];
    var none: seq<bytes> := [];
    assert pushes[1..] == [c] && [c][1..] == none;
    assert Flatten([c]) == c + Flatten(none) == c;
    assert Flatten(pushes) == a + b + Flatten([c]);
  }

  lemma SmallLastHeader(b: byte)
    ensures ParseHeader([0x80, 1, b]) == Complete(Header(true, false, false, false, 0, None, 1), 2)
    ensures [0x80, 1, b][2..3] == [b] && [0x80, 1, b][3..] == []
  {
  }

  /** A last fragment of one byte that is not UTF-8 by itself closes the connection. */
  lemma LastByteRefused(c: Conn, b: byte)
    requires c == InText(Large(0, false, None, 600), c.events) && !Utf8.IsUtf8([b])
    ensures OnData(CHECKED, c, [0x80, 1, b]).status == BadText
  {
    var push: bytes := [0x80, 1, b];
    var h := Header(true, false, false, false, 0, None, 1);
    var d := c.(buf := push);
    assert c.buf + push == push && StreamConsume(d) == d;
    SmallLastHeader(b);
    Utf8.ValidIffUtf8([b]);
    assert Append(1024, c.msg, [b]).frag == [b];
    assert Fragment(CHECKED, c.msg, h, [b]).bad;
    StepWhole(CHECKED, d, h, 2);
    ProcessNext(CHECKED, d, Step(CHECKED, d));
  }

  /**
   * Valid TEXT is refused when a character is cut between a streamed frame and a small last one: the
   * check sees the last byte only.
   */
  lemma ValidTextRefused(x1: bytes, x2: bytes, b: byte)
    requires |x1| == |x2| == 300 && Utf8.IsUtf8(x1 + x2 + [b]) && !Utf8.IsUtf8([b])
    ensures Run(CHECKED, [], [TEXT_FIRST + x1, x2, [0x80, 1, b]]).status == BadText
  {
    var pushes: seq<bytes> := [TEXT_FIRST + x1, x2, [0x80, 1, b]];
    var e1, e2 := Message(x1, Range(0, 300), 0, false, false, 0), Message(x2, Range(300, 300), 0, false, false, 0);
    var c1, c2 := InText(Large(300, false, None, 300), [e1]), InText(Large(0, false, None, 600), [e1] + [e2]);
    NothingReceived(CHECKED);
    TextHalf(false, x1);
    FinishPush(CHECKED, c1, x2);
    LastByteRefused(c2, b);
    RunOne(CHECKED, Initial([]), pushes);
    RunOne(CHECKED, c1, pushes[1..]);
    RunOne(CHECKED, c2, pushes[2..]);
    assert pushes[1..][1..] == pushes[2..] && pushes[2..][1..] == [];
    assert RunFrom(CHECKED, OnData(CHECKED, c2, pushes[2]), []) == OnData(CHECKED, c2, pushes[2]);
  }

  lemma {:induction false} AsciiThen(n: nat, rest: bytes)
    requires Utf8.Valid(rest)
    ensures Utf8.Valid(seq(n, _ => 0x61) + rest)
    decreases n
  {
    var s := seq(n, _ => 0x61) + rest;
    if n == 0 {
      assert s == rest;
    } else {
      AsciiThen(n - 1, rest);
      assert s[1..] == seq(n - 1, _ => 0x61) + rest;
    }
  }

  /** There is such a text: 599 letters and an e with an acute accent. */
  lemma CutCharacter() returns (x1: bytes, x2: bytes)
    ensures |x1| == |x2| == 300 && Utf8.IsUtf8(x1 + x2 + [0xA9]) && !Utf8.IsUtf8([0xA9])
  {
    x1 := seq(300, _ => 0x61);
    x2 := seq(299, _ => 0x61) + [0xC3];
    assert x1 + x2 + [0xA9] == seq(599, _ => 0x61) + [0xC3, 0xA9];
    assert Utf8.CharSize([0xC3, 0xA9]) == 2 && Utf8.CharSize([0xA9]) == 0;
    AsciiThen(599, [0xC3, 0xA9]);
    Utf8.ValidIffUtf8(x1 + x2 + [0xA9]);
    Utf8.ValidIffUtf8([0xA9]);
  }

  // ---------------------------------------------------------------- a reserved opcode on the wire

  /** A final compressed frame of 600 bytes with the reserved opcode 3. */
  const ODD_WHOLE: bytes := [0xC3, 126, 2, 88]
  const ODD_HEADER := Header(true, true, false, false, 3, None, 600)

  /** An odd frame is rejected when it is streamed and inflated when it arrives whole. */
  lemma OddVerdictDependsOnCut(cfg: Config, c: Conn, h: Header, payload: bytes)
    requires c.status.Open? && c.msg == NO_MSG && Odd(cfg, false, h) && |payload| == h.len
    ensures StreamRejects(cfg, Idle, h)
    ensures
      var c1 := HandleFrame(cfg, c, h, payload);
      c1.status.Open?
      && c1.events == c.events + [Inflate(payload, Range(0, |payload|), 0), InflateTail, InflatedFin(false)]
  {
  }

  /** In one piece it is inflated and delivered. */
  lemma OddWhole(x: bytes)
    requires |x| == 600
    ensures
      var c := Run(DEFLATE, ODD_WHOLE + x, []);
      c.status.Open? && c.events == [Inflate(x, Range(0, 600), 0), InflateTail, InflatedFin(false)]
  {
    var c := Initial(ODD_WHOLE + x);
    var c1 := HandleFrame(DEFLATE, c, ODD_HEADER, x);
    LongHeader(0xC3, 2, 88, x);
    assert c.buf[4..604] == x && c.buf[604..] == [];
    OddVerdictDependsOnCut(DEFLATE, c, ODD_HEADER, x);
    var es := [Inflate(x, Range(0, 600), 0), InflateTail, InflatedFin(false)];
    assert c1 == c.(events := [] + es) && [] + es == es;
    StepWhole(DEFLATE, c, ODD_HEADER, 4);
    var d := c1.(buf := []);
    ProcessNext(DEFLATE, c, Next(d, true));
    assert Step(DEFLATE, d) == Next(d, false);
    ProcessNext(DEFLATE, d, Next(d, false));
  }

  /** In two pieces it closes the connection, with a protocol error as section 5.2 of RFC 6455 has it. */
  lemma OddStreamed(x1: bytes, x2: bytes)
    requires |x1| == |x2| == 300
    ensures Run(DEFLATE, [], [ODD_WHOLE + x1, x2]) == Fail(Initial([]), ProtocolError)
  {
    var pushes := [ODD_WHOLE + x1, x2];
    var c1 := Fail(Initial([]), ProtocolError);
    var d := Initial(pushes[0]);
    LongHeader(0xC3, 2, 88, x1);
    assert StreamRejects(DEFLATE, Idle, ODD_HEADER) && StartStream(DEFLATE, d, ODD_HEADER, 4) == c1;
    StartStep(DEFLATE, d, ODD_HEADER, c1);
    NothingToConsume(DEFLATE, d, c1);
    assert [] + pushes[0] == pushes[0];
    assert OnData(DEFLATE, Initial([]), pushes[0]) == c1;
    NothingReceived(DEFLATE);
    RunOne(DEFLATE, Initial([]), pushes);
    RunOne(DEFLATE, c1, [x2]);
    assert pushes[1..] == [x2] && [x2][1..] == [];
  }

  /** One stream, two divisions, two verdicts: a reserved opcode is accepted when it arrives whole. */
  lemma OddAccepted(x1: bytes, x2: bytes)
    requires |x1| == |x2| == 300
    ensures ODD_WHOLE + (x1 + x2) == Flatten([ODD_WHOLE + x1, x2])
    ensures Run(DEFLATE, ODD_WHOLE + (x1 + x2), []).status.Open?
    ensures Run(DEFLATE, [], [ODD_WHOLE + x1, x2]).status == ProtocolError
  {
    OddWhole(x1 + x2);
    OddStreamed(x1, x2);
    TwoPieces(ODD_WHOLE, x1, x2);
  }

  // ---------------------------------------------------------------- a compressed message without its fin

  const DEFLATE := CLIENT.(deflate := true)

  /** A frame that arrives whole in one push. */
  lemma WholePush(cfg: Config, c: Conn, push: bytes, h: Header, n: nat, c1: Conn)
    requires c.status.Open? && c.buf == [] && c.large.remaining == 0
    requires ParseHeader(push) == Complete(h, n) && 0 < n && |push| == n + h.len <= cfg.cap && h.key == None
    requires c1.status.Open? && c1.buf == [] && c1.large.remaining == 0
    requires HandleFrame(cfg, c.(buf := push), h, push[n..]) == c1.(buf := push)
    ensures OnData(cfg, c, push) == c1
  {
    var d := c.(buf := push);
    assert c.buf + push == push && StreamConsume(d) == d;
    assert push[n..n + h.len] == push[n..] && push[n + h.len..] == [];
    StepWhole(cfg, d, h, n);
    ProcessNext(cfg, d, Next(c1, true));
    assert ProcessFrames(cfg, c1) == c1 by {
      assert Step(cfg, c1) == Next(c1, false);
    }
  }

  function Compressed(data: bytes): Conn {
    Conn(Open, [], Msg(Frag, true, true, |data|, data, Range(0, |data|)), NO_FRAME, [])
  }

  const DEFLATED_FIRST := Header(false, true, false, false, 2, None, 400)
  const DEFLATED_MORE := Header(false, false, false, false, 0, None, 400)
  const DEFLATED_LAST := Header(true, false, false, false, 0, None, 224)

  lemma CompressedFirst(d: Conn, x: bytes)
    requires |x| == 400 && d == Initial([]).(buf := d.buf)
    ensures HandleFrame(DEFLATE, d, DEFLATED_FIRST, x) == Compressed(x).(buf := d.buf)
  {
    var none: seq<Event> := [];
    assert none + none == none;
    var m := Begin(Frag, DEFLATED_FIRST);
    assert [] + x == x && [] + Range(0, 400) == Range(0, 400);
    assert Append(1024, m, x) == Compressed(x).msg;
  }

  lemma CompressedMore(d: Conn, x1: bytes, x2: bytes)
    requires |x1| == |x2| == 400 && d == Compressed(x1).(buf := d.buf)
    ensures HandleFrame(DEFLATE, d, DEFLATED_MORE, x2) == Compressed(x1 + x2).(buf := d.buf)
  {
    var none: seq<Event> := [];
    assert none + none == none;
    RangeConcat(400, 400);
    assert Append(1024, d.msg, x2) == Compressed(x1 + x2).msg;
  }

  lemma CompressedLast(d: Conn, x: bytes, x3: bytes)
    requires |x| == 800 && |x3| == 224 && d == Compressed(x).(buf := d.buf)
    ensures HandleFrame(DEFLATE, d, DEFLATED_LAST, x3)
      == Conn(Open, d.buf, NO_MSG, NO_FRAME, [Inflate(x + x3, Range(0, 1024), 0), InflateTail])
  {
    RangeConcat(800, 224);
    var m1 := Append(1024, d.msg, x3);
    assert m1 == Compressed(x + x3).msg;
    assert EndEvents(1024, m1) == [Inflate(x + x3, Range(0, 1024), 0), InflateTail];
    var none: seq<Event> := [];
    assert none + (none + EndEvents(1024, m1)) == EndEvents(1024, m1);
  }

  /**
   * Three fragments of 400, 400 and 224 bytes fill the buffer of 1024 exactly: the inflater gets
   * everything and the tail, and the application never hears that the message ended.
   */
  lemma CompressedFinMissing(x1: bytes, x2: bytes, x3: bytes)
    requires |x1| == |x2| == 400 && |x3| == 224
    ensures
      var pushes := [[0x42, 126, 1, 144] + x1, [0x00, 126, 1, 144] + x2, [0x80, 126, 0, 224] + x3];
      var c := Run(DEFLATE, [], pushes);
      c.status.Open? && c.msg == NO_MSG && c.events == [Inflate(x1 + x2 + x3, Range(0, 1024), 0), InflateTail]
  {
    FirstPush(x1);
    SecondPush(x1, x2);
    ThirdPush(x1 + x2, x3);
    RunThree(
      Initial([]), [[0x42, 126, 1, 144] + x1, [0x00, 126, 1, 144] + x2, [0x80, 126, 0, 224] + x3],
      Compressed(x1), Compressed(x1 + x2), Done(x1 + x2 + x3));
  }

  function Done(data: bytes): Conn {
    Conn(Open, [], NO_MSG, NO_FRAME, [Inflate(data, Range(0, 1024), 0), InflateTail])
  }

  lemma FirstPush(x: bytes)
    requires |x| == 400
    ensures OnData(DEFLATE, Initial([]), [0x42, 126, 1, 144] + x) == Compressed(x)
  {
    CompressedFirst(Initial([]).(buf := [0x42, 126, 1, 144] + x), x);
    CompressedPush(Initial([]), 0x42, 1, 144, x, DEFLATED_FIRST, Compressed(x));
  }

  lemma SecondPush(x1: bytes, x2: bytes)
    requires |x1| == |x2| == 400
    ensures OnData(DEFLATE, Compressed(x1), [0x00, 126, 1, 144] + x2) == Compressed(x1 + x2)
  {
    CompressedMore(Compressed(x1).(buf := [0x00, 126, 1, 144] + x2), x1, x2);
    CompressedPush(Compressed(x1), 0x00, 1, 144, x2, DEFLATED_MORE, Compressed(x1 + x2));
  }

  lemma ThirdPush(x: bytes, x3: bytes)
    requires |x| == 800 && |x3| == 224
    ensures OnData(DEFLATE, Compressed(x), [0x80, 126, 0, 224] + x3) == Done(x + x3)
  {
    CompressedLast(Compressed(x).(buf := [0x80, 126, 0, 224] + x3), x, x3);
    CompressedPush(Compressed(x), 0x80, 0, 224, x3, DEFLATED_LAST, Done(x + x3));
  }

  lemma CompressedPush(c: Conn, b0: byte, hi: byte, lo: byte, x: bytes, h: Header, c1: Conn)
    requires c.status.Open? && c.buf == [] && c.large.remaining == 0
    requires h == Header(
      b0 >= 128, b0 / 64 % 2 == 1, b0 / 32 % 2 == 1, b0 / 16 % 2 == 1, b0 % 16, None, hi as int * 256 + lo)
    requires |x| == h.len <= 1000 && c1.status.Open? && c1.buf == [] && c1.large.remaining == 0
    requires var push := [b0, 126, hi, lo] + x; HandleFrame(DEFLATE, c.(buf := push), h, x) == c1.(buf := push)
    ensures OnData(DEFLATE, c, [b0, 126, hi, lo] + x) == c1
  {
    var push := [b0, 126, hi, lo] + x;
    LongHeader(b0, hi, lo, x);
    assert push[4..] == x;
    WholePush(DEFLATE, c, push, h, 4, c1);
  }

  lemma RunThree(c0: Conn, pushes: seq<bytes>, c1: Conn, c2: Conn, c3: Conn)
    requires |pushes| == 3 && c0 == Initial([]) && OnData(DEFLATE, c0, pushes[0]) == c1
    requires OnData(DEFLATE, c1, pushes[1]) == c2 && OnData(DEFLATE, c2, pushes[2]) == c3
    ensures Run(DEFLATE, [], pushes) == c3
  {
    NothingReceived(DEFLATE);
    var rest, last := pushes[1..], pushes[2..];
    assert rest[0] == pushes[1] && rest[1..] == last && last[0] == pushes[2] && last[1..] == [];
    assert RunFrom(DEFLATE, c2, last) == c3;
    assert RunFrom(DEFLATE, c1, rest) == c3;
  }
}
