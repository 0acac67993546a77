/**
 * Reassembly does not depend on how the wire bytes are cut into pushes.
 *
 * The reference reads whole frames off the byte stream, unmasks them and concatenates the payloads
 * of each message. The calls made by the receive path are folded back into messages and compared.
 */
module WsReassembly {
  import opened Bytes
  import opened WsFrame
  import opened WsReceiver
  import Utf8

  // ---------------------------------------------------------------- the reference

  /**
   * `small` says that no frame of the message so far may be streamed, and then `held` is how many
   * of its last bytes have not been handed over yet.
   */
  datatype RefMsg = NoMsg | InMsg(binary: bool, compressed: bool, data: bytes, held: nat, small: bool)

  /** Whether a compressed message is followed by a fin callback; with large fragments the cut decides. */
  datatype Notice = Sent | Missing | Either

  datatype Item =
    | Plain(binary: bool, data: bytes)
    | Deflated(binary: bool, data: bytes, notice: Notice)
    | PongTo(payload: bytes)
    | PongFrom(payload: bytes)

  /**
   * `wild`: a TEXT message to be checked has a frame that may be streamed. `long`: one that is
   * fragmented has `cap` bytes or more. `odd`: a frame was read that only the normal branch accepts.
   * `phase` and `risky` watch for a fragment that fits the buffer between two large fragments. With
   * `strict` a TEXT message is checked as section 8.1 of RFC 6455 has it, else as the source does.
   */
  datatype Ref = Ref(
    status: Status, msg: RefMsg, items: seq<Item>,
    wild: bool, long: bool, odd: bool, phase: nat, risky: bool, strict: bool)

  const START := Ref(Open, NoMsg, [], false, false, false, 0, false, false)
  const STRICT := START.(strict := true)

  /** The rules of section 5.1, 5.2, 5.4 and 5.5 of RFC 6455, with RSV1 as RFC 7692 extends it. */
  predicate Breaks(cfg: Config, inMsg: bool, h: Header) {
    || h.key.Some? == cfg.isClient
    || h.rsv2 || h.rsv3
    || (h.rsv1 && !(cfg.deflate && h.opcode in {OPCODE_TEXT, OPCODE_BINARY}))
    || h.opcode !in {OPCODE_CONT, OPCODE_TEXT, OPCODE_BINARY, OPCODE_CLOSE, OPCODE_PING, OPCODE_PONG}
    || (h.opcode == OPCODE_CONT && !inMsg)
    || (h.opcode in {OPCODE_TEXT, OPCODE_BINARY} && inMsg)
    || (h.opcode >= 8 && (!h.fin || h.len > 125))
  }

  /** A reserved data opcode that the inflate-at-once shortcut lets through. */
  predicate Odd(cfg: Config, inMsg: bool, h: Header) {
    && h.key.Some? != cfg.isClient && !h.rsv2 && !h.rsv3
    && cfg.deflate && h.rsv1 && h.fin && 3 <= h.opcode <= 7 && !inMsg
  }

  /** A frame that may be streamed: more than cap / 2 bytes with the longest header. */
  predicate MayStream(cfg: Config, h: Header) {
    h.len + 14 > cfg.cap / 2
  }

  /** 1 once a fragment may have been streamed, 2 once a later one may be waiting in `frag`. */
  function PhaseBefore(r: Ref, h: Header): nat {
    if h.opcode == OPCODE_CONT then r.phase else 0
  }

  function PhaseAfter(cfg: Config, r: Ref, h: Header): nat {
    var p := PhaseBefore(r, h);
    if h.fin then 0
    else if p == 0 then if MayStream(cfg, h) then 1 else 0
    else if 0 < h.len <= cfg.cap then 2
    else p
  }

  /** The content a data frame extends. */
  function Base(r: RefMsg, h: Header): RefMsg {
    if h.opcode == OPCODE_CONT then r else InMsg(h.opcode == OPCODE_BINARY, h.rsv1, [], 0, true)
  }

  /** The size of an accumulation after a fragment of `len` bytes. */
  function HeldWith(cap: nat, held: nat, len: nat): nat {
    if held + len > cap then len else held + len
  }

  function Extend(cfg: Config, m: RefMsg, h: Header, payload: bytes): RefMsg
    requires m.InMsg?
  {
    var held := HeldWith(cfg.cap, m.held, |payload|);
    m.(
      data := m.data + payload, small := m.small && !MayStream(cfg, h),
      held := if !h.fin && m.compressed && held == cfg.cap then 0 else held)
  }

  /** A message whose bytes are to be UTF-8. */
  predicate IsText(cfg: Config, m: RefMsg) {
    m.InMsg? && cfg.checkUtf8 && !m.binary && !m.compressed
  }

  predicate IsSingle(h: Header) {
    h.fin && h.opcode != OPCODE_CONT
  }

  /** What the source checks of a small message: a single frame, else an end that does not fill the buffer. */
  function Checked(cfg: Config, m: RefMsg, single: bool): bytes
    requires m.InMsg?
  {
    if single then m.data
    else if 0 < m.held < cfg.cap && m.held <= |m.data| then m.data[|m.data| - m.held..]
    else []
  }

  predicate TextFails(cfg: Config, strict: bool, m: RefMsg, single: bool) {
    IsText(cfg, m) && if strict then !Utf8.Valid(m.data) else m.small && !Utf8.Valid(Checked(cfg, m, single))
  }

  function NoticeOf(cfg: Config, m: RefMsg, single: bool): Notice
    requires m.InMsg?
  {
    if single then Sent else if !m.small then Either else if m.held == cfg.cap then Missing else Sent
  }

  function Finished(cfg: Config, m: RefMsg, single: bool): Item
    requires m.InMsg?
  {
    if m.compressed then Deflated(m.binary, m.data, NoticeOf(cfg, m, single)) else Plain(m.binary, m.data)
  }

  /** The flags after a frame that makes `m` of the message. */
  function Flagged(cfg: Config, r: Ref, h: Header, m: RefMsg): Ref {
    r.(
      wild := r.wild || (IsText(cfg, m) && MayStream(cfg, h)),
      long := r.long || (IsText(cfg, m) && !IsSingle(h) && |m.data| >= cfg.cap),
      risky := r.risky || (PhaseBefore(r, h) == 2 && MayStream(cfg, h)), phase := PhaseAfter(cfg, r, h))
  }

  /** A data frame that breaks no rule. */
  function RefData(cfg: Config, r: Ref, h: Header, payload: bytes): Ref {
    var base := Base(r.msg, h);
    if base.NoMsg? then r
    else
      var m := Extend(cfg, base, h, payload);
      var r1 := Flagged(cfg, r, h, m);
      if !h.fin then r1.(msg := m)
      else if TextFails(cfg, r.strict, m, IsSingle(h)) then r1.(msg := NoMsg, status := BadText)
      else r1.(msg := NoMsg, items := r.items + [Finished(cfg, m, IsSingle(h))])
  }

  function RefFrame(cfg: Config, r: Ref, h: Header, payload: bytes): Ref {
    if Breaks(cfg, r.msg.InMsg?, h) then r.(status := ProtocolError, odd := r.odd || Odd(cfg, r.msg.InMsg?, h))
    else if h.opcode == OPCODE_CLOSE then r.(status := CloseVerdict(cfg, payload))
    else if h.opcode == OPCODE_PING then r.(items := r.items + [PongTo(payload)])
    else if h.opcode == OPCODE_PONG then r.(items := r.items + [PongFrom(payload)])
    else RefData(cfg, r, h, payload)
  }

  /** What has been read and the bytes that do not make a whole frame yet. */
  datatype Read = Read(ref: Ref, rest: bytes)

  /** What a whole frame does to the reference. */
  type Reader = (Ref, Header, bytes) -> Ref

  /** Frame by frame until the connection is closed or the bytes do not make a frame. */
  function ReadBy(step: Reader, r: Ref, s: bytes): Read
    decreases |s|
  {
    if !r.status.Open? then Read(r, [])
    else
      match ParseHeader(s)
      case NeedMore => Read(r, s)
      case Invalid => Read(r.(status := ProtocolError), [])
      case Complete(h, n) =>
        if |s| < n + h.len then Read(r, s)
        else ReadBy(step, step(r, h, Unmask(h.key, s[n..n + h.len], 0)), s[n + h.len..])
  }

  function ReaderFor(cfg: Config): Reader {
    (r, h, payload) => RefFrame(cfg, r, h, payload)
  }

  function ReadFrames(cfg: Config, r: Ref, s: bytes): Read {
    ReadBy(ReaderFor(cfg), r, s)
  }

  function ResumeBy(step: Reader, read: Read, more: bytes): Read {
    if read.ref.status.Open? then ReadBy(step, read.ref, read.rest + more) else read
  }

  function Resume(cfg: Config, read: Read, more: bytes): Read {
    ResumeBy(ReaderFor(cfg), read, more)
  }

  lemma FrameSlices(s: bytes, t: bytes, n: nat, end: nat)
    requires n <= end <= |s|
    ensures (s + t)[n..end] == s[n..end] && (s + t)[end..] == s[end..] + t
  {
  }

  lemma ReadOne(step: Reader, r: Ref, s: bytes, h: Header, n: nat)
    requires r.status.Open? && ParseHeader(s) == Complete(h, n) && n + h.len <= |s|
    ensures ReadBy(step, r, s) == ReadBy(step, step(r, h, Unmask(h.key, s[n..n + h.len], 0)), s[n + h.len..])
  {
  }

  /** Reading can stop anywhere and go on when more bytes are there, whatever a frame does. */
  lemma {:induction false} ReadInPieces(step: Reader, r: Ref, s: bytes, t: bytes)
    ensures ReadBy(step, r, s + t) == ResumeBy(step, ReadBy(step, r, s), t)
    decreases |s|
  {
    if r.status.Open? && !ParseHeader(s).NeedMore? {
      ParseHeaderStable(s, t);
      if ParseHeader(s).Complete? {
        var Complete(h, n) := ParseHeader(s);
        if |s| >= n + h.len {
          FrameSlices(s, t, n, n + h.len);
          ReadOne(step, r, s, h, n);
          ReadOne(step, r, s + t, h, n);
          ReadInPieces(step, step(r, h, Unmask(h.key, s[n..n + h.len], 0)), s[n + h.len..], t);
        }
      }
    }
  }

  ghost predicate FlagsKept(r: Ref, r1: Ref) {
    && (r.wild ==> r1.wild) && (r.long ==> r1.long) && (r.odd ==> r1.odd) && (r.risky ==> r1.risky)
    && r.items <= r1.items
  }

  ghost predicate KeepsAt(step: Reader, r: Ref, h: Header, payload: bytes) {
    FlagsKept(r, step(r, h, payload))
  }

  lemma {:induction false} ReadKeepsFlags(step: Reader, r: Ref, s: bytes)
    requires forall x, h, p :: KeepsAt(step, x, h, p)
    ensures FlagsKept(r, ReadBy(step, r, s).ref)
    decreases |s|
  {
    if r.status.Open? && ParseHeader(s).Complete? {
      var Complete(h, n) := ParseHeader(s);
      if |s| >= n + h.len {
        var payload := Unmask(h.key, s[n..n + h.len], 0);
        assert KeepsAt(step, r, h, payload);
        ReadKeepsFlags(step, step(r, h, payload), s[n + h.len..]);
      }
    }
  }

  lemma DataKeepsFlags(cfg: Config, r: Ref, h: Header, payload: bytes)
    ensures FlagsKept(r, RefData(cfg, r, h, payload))
  {
  }

  lemma FrameKeepsFlags(cfg: Config, r: Ref, h: Header, payload: bytes)
    ensures FlagsKept(r, RefFrame(cfg, r, h, payload))
  {
    DataKeepsFlags(cfg, r, h, payload);
  }

  lemma ReaderKeeps(cfg: Config)
    ensures forall r, h, p :: KeepsAt(ReaderFor(cfg), r, h, p)
  {
    forall r, h, p ensures KeepsAt(ReaderFor(cfg), r, h, p) {
      FrameKeepsFlags(cfg, r, h, p);
    }
  }

  /** The flags of the reference, once set, stay set, and its items stay. */
  lemma FlagsStay(cfg: Config, r: Ref, s: bytes)
    ensures FlagsKept(r, ReadFrames(cfg, r, s).ref)
  {
    ReaderKeeps(cfg);
    ReadKeepsFlags(ReaderFor(cfg), r, s);
  }

  // ---------------------------------------------------------------- the calls made, as messages

  /**
   * A delivered message with its history; `binaries` collects the type flag of every callback and
   * `lost` is what `frag` still held at the fin callback.
   */
  datatype Got =
    | GotPlain(binaries: set<bool>, data: bytes, from: seq<int>, clean: bool, total: nat, lost: nat)
    | GotDeflated(data: bytes, from: seq<int>, clean: bool, fin: Option<bool>)
    | GotPongTo(payload: bytes)
    | GotPongFrom(payload: bytes)

  /**
   * `clean`: no byte of the message in progress was delivered past bytes held in `frag`.
   * `quiet`: every callback without fin carried total 0.
   */
  datatype View = View(items: seq<Got>, data: bytes, from: seq<int>, clean: bool, binaries: set<bool>, quiet: bool)

  function Blank(items: seq<Got>): View {
    View(items, [], [], true, {}, true)
  }

  function Apply(v: View, e: Event): View {
    match e
    case Message(data, from, held, binary, fin, total) =>
      var v1 := v.(
        data := v.data + data, from := v.from + from, clean := v.clean && held == 0,
        binaries := v.binaries + {binary}, quiet := v.quiet && (fin || total == 0));
      if fin then
        Blank(v.items + [GotPlain(v1.binaries, v1.data, v1.from, v1.clean, total, held)]).(quiet := v1.quiet)
      else v1
    case Inflate(data, from, held) =>
      v.(data := v.data + data, from := v.from + from, clean := v.clean && held == 0)
    case InflateTail =>
      Blank(v.items + [GotDeflated(v.data, v.from, v.clean, None)]).(quiet := v.quiet)
    case InflatedFin(binary) =>
      if v.items != [] && v.items[|v.items| - 1].GotDeflated? then
        v.(items := v.items[|v.items| - 1 := v.items[|v.items| - 1].(fin := Some(binary))])
      else v
    case PongSent(payload) => v.(items := v.items + [GotPongTo(payload)])
    case PongSeen(payload) => v.(items := v.items + [GotPongFrom(payload)])
  }

  function ApplyAll(v: View, es: seq<Event>): View
    decreases |es|
  {
    if es == [] then v else ApplyAll(Apply(v, es[0]), es[1..])
  }

  function Fold(es: seq<Event>): View {
    ApplyAll(Blank([]), es)
  }

  lemma {:induction false} ApplyConcat(v: View, a: seq<Event>, b: seq<Event>)
    ensures ApplyAll(v, a + b) == ApplyAll(ApplyAll(v, a), b)
    decreases |a|
  {
    if a == [] {
      assert a + b == b;
    } else {
      assert (a + b)[0] == a[0] && (a + b)[1..] == a[1..] + b;
      ApplyConcat(Apply(v, a[0]), a[1..], b);
    }
  }

  lemma Apply1(v: View, e: Event)
    ensures ApplyAll(v, [e]) == Apply(v, e)
  {
    assert [e][1..] == [];
  }

  // ---------------------------------------------------------------- when a delivery is right

  /** Every delivered byte is the byte of `whole` at its recorded offset. */
  ghost predicate Placed(data: bytes, from: seq<int>, whole: bytes) {
    |data| == |from| && forall i :: 0 <= i < |from| ==> 0 <= from[i] < |whole| && data[i] == whole[from[i]]
  }

  ghost predicate Misplaced(from: seq<int>) {
    exists i :: 0 <= i < |from| && from[i] != i
  }

  /** The delivered bytes are all of `whole` in order exactly when nothing overtook held bytes. */
  ghost predicate Match(g: Got, item: Item) {
    match item
    case Plain(binary, whole) =>
      && g.GotPlain? && g.binaries == {binary} && g.total == |whole| == |g.data| + g.lost
      && Placed(g.data, g.from, whole) && (g.clean <==> g.from == Range(0, |whole|))
    case Deflated(binary, whole, notice) =>
      && g.GotDeflated? && (g.fin == None || g.fin == Some(binary))
      && (notice == Sent ==> g.fin != None) && (notice == Missing ==> g.fin == None)
      && Placed(g.data, g.from, whole) && (g.clean <==> g.from == Range(0, |whole|))
    case PongTo(payload) => g == GotPongTo(payload)
    case PongFrom(payload) => g == GotPongFrom(payload)
  }

  ghost predicate Matches(gots: seq<Got>, items: seq<Item>) {
    |gots| == |items| && forall i :: 0 <= i < |items| ==> Match(gots[i], items[i])
  }

  /** Bytes delivered without overtaking are exactly the message. */
  lemma CleanIsWhole(g: Got, item: Item)
    requires Match(g, item) && (item.Plain? || item.Deflated?)
    ensures g.clean ==> g.data == item.data
    ensures !g.clean ==> g.from != Range(0, |item.data|)
  {
  }

  // ---------------------------------------------------------------- a message in progress

  /** `whole` is what the message holds so far: delivered bytes followed by `frag`. */
  ghost predicate InProgress(m: Msg, v: View, whole: bytes) {
    && Placed(v.data, v.from, whole) && Placed(m.frag, m.fragFrom, whole)
    && v.binaries <= {m.binary} && v.quiet && |v.data| + |m.frag| == |whole|
    && (v.clean ==> v.from + m.fragFrom == Range(0, |whole|))
    && (!v.clean ==> Misplaced(v.from))
  }

  lemma PlacedMore(data: bytes, from: seq<int>, whole: bytes, more: bytes)
    requires Placed(data, from, whole)
    ensures Placed(data, from, whole + more)
  {
  }

  lemma PlacedConcat(d1: bytes, f1: seq<int>, d2: bytes, f2: seq<int>, whole: bytes)
    requires Placed(d1, f1, whole) && Placed(d2, f2, whole)
    ensures Placed(d1 + d2, f1 + f2, whole)
  {
  }

  lemma PlacedNew(whole: bytes, data: bytes)
    ensures Placed(data, Range(|whole|, |data|), whole + data)
  {
  }

  lemma RangeConcat(n: nat, k: nat)
    ensures Range(0, n) + Range(n, k) == Range(0, n + k)
  {
  }

  lemma MisplacedMore(from: seq<int>, more: seq<int>)
    requires Misplaced(from)
    ensures Misplaced(from + more)
  {
    var i :| 0 <= i < |from| && from[i] != i;
    assert (from + more)[i] == from[i];
  }

  lemma MisplacedIsNoRange(from: seq<int>, n: nat)
    requires Misplaced(from)
    ensures from != Range(0, n)
  {
    var i :| 0 <= i < |from| && from[i] != i;
  }

  /** Everything in `frag` is handed over. */
  lemma PieceKeeps(m: Msg, v: View, whole: bytes)
    requires InProgress(m, v, whole)
    ensures var v1 := Apply(v, Piece(m, m.frag, m.fragFrom, 0));
      InProgress(Cleared(m), v1, whole) && v1.items == v.items && v1.clean == v.clean
  {
    PlacedConcat(v.data, v.from, m.frag, m.fragFrom, whole);
    if !v.clean {
      MisplacedMore(v.from, m.fragFrom);
    }
    assert v.from + m.fragFrom + [] == v.from + m.fragFrom;
  }

  lemma JoinKeeps(m: Msg, v: View, whole: bytes, data: bytes)
    requires InProgress(m, v, whole)
    ensures InProgress(
      m.(total := m.total + |data|, frag := m.frag + data, fragFrom := m.fragFrom + Range(|whole|, |data|)),
      v, whole + data)
  {
    PlacedMore(v.data, v.from, whole, data);
    PlacedMore(m.frag, m.fragFrom, whole, data);
    PlacedNew(whole, data);
    PlacedConcat(m.frag, m.fragFrom, data, Range(|whole|, |data|), whole + data);
    RangeConcat(|whole|, |data|);
    assert v.from + (m.fragFrom + Range(|whole|, |data|)) == v.from + m.fragFrom + Range(|whole|, |data|);
  }

  lemma AppendKeeps(cap: nat, m: Msg, v: View, whole: bytes, data: bytes)
    requires InProgress(m, v, whole) && m.total == |whole|
    ensures var v1 := ApplyAll(v, AppendEvents(cap, m, data));
      InProgress(Append(cap, m, data), v1, whole + data) && v1.items == v.items && v1.clean == v.clean
  {
    if |m.frag| + |data| > cap {
      var e := Piece(m, m.frag, m.fragFrom, 0);
      Apply1(v, e);
      PieceKeeps(m, v, whole);
      JoinKeeps(Cleared(m), Apply(v, e), whole, data);
    } else {
      JoinKeeps(m, v, whole, data);
    }
  }

  lemma FlushKeeps(cap: nat, m: Msg, v: View, whole: bytes)
    requires InProgress(m, v, whole)
    ensures var v1 := ApplyAll(v, FlushEvents(cap, m));
      InProgress(Flush(cap, m), v1, whole) && v1.items == v.items && v1.clean == v.clean
  {
    if m.compressed && |m.frag| == cap {
      Apply1(v, Piece(m, m.frag, m.fragFrom, 0));
      PieceKeeps(m, v, whole);
    }
  }

  predicate CleanItem(g: Got) {
    g.GotPlain? || g.GotDeflated? ==> g.clean
  }

  /** Nothing was overtaken in any message so far. */
  ghost predicate Clean(v: View) {
    v.clean && forall i :: 0 <= i < |v.items| ==> CleanItem(v.items[i])
  }

  /** The view after a message ended as `item`; `clean` says whether its bytes kept their order. */
  ghost predicate Ended(v: View, v1: View, item: Item, clean: bool) {
    && |v1.items| == |v.items| + 1
    && v1 == Blank(v.items + [v1.items[|v.items|]])
    && Match(v1.items[|v.items|], item) && (clean ==> CleanItem(v1.items[|v.items|]))
  }

  /** A message in progress with nothing left in `frag` is complete or has been overtaken. */
  lemma CompleteIsMatch(m: Msg, v: View, whole: bytes)
    requires InProgress(m, v, whole) && (v.clean ==> m.frag == [])
    ensures v.clean <==> v.from == Range(0, |whole|)
  {
    if v.clean {
      assert v.from + m.fragFrom == v.from;
    } else {
      MisplacedIsNoRange(v.from, |whole|);
    }
  }

  predicate NoticeOk(notice: Notice, notify: bool) {
    (notice == Sent ==> notify) && (notice == Missing ==> !notify)
  }

  lemma TailEnds(m: Msg, v: View, whole: bytes, notify: bool, notice: Notice)
    requires InProgress(m, v, whole) && (v.clean ==> m.frag == []) && NoticeOk(notice, notify)
    ensures var v1 := ApplyAll(v, [InflateTail] + if notify then [InflatedFin(m.binary)] else []);
      && Ended(v, v1, Deflated(m.binary, whole, notice), v.clean)
      && v1.items[|v.items|].fin == if notify then Some(m.binary) else None
  {
    CompleteIsMatch(m, v, whole);
    var g := GotDeflated(v.data, v.from, v.clean, None);
    var v1 := Apply(v, InflateTail);
    assert v1 == Blank(v.items + [g]);
    if notify {
      ApplyConcat(v, [InflateTail], [InflatedFin(m.binary)]);
      Apply1(v, InflateTail);
      Apply1(v1, InflatedFin(m.binary));
      var n := |v.items|;
      assert (v.items + [g])[n := g.(fin := Some(m.binary))] == v.items + [g.(fin := Some(m.binary))];
    } else {
      assert [InflateTail] + [] == [InflateTail];
      Apply1(v, InflateTail);
    }
  }

  /** The fin callback closes an uncompressed message. */
  lemma FinEnds(m: Msg, v: View, whole: bytes, data: bytes, from: seq<int>, held: nat)
    requires !m.compressed && m.total == |whole|
    requires var v1 := Apply(v, Message(data, from, held, m.binary, false, 0));
      InProgress(m, v1, whole) && (v1.clean ==> m.frag == []) && held == |m.frag|
    ensures Ended(
      v, Apply(v, Message(data, from, held, m.binary, true, m.total)), Plain(m.binary, whole), v.clean && held == 0)
  {
    CompleteIsMatch(m, Apply(v, Message(data, from, held, m.binary, false, 0)), whole);
  }

  function ItemOf(m: Msg, whole: bytes, notice: Notice): Item {
    if m.compressed then Deflated(m.binary, whole, notice) else Plain(m.binary, whole)
  }

  lemma EndMatches(cap: nat, m: Msg, v: View, whole: bytes, notice: Notice)
    requires InProgress(m, v, whole) && m.total == |whole| && NoticeOk(notice, |m.frag| != cap)
    ensures var v1 := ApplyAll(v, EndEvents(cap, m));
      && Ended(v, v1, ItemOf(m, whole, notice), v.clean)
      && (m.compressed ==> (v1.items[|v.items|].fin == None <==> |m.frag| == cap))
  {
    PieceKeeps(m, v, whole);
    var piece := Piece(m, m.frag, m.fragFrom, 0);
    if !m.compressed {
      FinEnds(Cleared(m), v, whole, m.frag, m.fragFrom, 0);
      Apply1(v, Message(m.frag, m.fragFrom, 0, m.binary, true, m.total));
    } else {
      var notify := |m.frag| != cap;
      var tail := [InflateTail] + if notify then [InflatedFin(m.binary)] else [];
      if m.frag == [] {
        assert EndEvents(cap, m) == tail;
        TailEnds(m, v, whole, notify, notice);
      } else {
        assert EndEvents(cap, m) == [piece] + tail;
        ApplyConcat(v, [piece], tail);
        Apply1(v, piece);
        TailEnds(Cleared(m), Apply(v, piece), whole, notify, notice);
      }
    }
  }

  /** A streamed chunk extends the message; past a non-empty `frag` it lands at the wrong offset. */
  lemma ChunkKeeps(m: Msg, v: View, whole: bytes, data: bytes)
    requires InProgress(m, v, whole) && data != []
    ensures var v1 := Apply(v, Piece(m, data, Range(|whole|, |data|), |m.frag|));
      && InProgress(m, v1, whole + data) && v1.items == v.items && (v1.clean <==> v.clean && m.frag == [])
  {
    var from := Range(|whole|, |data|);
    PlacedMore(v.data, v.from, whole, data);
    PlacedMore(m.frag, m.fragFrom, whole, data);
    PlacedNew(whole, data);
    PlacedConcat(v.data, v.from, data, from, whole + data);
    RangeConcat(|whole|, |data|);
    if !v.clean {
      MisplacedMore(v.from, from);
    } else if m.frag == [] {
      assert v.from + m.fragFrom == v.from;
      assert v.from + from + m.fragFrom == v.from + from;
    } else {
      Overtaken(v.from, m.fragFrom, |whole|, |data|);
    }
  }

  lemma Overtaken(from: seq<int>, held: seq<int>, n: nat, k: nat)
    requires |from + held| == n && held != [] && k > 0
    ensures Misplaced(from + Range(n, k))
  {
    assert (from + Range(n, k))[|from|] == n;
  }

  lemma ChunkMatches(m: Msg, v: View, whole: bytes, data: bytes, last: bool, notice: Notice)
    requires InProgress(m, v, whole) && data != [] && (last ==> m.total == |whole + data|) && notice != Missing
    ensures
      var out := Chunk(m, data, |whole|, last);
      var v1 := ApplyAll(v, out.events);
      if last then out.msg == NO_MSG && Ended(v, v1, ItemOf(m, whole + data, notice), v.clean && m.frag == [])
      else
        && out.msg == m && InProgress(m, v1, whole + data) && v1.items == v.items
        && (v1.clean <==> v.clean && m.frag == [])
  {
    var from := Range(|whole|, |data|);
    var piece := Piece(m, data, from, |m.frag|);
    ChunkKeeps(m, v, whole, data);
    Apply1(v, piece);
    if last && !m.compressed {
      FinEnds(m, v, whole + data, data, from, |m.frag|);
      Apply1(v, Message(data, from, |m.frag|, m.binary, true, m.total));
    } else if last {
      var tail := [InflateTail] + [InflatedFin(m.binary)];
      assert Chunk(m, data, |whole|, last).events == [piece] + tail;
      ApplyConcat(v, [piece], tail);
      TailEnds(m, Apply(v, piece), whole + data, true, notice);
    } else {
      assert [piece] + [] == [piece];
    }
  }

  // ---------------------------------------------------------------- verdicts

  /** The normal branch rejects exactly the frames that break the rules, but for the odd ones. */
  lemma RejectsExactly(cfg: Config, mode: Mode, h: Header)
    ensures Rejects(cfg, mode, h) <==> Breaks(cfg, mode != Idle, h) && !Odd(cfg, mode != Idle, h)
  {
  }

  /** The streaming branch rejects exactly the frames that break the rules. */
  lemma StreamRejectsExactly(cfg: Config, mode: Mode, h: Header)
    requires h.len > 125
    ensures StreamRejects(cfg, mode, h) <==> Breaks(cfg, mode != Idle, h)
  {
  }

  // ---------------------------------------------------------------- deliveries stay

  /** The type of an inflated message is only told right behind its end. */
  ghost predicate Tame(es: seq<Event>) {
    forall i :: 0 <= i < |es| && es[i].InflatedFin? ==> i > 0 && es[i - 1].InflateTail?
  }

  lemma {:induction false} ApplyGrows(v: View, es: seq<Event>)
    requires Tame(es)
    ensures v.items <= ApplyAll(v, es).items
    decreases |es|
  {
    if es != [] {
      var v1, rest := Apply(v, es[0]), es[1..];
      if rest != [] && rest[0].InflatedFin? {
        var more := rest[1..];
        assert forall i :: 0 <= i < |more| ==> more[i] == es[i + 2];
        assert v.items <= Apply(v1, rest[0]).items;
        ApplyGrows(Apply(v1, rest[0]), more);
      } else {
        assert forall i :: 0 <= i < |rest| ==> rest[i] == es[i + 1];
        ApplyGrows(v1, rest);
      }
    }
  }

  /** What was delivered stays delivered. */
  ghost predicate Grown(c: Conn, c1: Conn) {
    Fold(c.events).items <= Fold(c1.events).items
  }

  lemma EventsGrow(c: Conn, c1: Conn, es: seq<Event>)
    requires Tame(es) && c1.events == c.events + es
    ensures Grown(c, c1)
  {
    EmitFold(c, es);
    ApplyGrows(Fold(c.events), es);
  }

  lemma OutTame(cfg: Config, m: Msg, h: Header, payload: bytes)
    ensures Tame(SingleFrame(cfg, m, h, payload).events) && Tame(Fragment(cfg, m, h, payload).events)
  {
  }

  lemma HandleGrows(cfg: Config, c: Conn, h: Header, payload: bytes)
    ensures Grown(c, HandleFrame(cfg, c, h, payload))
  {
    if !Rejects(cfg, c.msg.mode, h) {
      var m := Target(c.msg, h);
      OutTame(cfg, c.msg, h, payload);
      OutTame(cfg, m, h, payload);
      var es :=
        if h.opcode == OPCODE_CLOSE then [] else if h.opcode == OPCODE_PING then [PongSent(payload)]
        else if h.opcode == OPCODE_PONG then [PongSeen(payload)]
        else if IsSingle(h) then SingleFrame(cfg, c.msg, h, payload).events
        else Fragment(cfg, m, h, payload).events;
      assert c.events + [] == c.events;
      EventsGrow(c, HandleFrame(cfg, c, h, payload), es);
    }
  }

  lemma ConsumeGrows(c: Conn)
    ensures Grown(c, StreamConsume(c))
  {
    var n := Min(|c.buf|, c.large.remaining);
    if n != 0 {
      var data := Unmask(c.large.key, c.buf[..n], c.large.off);
      var last := c.large.remaining == n && c.large.fin;
      var out := Chunk(c.msg, data, c.msg.total - c.large.remaining, last);
      assert Tame(out.events);
      EventsGrow(c, StreamConsume(c), out.events);
    }
  }

  lemma StartGrows(cfg: Config, c: Conn, h: Header, n: nat)
    requires n <= |c.buf|
    ensures Grown(c, StartStream(cfg, c, h, n))
  {
    var c1 := c.(
      buf := c.buf[n..], msg := SwitchToStream(c.msg, h), events := c.events + SwitchEvents(c.msg),
      large := Large(h.len, h.fin, h.key, 0));
    assert Tame(SwitchEvents(c.msg));
    EventsGrow(c, c1, SwitchEvents(c.msg));
    ConsumeGrows(c1);
  }

  lemma StepGrows(cfg: Config, c: Conn)
    ensures Grown(c, Step(cfg, c).conn)
  {
    var p := ParseHeader(c.buf);
    if p.Complete? {
      var Complete(h, n) := p;
      if |c.buf| >= n + h.len {
        HandleGrows(cfg, c, h, Unmask(h.key, c.buf[n..n + h.len], 0));
      } else {
        StartGrows(cfg, c, h, n);
      }
    }
  }

  lemma {:induction false} ProcessGrows(cfg: Config, c: Conn)
    ensures Grown(c, ProcessFrames(cfg, c))
    decreases |c.buf|
  {
    var next := Step(cfg, c);
    StepGrows(cfg, c);
    ProcessNext(cfg, c, next);
    if next.more {
      ProcessGrows(cfg, next.conn);
    }
  }

  lemma OnDataGrows(cfg: Config, c: Conn, data: bytes)
    ensures Grown(c, OnData(cfg, c, data))
  {
    var d := c.(buf := c.buf + data);
    ConsumeGrows(d);
    ProcessGrows(cfg, StreamConsume(d));
  }

  // ---------------------------------------------------------------- simulation at frame boundaries

  ghost predicate Carries(m: Msg, r: RefMsg) {
    r.InMsg? && m.mode != Idle && m.binary == r.binary && m.compressed == r.compressed
  }

  /** A text message with a frame that may be streamed is on record. */
  predicate Tracked(cfg: Config, r: Ref) {
    IsText(cfg, r.msg) && !r.msg.small ==> r.wild
  }

  /** Of a small message the fragment buffer holds exactly the bytes the reference says. */
  ghost predicate HoldsEnd(c: Conn, r: Ref) {
    r.msg.InMsg? && r.msg.small ==> c.msg.mode == Frag && |c.msg.frag| == r.msg.held && Fold(c.events).clean
  }

  ghost predicate AtBoundary(cfg: Config, c: Conn, r: Ref) {
    var v := Fold(c.events);
    && r.status.Open? && !r.odd && !r.strict && Matches(v.items, r.items)
    && Tracked(cfg, r) && HoldsEnd(c, r)
    && (if r.msg.NoMsg? then c.msg == NO_MSG && v == Blank(v.items)
        else Carries(c.msg, r.msg) && c.msg.total == |r.msg.data| && InProgress(c.msg, v, r.msg.data))
    && (!r.risky ==> Clean(v))
    && (c.msg.mode == Stream ==> r.phase >= 1 && (c.msg.frag != [] ==> r.phase == 2))
  }

  /** Every item the reference has read was delivered, in order and undisturbed, and nothing else. */
  ghost predicate Accounted(c: Conn, r: Ref) {
    var v := Fold(c.events);
    Matches(v.items, r.items) && v.quiet && (!r.risky ==> Clean(v))
  }

  /** The first `n` deliveries are the first `n` items. */
  ghost predicate FirstOnes(gots: seq<Got>, items: seq<Item>, n: nat, risky: bool) {
    n <= |gots| && n <= |items| && forall i :: 0 <= i < n ==> Match(gots[i], items[i]) && (risky || CleanItem(gots[i]))
  }

  /** All that the reference has read was delivered; more may follow. */
  ghost predicate Delivered(c: Conn, r: Ref) {
    FirstOnes(Fold(c.events).items, r.items, |r.items|, r.risky)
  }

  /** All that was delivered is the beginning of what the reference has read. */
  ghost predicate Behind(c: Conn, r: Ref) {
    FirstOnes(Fold(c.events).items, r.items, |Fold(c.events).items|, r.risky)
  }

  /** Both sides agree after a frame, unless the UTF-8 check or an odd frame stopped the comparison. */
  ghost predicate Agree(cfg: Config, c: Conn, r: Ref) {
    || (r.odd && !r.status.Open? && Delivered(c, r))
    || (c.status == BadText && r.wild && Behind(c, r))
    || (c.status == r.status && if r.status.Open? then AtBoundary(cfg, c, r) else Accounted(c, r))
  }

  lemma MatchesMore(gots: seq<Got>, items: seq<Item>, g: Got, item: Item)
    requires Matches(gots, items) && Match(g, item)
    ensures Matches(gots + [g], items + [item])
  {
  }

  lemma EndedMatches(v: View, v1: View, items: seq<Item>, item: Item, clean: bool)
    requires Matches(v.items, items) && Ended(v, v1, item, clean)
    ensures Matches(v1.items, items + [item]) && (clean && Clean(v) ==> Clean(v1))
  {
    MatchesMore(v.items, items, v1.items[|v.items|], item);
  }

  lemma EmitFold(c: Conn, es: seq<Event>)
    ensures Fold(c.events + es) == ApplyAll(Fold(c.events), es)
  {
    ApplyConcat(Blank([]), c.events, es);
  }

  lemma BlankInProgress(m: Msg, items: seq<Got>)
    requires m.frag == [] && m.fragFrom == []
    ensures InProgress(m, Blank(items), [])
  {
    var none: seq<int> := [];
    assert none + none == Range(0, 0);
  }

  /** The bytes of a message in one frame, as a message in progress. */
  lemma SingleInProgress(m0: Msg, v: View, payload: bytes)
    requires v == Blank(v.items) && m0.frag == [] && m0.fragFrom == []
    ensures
      var v1 := Apply(v, Piece(m0, payload, Range(0, |payload|), 0));
      InProgress(m0, v1, payload) && v1.clean && v1.items == v.items
  {
    var none: bytes := [];
    BlankInProgress(m0, v.items);
    assert none + payload == payload;
    if payload == [] {
      var from := Range(0, |payload|);
      assert v.data + payload == v.data && v.from + from == v.from;
    } else {
      ChunkKeeps(m0, v, [], payload);
    }
  }

  lemma SingleMatches(cfg: Config, m: Msg, v: View, h: Header, payload: bytes)
    requires v == Blank(v.items) && |payload| == h.len
    ensures var out := SingleFrame(cfg, m, h, payload);
      !out.bad ==> Ended(v, ApplyAll(v, out.events), ItemOf(Begin(Frag, h), payload, Sent), true)
  {
    var m0 := Begin(Frag, h).(total := h.len);
    var from := Range(0, |payload|);
    var piece := Piece(m0, payload, from, 0);
    SingleInProgress(m0, v, payload);
    if h.rsv1 {
      var tail := [InflateTail] + [InflatedFin(m0.binary)];
      assert SingleFrame(cfg, m, h, payload).events == [piece] + tail;
      ApplyConcat(v, [piece], tail);
      Apply1(v, piece);
      TailEnds(m0, Apply(v, piece), payload, true, Sent);
    } else {
      FinEnds(m0, v, payload, payload, from, 0);
      Apply1(v, Message(payload, from, 0, m0.binary, true, h.len));
    }
  }

  /** A whole message in one frame, on both sides. */
  lemma SingleData(cfg: Config, c: Conn, r: Ref, h: Header, payload: bytes, out: Out)
    requires AtBoundary(cfg, c, r) && c.msg == NO_MSG && |payload| == h.len && h.fin && h.opcode != OPCODE_CONT
    requires out == SingleFrame(cfg, c.msg, h, payload)
    ensures out.bad ==> c.events + out.events == c.events
    ensures !out.bad ==>
      var v, item := Fold(c.events), ItemOf(Begin(Frag, h), payload, Sent);
      && out.msg == NO_MSG && Fold(c.events + out.events) == ApplyAll(v, out.events)
      && Matches(Fold(c.events + out.events).items, r.items + [item])
      && Fold(c.events + out.events) == Blank(Fold(c.events + out.events).items)
      && (Clean(v) ==> Clean(Fold(c.events + out.events)))
  {
    var v := Fold(c.events);
    SingleMatches(cfg, c.msg, v, h, payload);
    if !out.bad {
      EmitFold(c, out.events);
      EndedMatches(v, ApplyAll(v, out.events), r.items, ItemOf(Begin(Frag, h), payload, Sent), true);
    } else {
      assert c.events + [] == c.events;
    }
  }

  lemma SingleAgrees(cfg: Config, c: Conn, r: Ref, h: Header, payload: bytes)
    requires AtBoundary(cfg, c, r) && c.status.Open? && |payload| == h.len
    requires h.opcode in {OPCODE_TEXT, OPCODE_BINARY} && h.fin && !Breaks(cfg, r.msg.InMsg?, h)
    ensures Agree(cfg, HandleFrame(cfg, c, h, payload), RefFrame(cfg, r, h, payload))
  {
    RejectsExactly(cfg, c.msg.mode, h);
    var none: bytes := [];
    assert none + payload == payload;
    SingleData(cfg, c, r, h, payload, SingleFrame(cfg, c.msg, h, payload));
  }

  /** A fragment that does not end its message. */
  lemma FragmentKeeps(cfg: Config, m: Msg, v: View, h: Header, whole: bytes, payload: bytes)
    requires InProgress(m, v, whole) && m.total == |whole| && !h.fin
    ensures
      var out := Fragment(cfg, m, h, payload);
      var v1 := ApplyAll(v, out.events);
      && !out.bad && InProgress(out.msg, v1, whole + payload) && v1.items == v.items && v1.clean == v.clean
      && (out.msg.frag != [] ==> m.frag != [] || payload != [])
      && out.msg.(frag := m.frag, fragFrom := m.fragFrom) == m.(total := |whole + payload|)
  {
    var m1 := Append(cfg.cap, m, payload);
    var first := AppendEvents(cfg.cap, m, payload);
    AppendKeeps(cfg.cap, m, v, whole, payload);
    ApplyConcat(v, first, FlushEvents(cfg.cap, m1));
    FlushKeeps(cfg.cap, m1, ApplyAll(v, first), whole + payload);
  }

  /** A fragment that ends its message. */
  lemma FragmentEnds(cfg: Config, m: Msg, v: View, h: Header, whole: bytes, payload: bytes, notice: Notice)
    requires InProgress(m, v, whole) && m.total == |whole| && h.fin
    requires NoticeOk(notice, HeldWith(cfg.cap, |m.frag|, |payload|) != cfg.cap)
    ensures
      var out := Fragment(cfg, m, h, payload);
      var v1 := ApplyAll(v, out.events);
      if out.bad then v1.items == v.items && v1.clean == v.clean && v1.quiet
      else out.msg == NO_MSG && Ended(v, v1, ItemOf(m, whole + payload, notice), v.clean)
  {
    var m1 := Append(cfg.cap, m, payload);
    var first := AppendEvents(cfg.cap, m, payload);
    AppendKeeps(cfg.cap, m, v, whole, payload);
    ApplyConcat(v, first, EndEvents(cfg.cap, m1));
    EndMatches(cfg.cap, m1, ApplyAll(v, first), whole + payload, notice);
  }

  /** Undisturbed, `frag` is the end of the message. */
  lemma FragIsEnd(m: Msg, v: View, whole: bytes)
    requires InProgress(m, v, whole) && v.clean
    ensures |m.frag| <= |whole| && m.frag == whole[|whole| - |m.frag|..]
  {
    var n := |v.from|;
    forall i | 0 <= i < |m.frag| ensures m.frag[i] == whole[n + i] {
      assert (v.from + m.fragFrom)[n + i] == m.fragFrom[i];
    }
  }

  /** At the end of a small message the source checks what the reference says. */
  lemma EndCheck(cfg: Config, m: Msg, v: View, h: Header, r: RefMsg, payload: bytes, bad: bool)
    requires r.InMsg? && InProgress(m, v, r.data) && m.total == |r.data| && v.clean && |m.frag| == r.held
    requires m.binary == r.binary && m.compressed == r.compressed && h.fin && h.opcode == OPCODE_CONT
    requires bad == Fragment(cfg, m, h, payload).bad && Extend(cfg, r, h, payload).small
    ensures bad <==> TextFails(cfg, false, Extend(cfg, r, h, payload), false)
  {
    var m1 := Append(cfg.cap, m, payload);
    AppendKeeps(cfg.cap, m, v, r.data, payload);
    FragIsEnd(m1, ApplyAll(v, AppendEvents(cfg.cap, m, payload)), r.data + payload);
    BadEndIsFailure(cfg, m1, Extend(cfg, r, h, payload));
  }

  lemma BadEndIsFailure(cfg: Config, m1: Msg, r1: RefMsg)
    requires r1.InMsg? && r1.small && m1.binary == r1.binary && m1.compressed == r1.compressed
    requires |m1.frag| == r1.held <= |r1.data| && m1.frag == r1.data[|r1.data| - r1.held..]
    ensures BadEnd(cfg, m1) <==> TextFails(cfg, false, r1, false)
  {
  }

  /** A fragment that does not end its message, on both sides. */
  lemma MiddleData(cfg: Config, c: Conn, r: Ref, h: Header, payload: bytes, m1: RefMsg, c1: Conn, r1: Ref)
    requires AtBoundary(cfg, c, r) && c.status.Open? && !h.fin && |payload| == h.len <= cfg.cap
    requires h.opcode in {OPCODE_CONT, OPCODE_TEXT, OPCODE_BINARY} && !Breaks(cfg, r.msg.InMsg?, h)
    requires
      var out := Fragment(cfg, Target(c.msg, h), h, payload);
      c1 == c.(msg := out.msg, events := c.events + out.events)
    requires Base(r.msg, h).InMsg? && m1 == Extend(cfg, Base(r.msg, h), h, payload)
    requires r1 == Flagged(cfg, r, h, m1).(msg := m1)
    ensures AtBoundary(cfg, c1, r1)
  {
    var m := Target(c.msg, h);
    var v := Fold(c.events);
    if h.opcode != OPCODE_CONT {
      BlankInProgress(m, v.items);
    }
    EmitFold(c, Fragment(cfg, m, h, payload).events);
    FragmentKeeps(cfg, m, v, h, Base(r.msg, h).data, payload);
  }

  lemma MiddleAgrees(cfg: Config, c: Conn, r: Ref, h: Header, payload: bytes)
    requires AtBoundary(cfg, c, r) && c.status.Open? && !h.fin && |payload| == h.len <= cfg.cap
    requires h.opcode in {OPCODE_CONT, OPCODE_TEXT, OPCODE_BINARY} && !Breaks(cfg, r.msg.InMsg?, h)
    ensures Agree(cfg, HandleFrame(cfg, c, h, payload), RefFrame(cfg, r, h, payload))
  {
    RejectsExactly(cfg, c.msg.mode, h);
    MiddleData(
      cfg, c, r, h, payload, Extend(cfg, Base(r.msg, h), h, payload),
      HandleFrame(cfg, c, h, payload), RefFrame(cfg, r, h, payload));
  }

  /** A fragment that ends its message, on both sides. */
  lemma LastData(cfg: Config, c: Conn, r: Ref, h: Header, payload: bytes, out: Out, m1: RefMsg)
    requires AtBoundary(cfg, c, r) && c.status.Open? && h.fin && h.opcode == OPCODE_CONT && r.msg.InMsg?
    requires |payload| == h.len <= cfg.cap && out == Fragment(cfg, c.msg, h, payload)
    requires m1 == Extend(cfg, r.msg, h, payload)
    ensures m1.small ==> (out.bad <==> TextFails(cfg, false, m1, false))
    ensures
      var v, v1 := Fold(c.events), Fold(c.events + out.events);
      if out.bad then v1.items == v.items && v1.clean == v.clean && v1.quiet
      else out.msg == NO_MSG && Ended(v, v1, Finished(cfg, m1, false), v.clean)
    ensures out.bad ==> IsText(cfg, m1)
  {
    var v := Fold(c.events);
    EmitFold(c, out.events);
    FragmentEnds(cfg, c.msg, v, h, r.msg.data, payload, NoticeOf(cfg, m1, false));
    if m1.small {
      EndCheck(cfg, c.msg, v, h, r.msg, payload, out.bad);
    }
  }

  lemma LastAgrees(cfg: Config, c: Conn, r: Ref, h: Header, payload: bytes)
    requires AtBoundary(cfg, c, r) && c.status.Open? && h.fin && h.opcode == OPCODE_CONT
    requires !Breaks(cfg, r.msg.InMsg?, h) && |payload| == h.len <= cfg.cap
    ensures Agree(cfg, HandleFrame(cfg, c, h, payload), RefFrame(cfg, r, h, payload))
  {
    RejectsExactly(cfg, c.msg.mode, h);
    var out := Fragment(cfg, c.msg, h, payload);
    var m1 := Extend(cfg, r.msg, h, payload);
    var v := Fold(c.events);
    LastData(cfg, c, r, h, payload, out, m1);
    if !out.bad {
      EndedMatches(v, Fold(c.events + out.events), r.items, Finished(cfg, m1, false), v.clean);
    }
  }

  lemma ControlAgrees(cfg: Config, c: Conn, r: Ref, h: Header, payload: bytes)
    requires AtBoundary(cfg, c, r) && c.status.Open? && h.opcode >= 8
    ensures Agree(cfg, HandleFrame(cfg, c, h, payload), RefFrame(cfg, r, h, payload))
  {
    RejectsExactly(cfg, c.msg.mode, h);
    var v := Fold(c.events);
    if h.opcode == OPCODE_PING {
      EmitFold(c, [PongSent(payload)]);
      Apply1(v, PongSent(payload));
      MatchesMore(v.items, r.items, GotPongTo(payload), PongTo(payload));
    } else if h.opcode == OPCODE_PONG {
      EmitFold(c, [PongSeen(payload)]);
      Apply1(v, PongSeen(payload));
      MatchesMore(v.items, r.items, GotPongFrom(payload), PongFrom(payload));
    }
  }

  /** A frame that is complete in the buffer does to the connection what the reference does. */
  lemma FrameAgrees(cfg: Config, c: Conn, r: Ref, h: Header, payload: bytes)
    requires AtBoundary(cfg, c, r) && c.status.Open? && |payload| == h.len <= cfg.cap
    ensures Agree(cfg, HandleFrame(cfg, c, h, payload), RefFrame(cfg, r, h, payload))
  {
    if h.opcode >= 8 {
      ControlAgrees(cfg, c, r, h, payload);
    } else if Breaks(cfg, r.msg.InMsg?, h) {
      RejectsExactly(cfg, c.msg.mode, h);
      HandleGrows(cfg, c, h, payload);
    } else if h.fin && h.opcode != OPCODE_CONT {
      SingleAgrees(cfg, c, r, h, payload);
    } else if h.fin {
      LastAgrees(cfg, c, r, h, payload);
    } else {
      MiddleAgrees(cfg, c, r, h, payload);
    }
  }

  // ---------------------------------------------------------------- simulation inside a streamed frame

  /** `raw` is the part of the payload of frame `h` that has been consumed so far. */
  ghost predicate InsideFrame(cfg: Config, c: Conn, r: Ref, h: Header, raw: bytes) {
    var v := Fold(c.events);
    var base := Base(r.msg, h);
    && r.status.Open? && !r.odd && Matches(v.items, r.items)
    && !r.strict && Tracked(cfg, r) && MayStream(cfg, h)
    && (c.msg.frag != [] ==> PhaseBefore(r, h) == 2) && (!r.risky && PhaseBefore(r, h) != 2 ==> Clean(v))
    && h.opcode in {OPCODE_CONT, OPCODE_TEXT, OPCODE_BINARY} && !Breaks(cfg, r.msg.InMsg?, h)
    && |raw| < h.len && c.large == Large(h.len - |raw|, h.fin, h.key, |raw|)
    && c.msg.mode == Stream && Carries(c.msg, base) && c.msg.total == |base.data| + h.len
    && InProgress(c.msg, v, base.data + Unmask(h.key, raw, 0))
  }

  lemma UnmaskConcat(key: Option<Key>, s: bytes, t: bytes)
    ensures Unmask(key, s + t, 0) == Unmask(key, s, 0) + Unmask(key, t, |s|)
  {
    if key.Some? {
      MaskConcat(s, t, key.value, 0);
    }
  }

  /** What consuming `n` bytes does to the message and to the calls made. */
  lemma ConsumeOut(cfg: Config, c: Conn, r: Ref, h: Header, raw: bytes, n: nat, notice: Notice)
    requires c.status.Open? && InsideFrame(cfg, c, r, h, raw) && 0 < n <= |c.buf| && n <= h.len - |raw|
    requires notice != Missing
    ensures
      var base := Base(r.msg, h);
      var start := |base.data| + |raw|;
      var last := |raw| + n == h.len && h.fin;
      var out := Chunk(c.msg, Unmask(h.key, c.buf[..n], |raw|), start, last);
      var whole := base.data + Unmask(h.key, raw + c.buf[..n], 0);
      var v, v1 := Fold(c.events), Fold(c.events + out.events);
      && start == c.msg.total - c.large.remaining
      && if last then out.msg == NO_MSG && Ended(v, v1, ItemOf(c.msg, whole, notice), v.clean && c.msg.frag == [])
         else
           && out.msg == c.msg && InProgress(c.msg, v1, whole) && v1.items == v.items
           && (v1.clean <==> v.clean && c.msg.frag == [])
  {
    var base := Base(r.msg, h);
    var data := Unmask(h.key, c.buf[..n], |raw|);
    var whole := base.data + Unmask(h.key, raw, 0);
    var last := |raw| + n == h.len && h.fin;
    UnmaskConcat(h.key, raw, c.buf[..n]);
    assert whole + data == base.data + Unmask(h.key, raw + c.buf[..n], 0);
    ChunkMatches(c.msg, Fold(c.events), whole, data, last, notice);
    EmitFold(c, Chunk(c.msg, data, |whole|, last).events);
  }

  /** Consuming part of what is missing of the frame. */
  lemma ConsumePart(cfg: Config, c: Conn, r: Ref, h: Header, raw: bytes)
    requires c.status.Open? && InsideFrame(cfg, c, r, h, raw) && 0 < |c.buf| < h.len - |raw|
    ensures InsideFrame(cfg, StreamConsume(c), r, h, raw + c.buf)
  {
    ConsumeOut(cfg, c, r, h, raw, |c.buf|, Either);
    assert c.buf[..|c.buf|] == c.buf;
  }

  /** The message as the streamed frame leaves it: large, so that its check and its fin are open. */
  lemma LargeEnd(cfg: Config, r: Ref, h: Header, payload: bytes, m1: RefMsg)
    requires !r.strict && MayStream(cfg, h) && Base(r.msg, h).InMsg? && m1 == Extend(cfg, Base(r.msg, h), h, payload)
    ensures m1.data == Base(r.msg, h).data + payload && NoticeOf(cfg, m1, IsSingle(h)) != Missing
    ensures
      var r1 := Flagged(cfg, r, h, m1);
      RefData(cfg, r, h, payload)
        == if h.fin then r1.(msg := NoMsg, items := r.items + [Finished(cfg, m1, IsSingle(h))]) else r1.(msg := m1)
  {
  }

  lemma ConsumedMiddle(cfg: Config, c: Conn, r: Ref, h: Header, raw: bytes, n: nat, m1: RefMsg, r1: Ref)
    requires c.status.Open? && InsideFrame(cfg, c, r, h, raw) && n == h.len - |raw| <= |c.buf| && !h.fin
    requires m1 == Extend(cfg, Base(r.msg, h), h, Unmask(h.key, raw + c.buf[..n], 0))
    requires r1 == Flagged(cfg, r, h, m1).(msg := m1)
    ensures AtBoundary(cfg, StreamConsume(c), r1)
  {
    ConsumeOut(cfg, c, r, h, raw, n, Either);
    var d := StreamConsume(c);
    var out := Chunk(c.msg, Unmask(h.key, c.buf[..n], |raw|), c.msg.total - c.large.remaining, false);
    assert d.status == c.status && d.msg == c.msg && d.events == c.events + out.events;
    assert InProgress(d.msg, Fold(d.events), m1.data);
  }

  lemma ConsumedLast(cfg: Config, c: Conn, r: Ref, h: Header, raw: bytes, n: nat, m1: RefMsg, r1: Ref)
    requires c.status.Open? && InsideFrame(cfg, c, r, h, raw) && n == h.len - |raw| <= |c.buf| && h.fin
    requires m1 == Extend(cfg, Base(r.msg, h), h, Unmask(h.key, raw + c.buf[..n], 0))
    requires NoticeOf(cfg, m1, IsSingle(h)) != Missing
    requires r1 == Flagged(cfg, r, h, m1).(msg := NoMsg, items := r.items + [Finished(cfg, m1, IsSingle(h))])
    ensures AtBoundary(cfg, StreamConsume(c), r1)
  {
    var notice := NoticeOf(cfg, m1, IsSingle(h));
    ConsumeOut(cfg, c, r, h, raw, n, notice);
    var out := Chunk(c.msg, Unmask(h.key, c.buf[..n], |raw|), c.msg.total - c.large.remaining, true);
    var v, v1 := Fold(c.events), Fold(c.events + out.events);
    EndedMatches(v, v1, r.items, ItemOf(c.msg, m1.data, notice), v.clean && c.msg.frag == []);
  }

  /** Consuming all that was missing of the frame. */
  lemma ConsumeRest(cfg: Config, c: Conn, r: Ref, h: Header, raw: bytes, n: nat)
    requires c.status.Open? && InsideFrame(cfg, c, r, h, raw) && n == h.len - |raw| <= |c.buf|
    ensures AtBoundary(cfg, StreamConsume(c), RefFrame(cfg, r, h, Unmask(h.key, raw + c.buf[..n], 0)))
  {
    var payload := Unmask(h.key, raw + c.buf[..n], 0);
    var m1 := Extend(cfg, Base(r.msg, h), h, payload);
    var r1 := RefData(cfg, r, h, payload);
    LargeEnd(cfg, r, h, payload, m1);
    if h.fin {
      ConsumedLast(cfg, c, r, h, raw, n, m1, r1);
    } else {
      ConsumedMiddle(cfg, c, r, h, raw, n, m1, r1);
    }
  }

  /** The switch to streaming, before any payload byte of the frame is consumed. */
  lemma SwitchAgrees(cfg: Config, c: Conn, r: Ref, h: Header)
    requires AtBoundary(cfg, c, r) && h.len > 125 && MayStream(cfg, h) && !Breaks(cfg, r.msg.InMsg?, h)
    ensures InsideFrame(
      cfg,
      c.(msg := SwitchToStream(c.msg, h), events := c.events + SwitchEvents(c.msg),
         large := Large(h.len, h.fin, h.key, 0)),
      r, h, [])
  {
    var v := Fold(c.events);
    var m := SwitchToStream(c.msg, h);
    var base := Base(r.msg, h);
    EmitFold(c, SwitchEvents(c.msg));
    assert base.data + Unmask(h.key, [], 0) == base.data;
    if c.msg.mode == Idle {
      BlankInProgress(m, v.items);
    } else if c.msg.mode == Frag && c.msg.frag != [] {
      Apply1(v, Piece(c.msg, c.msg.frag, c.msg.fragFrom, 0));
      PieceKeeps(c.msg, v, r.msg.data);
    }
  }

  lemma StartAgrees(cfg: Config, c: Conn, r: Ref, h: Header, n: nat)
    requires c.status.Open? && AtBoundary(cfg, c, r) && h.len > 125 && MayStream(cfg, h) && n <= |c.buf| < n + h.len
    ensures
      var c1 := StartStream(cfg, c, h, n);
      if Breaks(cfg, r.msg.InMsg?, h) then c1 == Fail(c, ProtocolError)
      else c1.status.Open? && c1.buf == [] && InsideFrame(cfg, c1, r, h, c.buf[n..])
  {
    StreamRejectsExactly(cfg, c.msg.mode, h);
    if !Breaks(cfg, r.msg.InMsg?, h) {
      SwitchAgrees(cfg, c, r, h);
      var c0 := c.(
        buf := c.buf[n..], msg := SwitchToStream(c.msg, h), events := c.events + SwitchEvents(c.msg),
        large := Large(h.len, h.fin, h.key, 0));
      assert InsideFrame(cfg, c0, r, h, []);
      if c0.buf != [] {
        ConsumePart(cfg, c0, r, h, []);
        assert [] + c0.buf == c.buf[n..];
      }
    }
  }

  // ---------------------------------------------------------------- simulation of whole runs

  ghost predicate SimOpen(cfg: Config, c: Conn, read: Read) {
    && c.status.Open? && read.ref.status.Open?
    && if c.large.remaining == 0 then c.buf == read.rest && AtBoundary(cfg, c, read.ref)
       else
         && c.buf == [] && ParseHeader(read.rest).Complete?
         && InsideFrame(cfg, c, read.ref, ParseHeader(read.rest).header, read.rest[ParseHeader(read.rest).size..])
  }

  /** A frame that breaks the rules and whose payload is still arriving. */
  ghost predicate BrokenAhead(cfg: Config, read: Read) {
    && read.ref.status.Open? && ParseHeader(read.rest).Complete?
    && var Complete(h, n) := ParseHeader(read.rest);
       |read.rest| < n + h.len && Breaks(cfg, read.ref.msg.InMsg?, h)
  }

  ghost predicate SimClosed(cfg: Config, c: Conn, read: Read) {
    && !c.status.Open? && Accounted(c, read.ref)
    && ((c.status == read.ref.status && read.rest == []) || (c.status == ProtocolError && BrokenAhead(cfg, read)))
  }

  ghost predicate Sim(cfg: Config, c: Conn, read: Read) {
    || (read.ref.odd && !read.ref.status.Open? && Delivered(c, read.ref))
    || (c.status == BadText && read.ref.wild && Behind(c, read.ref))
    || SimOpen(cfg, c, read)
    || SimClosed(cfg, c, read)
  }

  /** Both loops, unrolled over one whole frame. */
  lemma ReadWhole(cfg: Config, r: Ref, s: bytes, h: Header, n: nat)
    requires r.status.Open? && ParseHeader(s) == Complete(h, n) && |s| >= n + h.len
    ensures ReadFrames(cfg, r, s)
      == ReadFrames(cfg, RefFrame(cfg, r, h, Unmask(h.key, s[n..n + h.len], 0)), s[n + h.len..])
  {
  }

  lemma HandleFrameKeepsLarge(cfg: Config, c: Conn, h: Header, payload: bytes)
    ensures HandleFrame(cfg, c, h, payload).large.remaining in {c.large.remaining, 0}
  {
  }

  /** The frame loop started at a frame boundary. */
  lemma {:induction false} ProcessSim(cfg: Config, c: Conn, r: Ref)
    requires cfg.cap >= 1024 && c.status.Open? && c.large.remaining == 0 && AtBoundary(cfg, c, r) && |c.buf| <= cfg.cap
    ensures Sim(cfg, ProcessFrames(cfg, c), ReadFrames(cfg, r, c.buf))
    decreases |c.buf|, 1
  {
    match ParseHeader(c.buf)
    case NeedMore =>
      assert SimOpen(cfg, c, Read(r, c.buf));
    case Invalid =>
      assert SimClosed(cfg, Fail(c, ProtocolError), Read(r.(status := ProtocolError), []));
    case Complete(h, n) =>
      if |c.buf| >= n + h.len {
        WholeFrameSim(cfg, c, r, h, n);
      } else if n + h.len > cfg.cap / 2 {
        StartAgrees(cfg, c, r, h, n);
        var c1 := StartStream(cfg, c, h, n);
        if Breaks(cfg, r.msg.InMsg?, h) {
          assert SimClosed(cfg, c1, Read(r, c.buf));
        } else {
          assert SimOpen(cfg, c1, Read(r, c.buf));
        }
      } else {
        assert SimOpen(cfg, c, Read(r, c.buf));
      }
  }

  lemma {:induction false} WholeFrameSim(cfg: Config, c: Conn, r: Ref, h: Header, n: nat)
    requires cfg.cap >= 1024 && c.status.Open? && c.large.remaining == 0 && AtBoundary(cfg, c, r) && |c.buf| <= cfg.cap
    requires ParseHeader(c.buf) == Complete(h, n) && n + h.len <= |c.buf|
    ensures Sim(cfg, ProcessFrames(cfg, c), ReadFrames(cfg, r, c.buf))
    decreases |c.buf|, 0
  {
    var payload := Unmask(h.key, c.buf[n..n + h.len], 0);
    ReadWhole(cfg, r, c.buf, h, n);
    StepWhole(cfg, c, h, n);
    ProcessNext(cfg, c, Step(cfg, c));
    HandleFrameKeepsLarge(cfg, c, h, payload);
    FrameAgrees(cfg, c, r, h, payload);
    AfterWhole(
      cfg, HandleFrame(cfg, c, h, payload), RefFrame(cfg, r, h, payload), c.buf[n + h.len..], ProcessFrames(cfg, c));
  }

  /** Where a whole frame leaves the comparison when the bytes `rest` follow it. */
  lemma {:induction false} AfterWhole(cfg: Config, c1: Conn, r1: Ref, rest: bytes, c2: Conn)
    requires cfg.cap >= 1024 && c1.large.remaining == 0 && Agree(cfg, c1, r1) && |rest| <= cfg.cap
    requires var next := After(c1, rest); c2 == if next.more then ProcessFrames(cfg, next.conn) else next.conn
    ensures Sim(cfg, c2, ReadFrames(cfg, r1, rest))
    decreases |rest|, 2
  {
    if r1.odd && !r1.status.Open? && Delivered(c1, r1) {
      ProcessGrows(cfg, c1.(buf := rest));
    } else if c1.status == BadText && r1.wild && Behind(c1, r1) {
      FlagsStay(cfg, r1, rest);
    } else if r1.status.Open? {
      ProcessSim(cfg, c1.(buf := rest), r1);
    } else {
      assert SimClosed(cfg, c1, Read(r1, []));
    }
  }

  /** One push continues the simulation where the bytes read so far left it. */
  lemma OnDataSim(cfg: Config, c: Conn, read: Read, data: bytes)
    requires Settled(cfg, c) && Sim(cfg, c, read) && |data| <= cfg.cap / 2
    ensures Sim(cfg, OnData(cfg, c, data), Resume(cfg, read, data))
  {
    if read.ref.odd && !read.ref.status.Open? && Delivered(c, read.ref) {
      OnDataGrows(cfg, c, data);
    } else if c.status == BadText && read.ref.wild && Behind(c, read.ref) {
      ResumeFlags(cfg, read, data);
    } else if SimClosed(cfg, c, read) {
      ClosedSim(cfg, c, read, data);
    } else if c.large.remaining == 0 {
      ProcessSim(cfg, c.(buf := c.buf + data), read.ref);
      assert StreamConsume(c.(buf := c.buf + data)) == c.(buf := c.buf + data);
    } else {
      StreamingSim(cfg, c, read, data);
    }
  }

  lemma ResumeFlags(cfg: Config, read: Read, data: bytes)
    ensures FlagsKept(read.ref, Resume(cfg, read, data).ref)
  {
    if read.ref.status.Open? {
      FlagsStay(cfg, read.ref, read.rest + data);
    }
  }

  /** A frame rejected on its header is rejected by the reference once its payload is there. */
  lemma ClosedSim(cfg: Config, c: Conn, read: Read, data: bytes)
    requires SimClosed(cfg, c, read)
    ensures Sim(cfg, c, Resume(cfg, read, data))
  {
    if BrokenAhead(cfg, read) {
      var s := read.rest + data;
      ParseHeaderStable(read.rest, data);
      var Complete(h, n) := ParseHeader(s);
      if |s| >= n + h.len {
        ReadWhole(cfg, read.ref, s, h, n);
        var r1 := read.ref.(status := ProtocolError, odd := read.ref.odd || Odd(cfg, read.ref.msg.InMsg?, h));
        assert Resume(cfg, read, data) == Read(r1, []);
      } else {
        assert Resume(cfg, read, data) == Read(read.ref, s);
      }
    }
  }

  /** A push that leaves a streamed frame incomplete. */
  lemma StreamingMore(cfg: Config, d: Conn, r: Ref, rest: bytes, h: Header, n: nat)
    requires d.status.Open? && ParseHeader(rest) == Complete(h, n)
    requires InsideFrame(cfg, d, r, h, rest[n..]) && |d.buf| < h.len - |rest[n..]|
    ensures Sim(cfg, FrameData(cfg, d), ReadFrames(cfg, r, rest + d.buf))
  {
    var s := rest + d.buf;
    ParseHeaderStable(rest, d.buf);
    assert s[n..] == rest[n..] + d.buf;
    if d.buf == [] {
      assert s == rest;
      assert SimOpen(cfg, d, Read(r, s));
    } else {
      ConsumePart(cfg, d, r, h, rest[n..]);
      assert SimOpen(cfg, StreamConsume(d), Read(r, s));
    }
  }

  /** A push that completes a streamed frame; frames may follow it. */
  lemma StreamingDone(cfg: Config, d: Conn, r: Ref, rest: bytes, h: Header, n: nat, raw: bytes, read: Read)
    requires cfg.cap >= 1024 && d.status.Open? && ParseHeader(rest) == Complete(h, n) && |d.buf| <= cfg.cap
    requires raw == rest[n..] && InsideFrame(cfg, d, r, h, raw) && |d.buf| >= h.len - |raw|
    requires read == ReadFrames(cfg, r, rest + d.buf)
    ensures Sim(cfg, FrameData(cfg, d), read)
  {
    var k := h.len - |raw|;
    var r1 := RefFrame(cfg, r, h, Unmask(h.key, raw + d.buf[..k], 0));
    ReadRest(cfg, r, rest, d.buf, h, n, raw, k, r1, read);
    FrameConsumed(cfg, d, r, h, raw, k, r1, read);
  }

  lemma FrameConsumed(cfg: Config, d: Conn, r: Ref, h: Header, raw: bytes, k: nat, r1: Ref, read: Read)
    requires cfg.cap >= 1024 && d.status.Open? && InsideFrame(cfg, d, r, h, raw) && |d.buf| <= cfg.cap
    requires k == h.len - |raw| <= |d.buf| && r1 == RefFrame(cfg, r, h, Unmask(h.key, raw + d.buf[..k], 0))
    requires read == ReadFrames(cfg, r1, d.buf[k..])
    ensures Sim(cfg, FrameData(cfg, d), read)
  {
    ConsumeRest(cfg, d, r, h, raw, k);
    ConsumedBy(cfg, d, k);
    BoundarySim(cfg, StreamConsume(d), r1, FrameData(cfg, d), read);
  }

  lemma BoundarySim(cfg: Config, d1: Conn, r1: Ref, c: Conn, read: Read)
    requires cfg.cap >= 1024 && AtBoundary(cfg, d1, r1) && d1.status.Open? && d1.large.remaining == 0
    requires |d1.buf| <= cfg.cap && c == ProcessFrames(cfg, d1) && read == ReadFrames(cfg, r1, d1.buf)
    ensures Sim(cfg, c, read)
  {
    ProcessSim(cfg, d1, r1);
  }

  /** A frame that lies in both parts of a string. */
  lemma AcrossParts(a: bytes, b: bytes, n: nat, k: nat)
    requires n <= |a| && k <= |b|
    ensures (a + b)[n..|a| + k] == a[n..] + b[..k] && (a + b)[|a| + k..] == b[k..]
  {
  }

  lemma ReadRest(
    cfg: Config, r: Ref, rest: bytes, more: bytes, h: Header, n: nat, raw: bytes, k: nat, r1: Ref, read: Read)
    requires r.status.Open? && ParseHeader(rest) == Complete(h, n) && raw == rest[n..] && k == h.len - |raw| <= |more|
    requires r1 == RefFrame(cfg, r, h, Unmask(h.key, raw + more[..k], 0)) && read == ReadFrames(cfg, r, rest + more)
    ensures read == ReadFrames(cfg, r1, more[k..])
  {
    ParseHeaderStable(rest, more);
    ReadWhole(cfg, r, rest + more, h, n);
    AcrossParts(rest, more, n, k);
  }

  lemma ConsumedBy(cfg: Config, d: Conn, k: nat)
    requires k == d.large.remaining <= |d.buf|
    ensures StreamConsume(d).buf == d.buf[k..] && StreamConsume(d).large.remaining == 0
    ensures StreamConsume(d).status == d.status
    ensures FrameData(cfg, d) == ProcessFrames(cfg, StreamConsume(d))
  {
  }

  /** A push that arrives while a streamed frame is incomplete. */
  lemma StreamingSim(cfg: Config, c: Conn, read: Read, data: bytes)
    requires cfg.cap >= 1024 && |data| <= cfg.cap && SimOpen(cfg, c, read) && c.large.remaining > 0
    ensures Sim(cfg, OnData(cfg, c, data), Resume(cfg, read, data))
  {
    var d := c.(buf := data);
    assert c.buf + data == data;
    var Complete(h, n) := ParseHeader(read.rest);
    assert InsideFrame(cfg, d, read.ref, h, read.rest[n..]);
    if |data| < h.len - |read.rest[n..]| {
      StreamingMore(cfg, d, read.ref, read.rest, h, n);
    } else {
      StreamingDone(
        cfg, d, read.ref, read.rest, h, n, read.rest[n..], ReadFrames(cfg, read.ref, read.rest + data));
    }
  }

  // ---------------------------------------------------------------- the theorems

  function ResumeAll(cfg: Config, read: Read, pushes: seq<bytes>): Read
    decreases |pushes|
  {
    if pushes == [] then read else ResumeAll(cfg, Resume(cfg, read, pushes[0]), pushes[1..])
  }

  /** Reading push by push is reading the whole stream. */
  lemma {:induction false} ReadPushes(cfg: Config, before: bytes, pushes: seq<bytes>)
    ensures ResumeAll(cfg, ReadFrames(cfg, START, before), pushes) == ReadFrames(cfg, START, before + Flatten(pushes))
    decreases |pushes|
  {
    if pushes == [] {
      assert before + Flatten(pushes) == before;
    } else {
      ReadInPieces(ReaderFor(cfg), START, before, pushes[0]);
      ReadPushes(cfg, before + pushes[0], pushes[1..]);
      assert before + pushes[0] + Flatten(pushes[1..]) == before + Flatten(pushes);
    }
  }

  lemma {:induction false} PushesSim(cfg: Config, c: Conn, read: Read, pushes: seq<bytes>)
    requires Settled(cfg, c) && Sim(cfg, c, read) && Pushes(cfg, pushes)
    ensures Sim(cfg, RunFrom(cfg, c, pushes), ResumeAll(cfg, read, pushes))
    decreases |pushes|
  {
    if pushes != [] {
      var c1, read1 := OnData(cfg, c, pushes[0]), Resume(cfg, read, pushes[0]);
      OnDataSettles(cfg, c, pushes[0]);
      OnDataSim(cfg, c, read, pushes[0]);
      PushesSim(cfg, c1, read1, pushes[1..]);
    }
  }

  /**
   * For every byte stream and every division of it into pushes of at most cap / 2 bytes, the
   * connection is where reading the whole stream frame by frame says it is.
   */
  lemma Reassembles(cfg: Config, leftover: bytes, pushes: seq<bytes>)
    requires Transport(cfg, leftover, pushes)
    ensures Sim(cfg, Run(cfg, leftover, pushes), ReadFrames(cfg, START, leftover + Flatten(pushes)))
  {
    var c, read := ProcessFrames(cfg, Initial(leftover)), ReadFrames(cfg, START, leftover);
    ProcessFramesSettles(cfg, Initial(leftover));
    ProcessSim(cfg, Initial(leftover), START);
    PushesSim(cfg, c, read, pushes);
    ReadPushes(cfg, leftover, pushes);
  }

  /**
   * A stream on which the result cannot depend on the cut: whole frames, no odd one, and no TEXT
   * message to be checked with a frame that may be streamed.
   */
  ghost predicate Regular(read: Read) {
    read.rest == [] && !read.ref.odd && !read.ref.wild
  }

  /**
   * When the stream is a whole number of frames the verdict is the reference verdict, every message
   * and control frame is accounted for in order, and no byte is left behind.
   */
  lemma WholeFrames(cfg: Config, leftover: bytes, pushes: seq<bytes>)
    requires Transport(cfg, leftover, pushes)
    requires Regular(ReadFrames(cfg, START, leftover + Flatten(pushes)))
    ensures
      var r := ReadFrames(cfg, START, leftover + Flatten(pushes)).ref;
      var c := Run(cfg, leftover, pushes);
      && c.status == r.status && Accounted(c, r)
      && (c.status.Open? ==> c.buf == [] && c.large.remaining == 0 && AtBoundary(cfg, c, r))
  {
    Reassembles(cfg, leftover, pushes);
  }

  /** Equal but for the history; the fin callback of a compressed message unless the cut decides it. */
  predicate Same(g1: Got, g2: Got, item: Item) {
    match g1
    case GotPlain(binaries, data, _, _, total, _) =>
      g2.GotPlain? && g2.binaries == binaries && g2.data == data && g2.total == total
    case GotDeflated(data, _, _, fin) =>
      g2.GotDeflated? && g2.data == data && (item.Deflated? && item.notice != Either ==> g2.fin == fin)
    case GotPongTo(_) => g1 == g2
    case GotPongFrom(_) => g1 == g2
  }

  ghost predicate AllSame(gots1: seq<Got>, gots2: seq<Got>, items: seq<Item>) {
    |gots1| == |gots2| == |items| && forall i :: 0 <= i < |items| ==> Same(gots1[i], gots2[i], items[i])
  }

  /**
   * Two divisions of the same stream give the same verdict, messages and control frames in order,
   * unless some message has a fragment that fits the buffer between two large ones.
   */
  lemma CutInvariant(cfg: Config, left1: bytes, pushes1: seq<bytes>, left2: bytes, pushes2: seq<bytes>)
    requires Transport(cfg, left1, pushes1) && Transport(cfg, left2, pushes2)
    requires left1 + Flatten(pushes1) == left2 + Flatten(pushes2)
    requires var read := ReadFrames(cfg, START, left1 + Flatten(pushes1)); Regular(read) && !read.ref.risky
    ensures
      var c1, c2 := Run(cfg, left1, pushes1), Run(cfg, left2, pushes2);
      var items := ReadFrames(cfg, START, left1 + Flatten(pushes1)).ref.items;
      c1.status == c2.status && AllSame(Fold(c1.events).items, Fold(c2.events).items, items)
  {
    WholeFrames(cfg, left1, pushes1);
    WholeFrames(cfg, left2, pushes2);
    var r := ReadFrames(cfg, START, left1 + Flatten(pushes1)).ref;
    AccountedAreSame(Run(cfg, left1, pushes1), Run(cfg, left2, pushes2), r);
  }

  lemma AccountedAreSame(c1: Conn, c2: Conn, r: Ref)
    requires Accounted(c1, r) && Accounted(c2, r) && !r.risky
    ensures AllSame(Fold(c1.events).items, Fold(c2.events).items, r.items)
  {
    var items1, items2 := Fold(c1.events).items, Fold(c2.events).items;
    forall i | 0 <= i < |items1|
      ensures Same(items1[i], items2[i], r.items[i])
    {
      assert Match(items1[i], r.items[i]) && Match(items2[i], r.items[i]);
      if r.items[i].Plain? || r.items[i].Deflated? {
        CleanIsWhole(items1[i], r.items[i]);
        CleanIsWhole(items2[i], r.items[i]);
      }
    }
  }

  /**
   * On every division into pushes, a compressed message that came in one frame is followed by its fin
   * callback, and one in fragments too small to be streamed if and only if its last accumulation does
   * not fill the buffer exactly.
   */
  lemma CompressedFinExactly(cfg: Config, leftover: bytes, pushes: seq<bytes>, i: nat)
    requires Transport(cfg, leftover, pushes)
    requires
      var read := ReadFrames(cfg, START, leftover + Flatten(pushes));
      Regular(read) && i < |read.ref.items| && read.ref.items[i].Deflated? && read.ref.items[i].notice != Either
    ensures
      var item := ReadFrames(cfg, START, leftover + Flatten(pushes)).ref.items[i];
      var gots := Fold(Run(cfg, leftover, pushes).events).items;
      i < |gots| && gots[i].GotDeflated?
      && gots[i].fin == if item.notice == Sent then Some(item.binary) else None
  {
    WholeFrames(cfg, leftover, pushes);
    var r := ReadFrames(cfg, START, leftover + Flatten(pushes)).ref;
    assert Match(Fold(Run(cfg, leftover, pushes).events).items[i], r.items[i]);
  }

  // ---------------------------------------------------------------- the verdict on TEXT

  /** Below `cap` bytes a message that is not compressed is held whole. */
  predicate HeldWhole(cfg: Config, m: RefMsg) {
    m.InMsg? && !m.compressed && |m.data| <= cfg.cap ==> m.held == |m.data|
  }

  /** On a short small TEXT message the check of the source is the check of the standard. */
  lemma SameVerdict(cfg: Config, m: RefMsg, single: bool)
    requires m.InMsg? && HeldWhole(cfg, m) && (IsText(cfg, m) ==> m.small && (single || |m.data| < cfg.cap))
    ensures TextFails(cfg, true, m, single) <==> TextFails(cfg, false, m, single)
  {
    if IsText(cfg, m) && !single && m.data != [] {
      assert m.data[|m.data| - m.held..] == m.data;
    }
  }

  lemma SameCheck(cfg: Config, r: Ref, h: Header, payload: bytes)
    requires HeldWhole(cfg, r.msg) && Tracked(cfg, r) && Base(r.msg, h).InMsg?
    ensures
      var m := Extend(cfg, Base(r.msg, h), h, payload);
      var r1 := Flagged(cfg, r, h, m);
      && HeldWhole(cfg, m) && Tracked(cfg, r1.(msg := m))
      && (h.fin && !r1.wild && !r1.long ==>
          (TextFails(cfg, true, m, IsSingle(h)) <==> TextFails(cfg, false, m, IsSingle(h))))
  {
    var m := Extend(cfg, Base(r.msg, h), h, payload);
    var r1 := Flagged(cfg, r, h, m);
    assert HeldWhole(cfg, m);
    if h.fin && !r1.wild && !r1.long {
      SameVerdict(cfg, m, IsSingle(h));
    }
  }

  /** What the two readings have in common after a frame. */
  ghost predicate Alike(cfg: Config, r1: Ref, r2: Ref) {
    && HeldWhole(cfg, r1.msg) && Tracked(cfg, r1) && !r1.strict
    && r2.wild == r1.wild && r2.long == r1.long && (!r1.wild && !r1.long ==> r2 == r1.(strict := true))
  }

  lemma SameData(cfg: Config, r: Ref, h: Header, payload: bytes)
    requires HeldWhole(cfg, r.msg) && Tracked(cfg, r) && !r.strict
    ensures Alike(cfg, RefData(cfg, r, h, payload), RefData(cfg, r.(strict := true), h, payload))
  {
    var s := r.(strict := true);
    if Base(r.msg, h).InMsg? {
      var m := Extend(cfg, Base(r.msg, h), h, payload);
      SameCheck(cfg, r, h, payload);
      assert Flagged(cfg, s, h, m) == Flagged(cfg, r, h, m).(strict := true);
    }
  }

  /** A frame that carries message data by the rules. */
  predicate IsData(cfg: Config, r: Ref, h: Header) {
    !Breaks(cfg, r.msg.InMsg?, h) && h.opcode < 8
  }

  lemma SameOther(cfg: Config, r: Ref, h: Header, payload: bytes)
    requires HeldWhole(cfg, r.msg) && Tracked(cfg, r) && !r.strict && !IsData(cfg, r, h)
    ensures Alike(cfg, RefFrame(cfg, r, h, payload), RefFrame(cfg, r.(strict := true), h, payload))
  {
  }

  lemma DataFrame(cfg: Config, r: Ref, h: Header, payload: bytes)
    requires IsData(cfg, r, h)
    ensures RefFrame(cfg, r, h, payload) == RefData(cfg, r, h, payload)
  {
  }

  lemma SameFrame(cfg: Config, r: Ref, h: Header, payload: bytes)
    requires HeldWhole(cfg, r.msg) && Tracked(cfg, r) && !r.strict
    ensures Alike(cfg, RefFrame(cfg, r, h, payload), RefFrame(cfg, r.(strict := true), h, payload))
  {
    if IsData(cfg, r, h) {
      SameData(cfg, r, h, payload);
      DataFrame(cfg, r, h, payload);
      DataFrame(cfg, r.(strict := true), h, payload);
    } else {
      SameOther(cfg, r, h, payload);
    }
  }

  ghost predicate AlikeAt(cfg: Config, step: Reader, r: Ref, h: Header, payload: bytes) {
    HeldWhole(cfg, r.msg) && Tracked(cfg, r) && !r.strict ==>
      Alike(cfg, step(r, h, payload), step(r.(strict := true), h, payload))
  }

  lemma {:induction false} ReadAlike(cfg: Config, step: Reader, r1: Ref, r2: Ref, s: bytes)
    requires forall r, h, p :: AlikeAt(cfg, step, r, h, p)
    requires forall r, h, p :: KeepsAt(step, r, h, p)
    requires Alike(cfg, r1, r2)
    ensures
      var a, b := ReadBy(step, r1, s), ReadBy(step, r2, s);
      !b.ref.wild && !b.ref.long ==> b == a.(ref := a.ref.(strict := true))
    decreases |s|
  {
    if r1.wild || r1.long {
      ReadKeepsFlags(step, r2, s);
    } else if r1.status.Open? && ParseHeader(s).Complete? {
      var Complete(h, n) := ParseHeader(s);
      if |s| >= n + h.len {
        var payload := Unmask(h.key, s[n..n + h.len], 0);
        assert AlikeAt(cfg, step, r1, h, payload);
        ReadOne(step, r1, s, h, n);
        ReadOne(step, r2, s, h, n);
        ReadAlike(cfg, step, step(r1, h, payload), step(r2, h, payload), s[n + h.len..]);
      }
    }
  }

  /** Without wild and long messages the source's check and the standard's give the same reading. */
  lemma SameReading(cfg: Config, s: bytes)
    ensures
      var a, b := ReadFrames(cfg, START, s), ReadFrames(cfg, STRICT, s);
      !b.ref.wild && !b.ref.long ==> b == a.(ref := a.ref.(strict := true))
  {
    var step := ReaderFor(cfg);
    forall r, h, p ensures AlikeAt(cfg, step, r, h, p) {
      if HeldWhole(cfg, r.msg) && Tracked(cfg, r) && !r.strict {
        SameFrame(cfg, r, h, p);
      }
    }
    ReaderKeeps(cfg);
    ReadAlike(cfg, step, START, STRICT, s);
  }

  /** The standard's reading fails on a frame exactly when it ends a TEXT message that is not UTF-8. */
  lemma StrictFailsExactly(cfg: Config, r: Ref, h: Header, payload: bytes)
    requires r.strict && r.status.Open? && !Breaks(cfg, r.msg.InMsg?, h) && h.opcode < 8
    ensures
      var base := Base(r.msg, h);
      RefFrame(cfg, r, h, payload).status == BadText <==>
        h.fin && cfg.checkUtf8 && base.InMsg? && !base.binary && !base.compressed && !Utf8.IsUtf8(base.data + payload)
  {
    if Base(r.msg, h).InMsg? {
      Utf8.ValidIffUtf8(Base(r.msg, h).data + payload);
    }
  }

  /**
   * When no TEXT message to be checked has a frame that may be streamed and no fragmented one has
   * `cap` bytes or more, every division into pushes gives the verdict of the standard: BadText if and
   * only if a TEXT message that is not UTF-8 is the first thing wrong with the stream; and the
   * messages before that are delivered.
   */
  lemma VerdictIsStandard(cfg: Config, leftover: bytes, pushes: seq<bytes>)
    requires Transport(cfg, leftover, pushes)
    requires
      var read := ReadFrames(cfg, STRICT, leftover + Flatten(pushes));
      Regular(read) && !read.ref.long
    ensures
      var r := ReadFrames(cfg, STRICT, leftover + Flatten(pushes)).ref;
      var c := Run(cfg, leftover, pushes);
      c.status == r.status && Accounted(c, r)
  {
    SameReading(cfg, leftover + Flatten(pushes));
    WholeFrames(cfg, leftover, pushes);
  }
}
