/** One HTTP server connection as a value, with the history its correctness is stated over. */
module HttpConn {
  import opened HttpParse
  import opened Bytes

  datatype State = NEW | PARSING | REQUEST | AWAIT_RESP | RESPONDING | RELEASED | CLOSING | CLOSED

  /** The registered transitions. */
  predicate StateOk(from: State, to: State) {
    match from
    case NEW => to in {PARSING, CLOSING, CLOSED}
    case PARSING => to in {REQUEST, CLOSING, CLOSED}
    case REQUEST => to in {AWAIT_RESP, RESPONDING, RELEASED, PARSING, CLOSING, CLOSED}
    case AWAIT_RESP => to in {PARSING, RESPONDING, CLOSING, CLOSED}
    case RESPONDING => to in {PARSING, CLOSING, CLOSED}
    case CLOSING => to == CLOSED
    case RELEASED => false
    case CLOSED => false
  }

  const REGISTERED: set<(State, State)> := {
    (NEW, PARSING), (NEW, CLOSING), (NEW, CLOSED), (PARSING, REQUEST), (PARSING, CLOSING), (PARSING, CLOSED),
    (REQUEST, AWAIT_RESP), (REQUEST, RESPONDING), (REQUEST, RELEASED), (REQUEST, PARSING), (REQUEST, CLOSING),
    (REQUEST, CLOSED), (AWAIT_RESP, PARSING), (AWAIT_RESP, RESPONDING), (AWAIT_RESP, CLOSING), (AWAIT_RESP, CLOSED),
    (RESPONDING, PARSING), (RESPONDING, CLOSING), (RESPONDING, CLOSED), (CLOSING, CLOSED)}

  /** These twenty and no others. */
  lemma StatesExactly(from: State, to: State)
    ensures StateOk(from, to) <==> (from, to) in REGISTERED
  {
  }

  predicate Dying(s: State) {
    s == CLOSING || s == CLOSED || s == RELEASED
  }

  predicate Dead(s: State) {
    s == CLOSED || s == RELEASED
  }

  // ---------------------------------------------------------------- framing

  /**
   * The connection works for every framing function with the two properties below; that
   * HttpParse.Parse has them is ParseIsSound.
   */
  type Framing = string -> Verdict

  /** A complete request is a prefix that is complete on its own. */
  ghost predicate WholeAt(parse: Framing, s: string) {
    parse(s).Done? ==>
      var n := parse(s).msg.body.hi;
      0 < n <= |s| && parse(s[..n]) == parse(s)
  }

  ghost predicate StableAt(parse: Framing, s: string, t: string) {
    parse(s) != More ==> parse(s + t) == parse(s)
  }

  ghost predicate Sound(parse: Framing) {
    && (forall s :: WholeAt(parse, s))
    && (forall s, t :: StableAt(parse, s, t))
  }

  // ---------------------------------------------------------------- history

  /** A dispatched request: its bytes, and whether it keeps the connection. */
  datatype Req = Req(raw: string, keep: bool)

  /**
   * Every byte accepted, every request dispatched, whether the last of them has left the buffer,
   * and whether the server gave up on the buffer because no request can be read from it.
   */
  datatype Inbound = Inbound(received: string, requests: seq<Req>, eaten: bool, halted: bool)

  /** What leaves the connection towards the peer, and the dispatches and completions around it. */
  datatype Act = Dispatched | Responded(data: string) | Wrote(data: string) | Completed | Refused(status: nat) | Fin

  /**
   * Why a connection closes: the application asked, an upgrade nobody handles, an overflow of the
   * buffer, an end before it was closing, by the peer, a timeout or the server, or the hand-over to
   * the WebSocket layer.
   */
  datatype Cause = Asked | NoUpgrade | Overflowed | Terminated | HandedOver

  /** What was done, whether every transition taken was registered, and what speaks for closing. */
  datatype Outbound = Outbound(log: seq<Act>, legal: bool, why: set<Cause>)

  /** `inward` and `outward` are history: nothing is decided by them. */
  datatype Conn = Conn(
    state: State, buf: string, keepAlive: bool, closePending: bool, wrote: bool, timer: bool,
    inward: Inbound, outward: Outbound)

  const FRESH := Conn(NEW, "", false, false, false, false, Inbound("", [], true, false), Outbound([], true, {}))

  /**
   * Where an orderly log of acts stands: between requests, with a request and no output yet, with
   * the output of one respond, with streamed output, after an error response, or after FIN.
   */
  datatype Phase =
    | Ready(done: nat) | Fresh(done: nat) | Answered(done: nat) | Streaming(done: nat)
    | ErrorSent(done: nat) | Finished(done: nat) | Broken

  function Advance(p: Phase, a: Act): Phase {
    match a
    case Dispatched => if p.Ready? then Fresh(p.done) else Broken
    case Responded(_) => if p.Fresh? then Answered(p.done) else Broken
    case Wrote(_) => if p.Fresh? || p.Streaming? then Streaming(p.done) else Broken
    case Completed => if p.Fresh? || p.Answered? || p.Streaming? then Ready(p.done + 1) else Broken
    case Refused(_) => if p.Ready? || p.Fresh? then ErrorSent(p.done) else Broken
    case Fin => if p.Finished? || p.Broken? then Broken else Finished(p.done)
  }

  function Scan(log: seq<Act>): Phase {
    if log == [] then Ready(0) else Advance(Scan(log[..|log| - 1]), log[|log| - 1])
  }

  lemma ScanNext(log: seq<Act>, a: Act)
    ensures Scan(log + [a]) == Advance(Scan(log), a)
  {
    assert (log + [a])[..|log|] == log;
  }

  // ---------------------------------------------------------------- invariant

  function Wire(requests: seq<Req>): string {
    if requests == [] then "" else Wire(requests[..|requests| - 1]) + requests[|requests| - 1].raw
  }

  /** The bytes of `r` are one request and nothing else. */
  ghost predicate IsRequest(parse: Framing, r: Req) {
    parse(r.raw).Done? && parse(r.raw).msg.body.hi == |r.raw| && parse(r.raw).msg.keepAlive == r.keep
  }

  function Consumed(i: Inbound): seq<Req> {
    if i.eaten || i.requests == [] then i.requests else i.requests[..|i.requests| - 1]
  }

  ghost predicate AllRequests(parse: Framing, requests: seq<Req>) {
    && (forall k :: 0 <= k < |requests| ==> IsRequest(parse, requests[k]))
    && (forall k :: 0 <= k < |requests| - 1 ==> requests[k].keep)
  }

  /**
   * The bytes received are the requests consumed, one after the other, and the buffer; only the
   * last request may end the connection.
   */
  ghost predicate Faithful(parse: Framing, i: Inbound, buf: string) {
    && i.received == Wire(Consumed(i)) + buf
    && AllRequests(parse, i.requests)
    && (!i.eaten ==> i.requests != [] && i.requests[|i.requests| - 1].raw <= buf)
    && (i.halted ==> i.eaten && !parse(buf).Done?)
  }

  /** The state says where the log stands. */
  ghost predicate LogOk(c: Conn) {
    var p, n := Scan(c.outward.log), |c.inward.requests|;
    match c.state
    case NEW => p == Ready(0) && n == 0 && !c.closePending
    case PARSING => p == Ready(n) && !c.closePending
    case REQUEST => n > 0 && p == if c.wrote then Streaming(n - 1) else Fresh(n - 1)
    case AWAIT_RESP => n > 0 && p == Fresh(n - 1) && !c.wrote
    case RESPONDING => n > 0 && p == Streaming(n - 1) && c.wrote
    case CLOSING => p.Finished? && p.done <= n <= p.done + 1
    case CLOSED => p != Broken && p.done <= n <= p.done + 1
    case RELEASED => p != Broken && p.done <= n <= p.done + 1
  }

  /** Whether the last request, if any, keeps the connection. */
  predicate LastKeeps(i: Inbound) {
    i.requests != [] ==> i.requests[|i.requests| - 1].keep
  }

  ghost predicate FieldsOk(cap: nat, c: Conn) {
    && c.outward.legal && |c.buf| <= cap
    && (Dead(c.state) ==> !c.timer)
    && (c.state in {NEW, AWAIT_RESP, RESPONDING} ==> c.inward.eaten)
    && (c.state == REQUEST ==> !c.inward.eaten)
    && (c.state == NEW ==> c.buf == "")
    && (c.inward.halted ==> Dying(c.state))
    && (!Dying(c.state) && !c.closePending ==> LastKeeps(c.inward))
  }

  /** Nothing in the buffer can be answered without more bytes. */
  ghost predicate Quiet(parse: Framing, cap: nat, c: Conn) {
    c.buf == "" || (parse(c.buf) == More && |c.buf| < cap)
  }

  /** A cause is on record, the buffer was given up, or the last request ends the connection. */
  predicate HasReason(c: Conn) {
    c.outward.why != {} || c.inward.halted || !LastKeeps(c.inward)
  }

  ghost predicate LastUpgrades(parse: Framing, i: Inbound) {
    && i.requests != []
    && var v := parse(i.requests[|i.requests| - 1].raw); v.Done? && v.msg.upgrade
  }

  /** No connection closes, and none is about to, without a reason. */
  ghost predicate WhyOk(parse: Framing, cap: nat, c: Conn) {
    && (Dying(c.state) ==> HasReason(c))
    && (c.inward.halted ==> !Quiet(parse, cap, c))
    && (!Dying(c.state) && c.closePending ==> Asked in c.outward.why || !LastKeeps(c.inward))
    && (HandedOver in c.outward.why <==> c.state == RELEASED)
    && (NoUpgrade in c.outward.why ==> Dying(c.state) && LastUpgrades(parse, c.inward))
    && (c.state in {REQUEST, AWAIT_RESP, RESPONDING} ==> c.keepAlive == LastKeeps(c.inward))
  }

  ghost predicate ConnOk(parse: Framing, cap: nat, c: Conn) {
    FieldsOk(cap, c) && LogOk(c) && WhyOk(parse, cap, c) && Faithful(parse, c.inward, c.buf)
  }

  // ---------------------------------------------------------------- transitions

  function Move(c: Conn, s: State): Conn {
    c.(state := s, outward := c.outward.(legal := c.outward.legal && StateOk(c.state, s)))
  }

  function Do(c: Conn, a: Act): Conn {
    c.(outward := c.outward.(log := c.outward.log + [a]))
  }

  function Because(c: Conn, cause: Cause): Conn {
    c.(outward := c.outward.(why := c.outward.why + {cause}))
  }

  /** Half-close: what is queued is sent, then FIN. */
  function CloseGraceful(c: Conn): Conn {
    if Dying(c.state) then c else Do(Move(c, CLOSING), Fin)
  }

  /** What a transition that neither reads nor dispatches leaves alone. */
  predicate SameInput(c: Conn, d: Conn) {
    d.inward == c.inward && d.buf == c.buf
  }

  /** A connection that closes with a reason keeps the invariant. */
  lemma LeaveOk(parse: Framing, cap: nat, c: Conn, d: Conn)
    requires FieldsOk(cap, c) && SameBytes(c, d)
    requires d.state == CLOSING && d.outward.legal && Scan(d.outward.log).Finished?
    requires Scan(d.outward.log).done <= |d.inward.requests| <= Scan(d.outward.log).done + 1
    requires Faithful(parse, d.inward, d.buf) && WhyOk(parse, cap, d)
    ensures ConnOk(parse, cap, d)
  {
  }

  predicate SameBytes(c: Conn, d: Conn) {
    d.buf == c.buf && d.inward.(halted := c.inward.halted) == c.inward
  }

  lemma CloseGracefulOk(parse: Framing, cap: nat, c: Conn)
    requires FieldsOk(cap, c) && Faithful(parse, c.inward, c.buf)
    requires var p, n := Scan(c.outward.log), |c.inward.requests|; p != Broken && p.done <= n <= p.done + 1
    requires Scan(c.outward.log).Finished? ==> Dying(c.state)
    requires c.state == CLOSING ==> Scan(c.outward.log).Finished?
    requires WhyOk(parse, cap, c) && HasReason(c)
    ensures ConnOk(parse, cap, CloseGraceful(c)) && SameInput(c, CloseGraceful(c))
    ensures Dying(CloseGraceful(c).state) && Dead(CloseGraceful(c).state) == Dead(c.state)
    ensures CloseGraceful(c).outward.why == c.outward.why
  {
    ScanNext(c.outward.log, Fin);
    if !Dying(c.state) {
      var d := CloseGraceful(c);
      assert d.outward.why == c.outward.why && d.inward == c.inward && d.buf == c.buf;
      LeaveOk(parse, cap, c, d);
    }
  }

  /** The end of a response: half-close, or back to parsing. `idle` says that idle timers are on. */
  function Complete(c: Conn, idle: bool): Conn {
    var d := Do(c, Completed);
    if d.closePending then CloseGraceful(d) else Move(d, PARSING).(timer := d.timer || idle)
  }

  ghost predicate MayComplete(c: Conn) {
    && c.state in {REQUEST, AWAIT_RESP, RESPONDING} && c.inward.requests != []
    && var n := |c.inward.requests| - 1; Scan(c.outward.log) in {Fresh(n), Answered(n), Streaming(n)}
  }

  lemma CompleteOk(parse: Framing, cap: nat, c: Conn, idle: bool)
    requires FieldsOk(cap, c) && WhyOk(parse, cap, c) && Faithful(parse, c.inward, c.buf) && MayComplete(c)
    ensures ConnOk(parse, cap, Complete(c, idle)) && SameInput(c, Complete(c, idle))
    ensures Complete(c, idle).state == if c.closePending then CLOSING else PARSING
    ensures Complete(c, idle).outward.why == c.outward.why
  {
    var d := Do(c, Completed);
    ScanNext(c.outward.log, Completed);
    if c.closePending {
      CloseGracefulOk(parse, cap, d);
    }
  }

  /** One respond: the whole response, then completion. */
  function Answer(c: Conn, data: string, close: bool): Conn {
    Do(if close then Because(c, Asked) else c, Responded(data)).(
      closePending := c.closePending || close || !c.keepAlive)
  }

  function Respond(c: Conn, data: string, close: bool, idle: bool): Conn {
    Complete(Answer(c, data, close), idle)
  }

  lemma AnswerParts(c: Conn, data: string, close: bool, n: nat)
    requires Scan(c.outward.log) == Fresh(n)
    ensures
      var d := Answer(c, data, close);
      && d == c.(closePending := d.closePending, outward := d.outward) && d.outward.legal == c.outward.legal
      && Scan(d.outward.log) == Answered(n) && (c.closePending ==> d.closePending)
      && d.outward.why == c.outward.why + if close then {Asked} else {}
  {
    ScanNext(c.outward.log, Responded(data));
  }

  lemma AnswerWhy(parse: Framing, cap: nat, c: Conn, data: string, close: bool)
    requires WhyOk(parse, cap, c) && c.state in {REQUEST, AWAIT_RESP}
    ensures WhyOk(parse, cap, Answer(c, data, close))
  {
  }

  lemma AnswerOk(parse: Framing, cap: nat, c: Conn, data: string, close: bool)
    requires ConnOk(parse, cap, c) && c.state in {REQUEST, AWAIT_RESP} && !c.wrote
    ensures
      var d := Answer(c, data, close);
      && FieldsOk(cap, d) && WhyOk(parse, cap, d) && SameInput(c, d) && MayComplete(d)
      && d.outward.why == c.outward.why + if close then {Asked} else {}
  {
    var n := |c.inward.requests| - 1;
    assert Scan(c.outward.log) == Fresh(n);
    AnswerParts(c, data, close, n);
    AnswerWhy(parse, cap, c, data, close);
  }

  lemma RespondOk(parse: Framing, cap: nat, c: Conn, data: string, close: bool, idle: bool)
    requires ConnOk(parse, cap, c) && c.state in {REQUEST, AWAIT_RESP} && !c.wrote
    ensures ConnOk(parse, cap, Respond(c, data, close, idle)) && SameInput(c, Respond(c, data, close, idle))
    ensures Respond(c, data, close, idle).state in {PARSING, CLOSING}
    ensures Respond(c, data, close, idle).outward.why == c.outward.why + if close then {Asked} else {}
  {
    AnswerOk(parse, cap, c, data, close);
    CompleteOk(parse, cap, Answer(c, data, close), idle);
  }

  function Write(c: Conn, data: string): Conn {
    var d := Do(c, Wrote(data)).(wrote := true);
    if c.state == AWAIT_RESP then Move(d, RESPONDING) else d
  }

  lemma WriteOk(parse: Framing, cap: nat, c: Conn, data: string)
    requires ConnOk(parse, cap, c) && c.state in {REQUEST, AWAIT_RESP, RESPONDING}
    ensures ConnOk(parse, cap, Write(c, data)) && SameInput(c, Write(c, data))
    ensures Write(c, data).state == if c.state == REQUEST then REQUEST else RESPONDING
    ensures Write(c, data).outward.why == c.outward.why
  {
    ScanNext(c.outward.log, Wrote(data));
  }

  lemma WriteEndOk(parse: Framing, cap: nat, c: Conn, idle: bool)
    requires ConnOk(parse, cap, c) && c.state in {REQUEST, RESPONDING}
    ensures ConnOk(parse, cap, Complete(c, idle)) && SameInput(c, Complete(c, idle))
    ensures Complete(c, idle).state in {PARSING, CLOSING} && Complete(c, idle).outward.why == c.outward.why
  {
    CompleteOk(parse, cap, c, idle);
  }

  /**
   * Ending a response inside the callback is accepted without any output: the exchange is then empty
   * exactly when nothing was written, while a waiting connection is refused in the same situation.
   */
  lemma EmptyReplyExactly(parse: Framing, cap: nat, c: Conn, idle: bool)
    requires ConnOk(parse, cap, c) && c.state == REQUEST
    ensures
      var n := |c.inward.requests| - 1;
      && (Scan(c.outward.log) == Fresh(n) <==> !c.wrote)
      && c.outward.log + [Completed] <= Complete(c, idle).outward.log
      && Scan(c.outward.log + [Completed]) == Ready(n + 1)
  {
    ScanNext(c.outward.log, Completed);
  }

  /** An error response of the server itself always closes. `halt` says that the buffer is given up. */
  function Refuse(c: Conn, status: nat, halt: bool): Conn {
    if Dying(c.state) then c
    else
      var d := Do(if halt then c else Because(c, NoUpgrade), Refused(status)).(closePending := true);
      CloseGraceful(d).(inward := c.inward.(halted := halt))
  }

  /** The log after a refusal and the FIN behind it. */
  lemma RefuseLog(log: seq<Act>, status: nat, n: nat)
    requires Scan(log) in {Ready(n), Fresh(n)}
    ensures Scan(log + [Refused(status)] + [Fin]) == Finished(n)
  {
    ScanNext(log, Refused(status));
    ScanNext(log + [Refused(status)], Fin);
  }

  lemma RefuseWhy(parse: Framing, cap: nat, c: Conn, status: nat, halt: bool)
    requires WhyOk(parse, cap, c) && c.state in {PARSING, REQUEST} && !c.inward.halted
    requires if halt then !Quiet(parse, cap, c) else LastUpgrades(parse, c.inward)
    ensures WhyOk(parse, cap, Refuse(c, status, halt))
  {
  }

  lemma RefuseOk(parse: Framing, cap: nat, c: Conn, status: nat, halt: bool)
    requires ConnOk(parse, cap, c) && (c.state == PARSING || (c.state == REQUEST && !c.wrote))
    requires
      if halt then c.inward.eaten && !parse(c.buf).Done? && !Quiet(parse, cap, c) else LastUpgrades(parse, c.inward)
    ensures ConnOk(parse, cap, Refuse(c, status, halt)) && Refuse(c, status, halt).state == CLOSING
    ensures Refuse(c, status, halt).outward.why == c.outward.why + if halt then {} else {NoUpgrade}
  {
    var d := Refuse(c, status, halt);
    RefuseWhy(parse, cap, c, status, halt);
    RefuseLog(c.outward.log, status, |c.inward.requests| - if c.state == REQUEST then 1 else 0);
    assert Faithful(parse, d.inward, d.buf) by {
      assert Faithful(parse, c.inward, c.buf) && Consumed(d.inward) == Consumed(c.inward);
    }
    LeaveOk(parse, cap, c, d);
  }

  /** The application asks for the connection to be closed. */
  function AskClose(c: Conn): Conn {
    CloseGraceful(Because(c, Asked).(closePending := true))
  }

  lemma AskCloseOk(parse: Framing, cap: nat, c: Conn)
    requires ConnOk(parse, cap, c) && !Dying(c.state)
    ensures ConnOk(parse, cap, AskClose(c)) && SameInput(c, AskClose(c)) && AskClose(c).state == CLOSING
    ensures AskClose(c).outward.why == c.outward.why + {Asked}
  {
    CloseGracefulOk(parse, cap, Because(c, Asked).(closePending := true));
  }

  /** The buffer cannot take what arrived: what the connection has in hand is not answered any more. */
  function Overflow(c: Conn): Conn {
    if Dying(c.state) then c else CloseGraceful(Because(c, Overflowed))
  }

  lemma OverflowOk(parse: Framing, cap: nat, c: Conn)
    requires ConnOk(parse, cap, c) && !Dying(c.state)
    ensures ConnOk(parse, cap, Overflow(c)) && SameInput(c, Overflow(c)) && Overflow(c).state == CLOSING
    ensures Overflow(c).outward.why == c.outward.why + {Overflowed}
  {
    CloseGracefulOk(parse, cap, Because(c, Overflowed));
  }

  lemma FreshOk(parse: Framing, cap: nat)
    ensures ConnOk(parse, cap, FRESH) && !Dead(FRESH.state)
  {
  }

  /** The stream is up; a connection that was refused keeps a timer in case the peer never closes. */
  function Open(c: Conn, idle: bool): Conn {
    (if Dying(c.state) then c else Move(c, PARSING)).(timer := c.timer || idle)
  }

  lemma OpenOk(parse: Framing, cap: nat, c: Conn, idle: bool)
    requires ConnOk(parse, cap, c) && c.state in {NEW, CLOSING}
    ensures ConnOk(parse, cap, Open(c, idle)) && SameInput(c, Open(c, idle))
    ensures Open(c, idle).state == if c.state == NEW then PARSING else CLOSING
    ensures Open(c, idle).outward.why == c.outward.why
  {
  }

  function Receive(c: Conn, data: string, idle: bool): Conn {
    c.(buf := c.buf + data, inward := c.inward.(received := c.inward.received + data), timer := c.timer || idle)
  }

  lemma ReceiveOk(parse: Framing, cap: nat, c: Conn, data: string, idle: bool)
    requires ConnOk(parse, cap, c) && !Dying(c.state) && c.state != NEW && |c.buf| + |data| <= cap
    ensures ConnOk(parse, cap, Receive(c, data, idle))
  {
    assert Wire(Consumed(c.inward)) + c.buf + data == Wire(Consumed(c.inward)) + (c.buf + data);
  }

  /** A complete request `m` at the front of the buffer is handed to the application. */
  function Dispatch(c: Conn, m: Message): Conn
    requires m.body.hi <= |c.buf|
  {
    Do(Move(c, REQUEST), Dispatched).(
      keepAlive := m.keepAlive, closePending := !m.keepAlive, wrote := false,
      inward := Pick(c.inward, c.buf, m))
  }

  function Pick(i: Inbound, buf: string, m: Message): Inbound
    requires m.body.hi <= |buf|
  {
    i.(requests := i.requests + [Req(buf[..m.body.hi], m.keepAlive)], eaten := false)
  }

  lemma PickOk(parse: Framing, i: Inbound, buf: string, m: Message)
    requires Sound(parse) && Faithful(parse, i, buf) && i.eaten && !i.halted && LastKeeps(i)
    requires parse(buf) == Done(m) && m.body.hi <= |buf|
    ensures Faithful(parse, Pick(i, buf, m), buf)
  {
    assert WholeAt(parse, buf);
    var r := Req(buf[..m.body.hi], m.keepAlive);
    assert IsRequest(parse, r);
    assert (i.requests + [r])[..|i.requests|] == i.requests;
  }

  lemma DispatchOk(parse: Framing, cap: nat, c: Conn, m: Message)
    requires Sound(parse) && ConnOk(parse, cap, c) && c.state == PARSING && c.inward.eaten
    requires parse(c.buf) == Done(m) && m.body.hi <= |c.buf|
    ensures ConnOk(parse, cap, Dispatch(c, m))
  {
    ScanNext(c.outward.log, Dispatched);
    PickOk(parse, c.inward, c.buf, m);
  }

  /** After the callback the request leaves the buffer, and an unanswered one waits. */
  function AfterCallback(c: Conn, consumed: nat, idle: bool): Conn
    requires consumed <= |c.buf|
  {
    var d := c.(buf := c.buf[consumed..], inward := c.inward.(eaten := true));
    if d.state == PARSING || Dying(d.state) || d.state == RESPONDING then d
    else
      var e := if d.state == REQUEST then Move(d, if d.wrote then RESPONDING else AWAIT_RESP) else d;
      e.(timer := e.timer || idle)
  }

  lemma EatOk(parse: Framing, i: Inbound, buf: string, n: nat)
    requires Faithful(parse, i, buf) && !i.eaten && n == |i.requests[|i.requests| - 1].raw|
    ensures n <= |buf| && Faithful(parse, i.(eaten := true), buf[n..])
  {
    var k := |i.requests| - 1;
    var r := i.requests[k];
    assert Wire(i.requests) == Wire(i.requests[..k]) + r.raw;
    assert buf == r.raw + buf[n..];
    Associate(Wire(i.requests[..k]), r.raw, buf[n..]);
  }

  lemma AfterCallbackOk(parse: Framing, cap: nat, c: Conn, consumed: nat, idle: bool)
    requires ConnOk(parse, cap, c) && c.state in {PARSING, REQUEST} && !c.inward.eaten
    requires consumed == |c.inward.requests[|c.inward.requests| - 1].raw|
    ensures consumed <= |c.buf|
    ensures ConnOk(parse, cap, AfterCallback(c, consumed, idle)) && AfterCallback(c, consumed, idle).inward.eaten
    ensures AfterCallback(c, consumed, idle).state in
      if c.state == PARSING then {PARSING} else if c.wrote then {RESPONDING} else {AWAIT_RESP}
  {
    EatOk(parse, c.inward, c.buf, consumed);
  }

  /** The end of the connection, by the peer, an error, a timeout or the server. */
  function Terminate(c: Conn): Conn {
    Move(if c.state == CLOSING then c else Because(c, Terminated), CLOSED).(timer := false)
  }

  /** The connection goes to the WebSocket layer with its unconsumed bytes, the upgrade request first. */
  function Release(c: Conn): Conn {
    Because(Move(c, RELEASED), HandedOver).(timer := false)
  }

  lemma TerminateWhy(parse: Framing, cap: nat, c: Conn)
    requires WhyOk(parse, cap, c) && !Dead(c.state)
    ensures WhyOk(parse, cap, Terminate(c))
  {
  }

  lemma TerminateOk(parse: Framing, cap: nat, c: Conn)
    requires ConnOk(parse, cap, c) && !Dead(c.state)
    ensures ConnOk(parse, cap, Terminate(c)) && SameInput(c, Terminate(c))
    ensures Terminate(c).outward.why == c.outward.why + if c.state == CLOSING then {} else {Terminated}
  {
    TerminateWhy(parse, cap, c);
    assert Scan(Terminate(c).outward.log) == Scan(c.outward.log);
  }

  lemma ReleaseOk(parse: Framing, cap: nat, c: Conn)
    requires ConnOk(parse, cap, c) && c.state == REQUEST
    ensures ConnOk(parse, cap, Release(c)) && SameInput(c, Release(c))
    ensures c.inward.received == Wire(Consumed(c.inward)) + Release(c).buf
    ensures c.inward.requests[|c.inward.requests| - 1].raw <= Release(c).buf
  {
  }

  // ---------------------------------------------------------------- what goes out

  /** The data that a log sends, in order. */
  function Outputs(log: seq<Act>): seq<string> {
    if log == [] then []
    else
      var a := log[|log| - 1];
      Outputs(log[..|log| - 1])
      + (if a.Responded? then [a.data] else []) + (if a.Wrote? then [a.data] else [])
  }

  lemma OutputsNext(log: seq<Act>, a: Act)
    ensures Outputs(log + [a]) ==
      Outputs(log) + (if a.Responded? then [a.data] else []) + (if a.Wrote? then [a.data] else [])
  {
    assert (log + [a])[..|log|] == log;
  }

  predicate SameOutput(c: Conn, d: Conn) {
    Outputs(d.outward.log) == Outputs(c.outward.log)
  }

  /** Acts that send nothing of the application. */
  lemma QuietAct(log: seq<Act>, a: Act)
    requires !a.Responded? && !a.Wrote?
    ensures Outputs(log + [a]) == Outputs(log)
  {
    OutputsNext(log, a);
  }

  /** The end of a response in the log: half-close exactly when it is pending. */
  lemma CompleteLog(c: Conn, idle: bool)
    requires c.state in {REQUEST, AWAIT_RESP, RESPONDING}
    ensures
      var d := Complete(c, idle);
      && d.outward.log == c.outward.log + [Completed] + (if c.closePending then [Fin] else [])
      && d.state == (if c.closePending then CLOSING else PARSING)
      && (idle && !c.closePending ==> d.timer) && SameOutput(c, d)
  {
    var log := c.outward.log;
    assert log + [Completed] + [] == log + [Completed];
    QuietAct(log, Completed);
    QuietAct(log + [Completed], Fin);
  }

  /**
   * One respond in the log: the data the application gave, the end of the exchange, and a half-close
   * exactly when the call, an earlier one or the request asks for it.
   */
  lemma RespondLog(c: Conn, data: string, close: bool, idle: bool)
    requires c.state in {REQUEST, AWAIT_RESP} && c.keepAlive == LastKeeps(c.inward)
    ensures
      var d, closing := Respond(c, data, close, idle), close || c.closePending || !LastKeeps(c.inward);
      && d.outward.log == c.outward.log + [Responded(data), Completed] + (if closing then [Fin] else [])
      && d.state == (if closing then CLOSING else PARSING) && (idle && !closing ==> d.timer)
      && Outputs(d.outward.log) == Outputs(c.outward.log) + [data]
  {
    var a := Answer(c, data, close);
    CompleteLog(a, idle);
    OutputsNext(c.outward.log, Responded(data));
    assert c.outward.log + [Responded(data)] + [Completed] == c.outward.log + [Responded(data), Completed];
  }

  lemma WriteLog(c: Conn, data: string)
    ensures
      var d := Write(c, data);
      && d.outward.log == c.outward.log + [Wrote(data)] && d.wrote
      && d.state == (if c.state == AWAIT_RESP then RESPONDING else c.state)
      && Outputs(d.outward.log) == Outputs(c.outward.log) + [data]
  {
    OutputsNext(c.outward.log, Wrote(data));
  }

  /** A half-close in the log. */
  lemma CloseLog(c: Conn)
    ensures
      && AskClose(c).outward.log == c.outward.log + (if Dying(c.state) then [] else [Fin]) && SameOutput(c, AskClose(c))
      && Overflow(c).outward.log == c.outward.log + (if Dying(c.state) then [] else [Fin]) && SameOutput(c, Overflow(c))
  {
    assert c.outward.log + [] == c.outward.log;
    QuietAct(c.outward.log, Fin);
  }

  /** An error response in the log. */
  lemma RefusalLog(c: Conn, status: nat, halt: bool)
    requires !Dying(c.state)
    ensures
      var d := Refuse(c, status, halt);
      d.outward.log == c.outward.log + [Refused(status), Fin] && d.state == CLOSING && SameOutput(c, d)
  {
    QuietAct(c.outward.log, Refused(status));
    QuietAct(c.outward.log + [Refused(status)], Fin);
    assert c.outward.log + [Refused(status)] + [Fin] == c.outward.log + [Refused(status), Fin];
  }

  /** The other transitions send nothing by themselves, and waiting is under the idle timer. */
  lemma DispatchSilent(c: Conn, m: Message)
    requires m.body.hi <= |c.buf|
    ensures SameOutput(c, Dispatch(c, m))
  {
    QuietAct(c.outward.log, Dispatched);
  }

  lemma AfterSilent(c: Conn, consumed: nat, idle: bool)
    requires consumed <= |c.buf|
    ensures SameOutput(c, AfterCallback(c, consumed, idle))
    ensures idle && AfterCallback(c, consumed, idle).state == AWAIT_RESP ==> AfterCallback(c, consumed, idle).timer
  {
  }

  lemma ReceiveSilent(c: Conn, data: string, idle: bool)
    ensures SameOutput(c, Receive(c, data, idle)) && (idle ==> Receive(c, data, idle).timer)
  {
  }

  lemma OpenSilent(c: Conn, idle: bool)
    ensures SameOutput(c, Open(c, idle)) && (idle ==> Open(c, idle).timer)
  {
  }

  // ---------------------------------------------------------------- the dispatched requests

  /** Repeated parsing of a byte stream, up to the first request that does not keep the connection. */
  ghost function Requests(parse: Framing, s: string): seq<Req>
    requires Sound(parse)
    decreases |s|
  {
    assert WholeAt(parse, s);
    if !parse(s).Done? then []
    else
      var m := parse(s).msg;
      var r := Req(s[..m.body.hi], m.keepAlive);
      if m.keepAlive then [r] + Requests(parse, s[m.body.hi..]) else [r]
  }

  lemma RequestsFirst(parse: Framing, r: Req, rest: string)
    requires Sound(parse) && IsRequest(parse, r)
    ensures Requests(parse, r.raw + rest) == [r] + if r.keep then Requests(parse, rest) else []
  {
    assert StableAt(parse, r.raw, rest);
    assert (r.raw + rest)[..|r.raw|] == r.raw && (r.raw + rest)[|r.raw|..] == rest;
  }

  ghost predicate AllKeep(parse: Framing, done: seq<Req>) {
    forall k :: 0 <= k < |done| ==> IsRequest(parse, done[k]) && done[k].keep
  }

  lemma {:induction false} RequestsAfter(parse: Framing, done: seq<Req>, rest: string, s: string, tail: seq<Req>)
    requires Sound(parse) && AllKeep(parse, done) && s == Wire(done) + rest && tail == Requests(parse, rest)
    ensures Requests(parse, s) == done + tail
    decreases |done|
  {
    if done == [] {
      assert s == rest && done + tail == tail;
    } else {
      var n := |done| - 1;
      var before, r := done[..n], done[n];
      var mid := r.raw + rest;
      RequestsFirst(parse, r, rest);
      RequestsAfter(parse, before, mid, s, [r] + tail);
      assert done + tail == before + ([r] + tail);
    }
  }

  lemma AllButLast(parse: Framing, requests: seq<Req>, before: seq<Req>, r: Req)
    requires requests != [] && before == requests[..|requests| - 1] && r == requests[|requests| - 1]
    requires AllRequests(parse, requests)
    ensures requests == before + [r] && Wire(requests) == Wire(before) + r.raw
    ensures AllKeep(parse, before) && IsRequest(parse, r)
  {
  }

  /** The same, with a last request that may end the connection. */
  lemma RequestsUpTo(parse: Framing, requests: seq<Req>, rest: string, s: string, tail: seq<Req>)
    requires Sound(parse) && AllRequests(parse, requests) && s == Wire(requests) + rest && tail == Requests(parse, rest)
    ensures Requests(parse, s) == requests + if requests == [] || requests[|requests| - 1].keep then tail else []
  {
    if requests == [] {
      RequestsAfter(parse, requests, rest, s, tail);
    } else {
      var n := |requests| - 1;
      var before, r := requests[..n], requests[n];
      AllButLast(parse, requests, before, r);
      RequestsLast(parse, before, r, rest, s, tail);
    }
  }

  lemma RequestsLast(parse: Framing, before: seq<Req>, r: Req, rest: string, s: string, tail: seq<Req>)
    requires Sound(parse) && AllKeep(parse, before) && IsRequest(parse, r)
    requires s == Wire(before) + r.raw + rest && tail == Requests(parse, rest)
    ensures Requests(parse, s) == before + [r] + if r.keep then tail else []
  {
    var last := r.raw + rest;
    var more := if r.keep then tail else [];
    Associate(Wire(before), r.raw, rest);
    RequestsFirst(parse, r, rest);
    RequestsAfter(parse, before, last, s, [r] + more);
    Associate(before, [r], more);
  }

  /**
   * Whatever the handlers do and however the bytes arrive, the requests dispatched so far are the
   * first ones of repeated parsing of everything received. All of them have been dispatched when the
   * last does not keep the connection, when the server gave up on what follows, and when the
   * connection waits for a request that its buffer does not hold.
   */
  lemma DispatchesRefineParsing(parse: Framing, i: Inbound, buf: string)
    requires Sound(parse) && Faithful(parse, i, buf)
    ensures i.requests <= Requests(parse, i.received)
    ensures !LastKeeps(i) || i.halted || (i.eaten && !parse(buf).Done?) ==> i.requests == Requests(parse, i.received)
    decreases !i.eaten
  {
    if i.eaten {
      RequestsUpTo(parse, i.requests, buf, i.received, Requests(parse, buf));
    } else {
      var n := |i.requests[|i.requests| - 1].raw|;
      EatOk(parse, i, buf, n);
      DispatchesRefineParsing(parse, i.(eaten := true), buf[n..]);
    }
  }

  /**
   * All of it: when nothing but the requests themselves speaks for closing and no answer is
   * outstanding, every request that can be read from the bytes received has been dispatched.
   */
  lemma AllDispatched(parse: Framing, cap: nat, c: Conn)
    requires Sound(parse) && ConnOk(parse, cap, c) && c.outward.why == {}
    requires c.state != AWAIT_RESP && c.state != RESPONDING && c.state != REQUEST
    requires c.state == PARSING ==> c.inward.eaten && Quiet(parse, cap, c)
    ensures c.inward.requests == Requests(parse, c.inward.received)
  {
    assert WholeAt(parse, c.buf);
    DispatchesRefineParsing(parse, c.inward, c.buf);
  }

  // ---------------------------------------------------------------- the log

  /** A complete exchange: one response by respond, or any number of streamed writes. */
  datatype Reply = Whole(data: string) | Parts(parts: seq<string>)

  function Writes(parts: seq<string>): seq<Act> {
    if parts == [] then [] else Writes(parts[..|parts| - 1]) + [Wrote(parts[|parts| - 1])]
  }

  lemma WritesNext(parts: seq<string>, data: string)
    ensures Writes(parts + [data]) == Writes(parts) + [Wrote(data)]
  {
    assert (parts + [data])[..|parts|] == parts;
  }

  function Output(reply: Reply): seq<Act> {
    if reply.Whole? then [Responded(reply.data)] else Writes(reply.parts)
  }

  function Exchanges(replies: seq<Reply>): seq<Act> {
    if replies == [] then []
    else Exchanges(replies[..|replies| - 1]) + [Dispatched] + Output(replies[|replies| - 1]) + [Completed]
  }

  /** What follows the finished exchanges: the open one, an error response of the server, and FIN. */
  datatype Tail = Tail(open: Option<Reply>, refused: Option<nat>, fin: bool)

  function OpenActs(open: Option<Reply>): seq<Act> {
    if open == None then [] else [Dispatched] + Output(open.value)
  }

  function CloseActs(refused: Option<nat>, fin: bool): seq<Act> {
    (if refused == None then [] else [Refused(refused.value)]) + (if fin then [Fin] else [])
  }

  function TailActs(t: Tail): seq<Act> {
    OpenActs(t.open) + CloseActs(t.refused, t.fin)
  }

  /** An error response only comes before any output of the open exchange. */
  predicate Unanswered(open: Option<Reply>) {
    open == None || open == Some(Parts([]))
  }

  /** Where the log stands says what its tail looks like. */
  predicate Shape(p: Phase, t: Tail) {
    match p
    case Ready(_) => t == Tail(None, None, false)
    case Fresh(_) => t == Tail(Some(Parts([])), None, false)
    case Answered(_) => t.open.Some? && t.open.value.Whole? && t.refused == None && !t.fin
    case Streaming(_) => t.open.Some? && t.open.value.Parts? && t.open.value.parts != [] && t.refused == None && !t.fin
    case ErrorSent(_) => Unanswered(t.open) && t.refused.Some? && !t.fin
    case Finished(_) => t.fin && (t.refused.Some? ==> Unanswered(t.open))
    case Broken => true
  }

  function TailNext(t: Tail, a: Act): Tail {
    match a
    case Dispatched => t.(open := Some(Parts([])))
    case Responded(data) => t.(open := Some(Whole(data)))
    case Wrote(data) =>
      if t.open.Some? && t.open.value.Parts? then t.(open := Some(Parts(t.open.value.parts + [data]))) else t
    case Completed => Tail(None, None, false)
    case Refused(status) => t.(refused := Some(status))
    case Fin => t.(fin := true)
  }

  lemma TailNextShape(p: Phase, t: Tail, a: Act)
    requires p != Broken && Shape(p, t) && Advance(p, a) != Broken
    ensures Shape(Advance(p, a), TailNext(t, a))
  {
  }

  /** One more act of the open exchange. */
  lemma OpenNext(p: Phase, t: Tail, a: Act)
    requires p != Broken && Shape(p, t) && Advance(p, a) != Broken && (a.Dispatched? || a.Responded? || a.Wrote?)
    ensures CloseActs(t.refused, t.fin) == [] && TailNext(t, a) == t.(open := TailNext(t, a).open)
    ensures OpenActs(TailNext(t, a).open) == OpenActs(t.open) + [a]
  {
    match a {
      case Wrote(data) =>
        WritesNext(t.open.value.parts, data);
        Associate([Dispatched], Writes(t.open.value.parts), [a]);
      case _ =>
    }
  }

  /** One more act behind the open exchange. */
  lemma CloseNext(p: Phase, t: Tail, a: Act)
    requires p != Broken && Shape(p, t) && Advance(p, a) != Broken && (a.Refused? || a.Fin?)
    ensures TailNext(t, a).open == t.open
    ensures CloseActs(TailNext(t, a).refused, TailNext(t, a).fin) == CloseActs(t.refused, t.fin) + [a]
  {
  }

  lemma TailNextActs(p: Phase, t: Tail, a: Act)
    requires p != Broken && Shape(p, t) && Advance(p, a) != Broken && !a.Completed?
    ensures TailActs(TailNext(t, a)) == TailActs(t) + [a]
  {
    if a.Refused? || a.Fin? {
      CloseNext(p, t, a);
      Associate(OpenActs(t.open), CloseActs(t.refused, t.fin), [a]);
    } else {
      OpenNext(p, t, a);
    }
  }

  /** Completing turns the open exchange into a finished one. */
  lemma ExchangesNext(replies: seq<Reply>, p: Phase, t: Tail)
    requires (p.Fresh? || p.Answered? || p.Streaming?) && Shape(p, t)
    ensures Exchanges(replies + [t.open.value]) == Exchanges(replies) + TailActs(t) + [Completed]
  {
    var reply := t.open.value;
    assert (replies + [reply])[..|replies|] == replies;
    assert TailActs(t) == [Dispatched] + Output(reply);
    Associate(Exchanges(replies), [Dispatched], Output(reply));
  }

  /** The log is these exchanges and this tail. */
  ghost predicate Splits(log: seq<Act>, p: Phase, replies: seq<Reply>, t: Tail) {
    p != Broken ==> log == Exchanges(replies) + TailActs(t) && |replies| == p.done && Shape(p, t)
  }

  lemma SplitsNext(before: seq<Act>, p: Phase, replies: seq<Reply>, t: Tail, a: Act) returns (more: seq<Reply>)
    requires p != Broken && Splits(before, p, replies, t) && Advance(p, a) != Broken
    ensures Splits(before + [a], Advance(p, a), more, TailNext(t, a))
  {
    if a.Completed? {
      SplitsCompleted(before, p, replies, t);
      more := replies + [t.open.value];
    } else {
      more := replies;
      TailNextShape(p, t, a);
      SplitsOpen(before, p, replies, t, a);
    }
  }

  lemma SplitsOpen(before: seq<Act>, p: Phase, replies: seq<Reply>, t: Tail, a: Act)
    requires p != Broken && Splits(before, p, replies, t) && Advance(p, a) != Broken && !a.Completed?
    ensures before + [a] == Exchanges(replies) + TailActs(TailNext(t, a)) && Advance(p, a).done == p.done
  {
    TailNextActs(p, t, a);
    Associate(Exchanges(replies), TailActs(t), [a]);
  }

  lemma SplitsCompleted(before: seq<Act>, p: Phase, replies: seq<Reply>, t: Tail)
    requires (p.Fresh? || p.Answered? || p.Streaming?) && Splits(before, p, replies, t)
    ensures Splits(before + [Completed], Ready(p.done + 1), replies + [t.open.value], Tail(None, None, false))
  {
    ExchangesNext(replies, p, t);
    var more := Exchanges(replies + [t.open.value]);
    assert more + [] == more;
    assert TailActs(Tail(None, None, false)) == [];
  }

  /**
   * A log that never broke is a list of finished exchanges in order, each with one response or one
   * stream of writes between its dispatch and its completion, followed by the output of at most one
   * open exchange, at most one error response, and at most one FIN with nothing behind it.
   */
  lemma {:induction false} LogIsExchanges(log: seq<Act>) returns (replies: seq<Reply>, t: Tail)
    ensures Splits(log, Scan(log), replies, t)
    decreases |log|
  {
    replies, t := [], Tail(None, None, false);
    if log != [] {
      var before, a := log[..|log| - 1], log[|log| - 1];
      assert log == before + [a];
      var p := Scan(before);
      if Advance(p, a) != Broken {
        var earlier, t0 := LogIsExchanges(before);
        replies := SplitsNext(before, p, earlier, t0, a);
        t := TailNext(t0, a);
      }
    }
  }

  // ---------------------------------------------------------------- the parser is a sound framing

  lemma {:induction false} HeadEndPrefix(s: string, k: nat, i: nat)
    requires i <= |s| && HeadEnd(s, i).Some? && HeadEnd(s, i).value + 4 <= k <= |s|
    ensures HeadEnd(s[..k], i) == HeadEnd(s, i)
    decreases |s| - i
  {
    if !EndsHead(s, i) {
      HeadEndPrefix(s, k, i + 1);
    }
  }

  lemma PrefixHead(s: string, k: nat, e: nat)
    requires HeadEnd(s, 0) == Some(e) && e + 4 <= k <= |s|
    ensures HeadEnd(s[..k], 0) == Some(e) && s[..k][..e + 4] == s[..e + 4]
  {
    HeadEndPrefix(s, k, 0);
  }

  lemma WholeBy(read: HeadReader, s: string, e: nat, n: nat)
    requires ParseBy(read, s).Done? && HeadEnd(s, 0) == Some(e) && e + 4 <= n <= |s|
    requires n == ParseBy(read, s).msg.body.hi
    ensures ParseBy(read, s[..n]) == ParseBy(read, s)
  {
    PrefixHead(s, n, e);
  }

  /** The consumed bytes of a request parse to the same message on their own. */
  lemma RequestIsWhole(s: string)
    requires Parse(s).Done?
    ensures Parse(s).msg.body.hi <= |s| && Parse(s[..Parse(s).msg.body.hi]) == Parse(s)
  {
    ParseRanges(s);
    WholeBy(ReadAt, s, HeadEnd(s, 0).value, Parse(s).msg.body.hi);
  }

  lemma ParseIsSound()
    ensures Sound(Parse)
  {
    forall s ensures WholeAt(Parse, s) {
      if Parse(s).Done? {
        RequestIsWhole(s);
        ParseRanges(s);
      }
    }
    forall s, t ensures StableAt(Parse, s, t) {
      if Parse(s) != More {
        ParseStable(s, t);
      }
    }
  }
}
