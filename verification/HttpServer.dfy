/**
 * The HTTP server: its connections, the callbacks of their streams, and the posts it leaves for the
 * event loop, which run first in, first out.
 */
module HttpServer {
  import opened Bytes
  import opened HttpParse
  import opened HttpConn

  const BUDGET := 64
  const OVERFLOW_LIMIT := 16

  type Id = nat

  /** http_process_post, conn_cleanup and srv_cleanup in the post queue. */
  datatype Post = Process(id: Id) | Cleanup(id: Id) | ServerCleanup

  /**
   * What application code may call. `valid` says whether a response passes its checks; Upgrade
   * stands for the hand-over of the connection whose upgrade callback is running.
   */
  datatype Call =
    | Respond(id: Id, data: string, close: bool, valid: bool)
    | Write(id: Id, data: string)
    | WriteEnd(id: Id)
    | Close(id: Id)
    | Upgrade
    | Destroy

  /** What the event loop and the peers do to the server. */
  datatype Event =
    | Accepted
    | Opened(id: Id)
    | Data(id: Id, data: string)
    | Ended(id: Id)
    | IdleFired(id: Id)
    | RunPost
    | Outside(call: Call)

  /** A destroyed server is doomed until its cleanup runs, which sweeps its connections. */
  datatype Life = Running | Doomed | Sweeping | Gone

  predicate Doom(before: Life, after: Life) {
    after == before || (before == Running && after == Doomed)
  }

  /** The one connection, if any, that is between two resting points. */
  datatype Focus = Nobody | Looping(id: Id) | Serving(id: Id) | Leaving(id: Id)

  datatype Role = Resting | InLoop | InCallback | InNotice

  function RoleOf(focus: Focus, id: Id): Role {
    if focus.Nobody? || focus.id != id then Resting
    else if focus.Looping? then InLoop
    else if focus.Serving? then InCallback
    else InNotice
  }

  // ---------------------------------------------------------------- invariant

  /** A connection that can go on without more bytes has its continuation queued. */
  ghost predicate Continued(parse: Framing, cap: nat, c: Conn, id: Id, posts: seq<Post>) {
    c.state == PARSING && !Quiet(parse, cap, c) ==> Process(id) in posts
  }

  ghost predicate RoleOk(parse: Framing, cap: nat, c: Conn, id: Id, posts: seq<Post>, role: Role) {
    match role
    case Resting => c.state != REQUEST && (c.inward.eaten || Dying(c.state)) && Continued(parse, cap, c, id, posts)
    case InLoop => c.state != REQUEST && (c.inward.eaten || Dying(c.state))
    case InCallback => !c.inward.eaten && c.state in {REQUEST, PARSING, CLOSING, RELEASED}
    case InNotice => c.state == CLOSED
  }

  /** A connection is dead exactly when its cleanup is queued, and then it is in no list. */
  ghost predicate LifeOk(c: Conn, id: Id, linked: seq<Id>, posts: seq<Post>, role: Role) {
    && (Cleanup(id) in posts <==> Dead(c.state) && role != InNotice)
    && (id in linked <==> !Dead(c.state))
  }

  ghost predicate EntryOk(parse: Framing, cap: nat, c: Conn, id: Id, linked: seq<Id>, posts: seq<Post>, role: Role) {
    && ConnOk(parse, cap, c)
    && RoleOk(parse, cap, c, id, posts, role)
    && LifeOk(c, id, linked, posts, role)
  }

  ghost predicate At(
    parse: Framing, cap: nat, conns: map<Id, Conn>, linked: seq<Id>, posts: seq<Post>, focus: Focus, id: Id)
  {
    id in conns ==> EntryOk(parse, cap, conns[id], id, linked, posts, RoleOf(focus, id))
  }

  ghost predicate TableOk(
    parse: Framing, cap: nat, conns: map<Id, Conn>, linked: seq<Id>, posts: seq<Post>, focus: Focus)
  {
    forall id :: At(parse, cap, conns, linked, posts, focus, id)
  }

  predicate Names(p: Post, id: Id) {
    !p.ServerCleanup? && p.id == id
  }

  /** Posts name connections that are not freed; nothing follows the cleanup of a connection it is about. */
  ghost predicate QueueOk(posts: seq<Post>, ids: set<Id>) {
    && (forall i :: 0 <= i < |posts| && !posts[i].ServerCleanup? ==> posts[i].id in ids)
    && (forall i, j :: 0 <= i < j < |posts| && posts[i].Cleanup? ==> !Names(posts[j], posts[i].id))
    && (forall i, j :: 0 <= i < j < |posts| ==> !(posts[i].ServerCleanup? && posts[j].ServerCleanup?))
  }

  ghost predicate ListOk(linked: seq<Id>, ids: set<Id>) {
    && (forall i :: 0 <= i < |linked| ==> linked[i] in ids)
    && (forall i, j :: 0 <= i < j < |linked| ==> linked[i] != linked[j])
  }

  /** An id was given to one connection, which is live or freed, or to none so far. */
  ghost predicate IdAt(
    parse: Framing, cap: nat, conns: map<Id, Conn>, past: map<Id, Conn>, nextId: Id, id: Id)
  {
    && (id < nextId <==> id in conns || id in past) && !(id in conns && id in past)
    && (id in past ==> ConnOk(parse, cap, past[id]) && Dead(past[id].state))
  }

  ghost predicate IdsOk(parse: Framing, cap: nat, conns: map<Id, Conn>, past: map<Id, Conn>, nextId: Id) {
    forall id :: IdAt(parse, cap, conns, past, nextId, id)
  }

  lemma IdsUpdate(
    parse: Framing, cap: nat, conns: map<Id, Conn>, past: map<Id, Conn>, nextId: Id, id: Id, c: Conn)
    requires IdsOk(parse, cap, conns, past, nextId) && id in conns
    ensures IdsOk(parse, cap, conns[id := c], past, nextId) && id !in past && id < nextId
  {
    var conns2 := conns[id := c];
    assert IdAt(parse, cap, conns, past, nextId, id);
    forall x ensures IdAt(parse, cap, conns2, past, nextId, x) {
      assert IdAt(parse, cap, conns, past, nextId, x);
    }
  }

  lemma IdsNew(parse: Framing, cap: nat, conns: map<Id, Conn>, past: map<Id, Conn>, nextId: Id)
    requires IdsOk(parse, cap, conns, past, nextId)
    ensures IdsOk(parse, cap, conns[nextId := FRESH], past, nextId + 1) && nextId !in conns && nextId !in past
  {
    var conns2, next2 := conns[nextId := FRESH], nextId + 1;
    assert IdAt(parse, cap, conns, past, nextId, nextId);
    forall x ensures IdAt(parse, cap, conns2, past, next2, x) {
      assert IdAt(parse, cap, conns, past, nextId, x);
    }
  }

  lemma IdsMove(parse: Framing, cap: nat, conns: map<Id, Conn>, past: map<Id, Conn>, nextId: Id, id: Id)
    requires IdsOk(parse, cap, conns, past, nextId) && id in conns
    requires ConnOk(parse, cap, conns[id]) && Dead(conns[id].state)
    ensures IdsOk(parse, cap, conns - {id}, past[id := conns[id]], nextId) && id !in past
  {
    var conns2, past2 := conns - {id}, past[id := conns[id]];
    assert IdAt(parse, cap, conns, past, nextId, id);
    forall x ensures IdAt(parse, cap, conns2, past2, nextId, x) {
      assert IdAt(parse, cap, conns, past, nextId, x);
    }
  }

  /** No call of the application opens a connection or takes it back from closing. */
  predicate Steady(from: State, to: State) {
    && (from == NEW ==> to in {NEW, CLOSING})
    && (Dying(from) ==> to == from)
  }

  /**
   * One round dispatches at most the budget, gives way with work left only after all of it, and
   * leaves a connection alone that does not parse or has nothing to serve.
   */
  ghost predicate Yields(parse: Framing, cap: nat, before: Conn, after: Conn) {
    var served := |after.inward.requests| - |before.inward.requests|;
    && 0 <= served <= 64 && (after.state == PARSING && !Quiet(parse, cap, after) ==> served == 64)
    && (before.state != PARSING || Quiet(parse, cap, before) ==> after == before)
  }

  /** The application was called once for each new request, except for an upgrade refused for it. */
  ghost predicate Called(before: Conn, after: Conn, calls: int) {
    var served := |after.inward.requests| - |before.inward.requests|;
    calls == served - if NoUpgrade in after.outward.why && NoUpgrade !in before.outward.why then 1 else 0
  }

  /** New data does not fit behind what a parsing connection has buffered. */
  predicate NeedsRoom(cap: nat, c: Conn, len: nat) {
    c.state == PARSING && c.buf != "" && len > cap - |c.buf|
  }

  /**
   * Making room serves at most 16 budgets, leaves a connection that needs none alone, and gives up
   * with requests left that could be answered only after all of it.
   */
  ghost predicate Drained(parse: Framing, cap: nat, len: nat, before: Conn, after: Conn) {
    var served := |after.inward.requests| - |before.inward.requests|;
    && 0 <= served <= 16 * 64
    && (before.state != PARSING || before.buf == "" || |before.buf| + len <= cap ==> after == before)
    && (after.state == PARSING && after.buf != "" && |after.buf| + len > cap && !Quiet(parse, cap, after) ==>
          served == 16 * 64)
  }

  predicate Fits(cap: nat, c: Conn, len: nat) {
    len <= cap - |c.buf|
  }

  /** The data went behind what was buffered, and one round of serving followed. */
  ghost predicate Taken(parse: Framing, cap: nat, idle: bool, data: string, before: Conn, after: Conn) {
    after.inward.received == before.inward.received + data && Yields(parse, cap, Receive(before, data, idle), after)
  }

  /** Data is taken when it fits, perhaps after making room; if not, that closes the connection. */
  ghost predicate Arrived(parse: Framing, cap: nat, idle: bool, data: string, before: Conn, mid: Conn, after: Conn) {
    && mid.inward.received == before.inward.received
    && (if Fits(cap, before, |data|) then mid == before else Drained(parse, cap, |data|, before, mid))
    && if Fits(cap, before, |data|) || (mid.state == PARSING && Fits(cap, mid, |data|))
       then Taken(parse, cap, idle, data, mid, after) && SameAt(Overflowed, before, after)
       else after == Overflow(mid)
  }

  /** What no callback changes: which connections there are, and what they have read. */
  ghost predicate Kept(before: map<Id, Conn>, after: map<Id, Conn>) {
    && after.Keys == before.Keys
    && forall id :: id in before ==> KeptAt(before[id], after[id])
  }

  predicate KeptAt(c: Conn, d: Conn) {
    && SameInput(c, d) && Steady(c.state, d.state)
    && SameAt(Overflowed, c, d) && SameAt(Terminated, c, d) && SameAt(NoUpgrade, c, d)
  }

  // ---------------------------------------------------------------- what the application can do

  /** An asynchronous completion with bytes left in the buffer. */
  predicate Continues(c: Conn, d: Conn) {
    c.state != REQUEST && d.state == PARSING && d.buf != ""
  }

  /**
   * These acts went into the log, and then FIN if the connection is to close; else it parses again,
   * under its idle timer.
   */
  predicate Went(c: Conn, d: Conn, acts: seq<Act>, closing: bool, idle: bool) {
    && d.outward.log == c.outward.log + acts + (if closing then [Fin] else []) && SameInput(c, d)
    && d.state == (if closing then CLOSING else PARSING) && (idle && !closing ==> d.timer)
  }

  lemma RespondWent(parse: Framing, cap: nat, c: Conn, data: string, close: bool, idle: bool, d: Conn)
    requires ConnOk(parse, cap, c) && c.state in {REQUEST, AWAIT_RESP} && !c.wrote
    requires d == HttpConn.Respond(c, data, close, idle)
    ensures ConnOk(parse, cap, d) && SameInput(c, d) && d.state in {PARSING, CLOSING}
    ensures d.outward.why == c.outward.why + if close then {Asked} else {}
    ensures Outputs(d.outward.log) == Outputs(c.outward.log) + [data]
    ensures Went(c, d, [Responded(data), Completed], close || c.closePending || !LastKeeps(c.inward), idle)
  {
    RespondOk(parse, cap, c, data, close, idle);
    RespondLog(c, data, close, idle);
  }

  /** What a call does to the connection it names. */
  function Effect(c: Conn, call: Call, idle: bool): Conn {
    match call
    case Respond(_, data, close, valid) =>
      if valid && (c.state == REQUEST || c.state == AWAIT_RESP) && !c.wrote
      then HttpConn.Respond(c, data, close, idle) else c
    case Write(_, data) =>
      if (c.state == REQUEST || c.state == AWAIT_RESP || c.state == RESPONDING) && data != ""
      then HttpConn.Write(c, data) else c
    case WriteEnd(_) => if c.state == REQUEST || c.state == RESPONDING then Complete(c, idle) else c
    case Close(_) => if Dying(c.state) then c else AskClose(c)
    case Upgrade => if c.state == REQUEST then Release(c) else c
    case Destroy => c
  }

  function Target(call: Call, up: Option<Id>): Option<Id> {
    match call
    case Upgrade => up
    case Destroy => None
    case _ => Some(call.id)
  }

  function Apply(conns: map<Id, Conn>, call: Call, up: Option<Id>, idle: bool): map<Id, Conn> {
    var target := Target(call, up);
    if target.Some? && target.value in conns
    then conns[target.value := Effect(conns[target.value], call, idle)] else conns
  }

  function ApplyAll(conns: map<Id, Conn>, calls: seq<Call>, up: Option<Id>, idle: bool): map<Id, Conn>
    decreases |calls|
  {
    if calls == [] then conns
    else Apply(ApplyAll(conns, calls[..|calls| - 1], up, idle), calls[|calls| - 1], up, idle)
  }

  lemma ApplyAllNext(conns: map<Id, Conn>, calls: seq<Call>, k: nat, up: Option<Id>, idle: bool)
    requires k < |calls|
    ensures
      ApplyAll(conns, calls[..k + 1], up, idle) == Apply(ApplyAll(conns, calls[..k], up, idle), calls[k], up, idle)
  {
    assert calls[..k + 1][..k] == calls[..k];
  }

  lemma CompleteKeeps(c: Conn, idle: bool)
    requires !Dying(c.state) && c.state != NEW
    ensures KeptAt(c, Complete(c, idle))
  {
  }

  lemma RespondKeeps(c: Conn, data: string, close: bool, idle: bool)
    requires !Dying(c.state) && c.state != NEW
    ensures KeptAt(c, HttpConn.Respond(c, data, close, idle))
  {
    CompleteKeeps(Answer(c, data, close), idle);
  }

  lemma WriteKeeps(c: Conn, data: string)
    requires !Dying(c.state) && c.state != NEW
    ensures KeptAt(c, HttpConn.Write(c, data))
  {
  }

  lemma LeaveKeeps(c: Conn)
    requires !Dying(c.state)
    ensures KeptAt(c, AskClose(c)) && (c.state == REQUEST ==> KeptAt(c, HttpConn.Release(c)))
  {
  }

  lemma EffectKeeps(c: Conn, call: Call, idle: bool)
    ensures KeptAt(c, Effect(c, call, idle))
  {
    if !Dying(c.state) {
      LeaveKeeps(c);
      if c.state != NEW {
        CompleteKeeps(c, idle);
        match call {
          case Respond(_, data, close, _) => RespondKeeps(c, data, close, idle);
          case Write(_, data) => WriteKeeps(c, data);
          case _ =>
        }
      }
    }
  }

  /** No calls of the application, on whatever connections, change what a connection has read. */
  lemma {:induction false} ApplyAllKeeps(conns: map<Id, Conn>, calls: seq<Call>, up: Option<Id>, idle: bool, id: Id)
    ensures ApplyAll(conns, calls, up, idle).Keys == conns.Keys
    ensures id in conns ==> KeptAt(conns[id], ApplyAll(conns, calls, up, idle)[id])
    decreases |calls|
  {
    if calls != [] {
      var before, call := calls[..|calls| - 1], calls[|calls| - 1];
      ApplyAllKeeps(conns, before, up, idle, id);
      if id in conns {
        EffectKeeps(ApplyAll(conns, before, up, idle)[id], call, idle);
      }
    }
  }

  lemma ApplyAllKept(conns: map<Id, Conn>, calls: seq<Call>, up: Option<Id>, idle: bool)
    ensures Kept(conns, ApplyAll(conns, calls, up, idle))
  {
    var after := ApplyAll(conns, calls, up, idle);
    ApplyAllKeeps(conns, calls, up, idle, 0);
    forall id | id in conns ensures KeptAt(conns[id], after[id]) {
      ApplyAllKeeps(conns, calls, up, idle, id);
    }
  }

  /** Before its stream is up a connection closes exactly when the application closes it. */
  lemma {:induction false} StillNew(conns: map<Id, Conn>, calls: seq<Call>, idle: bool, id: Id)
    requires id in conns && conns[id].state == NEW
    ensures
      var after := ApplyAll(conns, calls, None, idle);
      id in after && after[id].state == if Call.Close(id) in calls then CLOSING else NEW
    decreases |calls|
  {
    if calls != [] {
      var before, call := calls[..|calls| - 1], calls[|calls| - 1];
      StillNew(conns, before, idle, id);
      assert calls == before + [call];
    }
  }

  /** What becomes of the connections in the callback for a request, or by after the refusal of its upgrade. */
  function Consulted(
    conns: map<Id, Conn>, id: Id, upgrade: bool, upgrades: bool, calls: seq<Call>, idle: bool): map<Id, Conn>
    requires id in conns
  {
    if upgrade && !upgrades then conns[id := Refuse(conns[id], 400, false)]
    else ApplyAll(conns, calls, if upgrade then Some(id) else None, idle)
  }

  function GivenIn(
    conns: map<Id, Conn>, id: Id, upgrade: bool, upgrades: bool, calls: seq<Call>, idle: bool): seq<Said>
  {
    if upgrade && !upgrades then [] else AcceptedAll(conns, calls, if upgrade then Some(id) else None, idle)
  }

  /** Nothing is read, nothing overflows and nothing ends; an upgrade is refused or not. */
  ghost predicate Consulting(before: map<Id, Conn>, after: map<Id, Conn>, id: Id, refused: bool) {
    && SameEnds(before, after) && id in after && id in before
    && SameInput(before[id], after[id]) && (NoUpgrade in after[id].outward.why <==> refused)
    && (refused ==> after[id].state == CLOSING)
  }

  lemma ConsultedKeeps(
    conns: map<Id, Conn>, id: Id, upgrade: bool, upgrades: bool, calls: seq<Call>, idle: bool, after: map<Id, Conn>)
    requires id in conns && conns[id].state == REQUEST
    requires NoUpgrade !in conns[id].outward.why && !conns[id].inward.halted
    requires after == Consulted(conns, id, upgrade, upgrades, calls, idle)
    ensures Consulting(conns, after, id, upgrade && !upgrades)
  {
    if !(upgrade && !upgrades) {
      ApplyAllKept(conns, calls, if upgrade then Some(id) else None, idle);
    }
  }

  /** One request left the buffer for the application, or its upgrade was refused. */
  ghost predicate ServedOne(before: Conn, after: Conn, m: Message, refused: bool) {
    && m.body.hi <= |before.buf| && after.inward.received == before.inward.received
    && after.inward.requests == Pick(before.inward, before.buf, m).requests
    && (after.state == PARSING ==> after.buf == before.buf[m.body.hi..])
    && (NoUpgrade in after.outward.why <==> refused) && (refused ==> after.state == CLOSING)
  }

  /** From the dispatch over the callback to the end of the request. */
  lemma ServedStages(
    before: map<Id, Conn>, mid: map<Id, Conn>, id: Id, m: Message, refused: bool, idle: bool, after: map<Id, Conn>)
    requires id in before && m.body.hi <= |before[id].buf|
    requires Consulting(before[id := Dispatch(before[id], m)], mid, id, refused)
    requires after == if Dying(mid[id].state) then mid else mid[id := AfterCallback(mid[id], m.body.hi, idle)]
    ensures SameEnds(before, after) && ServedOne(before[id], after[id], m, refused)
  {
    var begun := before[id := Dispatch(before[id], m)];
    SameEndsNext(before, before, id, begun[id]);
    SameEndsTwice(before, begun, mid);
    if !Dying(mid[id].state) {
      SameEndsNext(before, mid, id, after[id]);
    }
  }

  /** A round ended: it read nothing, and the application was called once for each request. */
  ghost predicate Processed(
    parse: Framing, cap: nat, before: map<Id, Conn>, after: map<Id, Conn>, id: Id, calls: int)
  {
    && SameEnds(before, after) && id in before
    && after[id].inward.received == before[id].inward.received
    && Yields(parse, cap, before[id], after[id]) && Called(before[id], after[id], calls)
  }

  /** Some requests of a round were served, with so many callbacks. */
  ghost predicate Round(
    parse: Framing, cap: nat, before: map<Id, Conn>, now: map<Id, Conn>, id: Id, served: nat, calls: int)
  {
    && SameEnds(before, now) && id in before
    && now[id].inward.received == before[id].inward.received
    && |now[id].inward.requests| == |before[id].inward.requests| + served
    && Called(before[id], now[id], calls)
    && if served == 0 then now[id] == before[id]
       else before[id].state == PARSING && !Quiet(parse, cap, before[id]) && NoUpgrade !in before[id].outward.why
  }

  lemma RoundNext(
    parse: Framing, cap: nat, before: map<Id, Conn>, now: map<Id, Conn>, id: Id, served: nat, calls: int,
    m: Message, refused: bool, after: map<Id, Conn>)
    requires Round(parse, cap, before, now, id, served, calls) && SameEnds(now, after)
    requires now[id].state == PARSING && !Quiet(parse, cap, now[id]) && NoUpgrade !in now[id].outward.why
    requires ServedOne(now[id], after[id], m, refused)
    ensures Round(parse, cap, before, after, id, served + 1, calls + if refused then 0 else 1)
  {
    SameEndsTwice(before, now, after);
  }

  /** The round ends where it is. */
  lemma RoundEnds(
    parse: Framing, cap: nat, before: map<Id, Conn>, now: map<Id, Conn>, id: Id, served: nat, calls: int)
    requires Round(parse, cap, before, now, id, served, calls) && served <= BUDGET
    requires served == BUDGET || now[id].state != PARSING || Quiet(parse, cap, now[id])
    ensures Processed(parse, cap, before, now, id, calls)
  {
  }

  /** What holds no request is refused when it never will. */
  function Unserved(cap: nat, c: Conn, v: Verdict): Conn {
    if v.Bad? then Refuse(c, 400, true) else if |c.buf| >= cap then Refuse(c, 413, true) else c
  }

  lemma RefuseKeeps(c: Conn, status: nat)
    requires c.state == PARSING
    ensures
      var d := Refuse(c, status, true);
      && d.state == CLOSING && d.inward.received == c.inward.received && d.inward.requests == c.inward.requests
      && d.outward.why == c.outward.why
  {
  }

  lemma UnservedKeeps(parse: Framing, cap: nat, c: Conn, d: Conn)
    requires c.state == PARSING && c.buf != "" && !parse(c.buf).Done? && d == Unserved(cap, c, parse(c.buf))
    ensures d.inward.received == c.inward.received && d.inward.requests == c.inward.requests
    ensures d.outward.why == c.outward.why && (d.state != PARSING || (Quiet(parse, cap, d) && d == c))
    ensures Quiet(parse, cap, c) ==> d == c
  {
    RefuseKeeps(c, 400);
    RefuseKeeps(c, 413);
  }

  lemma RoundUnserved(
    parse: Framing, cap: nat, before: map<Id, Conn>, now: map<Id, Conn>, id: Id, served: nat, calls: int)
    requires Round(parse, cap, before, now, id, served, calls) && served <= BUDGET
    requires now[id].state == PARSING && now[id].buf != "" && !parse(now[id].buf).Done?
    ensures Processed(parse, cap, before, now[id := Unserved(cap, now[id], parse(now[id].buf))], id, calls)
  {
    var d := Unserved(cap, now[id], parse(now[id].buf));
    UnservedKeeps(parse, cap, now[id], d);
    RoundStops(parse, cap, before, now, id, served, calls, d);
  }

  lemma RoundStops(
    parse: Framing, cap: nat, before: map<Id, Conn>, now: map<Id, Conn>, id: Id, served: nat, calls: int, d: Conn)
    requires Round(parse, cap, before, now, id, served, calls) && served <= BUDGET
    requires now[id].state == PARSING && (d.state != PARSING || (Quiet(parse, cap, d) && d == now[id]))
    requires d.inward.received == now[id].inward.received && d.inward.requests == now[id].inward.requests
    requires d.outward.why == now[id].outward.why && (Quiet(parse, cap, now[id]) ==> d == now[id])
    ensures Processed(parse, cap, before, now[id := d], id, calls)
  {
    SameEndsNext(before, now, id, d);
  }

  /** What becomes of the connections when the stream of one comes up. */
  function OpenedBy(conns: map<Id, Conn>, id: Id, calls: seq<Call>, idle: bool): map<Id, Conn> {
    var mid := ApplyAll(conns, calls, None, idle);
    if id in mid then mid[id := Open(mid[id], idle)] else mid
  }

  lemma OpenedKeeps(
    conns: map<Id, Conn>, id: Id, calls: seq<Call>, idle: bool, mid: map<Id, Conn>, after: map<Id, Conn>)
    requires id in conns && conns[id].state in {NEW, CLOSING}
    requires mid == ApplyAll(conns, calls, None, idle) && after == OpenedBy(conns, id, calls, idle)
    ensures id in mid && mid[id].state in {NEW, CLOSING} && after == mid[id := Open(mid[id], idle)]
    ensures SameEnds(conns, after) && (idle ==> after[id].timer)
    ensures after[id].state == if conns[id].state == NEW && Call.Close(id) !in calls then PARSING else CLOSING
  {
    ApplyAllKept(conns, calls, None, idle);
    assert KeptAt(conns[id], mid[id]);
    if conns[id].state == NEW {
      StillNew(conns, calls, idle, id);
    }
    SameEndsNext(conns, mid, id, after[id]);
  }

  // ---------------------------------------------------------------- why connections close

  /** Whether a call may close the connection it names although requests are left. */
  predicate Asks(call: Call) {
    call.Close? || (call.Respond? && call.close)
  }

  function AskedBy(calls: seq<Call>): set<Id> {
    set k | 0 <= k < |calls| && Asks(calls[k]) :: calls[k].id
  }

  lemma AskedNext(calls: seq<Call>, call: Call)
    ensures AskedBy(calls + [call]) == AskedBy(calls) + if Asks(call) then {call.id} else {}
  {
    var more := calls + [call];
    assert more[|calls|] == call;
    assert forall k :: 0 <= k < |calls| ==> more[k] == calls[k];
    forall id | id in AskedBy(calls) ensures id in AskedBy(more) {
      var k :| 0 <= k < |calls| && Asks(calls[k]) && calls[k].id == id;
      assert more[k] == calls[k];
    }
  }

  /** The connections that the first `n` callbacks ask to close. */
  function AskedUpTo(handler: nat -> seq<Call>, n: nat): set<Id> {
    if n == 0 then {} else AskedUpTo(handler, n - 1) + AskedBy(handler(n - 1))
  }

  /** The causes on record are true. */
  predicate CausesOk(c: Conn, id: Id, asked: set<Id>, upgrades: bool) {
    (Asked in c.outward.why ==> id in asked) && (NoUpgrade in c.outward.why ==> !upgrades)
  }

  ghost predicate CausesAt(conns: map<Id, Conn>, id: Id, asked: set<Id>, upgrades: bool) {
    id in conns ==> CausesOk(conns[id], id, asked, upgrades)
  }

  ghost predicate AllCauses(conns: map<Id, Conn>, asked: set<Id>, upgrades: bool) {
    forall id :: CausesAt(conns, id, asked, upgrades)
  }

  lemma CausesUpdate(conns: map<Id, Conn>, asked: set<Id>, upgrades: bool, id: Id, c: Conn)
    requires AllCauses(conns, asked, upgrades)
    requires
      || CausesOk(c, id, asked, upgrades)
      || (id in conns && c.outward.why - {Terminated, HandedOver} <= conns[id].outward.why)
    ensures AllCauses(conns[id := c], asked, upgrades)
  {
    var conns2 := conns[id := c];
    assert CausesAt(conns, id, asked, upgrades);
    forall x ensures CausesAt(conns2, x, asked, upgrades) {
      assert CausesAt(conns, x, asked, upgrades);
    }
  }

  /** A freed connection takes its causes along. */
  lemma CausesMove(conns: map<Id, Conn>, past: map<Id, Conn>, asked: set<Id>, upgrades: bool, id: Id)
    requires AllCauses(conns, asked, upgrades) && AllCauses(past, asked, upgrades) && id in conns
    ensures AllCauses(conns - {id}, asked, upgrades) && AllCauses(past[id := conns[id]], asked, upgrades)
  {
    var conns2 := conns - {id};
    assert CausesAt(conns, id, asked, upgrades);
    forall x ensures CausesAt(conns2, x, asked, upgrades) {
      assert CausesAt(conns, x, asked, upgrades);
    }
    CausesUpdate(past, asked, upgrades, id, conns[id]);
  }

  lemma CausesGrow(conns: map<Id, Conn>, asked: set<Id>, upgrades: bool, asked2: set<Id>)
    requires AllCauses(conns, asked, upgrades) && asked <= asked2
    ensures AllCauses(conns, asked2, upgrades)
  {
    forall x ensures CausesAt(conns, x, asked2, upgrades) {
      assert CausesAt(conns, x, asked, upgrades);
    }
  }

  // ---------------------------------------------------------------- what connections send

  /** Data that the server took from the application for a connection. */
  datatype Said = Said(id: Id, data: string)

  /** The data among it for one connection, in order. */
  function GivenTo(given: seq<Said>, id: Id): seq<string>
    decreases |given|
  {
    if given == [] then []
    else
      var s := given[|given| - 1];
      GivenTo(given[..|given| - 1], id) + if s.id == id then [s.data] else []
  }

  lemma GivenNext(given: seq<Said>, s: Said, id: Id)
    ensures GivenTo(given + [s], id) == GivenTo(given, id) + if s.id == id then [s.data] else []
  {
    assert (given + [s])[..|given|] == given;
  }

  /** What a call gives, when the server accepts it. */
  function AcceptedOf(conns: map<Id, Conn>, call: Call): seq<Said> {
    match call
    case Respond(id, data, _, valid) =>
      if id in conns && valid && (conns[id].state == REQUEST || conns[id].state == AWAIT_RESP) && !conns[id].wrote
      then [Said(id, data)] else []
    case Write(id, data) =>
      if id in conns && conns[id].state in {REQUEST, AWAIT_RESP, RESPONDING} && data != ""
      then [Said(id, data)] else []
    case _ => []
  }

  function AcceptedAll(conns: map<Id, Conn>, calls: seq<Call>, up: Option<Id>, idle: bool): seq<Said>
    decreases |calls|
  {
    if calls == [] then []
    else
      var before := calls[..|calls| - 1];
      AcceptedAll(conns, before, up, idle) + AcceptedOf(ApplyAll(conns, before, up, idle), calls[|calls| - 1])
  }

  /** The first `k` of these calls were made. */
  ghost predicate MadeSoFar(
    conns: map<Id, Conn>, given: seq<Said>, calls: seq<Call>, up: Option<Id>, idle: bool, k: nat, now: map<Id, Conn>,
    givenNow: seq<Said>)
    requires k <= |calls|
  {
    now == ApplyAll(conns, calls[..k], up, idle) && givenNow == given + AcceptedAll(conns, calls[..k], up, idle)
  }

  lemma MadeOneMore(
    conns: map<Id, Conn>, given: seq<Said>, calls: seq<Call>, up: Option<Id>, idle: bool, k: nat, now: map<Id, Conn>,
    givenNow: seq<Said>)
    requires k < |calls| && MadeSoFar(conns, given, calls, up, idle, k, now, givenNow)
    ensures MadeSoFar(
      conns, given, calls, up, idle, k + 1, Apply(now, calls[k], up, idle), givenNow + AcceptedOf(now, calls[k]))
  {
    ApplyAllNext(conns, calls, k, up, idle);
    AcceptedAllNext(conns, calls, k, up, idle);
    Associate(given, AcceptedAll(conns, calls[..k], up, idle), AcceptedOf(now, calls[k]));
  }

  lemma AcceptedAllNext(conns: map<Id, Conn>, calls: seq<Call>, k: nat, up: Option<Id>, idle: bool)
    requires k < |calls|
    ensures
      AcceptedAll(conns, calls[..k + 1], up, idle)
        == AcceptedAll(conns, calls[..k], up, idle) + AcceptedOf(ApplyAll(conns, calls[..k], up, idle), calls[k])
  {
    assert calls[..k + 1][..k] == calls[..k];
  }

  /** A connection sends what was given for it, all of it and in order. */
  ghost predicate SaidAt(conns: map<Id, Conn>, id: Id, given: seq<Said>) {
    id in conns ==> Outputs(conns[id].outward.log) == GivenTo(given, id)
  }

  ghost predicate AllSaid(conns: map<Id, Conn>, given: seq<Said>) {
    forall id :: SaidAt(conns, id, given)
  }

  function OneMore(given: seq<Said>, id: Id, said: Option<string>): seq<Said> {
    if said == None then given else given + [Said(id, said.value)]
  }

  lemma OneMoreTo(given: seq<Said>, id: Id, said: Option<string>, x: Id)
    ensures GivenTo(OneMore(given, id, said), x)
      == GivenTo(given, x) + if said.Some? && x == id then [said.value] else []
  {
    if said.Some? {
      GivenNext(given, Said(id, said.value), x);
    }
  }

  /** One connection sends one more piece of data, or none. */
  lemma SaidUpdate(
    conns: map<Id, Conn>, past: map<Id, Conn>, given: seq<Said>, id: Id, c: Conn, said: Option<string>)
    requires AllSaid(conns, given) && AllSaid(past, given) && id in conns && id !in past
    requires Outputs(c.outward.log) == Outputs(conns[id].outward.log) + if said.Some? then [said.value] else []
    ensures AllSaid(conns[id := c], OneMore(given, id, said)) && AllSaid(past, OneMore(given, id, said))
  {
    var conns2, given2 := conns[id := c], OneMore(given, id, said);
    assert SaidAt(conns, id, given);
    forall x ensures SaidAt(conns2, x, given2) && SaidAt(past, x, given2) {
      assert SaidAt(conns, x, given) && SaidAt(past, x, given);
      OneMoreTo(given, id, said, x);
    }
  }

  /** A new connection was given nothing. */
  lemma {:induction false} NothingGiven(given: seq<Said>, id: Id)
    requires forall j :: 0 <= j < |given| ==> given[j].id != id
    ensures GivenTo(given, id) == []
    decreases |given|
  {
    if given != [] {
      NothingGiven(given[..|given| - 1], id);
    }
  }

  lemma SaidNew(conns: map<Id, Conn>, given: seq<Said>, id: Id)
    requires AllSaid(conns, given) && forall j :: 0 <= j < |given| ==> given[j].id < id
    ensures AllSaid(conns[id := FRESH], given)
  {
    var conns2 := conns[id := FRESH];
    NothingGiven(given, id);
    forall x ensures SaidAt(conns2, x, given) {
      assert SaidAt(conns, x, given);
    }
  }

  lemma SaidMove(conns: map<Id, Conn>, past: map<Id, Conn>, given: seq<Said>, id: Id)
    requires AllSaid(conns, given) && AllSaid(past, given) && id in conns
    ensures AllSaid(conns - {id}, given) && AllSaid(past[id := conns[id]], given)
  {
    var conns2, past2 := conns - {id}, past[id := conns[id]];
    assert SaidAt(conns, id, given);
    forall x ensures SaidAt(conns2, x, given) && SaidAt(past2, x, given) {
      assert SaidAt(conns, x, given) && SaidAt(past, x, given);
    }
  }

  predicate Gives(call: Call, s: Said) {
    (call.Respond? || call.Write?) && call.id == s.id && call.data == s.data
  }

  /** A call of one of the first `n` callbacks, or one made outside, gave this data. */
  ghost predicate Made(handler: nat -> seq<Call>, n: nat, outside: seq<Call>, s: Said) {
    || (exists k: nat, m: nat :: k < n && m < |handler(k)| && Gives(handler(k)[m], s))
    || (exists m: nat :: m < |outside| && Gives(outside[m], s))
  }

  ghost predicate MadeAt(
    handler: nat -> seq<Call>, n: nat, outside: seq<Call>, given: seq<Said>, nextId: Id, j: nat)
  {
    j < |given| ==> given[j].id < nextId && Made(handler, n, outside, given[j])
  }

  ghost predicate AllMade(handler: nat -> seq<Call>, n: nat, outside: seq<Call>, given: seq<Said>, nextId: Id) {
    forall j :: MadeAt(handler, n, outside, given, nextId, j)
  }

  /** All data sent was given, in order, by calls of the application for connections there are or were. */
  ghost predicate SpokenOf(
    conns: map<Id, Conn>, past: map<Id, Conn>, given: seq<Said>, handler: nat -> seq<Call>, n: nat, outside: seq<Call>,
    nextId: Id)
  {
    AllSaid(conns, given) && AllSaid(past, given) && AllMade(handler, n, outside, given, nextId)
  }

  lemma SpokenUpdate(
    conns: map<Id, Conn>, past: map<Id, Conn>, given: seq<Said>, handler: nat -> seq<Call>, n: nat, outside: seq<Call>,
    nextId: Id, id: Id, c: Conn, said: Option<string>)
    requires SpokenOf(conns, past, given, handler, n, outside, nextId) && id in conns && id !in past && id < nextId
    requires Outputs(c.outward.log) == Outputs(conns[id].outward.log) + if said.Some? then [said.value] else []
    requires said.Some? ==> Made(handler, n, outside, Said(id, said.value))
    ensures SpokenOf(conns[id := c], past, OneMore(given, id, said), handler, n, outside, nextId)
  {
    SaidUpdate(conns, past, given, id, c, said);
    var given2 := OneMore(given, id, said);
    forall j: nat ensures MadeAt(handler, n, outside, given2, nextId, j) {
      assert MadeAt(handler, n, outside, given, nextId, j);
    }
  }

  lemma SpokenGrow(
    conns: map<Id, Conn>, past: map<Id, Conn>, given: seq<Said>, handler: nat -> seq<Call>, n: nat, outside: seq<Call>,
    nextId: Id, n2: nat, more: seq<Call>)
    requires SpokenOf(conns, past, given, handler, n, outside, nextId) && n <= n2
    ensures SpokenOf(conns, past, given, handler, n2, outside + more, nextId)
  {
    MadeGrow(handler, n, outside, given, nextId, n2, more);
  }

  lemma SpokenNew(
    conns: map<Id, Conn>, past: map<Id, Conn>, given: seq<Said>, handler: nat -> seq<Call>, n: nat, outside: seq<Call>,
    nextId: Id)
    requires SpokenOf(conns, past, given, handler, n, outside, nextId)
    ensures SpokenOf(conns[nextId := FRESH], past, given, handler, n, outside, nextId + 1)
  {
    var next2 := nextId + 1;
    forall j: nat
      ensures MadeAt(handler, n, outside, given, next2, j) && (j < |given| ==> given[j].id < nextId)
    {
      assert MadeAt(handler, n, outside, given, nextId, j);
    }
    SaidNew(conns, given, nextId);
  }

  lemma SpokenMove(
    conns: map<Id, Conn>, past: map<Id, Conn>, given: seq<Said>, handler: nat -> seq<Call>, n: nat, outside: seq<Call>,
    nextId: Id, id: Id)
    requires SpokenOf(conns, past, given, handler, n, outside, nextId) && id in conns
    ensures SpokenOf(conns - {id}, past[id := conns[id]], given, handler, n, outside, nextId)
  {
    SaidMove(conns, past, given, id);
  }

  lemma MadeGrow(
    handler: nat -> seq<Call>, n: nat, outside: seq<Call>, given: seq<Said>, nextId: Id, n2: nat, more: seq<Call>)
    requires AllMade(handler, n, outside, given, nextId) && n <= n2
    ensures AllMade(handler, n2, outside + more, given, nextId)
  {
    var outside2 := outside + more;
    forall j: nat ensures MadeAt(handler, n2, outside2, given, nextId, j) {
      assert MadeAt(handler, n, outside, given, nextId, j);
      if j < |given| {
        if m: nat :| m < |outside| && Gives(outside[m], given[j]) {
          assert (outside + more)[m] == outside[m];
        }
      }
    }
  }

  /** A call of the callback that has begun is on record. */
  lemma CallKnown(
    handler: nat -> seq<Call>, n: nat, outside: seq<Call>, asked: set<Id>, calls: seq<Call>, k: nat)
    requires n > 0 && calls == handler(n - 1) && AskedBy(calls) <= asked && k < |calls|
    ensures Asks(calls[k]) ==> calls[k].id in asked
    ensures calls[k].Respond? || calls[k].Write? ==> Made(handler, n, outside, Said(calls[k].id, calls[k].data))
  {
    assert calls[k] == handler(n - 1)[k];
  }

  predicate SameAt(cause: Cause, c: Conn, d: Conn) {
    cause in d.outward.why <==> cause in c.outward.why
  }

  /** No connection other than those in `but` closes for this cause. */
  ghost predicate Same(cause: Cause, before: map<Id, Conn>, after: map<Id, Conn>, but: set<Id>) {
    after.Keys == before.Keys && forall id :: id in before && id !in but ==> SameAt(cause, before[id], after[id])
  }

  ghost predicate SameEnds(before: map<Id, Conn>, after: map<Id, Conn>) {
    Same(Overflowed, before, after, {}) && Same(Terminated, before, after, {})
  }

  lemma SameEndsNext(before: map<Id, Conn>, mid: map<Id, Conn>, id: Id, c: Conn)
    requires SameEnds(before, mid) && id in mid
    requires SameAt(Overflowed, mid[id], c) && SameAt(Terminated, mid[id], c)
    ensures SameEnds(before, mid[id := c])
  {
  }

  lemma SameEndsTwice(before: map<Id, Conn>, mid: map<Id, Conn>, after: map<Id, Conn>)
    requires SameEnds(before, mid) && SameEnds(mid, after)
    ensures SameEnds(before, after)
  {
  }

  lemma EndedKeeps(before: map<Id, Conn>, id: Id, after: map<Id, Conn>)
    requires id in before && Kept(before[id := HttpConn.Terminate(before[id])], after)
    ensures Same(Overflowed, before, after, {}) && Same(Terminated, before, after, {id})
  {
    var mid := before[id := HttpConn.Terminate(before[id])];
    forall x | x in before
      ensures SameAt(Overflowed, before[x], after[x]) && (x != id ==> SameAt(Terminated, before[x], after[x]))
    {
      assert KeptAt(mid[x], after[x]);
    }
  }

  lemma SameNext(cause: Cause, before: map<Id, Conn>, mid: map<Id, Conn>, after: map<Id, Conn>)
    requires Same(cause, before, mid, {}) && Same(cause, mid, after, {})
    ensures Same(cause, before, after, {})
  {
  }

  /** Each of these ids is still in the list or has its cleanup behind the first `from` posts. */
  ghost predicate Swept(ids: seq<Id>, linked: seq<Id>, posts: seq<Post>, from: nat) {
    from <= |posts| && forall id :: id in ids ==> id in linked || Cleanup(id) in posts[from..]
  }

  lemma SweptNext(
    ids: seq<Id>, linked: seq<Id>, posts: seq<Post>, from: nat, id: Id, linked2: seq<Id>, posts2: seq<Post>)
    requires Swept(ids, linked, posts, from) && SameFor(linked, linked2, {id})
    requires posts <= posts2 && |posts| < |posts2| && posts2[|posts2| - 1] == Cleanup(id)
    ensures Swept(ids, linked2, posts2, from)
  {
    assert posts2[from..] == posts[from..] + posts2[|posts|..];
    assert posts2[|posts|..][|posts2| - |posts| - 1] == Cleanup(id);
  }

  /**
   * Only data that does not fit behind the buffer overflows a connection, and only the end of its
   * stream, its idle timer or the end of the server ends it.
   */
  ghost predicate BlamedAt(
    e: Event, posts: seq<Post>, cap: nat, before: map<Id, Conn>, after: map<Id, Conn>, id: Id)
  {
    id in before && id in after ==>
      && (SameAt(Overflowed, before[id], after[id]) || (e.Data? && e.id == id && !Fits(cap, before[id], |e.data|)))
      && (SameAt(Terminated, before[id], after[id]) || e == Ended(id) || e == IdleFired(id)
          || (e.RunPost? && posts != [] && posts[0].ServerCleanup?))
  }

  /** What an event does; `calls` are those of the next callback, of which `turns` are made. */
  ghost predicate Reacts(
    parse: Framing, cap: nat, idle: bool, e: Event, calls: seq<Call>, posts: seq<Post>,
    before: map<Id, Conn>, after: map<Id, Conn>, turns: int)
  {
    match e
    case Accepted => true
    case Opened(id) =>
      id in before && before[id].state in {NEW, CLOSING} ==> after == OpenedBy(before, id, calls, idle)
    case Data(id, data) =>
      id in before && before[id].state != NEW && !Dying(before[id].state) ==>
        id in after && exists mid :: Arrived(parse, cap, idle, data, before[id], mid, after[id])
    case Ended(id) => id in before ==> id in after && Dead(after[id].state)
    case IdleFired(id) =>
      id in before && before[id].timer ==>
        id in after && (Dead(after[id].state) <==> before[id].state in {PARSING, AWAIT_RESP, CLOSING})
    case RunPost => posts != [] && posts[0].Process? ==> Processed(parse, cap, before, after, posts[0].id, turns)
    case Outside(call) => after == Apply(before, call, None, idle)
  }

  ghost predicate Blamed(e: Event, posts: seq<Post>, cap: nat, before: map<Id, Conn>, after: map<Id, Conn>) {
    forall id :: BlamedAt(e, posts, cap, before, after, id)
  }

  lemma ApplyKeepsEnds(conns: map<Id, Conn>, call: Call, idle: bool)
    ensures SameEnds(conns, Apply(conns, call, None, idle))
  {
    var target := Target(call, None);
    if target.Some? && target.value in conns {
      EffectKeeps(conns[target.value], call, idle);
    }
  }

  // ---------------------------------------------------------------- table lemmas

  /** Membership in a list does not change for the other connections. */
  ghost predicate SameFor<T(!new)>(s: seq<T>, s2: seq<T>, mine: set<T>) {
    forall x :: x !in mine ==> (x in s2 <==> x in s)
  }

  lemma EntryFrame(
    parse: Framing, cap: nat, c: Conn, id: Id, linked: seq<Id>, posts: seq<Post>, role: Role,
    linked2: seq<Id>, posts2: seq<Post>)
    requires EntryOk(parse, cap, c, id, linked, posts, role)
    requires id in linked2 <==> id in linked
    requires Process(id) in posts2 <==> Process(id) in posts
    requires Cleanup(id) in posts2 <==> Cleanup(id) in posts
    ensures EntryOk(parse, cap, c, id, linked2, posts2, role)
  {
  }

  /** One entry changes, with its own posts and its own place in the list. */
  lemma TableUpdate(
    parse: Framing, cap: nat, conns: map<Id, Conn>, linked: seq<Id>, posts: seq<Post>, focus: Focus,
    id: Id, c: Conn, linked2: seq<Id>, posts2: seq<Post>, focus2: Focus)
    requires TableOk(parse, cap, conns, linked, posts, focus)
    requires SameFor(posts, posts2, {Process(id), Cleanup(id), ServerCleanup}) && SameFor(linked, linked2, {id})
    requires focus.Nobody? || focus2 == focus || focus.id == id
    requires focus2.Nobody? || focus2 == focus || focus2.id == id
    requires EntryOk(parse, cap, c, id, linked2, posts2, RoleOf(focus2, id))
    ensures TableOk(parse, cap, conns[id := c], linked2, posts2, focus2)
  {
    var conns2 := conns[id := c];
    forall x
      ensures At(parse, cap, conns2, linked2, posts2, focus2, x)
    {
      if x in conns && x != id {
        assert At(parse, cap, conns, linked, posts, focus, x);
        EntryFrame(parse, cap, conns[x], x, linked, posts, RoleOf(focus, x), linked2, posts2);
      }
    }
  }

  /** The connection in focus moves on without a change. */
  lemma Refocus(
    parse: Framing, cap: nat, conns: map<Id, Conn>, linked: seq<Id>, posts: seq<Post>, focus: Focus,
    id: Id, focus2: Focus)
    requires TableOk(parse, cap, conns, linked, posts, focus) && id in conns
    requires focus in {Nobody, Looping(id), Serving(id)} && focus2 in {Nobody, Looping(id), Serving(id)}
    requires RoleOk(parse, cap, conns[id], id, posts, RoleOf(focus2, id))
    ensures TableOk(parse, cap, conns, linked, posts, focus2)
  {
    assert At(parse, cap, conns, linked, posts, focus, id);
    TableUpdate(parse, cap, conns, linked, posts, focus, id, conns[id], linked, posts, focus2);
    assert conns[id := conns[id]] == conns;
  }

  /** A connection that stays in the list is stored, and its continuation queued on demand. */
  lemma StoreTable(
    parse: Framing, cap: nat, conns: map<Id, Conn>, linked: seq<Id>, posts: seq<Post>, focus: Focus, id: Id, c: Conn,
    post: bool, focus2: Focus)
    requires TableOk(parse, cap, conns, linked, posts, focus) && QueueOk(posts, conns.Keys) && id in conns
    requires focus.Nobody? || focus2 == focus || focus.id == id
    requires focus2.Nobody? || focus2 == focus || focus2.id == id
    requires ConnOk(parse, cap, c) && !Dead(conns[id].state) && !Dead(c.state)
    requires RoleOk(parse, cap, c, id, if post then posts + [Process(id)] else posts, RoleOf(focus2, id))
    requires RoleOf(focus, id) != InNotice && RoleOf(focus2, id) != InNotice
    ensures
      var posts2 := posts + if post then [Process(id)] else [];
      TableOk(parse, cap, conns[id := c], linked, posts2, focus2) && QueueOk(posts2, conns.Keys)
  {
    assert At(parse, cap, conns, linked, posts, focus, id);
    var posts2 := if post then posts + [Process(id)] else posts;
    assert posts + [] == posts;
    QueueNext(posts, conns.Keys, Process(id));
    assert EntryOk(parse, cap, c, id, linked, posts2, RoleOf(focus2, id));
    TableUpdate(parse, cap, conns, linked, posts, focus, id, c, linked, posts2, focus2);
  }

  lemma QueueNext(posts: seq<Post>, ids: set<Id>, p: Post)
    requires QueueOk(posts, ids)
    requires if p.ServerCleanup? then ServerCleanup !in posts else p.id in ids && Cleanup(p.id) !in posts
    ensures QueueOk(posts + [p], ids)
    ensures SameFor(posts, posts + [p], {p})
  {
  }

  /** The first post leaves the queue. */
  lemma QueuePop(posts: seq<Post>, ids: set<Id>)
    requires QueueOk(posts, ids) && posts != []
    ensures
      var p, rest := posts[0], posts[1..];
      && QueueOk(rest, ids) && SameFor(posts, rest, {p})
      && (!p.Process? ==> p !in rest)
      && (p.Cleanup? ==> Process(p.id) !in rest && QueueOk(rest, ids - {p.id}))
  {
    var p, rest := posts[0], posts[1..];
    assert posts == [p] + rest;
    QueueRest(p, rest, ids);
  }

  lemma QueueRest(p: Post, rest: seq<Post>, ids: set<Id>)
    requires QueueOk([p] + rest, ids)
    ensures QueueOk(rest, ids) && SameFor([p] + rest, rest, {p})
    ensures !p.Process? ==> p !in rest
    ensures p.Cleanup? ==> Process(p.id) !in rest && QueueOk(rest, ids - {p.id})
  {
    var posts := [p] + rest;
    assert posts[0] == p && forall j :: 0 <= j < |rest| ==> posts[j + 1] == rest[j];
    forall j | 0 <= j < |rest| ensures p.Cleanup? ==> !Names(rest[j], p.id) {
      assert posts[j + 1] == rest[j];
    }
    forall j | 0 <= j < |rest| ensures p.ServerCleanup? ==> !rest[j].ServerCleanup? {
      assert posts[j + 1] == rest[j];
    }
  }

  /** The entries do not depend on the cleanup of the server. */
  lemma TableFrame(
    parse: Framing, cap: nat, conns: map<Id, Conn>, linked: seq<Id>, posts: seq<Post>, focus: Focus, posts2: seq<Post>)
    requires TableOk(parse, cap, conns, linked, posts, focus) && SameFor(posts, posts2, {ServerCleanup})
    ensures TableOk(parse, cap, conns, linked, posts2, focus)
  {
    forall x
      ensures At(parse, cap, conns, linked, posts2, focus, x)
    {
      assert At(parse, cap, conns, linked, posts, focus, x);
      if x in conns {
        EntryFrame(parse, cap, conns[x], x, linked, posts, RoleOf(focus, x), linked, posts2);
      }
    }
  }

  /** Taking a continuation off the queue puts its connection in focus. */
  lemma TakeProcess(
    parse: Framing, cap: nat, conns: map<Id, Conn>, linked: seq<Id>, posts: seq<Post>, id: Id, posts2: seq<Post>)
    requires TableOk(parse, cap, conns, linked, posts, Nobody) && SameFor(posts, posts2, {Process(id)}) && id in conns
    ensures TableOk(parse, cap, conns, linked, posts2, Looping(id))
  {
    assert At(parse, cap, conns, linked, posts, Nobody, id);
    var c := conns[id];
    assert EntryOk(parse, cap, c, id, linked, posts2, InLoop);
    TableUpdate(parse, cap, conns, linked, posts, Nobody, id, c, linked, posts2, Looping(id));
    assert conns[id := c] == conns;
  }

  lemma TakeCleanup(
    parse: Framing, cap: nat, conns: map<Id, Conn>, linked: seq<Id>, posts: seq<Post>, id: Id, posts2: seq<Post>)
    requires TableOk(parse, cap, conns, linked, posts, Nobody) && SameFor(posts, posts2, {Cleanup(id)})
    ensures TableOk(parse, cap, conns - {id}, linked, posts2, Nobody)
  {
    var conns2 := conns - {id};
    forall x
      ensures At(parse, cap, conns2, linked, posts2, Nobody, x)
    {
      assert At(parse, cap, conns, linked, posts, Nobody, x);
      if x in conns2 {
        EntryFrame(parse, cap, conns[x], x, linked, posts, Resting, linked, posts2);
      }
    }
  }

  lemma EntryConn(
    parse: Framing, cap: nat, conns: map<Id, Conn>, linked: seq<Id>, posts: seq<Post>, focus: Focus, id: Id)
    requires TableOk(parse, cap, conns, linked, posts, focus) && id in conns
    ensures ConnOk(parse, cap, conns[id])
  {
    assert At(parse, cap, conns, linked, posts, focus, id);
  }

  lemma ListedAlive(parse: Framing, cap: nat, conns: map<Id, Conn>, linked: seq<Id>, posts: seq<Post>, id: Id)
    requires TableOk(parse, cap, conns, linked, posts, Nobody) && ListOk(linked, conns.Keys) && id in linked
    ensures id in conns && !Dead(conns[id].state)
  {
    assert At(parse, cap, conns, linked, posts, Nobody, id);
  }

  /** The loop may stop at a connection that does not parse or has nothing to serve. */
  lemma LoopAt(parse: Framing, cap: nat, conns: map<Id, Conn>, linked: seq<Id>, posts: seq<Post>, id: Id)
    requires TableOk(parse, cap, conns, linked, posts, Looping(id)) && id in conns
    ensures conns[id].state != PARSING || Quiet(parse, cap, conns[id])
      ==> TableOk(parse, cap, conns, linked, posts, Nobody)
    ensures conns[id].state == PARSING ==> NoUpgrade !in conns[id].outward.why
  {
    assert At(parse, cap, conns, linked, posts, Looping(id), id);
    if conns[id].state != PARSING || Quiet(parse, cap, conns[id]) {
      Refocus(parse, cap, conns, linked, posts, Looping(id), id, Nobody);
    }
  }

  /** A response that ends leaves a connection that goes on by itself or has its continuation queued. */
  lemma CompletedRole(parse: Framing, cap: nat, c: Conn, d: Conn, id: Id, posts: seq<Post>, role: Role, post: bool)
    requires FieldsOk(cap, c) && RoleOk(parse, cap, c, id, posts, role) && role != InLoop
    requires c.state in {REQUEST, AWAIT_RESP, RESPONDING} && d.state in {PARSING, CLOSING} && SameInput(c, d)
    requires post <==> Continues(c, d)
    ensures RoleOk(parse, cap, d, id, if post then posts + [Process(id)] else posts, role) && role != InNotice
  {
    assert Process(id) in posts + [Process(id)];
  }

  lemma AdmitNew(
    parse: Framing, cap: nat, conns: map<Id, Conn>, past: map<Id, Conn>, linked: seq<Id>, posts: seq<Post>, id: Id)
    requires TableOk(parse, cap, conns, linked, posts, Nobody) && QueueOk(posts, conns.Keys)
    requires ListOk(linked, conns.Keys) && IdsOk(parse, cap, conns, past, id)
    ensures
      var conns2, linked2 := conns[id := FRESH], [id] + linked;
      && TableOk(parse, cap, conns2, linked2, posts, Nobody) && QueueOk(posts, conns2.Keys)
      && ListOk(linked2, conns2.Keys) && IdsOk(parse, cap, conns2, past, id + 1)
  {
    var linked2 := [id] + linked;
    IdsNew(parse, cap, conns, past, id);
    assert SameFor(linked, linked2, {id}) by {
      assert forall x :: x in linked2 <==> x == id || x in linked;
    }
    assert id !in conns && id !in linked && Cleanup(id) !in posts && id in linked2;
    FreshOk(parse, cap);
    TableUpdate(parse, cap, conns, linked, posts, Nobody, id, FRESH, linked2, posts, Nobody);
  }

  /** The hand-over leaves the list and queues the cleanup. */
  lemma TableRelease(
    parse: Framing, cap: nat, conns: map<Id, Conn>, linked: seq<Id>, posts: seq<Post>, id: Id, linked2: seq<Id>)
    requires TableOk(parse, cap, conns, linked, posts, Serving(id)) && id in conns && conns[id].state == REQUEST
    requires QueueOk(posts, conns.Keys) && SameFor(linked, linked2, {id}) && id !in linked2
    ensures
      var conns2, posts2 := conns[id := HttpConn.Release(conns[id])], posts + [Cleanup(id)];
      TableOk(parse, cap, conns2, linked2, posts2, Serving(id)) && QueueOk(posts2, conns2.Keys)
  {
    var focus := Serving(id);
    var c := conns[id];
    assert At(parse, cap, conns, linked, posts, focus, id);
    var d, posts2 := HttpConn.Release(c), posts + [Cleanup(id)];
    ReleaseOk(parse, cap, c);
    QueueNext(posts, conns.Keys, Cleanup(id));
    assert Cleanup(id) in posts2;
    assert EntryOk(parse, cap, d, id, linked2, posts2, InCallback);
    TableUpdate(parse, cap, conns, linked, posts, focus, id, d, linked2, posts2, focus);
    assert conns[id := d].Keys == conns.Keys;
  }

  /** The end of a connection takes it out of the list; its cleanup is queued after the notice. */
  lemma TableDetach(
    parse: Framing, cap: nat, conns: map<Id, Conn>, linked: seq<Id>, posts: seq<Post>, id: Id, linked2: seq<Id>)
    requires TableOk(parse, cap, conns, linked, posts, Nobody) && id in conns && !Dead(conns[id].state)
    requires SameFor(linked, linked2, {id}) && id !in linked2
    ensures TableOk(parse, cap, conns[id := HttpConn.Terminate(conns[id])], linked2, posts, Leaving(id))
    ensures id in linked
  {
    var c := conns[id];
    assert At(parse, cap, conns, linked, posts, Nobody, id);
    TerminateOk(parse, cap, c);
    var d := HttpConn.Terminate(c);
    assert EntryOk(parse, cap, d, id, linked2, posts, InNotice);
    TableUpdate(parse, cap, conns, linked, posts, Nobody, id, d, linked2, posts, Leaving(id));
  }

  // ---------------------------------------------------------------- the server

  class Server {
    const parse: Framing
    const cap: nat
    /** Whether idle timers are on, and whether an upgrade callback is registered. */
    const idle: bool
    const upgrades: bool
    /** What the application does in its n-th callback. */
    const handler: nat -> seq<Call>

    var conns: map<Id, Conn>
    var linked: seq<Id>
    var posts: seq<Post>
    var life: Life
    var nextId: Id
    var turn: nat
    /** History: the connections that were freed, and the calls made outside of callbacks. */
    ghost var past: map<Id, Conn>
    ghost var outside: seq<Call>
    /** The data taken from the application so far. */
    ghost var given: seq<Said>
    /** The connections that those calls and the callbacks so far ask to close. */
    ghost var asked: set<Id>

    ghost predicate LifetimeOk()
      reads this
    {
      (life == Doomed <==> ServerCleanup in posts) && (life == Gone ==> linked == [])
    }

    /** The causes on record come from the calls of the application. */
    ghost predicate Truthful()
      reads this
    {
      && asked == AskedUpTo(handler, turn) + AskedBy(outside)
      && AllCauses(conns, asked, upgrades) && AllCauses(past, asked, upgrades)
    }

    /** The data sent is the data given, which comes from calls of the application. */
    ghost predicate Spoken()
      reads this
    {
      SpokenOf(conns, past, given, handler, turn, outside, nextId)
    }

    ghost predicate Ok(focus: Focus)
      reads this
    {
      && Sound(parse) && LifetimeOk()
      && TableOk(parse, cap, conns, linked, posts, focus)
      && QueueOk(posts, conns.Keys) && ListOk(linked, conns.Keys)
      && IdsOk(parse, cap, conns, past, nextId)
      && (!focus.Nobody? ==> focus.id in conns)
      && Truthful() && Spoken()
    }

    /** No connection was accepted or freed, and no call made outside of the callbacks. */
    twostate predicate SameHistory()
      reads this
    {
      nextId == old(nextId) && past == old(past) && outside == old(outside)
    }

    /** What every call of the application leaves alone; `up` says whether the list may change. */
    twostate predicate OnlyCalled(up: Option<Id>)
      reads this
    {
      && Doom(old(life), life) && (up == None ==> linked == old(linked)) && old(posts) <= posts
      && SameHistory() && turn == old(turn) && asked == old(asked)
    }

    constructor (parse: Framing, cap: nat, idle: bool, upgrades: bool, handler: nat -> seq<Call>)
      requires Sound(parse)
      ensures Ok(Nobody) && conns == map[] && posts == []
      ensures this.parse == parse && this.cap == cap && this.idle == idle
      ensures this.upgrades == upgrades && this.handler == handler && outside == []
    {
      this.parse, this.cap, this.idle, this.upgrades, this.handler := parse, cap, idle, upgrades, handler;
      conns, linked, posts, life, nextId, turn, past := map[], [], [], Running, 0, 0, map[];
      outside, given, asked := [], [], {};
    }

    // -------------------------------------------------------------- API

    /** A connection of the list may become `c`, having sent what is said, with its continuation queued on demand. */
    ghost predicate Storable(id: Id, c: Conn, post: bool, said: Option<string>, focus: Focus, focus2: Focus)
      reads this
    {
      && Ok(focus) && id in conns && ConnOk(parse, cap, c)
      && (focus.Nobody? || focus2 == focus || focus.id == id)
      && (focus2.Nobody? || focus2 == focus || focus2.id == id)
      && !Dead(conns[id].state) && !Dead(c.state)
      && RoleOk(parse, cap, c, id, if post then posts + [Process(id)] else posts, RoleOf(focus2, id))
      && RoleOf(focus, id) != InNotice && RoleOf(focus2, id) != InNotice
      && (CausesOk(c, id, asked, upgrades) || c.outward.why <= conns[id].outward.why)
      && Outputs(c.outward.log) == Outputs(conns[id].outward.log) + (if said.Some? then [said.value] else [])
      && (said.Some? ==> Made(handler, turn, outside, Said(id, said.value)))
    }

    lemma StoreKeeps(
      id: Id, c: Conn, post: bool, said: Option<string>, focus: Focus, focus2: Focus, conns2: map<Id, Conn>,
      posts2: seq<Post>)
      requires Storable(id, c, post, said, focus, focus2)
      requires conns2 == conns[id := c] && posts2 == posts + if post then [Process(id)] else []
      ensures TableOk(parse, cap, conns2, linked, posts2, focus2) && QueueOk(posts2, conns.Keys)
      ensures AllCauses(conns2, asked, upgrades) && IdsOk(parse, cap, conns2, past, nextId) && conns2.Keys == conns.Keys
      ensures SpokenOf(conns2, past, OneMore(given, id, said), handler, turn, outside, nextId)
    {
      StoreTable(parse, cap, conns, linked, posts, focus, id, c, post, focus2);
      CausesUpdate(conns, asked, upgrades, id, c);
      IdsUpdate(parse, cap, conns, past, nextId, id, c);
      SpokenUpdate(conns, past, given, handler, turn, outside, nextId, id, c, said);
    }

    /** Stores a connection that stays in the list, and queues its continuation on demand. */
    method Store(id: Id, c: Conn, post: bool, ghost said: Option<string>, ghost focus: Focus, ghost focus2: Focus)
      requires Storable(id, c, post, said, focus, focus2)
      modifies this
      ensures Ok(focus2)
      ensures conns == old(conns)[id := c] && posts == old(posts) + if post then [Process(id)] else []
      ensures linked == old(linked) && life == old(life) && given == OneMore(old(given), id, said)
      ensures SameHistory() && turn == old(turn) && asked == old(asked)
    {
      var conns2, posts2 := conns[id := c], posts + if post then [Process(id)] else [];
      StoreKeeps(id, c, post, said, focus, focus2, conns2, posts2);
      given := OneMore(given, id, said);
      conns, posts := conns2, posts2;
    }

    /** The response of a connection may be complete, having sent what is said. */
    ghost predicate Completable(id: Id, d: Conn, said: Option<string>, focus: Focus)
      reads this
    {
      && Ok(focus) && id in conns && !focus.Looping? && ConnOk(parse, cap, d) && SameInput(conns[id], d)
      && conns[id].state in {REQUEST, AWAIT_RESP, RESPONDING} && d.state in {PARSING, CLOSING}
      && d.outward.why <= conns[id].outward.why + (if id in asked then {Asked} else {})
      && Outputs(d.outward.log) == Outputs(conns[id].outward.log) + (if said.Some? then [said.value] else [])
      && (said.Some? ==> Made(handler, turn, outside, Said(id, said.value)))
    }

    /** Stores a connection whose response is complete; an asynchronous one goes on by a post. */
    method StoreCompleted(id: Id, d: Conn, ghost said: Option<string>, ghost focus: Focus)
      requires Completable(id, d, said, focus)
      modifies this
      ensures Ok(focus) && conns == old(conns)[id := d]
      ensures posts == old(posts) + if Continues(old(conns)[id], d) then [Process(id)] else []
      ensures linked == old(linked) && life == old(life) && given == OneMore(old(given), id, said)
      ensures SameHistory() && turn == old(turn) && asked == old(asked)
    {
      var c := conns[id];
      assert At(parse, cap, conns, linked, posts, focus, id);
      var post := Continues(c, d);
      CompletedRole(parse, cap, c, d, id, posts, RoleOf(focus, id), post);
      assert CausesAt(conns, id, asked, upgrades);
      Store(id, d, post, said, focus, focus);
    }

    lemma RespondFits(id: Id, data: string, close: bool, focus: Focus, d: Conn)
      requires Ok(focus) && id in conns && !focus.Looping? && (close ==> id in asked)
      requires Made(handler, turn, outside, Said(id, data))
      requires conns[id].state in {REQUEST, AWAIT_RESP} && !conns[id].wrote
      requires d == HttpConn.Respond(conns[id], data, close, idle)
      ensures Completable(id, d, Some(data), focus)
      ensures
        var c := conns[id];
        Went(c, d, [Responded(data), Completed], close || c.closePending || !LastKeeps(c.inward), idle)
    {
      EntryConn(parse, cap, conns, linked, posts, focus, id);
      RespondWent(parse, cap, conns[id], data, close, idle, d);
    }

    /**
     * A response is accepted in REQUEST and AWAIT_RESP before any write. Its data goes out, the
     * exchange is complete, and FIN follows when this call, an earlier one or the request asks for it.
     */
    method Respond(id: Id, data: string, close: bool, valid: bool, ghost focus: Focus) returns (ok: bool)
      requires Ok(focus) && id in conns && !focus.Looping? && (close ==> id in asked)
      requires Made(handler, turn, outside, Said(id, data))
      modifies this
      ensures Ok(focus)
      ensures ok <==> valid && old(conns)[id].state in {REQUEST, AWAIT_RESP} && !old(conns)[id].wrote
      ensures conns == old(conns)[id :=
        if ok then HttpConn.Respond(old(conns)[id], data, close, idle) else old(conns)[id]]
      ensures ok ==>
        var c := old(conns)[id];
        Went(c, conns[id], [Responded(data), Completed], close || c.closePending || !LastKeeps(c.inward), idle)
      ensures given == old(given) + if ok then [Said(id, data)] else []
      ensures posts == old(posts) +
        if ok && old(conns)[id].state == AWAIT_RESP && conns[id].state == PARSING && conns[id].buf != ""
        then [Process(id)] else []
      ensures linked == old(linked) && life == old(life)
      ensures SameHistory() && turn == old(turn) && asked == old(asked)
    {
      var c := conns[id];
      if (c.state != REQUEST && c.state != AWAIT_RESP) || c.wrote || !valid {
        return false;
      }
      var d := HttpConn.Respond(c, data, close, idle);
      RespondFits(id, data, close, focus, d);
      StoreCompleted(id, d, Some(data), focus);
      return true;
    }

    lemma WriteFits(id: Id, data: string, focus: Focus, d: Conn)
      requires Ok(focus) && id in conns && !focus.Looping? && conns[id].state in {REQUEST, AWAIT_RESP, RESPONDING}
      requires Made(handler, turn, outside, Said(id, data)) && d == HttpConn.Write(conns[id], data)
      ensures Storable(id, d, false, Some(data), focus, focus)
      ensures d.outward.log == conns[id].outward.log + [Wrote(data)] && d.wrote
      ensures d.state == if conns[id].state == REQUEST then REQUEST else RESPONDING
    {
      assert At(parse, cap, conns, linked, posts, focus, id);
      WriteOk(parse, cap, conns[id], data);
      WriteLog(conns[id], data);
    }

    /** Streamed data is accepted while a request is open, and goes out. */
    method Write(id: Id, data: string, ghost focus: Focus) returns (ok: bool)
      requires Ok(focus) && id in conns && !focus.Looping?
      requires Made(handler, turn, outside, Said(id, data))
      modifies this
      ensures Ok(focus)
      ensures ok <==> old(conns)[id].state in {REQUEST, AWAIT_RESP, RESPONDING}
      ensures conns == old(conns)[id :=
        if ok && data != "" then HttpConn.Write(old(conns)[id], data) else old(conns)[id]]
      ensures ok && data != "" ==>
        var c, d := old(conns)[id], conns[id];
        && d.outward.log == c.outward.log + [Wrote(data)] && d.wrote
        && d.state == if c.state == REQUEST then REQUEST else RESPONDING
      ensures given == old(given) + if ok && data != "" then [Said(id, data)] else []
      ensures posts == old(posts) && linked == old(linked) && life == old(life)
      ensures SameHistory() && turn == old(turn) && asked == old(asked)
    {
      var c := conns[id];
      if c.state != REQUEST && c.state != AWAIT_RESP && c.state != RESPONDING {
        return false;
      }
      if data == "" {
        return true;
      }
      var d := HttpConn.Write(c, data);
      WriteFits(id, data, focus, d);
      Store(id, d, false, Some(data), focus, focus);
      return true;
    }

    lemma WriteEndFits(id: Id, focus: Focus, d: Conn)
      requires Ok(focus) && id in conns && !focus.Looping? && conns[id].state in {REQUEST, RESPONDING}
      requires d == Complete(conns[id], idle)
      ensures Completable(id, d, None, focus) && Went(conns[id], d, [Completed], conns[id].closePending, idle)
    {
      EntryConn(parse, cap, conns, linked, posts, focus, id);
      WriteEndOk(parse, cap, conns[id], idle);
      CompleteLog(conns[id], idle);
    }

    /** The end of a streamed response. */
    method WriteEnd(id: Id, ghost focus: Focus) returns (ok: bool)
      requires Ok(focus) && id in conns && !focus.Looping?
      modifies this
      ensures Ok(focus)
      ensures ok <==> old(conns)[id].state in {REQUEST, RESPONDING}
      ensures conns == old(conns)[id := if ok then Complete(old(conns)[id], idle) else old(conns)[id]]
      ensures ok ==> Went(old(conns)[id], conns[id], [Completed], old(conns)[id].closePending, idle)
      ensures posts == old(posts) +
        if ok && old(conns)[id].state == RESPONDING && conns[id].state == PARSING && conns[id].buf != ""
        then [Process(id)] else []
      ensures linked == old(linked) && life == old(life) && given == old(given)
      ensures SameHistory() && turn == old(turn) && asked == old(asked)
    {
      var c := conns[id];
      if c.state != REQUEST && c.state != RESPONDING {
        return false;
      }
      var d := Complete(c, idle);
      WriteEndFits(id, focus, d);
      StoreCompleted(id, d, None, focus);
      return true;
    }

    /** Half-close on demand. */
    method Close(id: Id, ghost focus: Focus)
      requires Ok(focus) && id in conns && !focus.Looping? && id in asked
      modifies this
      ensures Ok(focus)
      ensures conns == old(conns)[id :=
        if Dying(old(conns)[id].state) then old(conns)[id] else AskClose(old(conns)[id])]
      ensures
        var c := old(conns)[id];
        conns[id].outward.log == c.outward.log + if Dying(c.state) then [] else [Fin]
      ensures posts == old(posts) && linked == old(linked) && life == old(life) && given == old(given)
      ensures SameHistory() && turn == old(turn) && asked == old(asked)
    {
      var c := conns[id];
      CloseLog(c);
      if Dying(c.state) {
        return;
      }
      assert At(parse, cap, conns, linked, posts, focus, id);
      AskCloseOk(parse, cap, c);
      assert CausesAt(conns, id, asked, upgrades);
      Store(id, AskClose(c), false, None, focus, focus);
    }

    method Destroy(ghost focus: Focus)
      requires Ok(focus)
      modifies this
      ensures Ok(focus) && life != Running && Doom(old(life), life) && conns == old(conns)
      ensures posts == old(posts) + if old(life) == Running then [ServerCleanup] else []
      ensures linked == old(linked) && given == old(given)
      ensures SameHistory() && turn == old(turn) && asked == old(asked)
    {
      if life != Running {
        return;
      }
      QueueNext(posts, conns.Keys, ServerCleanup);
      TableFrame(parse, cap, conns, linked, posts, focus, posts + [ServerCleanup]);
      life := Doomed;
      posts := posts + [ServerCleanup];
    }

    /** Takes a connection out of the list. */
    method Unlink(id: Id)
      modifies this`linked
      ensures ListOk(old(linked), old(conns).Keys) ==> ListOk(linked, conns.Keys) && id !in linked
      ensures SameFor(old(linked), linked, {id})
      ensures |linked| == |old(linked)| - if id in old(linked) then 1 else 0
    {
      var i := 0;
      while i < |linked| && linked[i] != id
        invariant 0 <= i <= |linked| && forall k :: 0 <= k < i ==> linked[k] != id
      {
        i := i + 1;
      }
      if i < |linked| {
        linked := linked[..i] + linked[i + 1..];
      }
    }

    /** The hand-over of the connection whose upgrade callback is running. */
    method Release(id: Id) returns (ok: bool)
      requires Ok(Serving(id))
      modifies this
      ensures Ok(Serving(id))
      ensures ok <==> old(conns)[id].state == REQUEST
      ensures conns == old(conns)[id := Effect(old(conns)[id], Upgrade, idle)]
      ensures posts == old(posts) + if ok then [Cleanup(id)] else []
      ensures life == old(life) && given == old(given)
      ensures SameHistory() && turn == old(turn) && asked == old(asked)
    {
      var c := conns[id];
      if c.state != REQUEST {
        return false;
      }
      var d := HttpConn.Release(c);
      ghost var linked0, ids := linked, conns.Keys;
      Unlink(id);
      TableRelease(parse, cap, conns, linked0, posts, id, linked);
      CausesUpdate(conns, asked, upgrades, id, d);
      IdsUpdate(parse, cap, conns, past, nextId, id, d);
      SpokenUpdate(conns, past, given, handler, turn, outside, nextId, id, d, None);
      conns := conns[id := d];
      assert conns.Keys == ids;
      posts := posts + [Cleanup(id)];
      return true;
    }

    /** A call on one connection. */
    method PerformOn(id: Id, call: Call, ghost focus: Focus)
      requires Ok(focus) && !focus.Looping? && id in conns && Target(call, None) == Some(id)
      requires Asks(call) ==> id in asked
      requires call.Respond? || call.Write? ==> Made(handler, turn, outside, Said(id, call.data))
      modifies this
      ensures Ok(focus) && conns == old(conns)[id := Effect(old(conns)[id], call, idle)]
      ensures life == old(life) && linked == old(linked) && old(posts) <= posts
      ensures given == old(given) + AcceptedOf(old(conns), call)
      ensures SameHistory() && turn == old(turn) && asked == old(asked)
    {
      match call {
        case Respond(_, data, close, valid) =>
          var _ := Respond(id, data, close, valid, focus);
        case Write(_, data) =>
          var _ := Write(id, data, focus);
        case WriteEnd(_) =>
          var _ := WriteEnd(id, focus);
        case Close(_) =>
          Close(id, focus);
      }
    }

    /** One call of the application; `up` names the connection whose upgrade callback is running. */
    method Perform(call: Call, up: Option<Id>, ghost focus: Focus)
      requires Ok(focus) && !focus.Looping? && (up.Some? ==> focus == Serving(up.value))
      requires Asks(call) ==> call.id in asked
      requires call.Respond? || call.Write? ==> Made(handler, turn, outside, Said(call.id, call.data))
      modifies this
      ensures Ok(focus) && conns == Apply(old(conns), call, up, idle)
      ensures given == old(given) + AcceptedOf(old(conns), call)
      ensures OnlyCalled(up)
    {
      if call.Destroy? {
        Destroy(focus);
      } else if call.Upgrade? {
        if up.Some? {
          var _ := Release(up.value);
        }
      } else if call.id in conns {
        PerformOn(call.id, call, focus);
      }
    }

    /** The next callback of the application begins: it will make these calls. */
    method Enter(ghost focus: Focus) returns (calls: seq<Call>)
      requires Ok(focus)
      modifies this`turn, this`asked
      ensures Ok(focus) && calls == handler(old(turn)) && turn == old(turn) + 1
      ensures asked == old(asked) + AskedBy(calls)
    {
      calls := handler(turn);
      ghost var asked2 := asked + AskedBy(calls);
      CausesGrow(conns, asked, upgrades, asked2);
      CausesGrow(past, asked, upgrades, asked2);
      SpokenGrow(conns, past, given, handler, turn, outside, nextId, turn + 1, []);
      assert outside + [] == outside;
      turn := turn + 1;
      asked := asked2;
    }

    /** The next callback of the application: its calls, in order. */
    method Callback(up: Option<Id>, ghost focus: Focus)
      requires Ok(focus) && !focus.Looping? && (up.Some? ==> focus == Serving(up.value))
      modifies this
      ensures Ok(focus) && Kept(old(conns), conns)
      ensures conns == ApplyAll(old(conns), handler(old(turn)), up, idle)
      ensures given == old(given) + AcceptedAll(old(conns), handler(old(turn)), up, idle)
      ensures Doom(old(life), life) && (up == None ==> linked == old(linked)) && old(posts) <= posts
      ensures SameHistory() && turn == old(turn) + 1
    {
      var calls := Enter(focus);
      MakeCalls(calls, up, focus);
      assert calls[..|calls|] == calls;
      ApplyAllKept(old(conns), calls, up, idle);
    }

    /** The calls of the callback that has begun. */
    method MakeCalls(calls: seq<Call>, up: Option<Id>, ghost focus: Focus)
      requires Ok(focus) && !focus.Looping? && (up.Some? ==> focus == Serving(up.value))
      requires turn > 0 && calls == handler(turn - 1) && AskedBy(calls) <= asked
      modifies this
      ensures Ok(focus) && MadeSoFar(old(conns), old(given), calls, up, idle, |calls|, conns, given)
      ensures OnlyCalled(up)
    {
      for k := 0 to |calls|
        invariant Ok(focus) && MadeSoFar(old(conns), old(given), calls, up, idle, k, conns, given)
        invariant OnlyCalled(up)
      {
        MakeCall(calls, k, up, old(conns), old(given), focus);
      }
    }

    method MakeCall(
      calls: seq<Call>, k: nat, up: Option<Id>, ghost conns0: map<Id, Conn>, ghost given0: seq<Said>,
      ghost focus: Focus)
      requires Ok(focus) && !focus.Looping? && (up.Some? ==> focus == Serving(up.value)) && k < |calls|
      requires turn > 0 && calls == handler(turn - 1) && AskedBy(calls) <= asked
      requires MadeSoFar(conns0, given0, calls, up, idle, k, conns, given)
      modifies this
      ensures Ok(focus) && MadeSoFar(conns0, given0, calls, up, idle, k + 1, conns, given)
      ensures OnlyCalled(up)
    {
      MadeOneMore(conns0, given0, calls, up, idle, k, conns, given);
      CallKnown(handler, turn, outside, asked, calls, k);
      Perform(calls[k], up, focus);
    }

    // -------------------------------------------------------------- requests

    /** The request `m` at the front of the buffer is dispatched. */
    method BeginRequest(id: Id, m: Message)
      requires Ok(Looping(id)) && conns[id].state == PARSING && parse(conns[id].buf) == Done(m)
      requires m.body.hi <= |conns[id].buf|
      modifies this
      ensures Ok(Serving(id)) && conns == old(conns)[id := Dispatch(old(conns)[id], m)]
      ensures life == old(life) && SameHistory() && turn == old(turn)
      ensures m.upgrade ==> LastUpgrades(parse, conns[id].inward)
    {
      var c := conns[id];
      assert At(parse, cap, conns, linked, posts, Looping(id), id);
      DispatchOk(parse, cap, c, m);
      DispatchSilent(c, m);
      Store(id, Dispatch(c, m), false, None, Looping(id), Serving(id));
      assert WholeAt(parse, c.buf);
    }

    /** The callback for the request, or the refusal of an upgrade nobody handles. */
    method Consult(id: Id, upgrade: bool)
      requires Ok(Serving(id)) && conns[id].state == REQUEST && !conns[id].wrote
      requires upgrade ==> LastUpgrades(parse, conns[id].inward)
      modifies this
      ensures Ok(Serving(id)) && Consulting(old(conns), conns, id, upgrade && !upgrades)
      ensures Doom(old(life), life) && SameHistory()
      ensures conns == Consulted(old(conns), id, upgrade, upgrades, handler(old(turn)), idle)
      ensures given == old(given) + GivenIn(old(conns), id, upgrade, upgrades, handler(old(turn)), idle)
      ensures turn == old(turn) + if upgrade && !upgrades then 0 else 1
    {
      assert At(parse, cap, conns, linked, posts, Serving(id), id);
      ConsultedKeeps(conns, id, upgrade, upgrades, handler(turn), idle,
        Consulted(conns, id, upgrade, upgrades, handler(turn), idle));
      if upgrade && !upgrades {
        RefuseUpgrade(id);
      } else {
        Callback(if upgrade then Some(id) else None, Serving(id));
      }
    }

    /** Nobody handles upgrades. */
    method RefuseUpgrade(id: Id)
      requires Ok(Serving(id)) && conns[id].state == REQUEST && !conns[id].wrote && !upgrades
      requires LastUpgrades(parse, conns[id].inward)
      modifies this
      ensures Ok(Serving(id)) && conns == old(conns)[id := Refuse(old(conns)[id], 400, false)]
      ensures conns[id].outward.log == old(conns)[id].outward.log + [Refused(400), Fin] && conns[id].state == CLOSING
      ensures life == old(life) && given == old(given) && SameHistory() && turn == old(turn)
    {
      var c := conns[id];
      EntryConn(parse, cap, conns, linked, posts, Serving(id), id);
      assert At(parse, cap, conns, linked, posts, Serving(id), id);
      RefuseOk(parse, cap, c, 400, false);
      RefusalLog(c, 400, false);
      assert CausesAt(conns, id, asked, upgrades);
      Store(id, Refuse(c, 400, false), false, None, Serving(id), Serving(id));
    }

    /** After the callback the request leaves the buffer, unless the connection is on its way out. */
    method FinishRequest(id: Id, consumed: nat)
      requires Ok(Serving(id)) && conns[id].inward.requests != []
      requires consumed == |conns[id].inward.requests[|conns[id].inward.requests| - 1].raw| <= |conns[id].buf|
      modifies this
      ensures Ok(Looping(id))
      ensures conns == if Dying(old(conns)[id].state) then old(conns)
        else old(conns)[id := AfterCallback(old(conns)[id], consumed, idle)]
      ensures life == old(life) && SameHistory() && turn == old(turn)
    {
      var c := conns[id];
      assert At(parse, cap, conns, linked, posts, Serving(id), id);
      if Dying(c.state) {
        Refocus(parse, cap, conns, linked, posts, Serving(id), id, Looping(id));
      } else {
        AfterCallbackOk(parse, cap, c, consumed, idle);
        AfterSilent(c, consumed, idle);
        Store(id, AfterCallback(c, consumed, idle), false, None, Serving(id), Looping(id));
      }
    }

    /** One request is dispatched and the application called once, or an upgrade nobody handles refused. */
    method ServeRequest(id: Id, m: Message)
      requires Ok(Looping(id)) && conns[id].state == PARSING && parse(conns[id].buf) == Done(m)
      requires m.body.hi <= |conns[id].buf|
      modifies this
      ensures Ok(Looping(id)) && SameEnds(old(conns), conns)
      ensures Doom(old(life), life) && SameHistory()
      ensures ServedOne(old(conns)[id], conns[id], m, m.upgrade && !upgrades)
      ensures turn == old(turn) + if m.upgrade && !upgrades then 0 else 1
    {
      BeginRequest(id, m);
      Consult(id, m.upgrade);
      ghost var mid := conns;
      FinishRequest(id, m.body.hi);
      ServedStages(old(conns), mid, id, m, m.upgrade && !upgrades, idle, conns);
    }

    /** Serves what the buffer holds, up to the budget; the application is called once for each request. */
    method HttpProcess(id: Id)
      requires Ok(Looping(id))
      modifies this
      ensures Ok(Nobody) && Processed(parse, cap, old(conns), conns, id, turn - old(turn))
      ensures Doom(old(life), life) && SameHistory()
    {
      var budget := BUDGET;
      while true
        invariant Ok(Looping(id)) && 0 <= budget <= BUDGET
        invariant Doom(old(life), life) && SameHistory()
        invariant Round(parse, cap, old(conns), conns, id, BUDGET - budget, turn - old(turn))
        decreases budget
      {
        var c := conns[id];
        ghost var now, served, calls := conns, BUDGET - budget, turn - old(turn);
        LoopAt(parse, cap, conns, linked, posts, id);
        if c.buf == "" || Dying(c.state) || c.state != PARSING {
          RoundEnds(parse, cap, old(conns), now, id, served, calls);
          return;
        }
        if budget <= 0 {
          RoundEnds(parse, cap, old(conns), now, id, served, calls);
          GiveWay(id);
          return;
        }
        budget := budget - 1;
        var more := ProcessOne(id, old(conns), served, calls);
        if !more {
          return;
        }
      }
    }

    /** Serves the first request in the buffer, or none when there is no whole one. */
    method ProcessOne(id: Id, ghost before: map<Id, Conn>, ghost served: nat, ghost calls: int) returns (more: bool)
      requires Ok(Looping(id)) && conns[id].state == PARSING && conns[id].buf != ""
      requires Round(parse, cap, before, conns, id, served, calls) && served < BUDGET
      modifies this
      ensures Ok(if more then Looping(id) else Nobody) && Doom(old(life), life) && SameHistory()
      ensures more ==> Round(parse, cap, before, conns, id, served + 1, calls + turn - old(turn))
      ensures !more ==> Processed(parse, cap, before, conns, id, calls + turn - old(turn))
    {
      ghost var now := conns;
      LoopAt(parse, cap, conns, linked, posts, id);
      var v := parse(conns[id].buf);
      if !v.Done? {
        RoundUnserved(parse, cap, before, now, id, served, calls);
        NoRequest(id, v);
        return false;
      }
      assert WholeAt(parse, now[id].buf);
      ServeRequest(id, v.msg);
      RoundNext(parse, cap, before, now, id, served, calls, v.msg, v.msg.upgrade && !upgrades, conns);
      return true;
    }

    /** The connection goes on by a post, behind what is queued. */
    method GiveWay(id: Id)
      requires Ok(Looping(id)) && conns[id].state == PARSING
      modifies this
      ensures Ok(Nobody) && conns == old(conns) && posts == old(posts) + [Process(id)] && linked == old(linked)
      ensures life == old(life) && SameHistory() && turn == old(turn)
    {
      assert At(parse, cap, conns, linked, posts, Looping(id), id);
      assert Process(id) in posts + [Process(id)];
      Store(id, conns[id], true, None, Looping(id), Nobody);
      assert conns == old(conns);
    }

    /** The buffer holds no request: wait for more, or refuse. */
    method NoRequest(id: Id, v: Verdict)
      requires Ok(Looping(id)) && conns[id].state == PARSING && conns[id].buf != ""
      requires parse(conns[id].buf) == v && !v.Done?
      modifies this
      ensures Ok(Nobody) && conns == old(conns)[id := Unserved(cap, old(conns)[id], v)]
      ensures
        var c, log := old(conns)[id], conns[id].outward.log;
        if v.Bad? then log == c.outward.log + [Refused(400), Fin] && conns[id].state == CLOSING
        else if |c.buf| >= cap then log == c.outward.log + [Refused(413), Fin] && conns[id].state == CLOSING
        else conns == old(conns)
      ensures life == old(life) && SameHistory() && turn == old(turn)
      ensures posts == old(posts) && linked == old(linked)
    {
      var c := conns[id];
      assert At(parse, cap, conns, linked, posts, Looping(id), id);
      if v.Bad? || |c.buf| >= cap {
        var status := if v.Bad? then 400 else 413;
        RefuseOk(parse, cap, c, status, true);
        RefusalLog(c, status, true);
        Store(id, Refuse(c, status, true), false, None, Looping(id), Nobody);
      } else {
        Refocus(parse, cap, conns, linked, posts, Looping(id), id, Nobody);
        assert conns[id := c] == conns;
      }
    }

    // -------------------------------------------------------------- stream callbacks

    method Accept() returns (id: Id)
      requires Ok(Nobody) && life != Gone
      modifies this
      ensures Ok(Nobody) && id == old(nextId) && conns == old(conns)[id := FRESH] && linked == [id] + old(linked)
      ensures id !in old(conns) && posts == old(posts) && life == old(life)
      ensures
        var c := conns[id];
        && c.state == NEW && c.buf == "" && !c.closePending && !c.wrote && !c.timer
        && c.outward.log == [] && c.inward.received == ""
      ensures past == old(past) && outside == old(outside)
    {
      id := nextId;
      AdmitNew(parse, cap, conns, past, linked, posts, id);
      assert IdAt(parse, cap, conns, past, nextId, id);
      CausesUpdate(conns, asked, upgrades, id, FRESH);
      SpokenNew(conns, past, given, handler, turn, outside, id);
      conns := conns[id := FRESH];
      linked := [id] + linked;
      nextId := nextId + 1;
    }

    /** The stream is up: the application may look at the connection, then parsing starts unless it closed it. */
    method OnOpen(id: Id)
      requires Ok(Nobody) && id in conns && conns[id].state in {NEW, CLOSING}
      modifies this
      ensures Ok(Nobody) && SameEnds(old(conns), conns)
      ensures conns == OpenedBy(old(conns), id, handler(old(turn)), idle)
      ensures conns[id].state ==
        if old(conns)[id].state == NEW && Call.Close(id) !in handler(old(turn)) then PARSING else CLOSING
      ensures Doom(old(life), life) && SameHistory() && turn == old(turn) + 1
      ensures idle ==> conns[id].timer
    {
      OpenedKeeps(conns, id, handler(turn), idle,
        ApplyAll(conns, handler(turn), None, idle), OpenedBy(conns, id, handler(turn), idle));
      Callback(None, Nobody);
      OpenConn(id);
    }

    method OpenConn(id: Id)
      requires Ok(Nobody) && id in conns && conns[id].state in {NEW, CLOSING}
      modifies this
      ensures Ok(Nobody) && conns == old(conns)[id := Open(old(conns)[id], idle)]
      ensures life == old(life) && SameHistory() && turn == old(turn)
    {
      var c := conns[id];
      assert At(parse, cap, conns, linked, posts, Nobody, id);
      OpenOk(parse, cap, c, idle);
      OpenSilent(c, idle);
      Store(id, Open(c, idle), false, None, Nobody, Nobody);
    }

    /**
     * What arrives is taken when it fits, perhaps after making room, and then served; `mid` is the
     * connection after room was made. Otherwise the connection closes for that reason.
     */
    method OnData(id: Id, data: string) returns (ghost mid: Conn)
      requires Ok(Nobody) && id in conns && conns[id].state != NEW
      modifies this
      ensures Ok(Nobody) && Same(Overflowed, old(conns), conns, {id}) && Same(Terminated, old(conns), conns, {})
      ensures Doom(old(life), life) && SameHistory()
      ensures if Dying(old(conns)[id].state) then conns == old(conns)
        else Arrived(parse, cap, idle, data, old(conns)[id], mid, conns[id])
    {
      mid := conns[id];
      if Dying(conns[id].state) {
        return;
      }
      if |data| > cap - |conns[id].buf| {
        mid := MakeRoom(id, data);
      } else {
        TakeData(id, data);
      }
    }

    /** The data does not fit: it is taken after room was made, or the connection closes. */
    method MakeRoom(id: Id, data: string) returns (ghost mid: Conn)
      requires Ok(Nobody) && id in conns && conns[id].state != NEW && !Fits(cap, conns[id], |data|)
      modifies this
      ensures Ok(Nobody) && Same(Overflowed, old(conns), conns, {id}) && Same(Terminated, old(conns), conns, {})
      ensures Doom(old(life), life) && SameHistory()
      ensures Arrived(parse, cap, idle, data, old(conns)[id], mid, conns[id])
    {
      Drain(id, |data|);
      mid := conns[id];
      if conns[id].state != PARSING || |data| > cap - |conns[id].buf| {
        CloseNow(id);
      } else {
        TakeData(id, data);
      }
    }

    /** Makes room by serving what is buffered, for a bounded number of rounds. */
    method Drain(id: Id, len: nat)
      requires Ok(Nobody) && id in conns
      modifies this
      ensures Ok(Nobody) && SameEnds(old(conns), conns)
      ensures Doom(old(life), life) && SameHistory()
      ensures conns[id].inward.received == old(conns)[id].inward.received
      ensures Drained(parse, cap, len, old(conns)[id], conns[id])
    {
      var k := 0;
      while k < OVERFLOW_LIMIT && NeedsRoom(cap, conns[id], len)
        invariant Ok(Nobody) && SameEnds(old(conns), conns) && k <= OVERFLOW_LIMIT
        invariant var served := |conns[id].inward.requests| - |old(conns)[id].inward.requests|;
          && 0 <= served <= k * BUDGET
          && (conns[id].state == PARSING && !Quiet(parse, cap, conns[id]) ==> served == k * BUDGET)
        invariant k == 0 ==> conns[id] == old(conns)[id]
        invariant k > 0 ==> NeedsRoom(cap, old(conns)[id], len)
        invariant conns[id].inward.received == old(conns)[id].inward.received
        invariant Doom(old(life), life) && SameHistory()
        decreases OVERFLOW_LIMIT - k
      {
        Refocus(parse, cap, conns, linked, posts, Nobody, id, Looping(id)) by {
          assert At(parse, cap, conns, linked, posts, Nobody, id);
        }
        HttpProcess(id);
        k := k + 1;
      }
    }

    /** Half-close after an overflow: what a connection has in hand is not answered any more. */
    method CloseNow(id: Id)
      requires Ok(Nobody) && id in conns
      modifies this
      ensures Ok(Nobody) && conns == old(conns)[id := Overflow(old(conns)[id])]
      ensures life == old(life) && SameHistory() && turn == old(turn)
    {
      var c := conns[id];
      if Dying(c.state) {
        assert conns[id := c] == conns;
        return;
      }
      assert At(parse, cap, conns, linked, posts, Nobody, id);
      OverflowOk(parse, cap, c);
      assert CausesAt(conns, id, asked, upgrades);
      CloseLog(c);
      Store(id, Overflow(c), false, None, Nobody, Nobody);
    }

    method TakeData(id: Id, data: string)
      requires Ok(Nobody) && id in conns && conns[id].state != NEW && !Dying(conns[id].state)
      requires |data| <= cap - |conns[id].buf|
      modifies this
      ensures Ok(Nobody) && SameEnds(old(conns), conns)
      ensures Doom(old(life), life) && SameHistory()
      ensures Taken(parse, cap, idle, data, old(conns)[id], conns[id])
    {
      var c := conns[id];
      assert At(parse, cap, conns, linked, posts, Nobody, id);
      ReceiveOk(parse, cap, c, data, idle);
      ReceiveSilent(c, data, idle);
      Store(id, Receive(c, data, idle), false, None, Nobody, Looping(id));
      SameEndsNext(old(conns), old(conns), id, conns[id]);
      if c.state == PARSING {
        HttpProcess(id);
      } else {
        Refocus(parse, cap, conns, linked, posts, Looping(id), id, Nobody);
      }
    }

    // -------------------------------------------------------------- the end of a connection

    /** Closed and out of the list, then the application is told, then the memory is left to a post. */
    method Terminate(id: Id)
      requires Ok(Nobody) && id in conns
      modifies this
      ensures Ok(Nobody)
      ensures Same(Overflowed, old(conns), conns, {}) && Same(Terminated, old(conns), conns, {id})
      ensures Dead(conns[id].state) && !conns[id].timer
      ensures Doom(old(life), life) && SameHistory()
      ensures SameFor(old(linked), linked, {id}) && id !in linked && |linked| <= |old(linked)|
    {
      if Dead(conns[id].state) {
        assert At(parse, cap, conns, linked, posts, Nobody, id);
        return;
      }
      End(id);
    }

    method End(id: Id)
      requires Ok(Nobody) && id in conns && !Dead(conns[id].state)
      modifies this
      ensures Ok(Nobody)
      ensures Same(Overflowed, old(conns), conns, {}) && Same(Terminated, old(conns), conns, {id})
      ensures Dead(conns[id].state) && !conns[id].timer
      ensures Doom(old(life), life) && SameHistory() && turn == old(turn) + 1
      ensures SameFor(old(linked), linked, {id}) && id !in linked && |linked| < |old(linked)|
      ensures |old(posts)| < |posts| && old(posts) <= posts && posts[|posts| - 1] == Cleanup(id)
    {
      Detach(id);
      Callback(None, Leaving(id));
      EndedKeeps(old(conns), id, conns);
      Bury(id);
    }

    method Detach(id: Id)
      requires Ok(Nobody) && id in conns && !Dead(conns[id].state)
      modifies this
      ensures Ok(Leaving(id)) && conns == old(conns)[id := HttpConn.Terminate(old(conns)[id])]
      ensures posts == old(posts) && life == old(life)
      ensures SameHistory() && turn == old(turn) && asked == old(asked)
      ensures SameFor(old(linked), linked, {id}) && id !in linked && |linked| < |old(linked)|
    {
      var d := HttpConn.Terminate(conns[id]);
      ghost var linked0, ids := linked, conns.Keys;
      Unlink(id);
      TableDetach(parse, cap, conns, linked0, posts, id, linked);
      CausesUpdate(conns, asked, upgrades, id, d);
      IdsUpdate(parse, cap, conns, past, nextId, id, d);
      SpokenUpdate(conns, past, given, handler, turn, outside, nextId, id, d, None);
      conns := conns[id := d];
      assert conns.Keys == ids;
    }

    method Bury(id: Id)
      requires Ok(Leaving(id))
      modifies this
      ensures Ok(Nobody) && conns == old(conns) && posts == old(posts) + [Cleanup(id)] && linked == old(linked)
      ensures turn == old(turn) && life == old(life) && SameHistory()
      ensures Dead(conns[id].state) && !conns[id].timer && asked == old(asked)
    {
      var c := conns[id];
      assert At(parse, cap, conns, linked, posts, Leaving(id), id);
      QueueNext(posts, conns.Keys, Cleanup(id));
      ghost var posts2 := posts + [Cleanup(id)];
      assert Cleanup(id) in posts2;
      assert EntryOk(parse, cap, c, id, linked, posts2, Resting);
      TableUpdate(parse, cap, conns, linked, posts, Leaving(id), id, c, linked, posts2, Nobody);
      assert conns[id := c] == conns;
      posts := posts + [Cleanup(id)];
    }

    /** An idle timer fires once; a response that is being streamed is left alone. */
    method OnIdle(id: Id)
      requires Ok(Nobody) && id in conns && conns[id].timer
      modifies this
      ensures Ok(Nobody)
      ensures Same(Overflowed, old(conns), conns, {}) && Same(Terminated, old(conns), conns, {id})
      ensures !conns[id].timer
      ensures Doom(old(life), life) && SameHistory()
      ensures Dead(conns[id].state) <==> old(conns)[id].state in {PARSING, AWAIT_RESP, CLOSING}
    {
      var c := conns[id];
      assert At(parse, cap, conns, linked, posts, Nobody, id);
      Store(id, c.(timer := false), false, None, Nobody, Nobody);
      if c.state == PARSING || c.state == AWAIT_RESP || c.state == CLOSING {
        Terminate(id);
      }
    }

    // -------------------------------------------------------------- posts

    method TakePost() returns (p: Post)
      requires Ok(Nobody) && posts != []
      modifies this`posts, this`life
      ensures p == old(posts)[0] && posts == old(posts)[1..]
      ensures !p.Cleanup? ==> Ok(if p.Process? then Looping(p.id) else Nobody)
      ensures life == if p.ServerCleanup? then Sweeping else old(life)
      ensures p.ServerCleanup? ==> old(life) == Doomed
    {
      p := posts[0];
      ghost var posts0 := posts;
      QueuePop(posts, conns.Keys);
      posts := posts[1..];
      if p.ServerCleanup? {
        life := Sweeping;
        TableFrame(parse, cap, conns, linked, posts0, Nobody, posts);
      } else if p.Process? {
        TakeProcess(parse, cap, conns, linked, posts0, p.id, posts);
      }
    }

    /** A queued continuation finds its connection allocated, whatever happened since. */
    method OnProcessPost(id: Id)
      requires Ok(Looping(id))
      modifies this
      ensures Ok(Nobody) && Processed(parse, cap, old(conns), conns, id, turn - old(turn))
      ensures Doom(old(life), life) && SameHistory()
    {
      assert At(parse, cap, conns, linked, posts, Looping(id), id);
      if Dying(conns[id].state) || conns[id].buf == "" {
        Refocus(parse, cap, conns, linked, posts, Looping(id), id, Nobody);
      } else {
        HttpProcess(id);
      }
    }

    /** Destroys every connection in the list, newest first. */
    method OnServerCleanup()
      requires Ok(Nobody) && life == Sweeping
      modifies this
      ensures Ok(Nobody) && life == Gone && linked == [] && Same(Overflowed, old(conns), conns, {})
      ensures SameHistory()
      ensures old(posts) <= posts && Swept(old(linked), [], posts, |old(posts)|)
    {
      while linked != []
        invariant Ok(Nobody) && life == Sweeping && Same(Overflowed, old(conns), conns, {})
        invariant SameHistory() && old(posts) <= posts
        invariant Swept(old(linked), linked, posts, |old(posts)|)
        decreases |linked|
      {
        var id := linked[0];
        ghost var before, sofar, now := linked, posts, conns;
        ListedAlive(parse, cap, conns, linked, posts, id);
        End(id);
        SameNext(Overflowed, old(conns), now, conns);
        SweptNext(old(linked), before, sofar, |old(posts)|, id, linked, posts);
      }
      life := Gone;
    }

    /** Frees the connection: nothing in the queue or in the list names it any more. */
    method OnCleanup()
      requires Ok(Nobody) && posts != [] && posts[0].Cleanup?
      modifies this
      ensures Ok(Nobody) && posts == old(posts)[1..] && life == old(life) && outside == old(outside)
      ensures
        var id := old(posts)[0].id;
        && id in old(conns) && Dead(old(conns)[id].state) && id !in old(past)
        && conns == old(conns) - {id} && past == old(past)[id := old(conns)[id]]
        && id !in linked && forall p :: p in posts ==> !Names(p, id)
    {
      var id := posts[0].id;
      assert posts[0] in posts && At(parse, cap, conns, linked, posts, Nobody, id);
      QueuePop(posts, conns.Keys);
      TakeCleanup(parse, cap, conns, linked, posts, id, posts[1..]);
      CausesMove(conns, past, asked, upgrades, id);
      IdsMove(parse, cap, conns, past, nextId, id);
      SpokenMove(conns, past, given, handler, turn, outside, nextId, id);
      past := past[id := conns[id]];
      assert (conns - {id}).Keys == conns.Keys - {id};
      conns := conns - {id};
      posts := posts[1..];
    }

    method RunPost()
      requires Ok(Nobody)
      modifies this
      ensures Ok(Nobody)
      ensures (old(life) == Gone ==> life == Gone) && outside == old(outside)
      ensures Blamed(Event.RunPost, old(posts), cap, old(conns), conns)
      ensures old(posts) != [] && old(posts)[0].Process? ==>
        Processed(parse, cap, old(conns), conns, old(posts)[0].id, turn - old(turn))
    {
      if posts == [] {
        return;
      }
      if posts[0].Cleanup? {
        OnCleanup();
        return;
      }
      var p := TakePost();
      if p.Process? {
        OnProcessPost(p.id);
      } else {
        OnServerCleanup();
      }
    }

    /** One event of a stream; events for connections that have no stream any more do not occur. */
    method StreamEvent(e: Event, id: Id)
      requires Ok(Nobody) && e in {Opened(id), Ended(id), IdleFired(id)}
      modifies this
      ensures Ok(Nobody) && Blamed(e, old(posts), cap, old(conns), conns) && outside == old(outside)
      ensures Reacts(
        parse, cap, idle, e, handler(old(turn)), old(posts), old(conns), conns, turn - old(turn))
    {
      if id !in conns {
        return;
      }
      match e {
        case Opened(_) =>
          if conns[id].state == NEW || conns[id].state == CLOSING {
            OnOpen(id);
          }
        case Ended(_) =>
          Terminate(id);
        case IdleFired(_) =>
          if conns[id].timer {
            OnIdle(id);
          }
      }
    }

    /** The application is about to make a call outside of its callbacks. */
    ghost method Announce(call: Call)
      requires Ok(Nobody)
      modifies this`outside, this`asked
      ensures Ok(Nobody) && outside == old(outside) + [call]
      ensures asked == old(asked) + (if Asks(call) then {call.id} else {}) && given == old(given)
    {
      var asked2 := asked + if Asks(call) then {call.id} else {};
      AskedNext(outside, call);
      CausesGrow(conns, asked, upgrades, asked2);
      CausesGrow(past, asked, upgrades, asked2);
      SpokenGrow(conns, past, given, handler, turn, outside, nextId, turn, [call]);
      outside := outside + [call];
      asked := asked2;
    }

    method Request(call: Call)
      requires Ok(Nobody)
      modifies this
      ensures Ok(Nobody) && conns == Apply(old(conns), call, None, idle) && SameEnds(old(conns), conns)
      ensures Doom(old(life), life) && nextId == old(nextId) && past == old(past) && turn == old(turn)
      ensures outside == old(outside) + [call] && given == old(given) + AcceptedOf(old(conns), call)
    {
      ApplyKeepsEnds(conns, call, idle);
      Announce(call);
      assert outside[|outside| - 1] == call;
      Perform(call, None, Nobody);
    }

    method DataEvent(id: Id, data: string)
      requires Ok(Nobody)
      modifies this
      ensures Ok(Nobody) && Blamed(Data(id, data), old(posts), cap, old(conns), conns) && outside == old(outside)
      ensures Reacts(
        parse, cap, idle, Data(id, data), handler(old(turn)), old(posts), old(conns), conns, turn - old(turn))
    {
      if id in conns && conns[id].state != NEW {
        var _ := OnData(id, data);
      }
    }

    /** One event, and what it can have overflowed or ended. */
    method Step(e: Event)
      requires Ok(Nobody)
      modifies this
      ensures Ok(Nobody) && Blamed(e, old(posts), cap, old(conns), conns)
      ensures outside == old(outside) + if e.Outside? then [e.call] else []
      ensures e.Accepted? && old(life) != Gone ==> conns == old(conns)[old(nextId) := FRESH]
      ensures Reacts(
        parse, cap, idle, e, handler(old(turn)), old(posts), old(conns), conns, turn - old(turn))
    {
      match e {
        case Accepted =>
          if life != Gone {
            var _ := Accept();
          }
        case Opened(id) =>
          StreamEvent(e, id);
        case Ended(id) =>
          StreamEvent(e, id);
        case IdleFired(id) =>
          StreamEvent(e, id);
        case Data(id, data) =>
          DataEvent(id, data);
        case RunPost =>
          RunPost();
        case Outside(call) =>
          Request(call);
      }
    }
  }

  function OutsideCalls(events: seq<Event>): seq<Call> {
    if events == [] then []
    else
      var e := events[|events| - 1];
      OutsideCalls(events[..|events| - 1]) + if e.Outside? then [e.call] else []
  }

  /** Every run of every server, under any events, callbacks and outside calls. */
  method Serve(cap: nat, idle: bool, upgrades: bool, handler: nat -> seq<Call>, events: seq<Event>) returns (s: Server)
    ensures fresh(s) && s.Ok(Nobody) && s.parse == Parse && s.cap == cap
    ensures s.upgrades == upgrades && s.handler == handler && s.outside == OutsideCalls(events)
  {
    ParseIsSound();
    s := new Server(Parse, cap, idle, upgrades, handler);
    for k := 0 to |events|
      invariant fresh(s) && s.Ok(Nobody) && s.outside == OutsideCalls(events[..k])
    {
      assert events[..k + 1][..k] == events[..k];
      s.Step(events[k]);
    }
    assert events[..|events|] == events;
  }

  // ---------------------------------------------------------------- what holds between events

  /** No lost continuation: a connection that could go on has a post queued that makes it go on. */
  lemma NoLostContinuation(s: Server, id: Id)
    requires s.Ok(Nobody) && id in s.conns
    ensures
      var c := s.conns[id];
      c.state == PARSING && c.buf != "" && (s.parse(c.buf) != More || |c.buf| >= s.cap) ==> Process(id) in s.posts
  {
    assert At(s.parse, s.cap, s.conns, s.linked, s.posts, Nobody, id);
  }

  /**
   * Deferred free: what is queued names connections that are allocated; a connection is dead exactly
   * when its one cleanup is queued; nothing about it is queued behind that; no timer or list holds it.
   */
  lemma DeferredFreeIsSafe(s: Server, k: nat)
    requires s.Ok(Nobody) && k < |s.posts| && !s.posts[k].ServerCleanup?
    ensures
      var id := s.posts[k].id;
      && id in s.conns && id !in s.past
      && (Dead(s.conns[id].state) <==> Cleanup(id) in s.posts)
      && (Dead(s.conns[id].state) ==> !s.conns[id].timer && id !in s.linked)
      && (s.posts[k].Cleanup? ==> forall j :: k < j < |s.posts| ==> !Names(s.posts[j], id))
  {
    assert IdAt(s.parse, s.cap, s.conns, s.past, s.nextId, s.posts[k].id);
    assert At(s.parse, s.cap, s.conns, s.linked, s.posts, Nobody, s.posts[k].id);
  }

  /** A server that was destroyed frees every connection by the time its posts have run. */
  lemma NothingLeaks(s: Server)
    requires s.Ok(Nobody) && s.life == Gone && s.posts == []
    ensures s.conns == map[] && forall id :: 0 <= id < s.nextId ==> id in s.past
  {
    forall id: Id ensures id !in s.conns && (id < s.nextId ==> id in s.past) {
      assert At(s.parse, s.cap, s.conns, s.linked, s.posts, Nobody, id);
      assert IdAt(s.parse, s.cap, s.conns, s.past, s.nextId, id);
    }
  }

  ghost function Record(s: Server, id: Id): Conn
    requires s.Ok(Nobody) && id < s.nextId
    reads s
  {
    assert IdAt(s.parse, s.cap, s.conns, s.past, s.nextId, id);
    if id in s.conns then s.conns[id] else s.past[id]
  }

  lemma RecordOk(s: Server, id: Id)
    requires s.Ok(Nobody) && id < s.nextId
    ensures ConnOk(s.parse, s.cap, Record(s, id))
  {
    assert IdAt(s.parse, s.cap, s.conns, s.past, s.nextId, id);
    assert At(s.parse, s.cap, s.conns, s.linked, s.posts, Nobody, id);
  }

  /**
   * For every connection ever accepted, also when it was closed or refused: every transition was
   * registered; its log is one exchange per dispatched request in order, the last perhaps open,
   * then at most one error response and one FIN; and the requests it dispatched are the first ones of
   * repeated parsing of its bytes.
   */
  lemma EveryConnection(s: Server, id: Id) returns (replies: seq<Reply>, t: Tail)
    requires s.Ok(Nobody) && id < s.nextId
    ensures
      var c := Record(s, id);
      && c.outward.legal && c.outward.log == Exchanges(replies) + TailActs(t)
      && Shape(Scan(c.outward.log), t) && Scan(c.outward.log) != Broken
      && |replies| <= |c.inward.requests| <= |replies| + 1
      && c.inward.requests <= Requests(s.parse, c.inward.received)
  {
    var c := Record(s, id);
    RecordOk(s, id);
    DispatchesRefineParsing(s.parse, c.inward, c.buf);
    replies, t := LogIsExchanges(c.outward.log);
  }

  /** A connection that waits for a request and has no post to run has dispatched all it received. */
  lemma SettledConnection(s: Server, id: Id)
    requires s.Ok(Nobody) && id in s.conns && s.conns[id].state == PARSING && Process(id) !in s.posts
    ensures
      var i := s.conns[id].inward;
      i.requests == Requests(s.parse, i.received) && Scan(s.conns[id].outward.log) == Ready(|i.requests|)
  {
    var c := s.conns[id];
    assert At(s.parse, s.cap, s.conns, s.linked, s.posts, Nobody, id);
    assert WholeAt(s.parse, c.buf);
    DispatchesRefineParsing(s.parse, c.inward, c.buf);
  }

  /**
   * Complete dispatch: when the application never asked to close this connection, an upgrade it sent
   * was not refused for lack of a handler, no data overflowed it, its stream did not end before it
   * was closing, it was not handed over, no answer of the application is outstanding and no
   * continuation is queued, then the requests dispatched are all that repeated parsing finds in the
   * bytes received, whatever the pushes and the budget.
   */
  lemma CompleteDispatch(s: Server, id: Id)
    requires s.Ok(Nobody) && id < s.nextId && Process(id) !in s.posts
    requires id !in AskedUpTo(s.handler, s.turn) && id !in AskedBy(s.outside)
    requires s.upgrades || !LastUpgrades(s.parse, Record(s, id).inward)
    requires {Overflowed, Terminated} !! Record(s, id).outward.why
    requires Record(s, id).state !in {AWAIT_RESP, RESPONDING, RELEASED}
    ensures Record(s, id).inward.requests == Requests(s.parse, Record(s, id).inward.received)
  {
    var c := Record(s, id);
    RecordOk(s, id);
    assert IdAt(s.parse, s.cap, s.conns, s.past, s.nextId, id);
    assert At(s.parse, s.cap, s.conns, s.linked, s.posts, Nobody, id);
    assert CausesAt(s.conns, id, s.asked, s.upgrades) && CausesAt(s.past, id, s.asked, s.upgrades);
    forall cause ensures cause !in c.outward.why {
      match cause {
        case Asked =>
        case NoUpgrade =>
        case Overflowed =>
        case Terminated =>
        case HandedOver =>
      }
    }
    AllDispatched(s.parse, s.cap, c);
  }

  /**
   * What every connection ever accepted has sent of the application is, in order, the data of the
   * calls on it that the server accepted, each of which is a call of a callback that ran or of one
   * outside.
   */
  lemma OutputsAreCalls(s: Server, id: Id, j: nat)
    requires s.Ok(Nobody) && id < s.nextId
    ensures Outputs(Record(s, id).outward.log) == GivenTo(s.given, id)
    ensures j < |s.given| ==> Made(s.handler, s.turn, s.outside, s.given[j])
  {
    assert IdAt(s.parse, s.cap, s.conns, s.past, s.nextId, id);
    assert SaidAt(s.conns, id, s.given) && SaidAt(s.past, id, s.given);
    assert MadeAt(s.handler, s.turn, s.outside, s.given, s.nextId, j);
  }
}
