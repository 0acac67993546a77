/**
 * The select loop as a state machine: every locked region and every callback is one step, and calls
 * from callbacks and from other threads may come between any two of them.
 */
module EventLoop {
  import opened Bytes
  import opened Timers
  import IntrusiveList

  const FD_SETSIZE := 1024

  // ---------------------------------------------------------------- nodes

  /** Which callback is run: the read or the write callback of a handler, or that of a timer. */
  datatype Way = Reading | Writing | Ticking

  datatype Ev = Unregistered(id: Id) | Called(id: Id, way: Way) | Freed(id: Id)

  /**
   * The IO handlers or the timers: the memory in use, the live list, the death list, the chain that
   * is being freed, and the `deleted` flags that are set. `freed` and `log` are history.
   */
  datatype Pool<T> = Pool(
    nodes: map<Id, T>, live: seq<Id>, death: seq<Id>, doomed: seq<Id>, deleted: set<Id>,
    count: int, next: Id, freed: seq<Id>, log: seq<Ev>)

  function EmptyPool<T>(): Pool<T> {
    Pool(map[], [], [], [], {}, 0, 0, [], [])
  }

  ghost function Places<T>(p: Pool<T>): multiset<Id> {
    multiset(p.live) + multiset(p.death) + multiset(p.doomed) + multiset(p.freed)
  }

  /** Each node is in exactly one of the live list, the two death lists and the freed memory. */
  ghost predicate OnePlace<T>(p: Pool<T>) {
    forall id :: Places(p)[id] == if 0 <= id < p.next then 1 else 0
  }

  ghost predicate FlagsOk<T>(p: Pool<T>) {
    && p.count == |p.live|
    && (forall id :: id in p.nodes <==> 0 <= id < p.next && id !in p.freed)
    && (forall id :: id in p.nodes ==> (id in p.deleted <==> id !in p.live))
    && (forall id :: id in p.deleted ==> id < p.next)
  }

  /** Nothing is called once it is unregistered, and nothing happens to a node once it is freed. */
  ghost predicate LogOk<T>(p: Pool<T>) {
    && (forall i :: 0 <= i < |p.log| ==> p.log[i].id < p.next)
    && (forall id :: Unregistered(id) in p.log <==> id in p.deleted)
    && (forall id :: Freed(id) in p.log <==> id in p.freed)
    && OrderOk(p.log)
  }

  ghost predicate OrderOk(log: seq<Ev>) {
    forall i, j :: 0 <= i < j < |log| && log[i].id == log[j].id ==>
      && (log[i].Unregistered? ==> log[j].Freed?)
      && !log[i].Freed?
  }

  ghost predicate PoolOk<T>(p: Pool<T>) {
    OnePlace(p) && FlagsOk(p) && LogOk(p)
  }

  /** Exactly one of the four places, for the nodes that exist. */
  lemma Where<T>(p: Pool<T>, id: Id)
    requires OnePlace(p)
    ensures id in p.live || id in p.death || id in p.doomed || id in p.freed <==> id < p.next
    ensures id in p.live ==> id !in p.death && id !in p.doomed && id !in p.freed
    ensures id in p.death ==> id !in p.doomed && id !in p.freed
    ensures id in p.doomed ==> id !in p.freed
  {
    assert Places(p)[id]
      == multiset(p.live)[id] + multiset(p.death)[id] + multiset(p.doomed)[id] + multiset(p.freed)[id];
  }

  // ---------------------------------------------------------------- operations on nodes

  function Add<T>(p: Pool<T>, v: T): Pool<T> {
    p.(nodes := p.nodes[p.next := v], live := [p.next] + p.live, count := p.count + 1, next := p.next + 1)
  }

  lemma AddOk<T>(p: Pool<T>, v: T)
    requires PoolOk(p)
    ensures PoolOk(Add(p, v))
  {
    var q := Add(p, v);
    assert Places(q) == multiset{p.next} + Places(p);
    assert OnePlace(q);
    Where(p, p.next);
    assert forall id :: id in q.live <==> id == p.next || id in p.live;
  }

  /** The node at `k` of the live list is marked and goes to the death list. */
  function Bury<T>(p: Pool<T>, k: nat): Pool<T>
    requires k < |p.live|
  {
    var id := p.live[k];
    p.(live := Without(p.live, k), death := [id] + p.death, deleted := p.deleted + {id}, count := p.count - 1,
       log := p.log + [Unregistered(id)])
  }

  lemma BuryPlaces<T>(p: Pool<T>, k: nat)
    requires OnePlace(p) && k < |p.live|
    ensures OnePlace(Bury(p, k))
    ensures forall id :: id in Bury(p, k).live <==> id in p.live && id != p.live[k]
    ensures p.live[k] !in p.freed && p.live[k] < p.next
  {
    var q := Bury(p, k);
    var id := p.live[k];
    assert p.live == p.live[..k] + [id] + p.live[k + 1..];
    assert multiset(p.live) == multiset(q.live) + multiset{id};
    assert Places(q) == Places(p);
    Where(p, id);
    Where(q, id);
    assert id in q.death;
    forall x ensures x in q.live <==> x in p.live && x != id {
      assert x in q.live <==> multiset(q.live)[x] > 0;
      assert x in p.live <==> multiset(p.live)[x] > 0;
    }
  }

  lemma BuryOk<T>(p: Pool<T>, k: nat)
    requires PoolOk(p) && k < |p.live|
    ensures PoolOk(Bury(p, k))
  {
    BuryPlaces(p, k);
    LogNext(p.log, Unregistered(p.live[k]));
  }

  /** An event can follow when its node was neither freed nor, unless it is freed now, unregistered. */
  lemma LogNext(log: seq<Ev>, e: Ev)
    requires OrderOk(log)
    requires forall i :: 0 <= i < |log| && log[i].id == e.id ==> !log[i].Freed? && (log[i].Unregistered? ==> e.Freed?)
    ensures OrderOk(log + [e])
  {
  }

  /** A node that is not deleted is called. */
  function Call<T>(p: Pool<T>, id: Id, way: Way): Pool<T> {
    p.(log := p.log + [Called(id, way)])
  }

  lemma CallOk<T>(p: Pool<T>, id: Id, way: Way)
    requires PoolOk(p) && id in p.nodes && id !in p.deleted
    ensures PoolOk(Call(p, id, way)) && id in p.live
  {
    assert Places(Call(p, id, way)) == Places(p);
    LogNext(p.log, Called(id, way));
  }

  /** The death list becomes the chain to free. */
  function Detach<T>(p: Pool<T>): Pool<T> {
    p.(death := [], doomed := p.death)
  }

  lemma DetachOk<T>(p: Pool<T>)
    requires PoolOk(p) && p.doomed == []
    ensures PoolOk(Detach(p))
  {
    assert Places(Detach(p)) == Places(p);
  }

  function FreeFirst<T>(p: Pool<T>): Pool<T>
    requires p.doomed != []
  {
    var id := p.doomed[0];
    p.(nodes := p.nodes - {id}, doomed := p.doomed[1..], freed := p.freed + [id], log := p.log + [Freed(id)])
  }

  lemma FreePlaces<T>(p: Pool<T>)
    requires OnePlace(p) && p.doomed != []
    ensures OnePlace(FreeFirst(p)) && p.doomed[0] !in p.freed && p.doomed[0] !in p.live && p.doomed[0] < p.next
    ensures forall id :: id in FreeFirst(p).freed <==> id in p.freed || id == p.doomed[0]
  {
    var q := FreeFirst(p);
    var id := p.doomed[0];
    assert p.doomed == [id] + q.doomed;
    assert Places(q) == Places(p);
    Where(p, id);
  }

  lemma FreeLog<T>(p: Pool<T>)
    requires OnePlace(p) && LogOk(p) && p.doomed != []
    ensures OnePlace(FreeFirst(p)) && LogOk(FreeFirst(p))
  {
    FreePlaces(p);
    LogNext(p.log, Freed(p.doomed[0]));
  }

  lemma FreeFirstOk<T>(p: Pool<T>)
    requires PoolOk(p) && p.doomed != []
    ensures PoolOk(FreeFirst(p))
  {
    FreePlaces(p);
    FreeLog(p);
  }

  /** The end of the loop: what is live and what is dead is freed alike. */
  function FreeAll<T>(p: Pool<T>): Pool<T>
    decreases |p.doomed|
  {
    if p.doomed == [] then p else FreeAll(FreeFirst(p))
  }

  function Condemn<T>(p: Pool<T>): Pool<T> {
    p.(live := [], death := [], doomed := p.live + p.death)
  }

  /** All memory is back, and each node was freed exactly once. */
  ghost predicate AllFreed<T>(p: Pool<T>) {
    p.nodes == map[] && OrderOk(p.log) && forall id :: multiset(p.freed)[id] == if 0 <= id < p.next then 1 else 0
  }

  lemma {:induction false} FreeAllOk<T>(p: Pool<T>)
    requires OnePlace(p) && LogOk(p) && p.live == [] && p.death == [] && forall id :: id in p.nodes <==> id in p.doomed
    ensures AllFreed(FreeAll(p)) && FreeAll(p).next == p.next
    decreases |p.doomed|
  {
    if p.doomed != [] {
      var q := FreeFirst(p);
      FreeLog(p);
      forall id ensures id in q.nodes <==> id in q.doomed {
        Where(q, p.doomed[0]);
        assert p.doomed == [p.doomed[0]] + q.doomed;
      }
      FreeAllOk(q);
    } else {
      assert Places(p) == multiset(p.freed);
    }
  }

  lemma CondemnOk<T>(p: Pool<T>)
    requires PoolOk(p) && p.doomed == []
    ensures AllFreed(FreeAll(Condemn(p))) && FreeAll(Condemn(p)).next == p.next
  {
    var q := Condemn(p);
    assert Places(q) == Places(p);
    forall id ensures id in q.nodes <==> id in q.doomed {
      if 0 <= id {
        Where(p, id);
      }
    }
    FreeAllOk(q);
  }

  // ---------------------------------------------------------------- the linked lists behind a pool

  /** The three lists of a pool, as the registry of linked nodes keeps them. */
  function ListsOf<T>(p: Pool<T>): IntrusiveList.Lists<Id> {
    IntrusiveList.Lists(p.live, p.death, p.freed)
  }

  lemma {:induction false} FreeAllFrees<T>(p: Pool<T>)
    ensures FreeAll(p).freed == p.freed + p.doomed && FreeAll(p).live == p.live && FreeAll(p).death == p.death
    decreases |p.doomed|
  {
    if p.doomed != [] {
      FreeAllFrees(FreeFirst(p));
      assert p.freed + p.doomed == p.freed + [p.doomed[0]] + p.doomed[1..];
    }
  }

  /** Every step on a pool is the corresponding step of the registry on its lists. */
  lemma PoolFollowsRegistry<T>(p: Pool<T>, v: T, k: nat)
    ensures ListsOf(Add(p, v)) == IntrusiveList.Registered(ListsOf(p), p.next)
    ensures k < |p.live| ==> ListsOf(Bury(p, k)) == IntrusiveList.Unregistered(ListsOf(p), k)
    ensures p.doomed == [] ==> ListsOf(FreeAll(Detach(p))) == IntrusiveList.Reaped(ListsOf(p))
    ensures p.doomed == [] ==> FreeAll(Condemn(p)).freed == p.freed + p.live + p.death
  {
    FreeAllFrees(Detach(p));
    FreeAllFrees(Condemn(p));
    assert p.freed + (p.live + p.death) == p.freed + p.live + p.death;
  }

  // ---------------------------------------------------------------- descriptors

  datatype Io = Io(fd: nat, onRead: bool, onWrite: bool)

  /** Live handlers have different descriptors that select can hold. */
  ghost predicate FdsOk(p: Pool<Io>) {
    && (forall i :: 0 <= i < |p.live| ==> p.live[i] in p.nodes && p.nodes[p.live[i]].fd < FD_SETSIZE)
    && (forall i, j :: 0 <= i < j < |p.live| ==> p.nodes[p.live[i]].fd != p.nodes[p.live[j]].fd)
  }

  ghost predicate Unused(p: Pool<Io>, fd: int)
    requires FdsOk(p)
  {
    forall i :: 0 <= i < |p.live| ==> p.nodes[p.live[i]].fd != fd
  }

  lemma {:induction false} Pigeonhole(fds: seq<nat>, n: nat)
    requires forall i :: 0 <= i < |fds| ==> fds[i] < n
    requires forall i, j :: 0 <= i < j < |fds| ==> fds[i] != fds[j]
    ensures |fds| <= n
    decreases n
  {
    if fds != [] {
      assert fds[0] < n;
      if k :| 0 <= k < |fds| && fds[k] == n - 1 {
        Pigeonhole(Without(fds, k), n - 1);
      } else {
        Pigeonhole(fds, n - 1);
      }
    }
  }

  /** The snapshot has room for every live handler. */
  lemma SnapshotFits(p: Pool<Io>)
    requires FdsOk(p)
    ensures |p.live| <= FD_SETSIZE
  {
    var fds := seq(|p.live|, i requires 0 <= i < |p.live| => p.nodes[p.live[i]].fd);
    Pigeonhole(fds, FD_SETSIZE);
  }

  // ---------------------------------------------------------------- the loop

  type Job = nat

  /** Where the loop is in its round; `tick` is the time that select took, zero if no timer saw it. */
  datatype Phase =
    | Resting
    | Freeing
    | Selecting(snap: seq<Id>, hasTimer: bool, timeout: nat)
    | Serving(snap: seq<Id>, i: nat, readable: set<nat>, writable: set<nat>, tick: nat)
    | Posting(active: seq<Job>, tick: nat)
    | Firing(expired: seq<Entry>, at: nat, k: nat)
    | Destroyed

  /** What select reports. */
  datatype Outcome =
    | Ready(readable: set<nat>, writable: set<nat>, delta: nat)
    | Interrupted(delta: nat)
    | BadFd(delta: nat)
    | Failed

  /** What callbacks and other threads may do at any point. */
  datatype Request =
    | RegisterIo(fd: int, onRead: bool, onWrite: bool)
    | UnregisterIo(io: Id)
    | RegisterTimer(interval: nat)
    | UnregisterTimer(timer: Id)
    | Post(job: Job)

  datatype Action = Advance(outcome: Outcome) | Ask(request: Request) | Destroy

  /**
   * The turn of a handler: while it is live, its read callback runs if and only if it has one and the
   * descriptor is readable, and its write callback if and only if that does not run, it has one and
   * the descriptor is writable. Nothing else happens.
   */
  ghost predicate Served(p: Pool<Io>, id: Id, readable: set<nat>, writable: set<nat>, q: Pool<Io>) {
    && id in p.nodes
    && var io := p.nodes[id];
       var toRead := id in p.live && io.onRead && io.fd in readable;
       var toWrite := id in p.live && !toRead && io.onWrite && io.fd in writable;
       q == p.(log := p.log
         + (if toRead then [Called(id, Reading)] else []) + (if toWrite then [Called(id, Writing)] else []))
  }

  /** Handlers came and went, and none was called or freed. */
  ghost predicate OnlyRequests(p: Pool<Io>, q: Pool<Io>) {
    && p.log <= q.log && (forall k :: |p.log| <= k < |q.log| ==> q.log[k].Unregistered?)
    && forall id :: id in p.nodes ==> id in q.nodes && q.nodes[id] == p.nodes[id]
  }

  /** The handlers when a turn comes, and after it. */
  datatype Service = Service(before: Pool<Io>, after: Pool<Io>)

  ghost function PoolAfter(p: Pool<Io>, turns: seq<Service>): Pool<Io> {
    if turns == [] then p else turns[|turns| - 1].after
  }

  /** Between two turns, and before the first, there are only requests. */
  ghost predicate Chained(p: Pool<Io>, turns: seq<Service>) {
    forall i :: 0 <= i < |turns| ==> OnlyRequests(PoolAfter(p, turns[..i]), turns[i].before)
  }

  lemma ChainedNext(p: Pool<Io>, turns: seq<Service>, turn: Service)
    requires Chained(p, turns) && OnlyRequests(PoolAfter(p, turns), turn.before)
    ensures Chained(p, turns + [turn])
  {
    var more := turns + [turn];
    forall i | 0 <= i < |more| ensures OnlyRequests(PoolAfter(p, more[..i]), more[i].before) {
      if i < |turns| {
        assert more[..i] == turns[..i];
      } else {
        assert more[..i] == turns;
      }
    }
  }

  function Active(phase: Phase): seq<Job> {
    if phase.Posting? then phase.active else []
  }

  /** What the loop holds on to across steps is not freed under it. */
  ghost predicate PhaseOk(phase: Phase, ios: Pool<Io>, timers: Pool<Timer>) {
    && (!phase.Freeing? ==> ios.doomed == [] && timers.doomed == [])
    && (phase.Selecting? || phase.Serving? ==> forall i :: 0 <= i < |phase.snap| ==> phase.snap[i] in ios.nodes)
    && (phase.Firing? ==> forall i :: 0 <= i < |phase.expired| ==> phase.expired[i].id in timers.nodes)
  }

  ghost predicate TimesOk(p: Pool<Timer>) {
    forall id :: id in p.nodes ==> OnTime(p.nodes[id])
  }

  /** No timer has less time left, and one has just this much unless none fits in an unsigned int. */
  ghost predicate LeastTime(p: Pool<Timer>, timeout: nat) {
    && Known(p.live, p.nodes)
    && (forall i :: 0 <= i < |p.live| ==> timeout <= TimeLeft(p.nodes[p.live[i]]))
    && (timeout == UINT_MAX || exists i :: 0 <= i < |p.live| && timeout == TimeLeft(p.nodes[p.live[i]]))
  }

  // ---------------------------------------------------------------- time

  /** The timer phase begins: every live timer ticked, and the first ones that expired are to be called. */
  ghost predicate Ticked(p: Pool<Timer>, tick: nat, q: Pool<Timer>, phase: Phase) {
    if tick == 0 then q == p && phase == Firing([], 0, 0)
    else
      && q == p.(nodes := q.nodes) && Known(p.live, p.nodes)
      && TickedTo(p.live, p.nodes, tick, q.nodes, |p.live|)
      && phase == Firing(Cut(Expiring(p.live, p.nodes, tick), MAX_EXPIRED), 0, 0)
  }

  /** The time that goes to the timers after this outcome; a bad descriptor counts as 1 ms at least. */
  function TickOf(outcome: Outcome, timed: bool): nat {
    if !timed then 0
    else
      match outcome
      case Ready(_, _, delta) => delta
      case Interrupted(delta) => delta
      case BadFd(delta) => if delta < 1 then 1 else delta
      case Failed => 0
  }

  /** Time that select reported and no timer has seen yet. */
  function Held(phase: Phase): nat {
    match phase
    case Serving(_, _, _, _, tick) => tick
    case Posting(_, tick) => tick
    case _ => 0
  }

  /** The time reported and the time charged to the timers when a timer was registered. */
  datatype Birth = Birth(reported: nat, charged: nat)

  /** History: what select reported for the timers in all rounds, and what they were charged. */
  datatype Clock = Clock(reported: nat, charged: nat, births: map<Id, Birth>)

  /** Time is reported by select, and charged when the posts are done. */
  function AfterStep(clock: Clock, phase: Phase, outcome: Outcome): Clock {
    match phase
    case Selecting(_, timed, _) => clock.(reported := clock.reported + TickOf(outcome, timed))
    case Posting(active, tick) => if active == [] then clock.(charged := clock.charged + tick) else clock
    case _ => clock
  }

  /** A live timer was charged all that any timer was charged since its registration. */
  ghost predicate ClockAt(p: Pool<Timer>, clock: Clock, id: Id) {
    id in p.live ==>
      && id in p.nodes && id in clock.births
      && p.nodes[id].elapsed + clock.births[id].charged == clock.charged
      && clock.births[id].charged <= clock.births[id].reported
  }

  ghost predicate ClockOk(p: Pool<Timer>, clock: Clock) {
    forall id :: ClockAt(p, clock, id)
  }

  function BirthOf(clock: Clock, id: Id): Clock {
    clock.(births := clock.births[id := Birth(clock.reported, clock.charged)])
  }

  lemma BirthKeeps(p: Pool<Timer>, clock: Clock, v: Timer)
    requires PoolOk(p) && ClockOk(p, clock) && v.elapsed == 0 && clock.charged <= clock.reported
    ensures ClockOk(Add(p, v), BirthOf(clock, p.next))
  {
    var q, clock2 := Add(p, v), BirthOf(clock, p.next);
    forall id ensures ClockAt(q, clock2, id) {
      assert ClockAt(p, clock, id);
      if id in q.live && id != p.next {
        assert id in p.live;
      }
    }
  }

  /** Fewer live timers, and no other changes. */
  lemma ClockFewer(p: Pool<Timer>, clock: Clock, q: Pool<Timer>)
    requires ClockOk(p, clock) && forall id :: id in q.live ==> id in p.live
    requires forall id :: id in q.live && id in p.nodes ==> id in q.nodes && q.nodes[id] == p.nodes[id]
    ensures ClockOk(q, clock)
  {
    forall id ensures ClockAt(q, clock, id) {
      assert ClockAt(p, clock, id);
    }
  }

  lemma SameBirths(p: Pool<Timer>, clock: Clock, clock2: Clock)
    requires ClockOk(p, clock) && clock2.births == clock.births && clock2.charged == clock.charged
    ensures ClockOk(p, clock2)
  {
    forall id ensures ClockAt(p, clock2, id) {
      assert ClockAt(p, clock, id);
    }
  }

  lemma ChargeKeeps(p: Pool<Timer>, clock: Clock, tick: nat, after: map<Id, Timer>)
    requires ClockOk(p, clock) && Known(p.live, p.nodes) && TickedTo(p.live, p.nodes, tick, after, |p.live|)
    ensures ClockOk(p.(nodes := after), clock.(charged := clock.charged + tick))
  {
    var q, clock2 := p.(nodes := after), clock.(charged := clock.charged + tick);
    forall id ensures ClockAt(q, clock2, id) {
      assert ClockAt(p, clock, id);
      if id in p.live {
        var i: nat :| i < |p.live| && p.live[i] == id;
        assert TickedAt(p.live, p.nodes, tick, after, i);
      }
    }
  }

  /** Called only if it is not deleted and its descriptor is ready, for reading before writing. */
  method ServeHandler(p: Pool<Io>, id: Id, readable: set<nat>, writable: set<nat>) returns (q: Pool<Io>)
    requires PoolOk(p) && FdsOk(p) && id in p.nodes
    ensures PoolOk(q) && FdsOk(q) && q.nodes == p.nodes && q.doomed == p.doomed
    ensures Served(p, id, readable, writable, q)
  {
    q := p;
    var io := p.nodes[id];
    LiveInRange(p, id);
    assert p.log + [] + [] == p.log;
    if id !in p.deleted && io.fd < FD_SETSIZE {
      if io.onRead && io.fd in readable {
        CallIoOk(p, id, Reading);
        q := Call(p, id, Reading);
      } else if io.onWrite && io.fd in writable {
        CallIoOk(p, id, Writing);
        q := Call(p, id, Writing);
      }
    }
  }

  method TickPool(p: Pool<Timer>, ghost clock: Clock, tick: nat) returns (q: Pool<Timer>, expired: seq<Entry>)
    requires PoolOk(p) && TimesOk(p) && ClockOk(p, clock)
    ensures PoolOk(q) && TimesOk(q) && ClockOk(q, clock.(charged := clock.charged + tick))
    ensures q.doomed == p.doomed && Ticked(p, tick, q, Firing(expired, 0, 0))
    ensures forall i :: 0 <= i < |expired| ==> expired[i].id in q.nodes
  {
    if tick == 0 {
      return p, [];
    }
    TimersKnown(p);
    var after;
    after, expired := TickAll(p.live, p.nodes, tick);
    TickedPool(p, tick, after, expired);
    ChargeKeeps(p, clock, tick, after);
    q := p.(nodes := after);
  }

  method Find(s: seq<Id>, id: Id) returns (k: int)
    ensures -1 <= k < |s| && (k >= 0 ==> s[k] == id) && (k < 0 <==> id !in s)
  {
    for i := 0 to |s|
      invariant id !in s[..i]
    {
      if s[i] == id {
        return i;
      }
    }
    return -1;
  }

  class Loop {
    var ios: Pool<Io>
    var timers: Pool<Timer>
    var phase: Phase
    var pending: seq<Job>
    /** History: jobs in the order they were posted, and in the order they ran. */
    ghost var posted: seq<Job>
    ghost var ran: seq<Job>
    ghost var clock: Clock

    ghost predicate Ok()
      reads this
    {
      && posted == ran + Active(phase) + pending
      && (phase.Destroyed? ==> AllFreed(ios) && AllFreed(timers))
      && (!phase.Destroyed? ==>
        && PoolOk(ios) && PoolOk(timers) && FdsOk(ios) && TimesOk(timers) && PhaseOk(phase, ios, timers)
        && ClockOk(timers, clock) && clock.reported == clock.charged + Held(phase))
    }

    constructor ()
      ensures Ok() && phase == Resting && clock == Clock(0, 0, map[])
      ensures ios == EmptyPool<Io>() && timers == EmptyPool<Timer>() && pending == posted == ran == []
    {
      ios, timers, phase, pending, posted, ran := EmptyPool(), EmptyPool(), Resting, [], [], [];
      clock := Clock(0, 0, map[]);
    }

    // -------------------------------------------------------------- requests

    /** A descriptor is registered once, for something, and within the range of select. */
    method RegisterIo(fd: int, onRead: bool, onWrite: bool) returns (ok: bool)
      requires Ok() && !phase.Destroyed?
      modifies this`ios
      ensures Ok()
      ensures ok <==> (0 <= fd < 1024 && (onRead || onWrite) && Unused(old(ios), fd))
      ensures ios == if ok then Add(old(ios), Io(fd, onRead, onWrite)) else old(ios)
    {
      if fd < 0 || fd >= FD_SETSIZE || (!onRead && !onWrite) {
        return false;
      }
      for i := 0 to |ios.live|
        invariant forall j :: 0 <= j < i ==> ios.nodes[ios.live[j]].fd != fd
      {
        if ios.nodes[ios.live[i]].fd == fd {
          return false;
        }
      }
      AddOk(ios, Io(fd, onRead, onWrite));
      AddFds(ios, Io(fd, onRead, onWrite));
      ios := Add(ios, Io(fd, onRead, onWrite));
      return true;
    }

    method UnregisterIo(id: Id)
      requires Ok() && !phase.Destroyed?
      modifies this`ios
      ensures Ok() && id !in ios.live
      ensures id !in old(ios).live ==> ios == old(ios)
      ensures id in old(ios).live ==>
        exists k: nat :: k < |old(ios).live| && old(ios).live[k] == id && ios == Bury(old(ios), k)
    {
      var k := Find(ios.live, id);
      if k >= 0 {
        BuryOk(ios, k);
        BuryFds(ios, k);
        ios := Bury(ios, k);
      }
    }

    method RegisterTimer(interval: nat) returns (ok: bool)
      requires Ok() && !phase.Destroyed?
      modifies this`timers, this`clock
      ensures Ok() && (ok <==> interval > 0)
      ensures timers == if ok then Add(old(timers), NewTimer(interval)) else old(timers)
      ensures clock == if ok then BirthOf(old(clock), old(timers).next) else old(clock)
    {
      if interval == 0 {
        return false;
      }
      AddOk(timers, NewTimer(interval));
      NewIsOnTime(interval);
      BirthKeeps(timers, clock, NewTimer(interval));
      clock := BirthOf(clock, timers.next);
      timers := Add(timers, NewTimer(interval));
      return true;
    }

    method UnregisterTimer(id: Id)
      requires Ok() && !phase.Destroyed?
      modifies this`timers
      ensures Ok() && id !in timers.live
      ensures id !in old(timers).live ==> timers == old(timers)
      ensures id in old(timers).live ==>
        exists k: nat :: k < |old(timers).live| && old(timers).live[k] == id && timers == Bury(old(timers), k)
    {
      var k := Find(timers.live, id);
      if k >= 0 {
        BuryOk(timers, k);
        BuryPlaces(timers, k);
        ClockFewer(timers, clock, Bury(timers, k));
        timers := Bury(timers, k);
      }
    }

    method AddPost(job: Job)
      requires Ok()
      modifies this`pending, this`posted
      ensures Ok() && pending == old(pending) + [job] && posted == old(posted) + [job]
    {
      pending := pending + [job];
      posted := posted + [job];
    }

    // -------------------------------------------------------------- the round

    /** The lists of the dead are detached. */
    method Begin()
      requires Ok() && phase.Resting?
      modifies this`ios, this`timers, this`phase
      ensures Ok() && phase == Freeing && ios == Detach(old(ios)) && timers == Detach(old(timers))
    {
      DetachOk(ios);
      DetachOk(timers);
      ClockFewer(timers, clock, Detach(timers));
      ios, timers, phase := Detach(ios), Detach(timers), Freeing;
    }

    /** One more node is freed. */
    method FreeOne()
      requires Ok() && phase.Freeing? && (ios.doomed != [] || timers.doomed != [])
      modifies this`ios, this`timers
      ensures Ok()
      ensures if old(ios).doomed != [] then ios == FreeFirst(old(ios)) && timers == old(timers)
        else ios == old(ios) && timers == FreeFirst(old(timers))
    {
      if ios.doomed != [] {
        FreeFirstOk(ios);
        FreePlaces(ios);
        ios := FreeFirst(ios);
      } else {
        FreeFirstOk(timers);
        FreePlaces(timers);
        ClockFewer(timers, clock, FreeFirst(timers));
        timers := FreeFirst(timers);
      }
    }

    /** The snapshot is the whole live list: its bound never drops a handler. */
    method Snapshot() returns (snap: seq<Id>)
      requires Ok() && !phase.Destroyed?
      ensures snap == ios.live
    {
      SnapshotFits(ios);
      snap := [];
      for i := 0 to |ios.live|
        invariant snap == ios.live[..i]
      {
        if |snap| < FD_SETSIZE {
          snap := snap + [ios.live[i]];
        }
      }
    }

    method Build()
      requires Ok() && phase.Freeing? && ios.doomed == [] && timers.doomed == []
      modifies this`phase, this`pending, this`clock
      ensures Ok() && clock == old(clock)
      ensures if ios.live == [] && timers.live == [] then phase == Posting(old(pending), 0) && pending == []
        else
          && phase.Selecting? && phase.snap == ios.live && pending == old(pending)
          && (phase.hasTimer <==> timers.live != [])
          && (phase.hasTimer ==> LeastTime(timers, phase.timeout)) && (!phase.hasTimer ==> phase.timeout == 50)
    {
      var snap := Snapshot();
      if snap == [] && timers.live == [] {
        TakePosts(0);
        return;
      }
      TimersKnown(timers);
      var next, sec, usec := NextTimeout(timers.live, timers.nodes);
      phase := Selecting(snap, timers.live != [], if timers.live != [] then sec * 1000 + usec / 1000 else 50);
    }

    /** The pending queue becomes the active one, and no less time is held than before. */
    method TakePosts(tick: nat)
      requires Ok() && !phase.Destroyed? && Active(phase) == [] && ios.doomed == [] && timers.doomed == []
      requires Held(phase) <= tick
      modifies this`phase, this`pending, this`clock
      ensures Ok() && phase == Posting(old(pending), tick) && pending == []
      ensures clock == old(clock).(reported := old(clock).reported + tick - Held(old(phase)))
    {
      clock := clock.(reported := clock.reported + tick - Held(phase));
      SameBirths(timers, old(clock), clock);
      phase, pending := Posting(pending, tick), [];
    }

    /** The handlers are served next. */
    method TakeReady(readable: set<nat>, writable: set<nat>, tick: nat)
      requires Ok() && phase.Selecting?
      modifies this`phase, this`clock
      ensures Ok() && clock == old(clock).(reported := old(clock).reported + tick)
      ensures phase == Serving(old(phase).snap, 0, readable, writable, tick)
    {
      clock := clock.(reported := clock.reported + tick);
      SameBirths(timers, old(clock), clock);
      phase := Serving(phase.snap, 0, readable, writable, tick);
    }

    /** The select returns. */
    method Select(outcome: Outcome)
      requires Ok() && phase.Selecting?
      modifies this`phase, this`pending, this`clock
      ensures Ok()
      ensures
        var tick := TickOf(outcome, old(phase).hasTimer);
        && clock == old(clock).(reported := old(clock).reported + tick)
        && phase == match outcome {
          case Ready(r, w, _) => Serving(old(phase).snap, 0, r, w, tick)
          case Failed => Resting
          case _ => Posting(old(pending), tick)
        }
      ensures outcome.Ready? ==> phase.tick == if old(phase).hasTimer then outcome.delta else 0
      ensures outcome.Interrupted? ==>
        phase == Posting(old(pending), if old(phase).hasTimer then outcome.delta else 0)
      ensures outcome.BadFd? ==>
        var delta := if outcome.delta == 0 then 1 else outcome.delta;
        phase == Posting(old(pending), if old(phase).hasTimer then delta else 0)
      ensures pending == if outcome.Interrupted? || outcome.BadFd? then [] else old(pending)
    {
      var timed := phase.hasTimer;
      match outcome {
        case Ready(r, w, delta) =>
          TakeReady(r, w, if timed then delta else 0);
        case Interrupted(delta) =>
          TakePosts(if timed then delta else 0);
        case BadFd(delta) =>
          TakePosts(if !timed then 0 else if delta < 1 then 1 else delta);
        case Failed =>
          phase := Resting;
      }
    }

    /** The next handler of the snapshot: called only if it is not deleted and its descriptor is ready. */
    method Serve()
      requires Ok() && phase.Serving?
      modifies this`phase, this`ios, this`pending, this`clock
      ensures Ok() && clock == old(clock)
      ensures
        var p, q := old(phase), old(ios);
        if p.i >= |p.snap| then phase == Posting(old(pending), p.tick) && ios == q
        else
          phase == p.(i := p.i + 1) && Served(q, p.snap[p.i], p.readable, p.writable, ios)
    {
      if phase.i >= |phase.snap| {
        TakePosts(phase.tick);
      } else {
        ServeOne();
      }
    }

    method ServeOne()
      requires Ok() && phase.Serving? && phase.i < |phase.snap|
      modifies this`phase, this`ios
      ensures Ok()
      ensures
        var p, q := old(phase), old(ios);
        phase == p.(i := p.i + 1) && Served(q, p.snap[p.i], p.readable, p.writable, ios)
    {
      var q := ServeHandler(ios, phase.snap[phase.i], phase.readable, phase.writable);
      NextTurn(q);
    }

    method NextTurn(q: Pool<Io>)
      requires Ok() && phase.Serving? && phase.i < |phase.snap|
      requires PoolOk(q) && FdsOk(q) && q.nodes == ios.nodes && q.doomed == ios.doomed
      modifies this`phase, this`ios
      ensures Ok() && phase == old(phase).(i := old(phase).i + 1) && ios == q
    {
      ios := q;
      phase := phase.(i := phase.i + 1);
    }

    /** The next job of the active queue, or on to the timers with the time that is held. */
    method RunPosts()
      requires Ok() && phase.Posting?
      modifies this`phase, this`timers, this`ran, this`clock
      ensures Ok()
      ensures old(phase).active != [] ==>
        && ran == old(ran) + [old(phase).active[0]] && phase == old(phase).(active := old(phase).active[1..])
        && timers == old(timers) && clock == old(clock)
      ensures old(phase).active == [] ==>
        && ran == old(ran) && clock == old(clock).(charged := old(clock).charged + old(phase).tick)
        && Ticked(old(timers), old(phase).tick, timers, phase)
    {
      if phase.active != [] {
        ran := ran + [phase.active[0]];
        phase := phase.(active := phase.active[1..]);
      } else {
        TickTimers(phase.tick);
      }
    }

    /** The locked part of the timer phase. */
    method TickTimers(tick: nat)
      requires Ok() && phase.Posting? && phase.active == [] && tick == phase.tick
      modifies this`phase, this`timers, this`clock
      ensures Ok() && Ticked(old(timers), tick, timers, phase)
      ensures clock == old(clock).(charged := old(clock).charged + tick)
    {
      var after, expired := TickPool(timers, clock, tick);
      Charge(after, expired);
    }

    /** The timers after the tick, and the ones to be called. */
    method Charge(after: Pool<Timer>, expired: seq<Entry>)
      requires Ok() && phase.Posting? && phase.active == [] && after.doomed == []
      requires PoolOk(after) && TimesOk(after) && ClockOk(after, clock.(charged := clock.charged + phase.tick))
      requires forall i :: 0 <= i < |expired| ==> expired[i].id in after.nodes
      modifies this`phase, this`timers, this`clock
      ensures Ok() && timers == after && phase == Firing(expired, 0, 0)
      ensures clock == old(clock).(charged := old(clock).charged + old(phase).tick)
    {
      clock := clock.(charged := clock.charged + phase.tick);
      timers, phase := after, Firing(expired, 0, 0);
    }

    /** The next call of an expired timer, unless it was unregistered meanwhile. */
    method Fire()
      requires Ok() && phase.Firing?
      modifies this`phase, this`timers
      ensures Ok()
      ensures
        var p, q := old(phase), old(timers);
        if p.at >= |p.expired| then phase == Resting && timers == q
        else
          var e := p.expired[p.at];
          if e.id in q.live && p.k < e.times
          then timers == q.(log := q.log + [Called(e.id, Ticking)]) && phase == p.(k := p.k + 1)
          else timers == q && phase == p.(at := p.at + 1, k := 0)
    {
      if phase.at >= |phase.expired| {
        phase := Resting;
        return;
      }
      var e := phase.expired[phase.at];
      if e.id in timers.deleted || phase.k >= e.times {
        phase := phase.(at := phase.at + 1, k := 0);
      } else {
        CallOk(timers, e.id, Ticking);
        ClockFewer(timers, clock, Call(timers, e.id, Ticking));
        timers := Call(timers, e.id, Ticking);
        phase := phase.(k := phase.k + 1);
      }
    }

    /** Only between rounds: all memory goes back. */
    method Destroy()
      requires Ok() && phase.Resting?
      modifies this`phase, this`ios, this`timers
      ensures Ok() && phase == Destroyed && AllFreed(ios) && AllFreed(timers)
      ensures ios.next == old(ios).next && timers.next == old(timers).next
    {
      CondemnOk(ios);
      CondemnOk(timers);
      ios, timers, phase := FreeAll(Condemn(ios)), FreeAll(Condemn(timers)), Destroyed;
    }

    method Perform(r: Request)
      requires Ok() && !phase.Destroyed?
      modifies this
      ensures Ok() && phase == old(phase)
      ensures clock.(births := old(clock).births) == old(clock)
      ensures OnlyRequests(old(ios), ios)
    {
      match r {
        case RegisterIo(fd, onRead, onWrite) =>
          var _ := RegisterIo(fd, onRead, onWrite);
        case UnregisterIo(id) =>
          UnregisterIo(id);
        case RegisterTimer(interval) =>
          var _ := RegisterTimer(interval);
        case UnregisterTimer(id) =>
          UnregisterTimer(id);
        case Post(job) =>
          AddPost(job);
      }
    }

    method Step(outcome: Outcome)
      requires Ok() && !phase.Destroyed?
      modifies this
      ensures Ok() && !phase.Destroyed?
      ensures clock == AfterStep(old(clock), old(phase), outcome)
    {
      match phase {
        case Resting =>
          Begin();
        case Freeing =>
          if ios.doomed != [] || timers.doomed != [] {
            FreeOne();
          } else {
            Build();
          }
        case Selecting(_, _, _) =>
          Select(outcome);
        case Serving(_, _, _, _, _) =>
          StepCallbacks(outcome);
        case Posting(_, _) =>
          StepCallbacks(outcome);
        case Firing(_, _, _) =>
          StepCallbacks(outcome);
      }
    }

    method StepCallbacks(ghost outcome: Outcome)
      requires Ok() && (phase.Serving? || phase.Posting? || phase.Firing?)
      modifies this
      ensures Ok() && !phase.Destroyed?
      ensures clock == AfterStep(old(clock), old(phase), outcome)
    {
      match phase {
        case Serving(_, _, _, _, _) =>
          Serve();
        case Posting(_, _) =>
          RunPosts();
        case Firing(_, _, _) =>
          Fire();
      }
    }
  }

  /** Every interleaving of the loop's steps with requests from callbacks and other threads. */
  method Run(actions: seq<Action>) returns (loop: Loop)
    ensures fresh(loop) && loop.Ok()
  {
    loop := new Loop();
    for k := 0 to |actions|
      invariant fresh(loop) && loop.Ok()
    {
      if !loop.phase.Destroyed? {
        match actions[k] {
          case Advance(outcome) =>
            loop.Step(outcome);
          case Ask(request) =>
            loop.Perform(request);
          case Destroy =>
            if loop.phase.Resting? {
              loop.Destroy();
            }
        }
      }
    }
  }

  function FirstTimer(): Pool<Timer> {
    Detach(Add(EmptyPool<Timer>(), NewTimer(1000)))
  }

  function TwoTimers(): Pool<Timer> {
    Add(FirstTimer(), NewTimer(20))
  }

  /** A loop with one timer of a second. */
  method BeforeSelect() returns (loop: Loop)
    ensures fresh(loop) && loop.Ok() && loop.pending == [] && loop.timers == FirstTimer()
    ensures loop.phase.Selecting? && loop.phase.snap == [] && loop.phase.hasTimer
    ensures loop.clock == Clock(0, 0, map[0 := Birth(0, 0)])
  {
    loop := new Loop();
    var _ := loop.RegisterTimer(1000);
    loop.Begin();
    loop.Build();
  }

  /** Its select comes back after 30 ms. */
  method AfterSelect() returns (loop: Loop)
    ensures fresh(loop) && loop.Ok() && loop.phase == Serving([], 0, {}, {}, 30) && loop.pending == []
    ensures loop.clock == Clock(30, 0, map[0 := Birth(0, 0)]) && loop.timers == FirstTimer()
  {
    loop := BeforeSelect();
    loop.Select(Ready({}, {}, 30));
  }

  /** Another timer is registered while handlers are served. */
  method LateTimer() returns (loop: Loop)
    ensures fresh(loop) && loop.Ok() && loop.phase == Posting([], 30)
    ensures loop.clock == Clock(30, 0, map[0 := Birth(0, 0), 1 := Birth(30, 0)]) && loop.timers == TwoTimers()
  {
    loop := AfterSelect();
    var _ := loop.RegisterTimer(20);
    loop.Serve();
  }

  /**
   * A timer registered by an IO callback is charged what select waited before: after 30 ms with one
   * timer of a second, a new timer of 20 ms is called in the same round.
   */
  method EarlyCall() returns (loop: Loop)
    ensures fresh(loop) && loop.Ok() && loop.phase == Firing([Entry(1, 1)], 0, 0)
    ensures loop.clock == Clock(30, 30, map[0 := Birth(0, 0), 1 := Birth(30, 0)])
  {
    loop := LateTimer();
    loop.RunPosts();
    EarlyEntries(TwoTimers(), loop.timers, loop.phase);
  }

  lemma EarlyEntries(p: Pool<Timer>, q: Pool<Timer>, phase: Phase)
    requires p == TwoTimers() && Ticked(p, 30, q, phase)
    ensures phase == Firing([Entry(1, 1)], 0, 0)
  {
    assert p.live == [1, 0] && p.nodes == map[0 := NewTimer(1000), 1 := NewTimer(20)];
    assert p.live[..1] == [1] && [1][..0] == [];
    assert Expiring([1], p.nodes, 30) == [Entry(1, 1)];
  }

  /** Requests from callbacks and other threads, one after the other. */
  method PerformAll(loop: Loop, requests: seq<Request>)
    requires loop.Ok() && !loop.phase.Destroyed?
    modifies loop
    ensures loop.Ok() && loop.phase == old(loop.phase) && OnlyRequests(old(loop.ios), loop.ios)
  {
    for k := 0 to |requests|
      invariant loop.Ok() && loop.phase == old(loop.phase) && OnlyRequests(old(loop.ios), loop.ios)
    {
      loop.Perform(requests[k]);
    }
  }

  /** Requests, and then the turn of one handler. */
  method ServeTurn(loop: Loop, requests: seq<Request>) returns (ghost s: Service)
    requires loop.Ok() && loop.phase.Serving? && loop.phase.i < |loop.phase.snap|
    modifies loop
    ensures
      var p := old(loop.phase);
      && loop.Ok() && loop.phase == p.(i := p.i + 1) && loop.ios == s.after
      && OnlyRequests(old(loop.ios), s.before) && Served(s.before, p.snap[p.i], p.readable, p.writable, s.after)
  {
    PerformAll(loop, requests);
    ghost var before := loop.ios;
    loop.Serve();
    s := Service(before, loop.ios);
  }

  /** The handlers that had their turn were served as the select said. */
  ghost predicate AllServed(snap: seq<Id>, turns: seq<Service>, readable: set<nat>, writable: set<nat>) {
    |turns| <= |snap| &&
    forall i :: 0 <= i < |turns| ==> Served(turns[i].before, snap[i], readable, writable, turns[i].after)
  }

  /** So far these turns, from the handlers `p` to the handlers `q`. */
  ghost predicate ServedSoFar(
    p: Pool<Io>, snap: seq<Id>, turns: seq<Service>, readable: set<nat>, writable: set<nat>, q: Pool<Io>)
  {
    AllServed(snap, turns, readable, writable) && Chained(p, turns) && q == PoolAfter(p, turns)
  }

  lemma ServedNext(
    p: Pool<Io>, snap: seq<Id>, turns: seq<Service>, readable: set<nat>, writable: set<nat>, q: Pool<Io>, s: Service)
    requires ServedSoFar(p, snap, turns, readable, writable, q) && |turns| < |snap| && OnlyRequests(q, s.before)
    requires Served(s.before, snap[|turns|], readable, writable, s.after)
    ensures ServedSoFar(p, snap, turns + [s], readable, writable, s.after)
  {
    ChainedNext(p, turns, s);
  }

  method ServeAll(
    loop: Loop, ghost snap: seq<Id>, ghost readable: set<nat>, ghost writable: set<nat>, between: nat -> seq<Request>)
    returns (ghost turns: seq<Service>)
    requires loop.Ok() && loop.phase.Serving? && loop.phase.i == 0 && loop.phase.snap == snap
    requires loop.phase.readable == readable && loop.phase.writable == writable
    modifies loop
    ensures loop.Ok() && loop.phase.Serving? && loop.phase.i == |turns| == |loop.phase.snap| && loop.phase.snap == snap
    ensures ServedSoFar(old(loop.ios), snap, turns, readable, writable, loop.ios)
  {
    turns := [];
    while loop.phase.i < |loop.phase.snap|
      invariant loop.Ok() && loop.phase.Serving? && loop.phase.i == |turns| <= |snap| && loop.phase.snap == snap
      invariant loop.phase.readable == readable && loop.phase.writable == writable
      invariant ServedSoFar(old(loop.ios), snap, turns, readable, writable, loop.ios)
      decreases |snap| - |turns|
    {
      ghost var before := loop.ios;
      ghost var s := ServeTurn(loop, between(loop.phase.i));
      ServedNext(old(loop.ios), snap, turns, readable, writable, before, s);
      turns := turns + [s];
    }
  }

  /**
   * The whole phase after a select: every handler of the snapshot gets its turn, whatever is asked for
   * before each of them, and is called by what this select reported, as `Served` says.
   */
  method ServePhase(
    loop: Loop, readable: set<nat>, writable: set<nat>, delta: nat, between: nat -> seq<Request>)
    returns (ghost turns: seq<Service>)
    requires loop.Ok() && loop.phase.Selecting?
    modifies loop
    ensures loop.Ok() && loop.phase.Posting? && |turns| == |old(loop.phase).snap|
    ensures ServedSoFar(old(loop.ios), old(loop.phase).snap, turns, readable, writable, loop.ios)
  {
    loop.Select(Ready(readable, writable, delta));
    turns := ServeAll(loop, loop.phase.snap, readable, writable, between);
    loop.Serve();
  }

  // ---------------------------------------------------------------- what holds after every step

  /**
   * A handler that exists is in exactly one of the live list, the death lists and the freed memory;
   * only a live one is not marked; what the round still looks at is not freed.
   */
  lemma HandlerLifetime(loop: Loop, id: Id)
    requires loop.Ok() && !loop.phase.Destroyed? && id < loop.ios.next
    ensures
      var p := loop.ios;
      && (id in p.live || id in p.death || id in p.doomed || id in p.freed)
      && (id in p.nodes <==> id !in p.freed)
      && (id in p.live ==> id !in p.deleted && id !in p.death && id !in p.doomed && id !in p.freed)
      && (id in p.freed ==> (loop.phase.Serving? || loop.phase.Selecting? ==> id !in loop.phase.snap))
      && |p.live| == p.count <= FD_SETSIZE
  {
    Where(loop.ios, id);
    SnapshotFits(loop.ios);
    assert loop.phase.Serving? || loop.phase.Selecting? ==> forall x :: x in loop.phase.snap ==> x in loop.ios.nodes;
  }

  /** The same for a timer; the timers of this round are not freed under it, and a live one keeps its schedule. */
  lemma TimerLifetime(loop: Loop, id: Id)
    requires loop.Ok() && !loop.phase.Destroyed? && id < loop.timers.next
    ensures
      var p := loop.timers;
      && (id in p.live || id in p.death || id in p.doomed || id in p.freed)
      && (id in p.nodes <==> id !in p.freed)
      && (id in p.live ==> id !in p.deleted && id !in p.death && id !in p.doomed && id !in p.freed)
      && (loop.phase.Firing? ==> forall i :: 0 <= i < |loop.phase.expired| ==> loop.phase.expired[i].id !in p.freed)
      && |p.live| == p.count
    ensures
      id in loop.timers.nodes && Fits(loop.timers.nodes[id]) ==>
        var t := loop.timers.nodes[id];
        t.scheduled == t.elapsed / t.interval <==> t.lost < t.remaining
    ensures
      id in loop.timers.live ==>
        && id in loop.timers.nodes && id in loop.clock.births
        && loop.timers.nodes[id].elapsed == loop.clock.charged - loop.clock.births[id].charged
  {
    var p := loop.timers;
    Where(p, id);
    assert ClockAt(p, loop.clock, id);
    if loop.phase.Firing? {
      forall i | 0 <= i < |loop.phase.expired| ensures loop.phase.expired[i].id !in p.freed {
        assert loop.phase.expired[i].id in p.nodes;
      }
    }
    if id in p.nodes && Fits(p.nodes[id]) {
      NoDrift(p.nodes[id]);
    }
  }

  /**
   * What a live timer was charged once the timers have seen all that select reported: the time
   * reported since its registration, and on top of it what was held back at that moment. It is the
   * time since its registration exactly when nothing was held then.
   */
  lemma ChargedExactly(loop: Loop, id: Id)
    requires loop.Ok() && !loop.phase.Destroyed? && id in loop.timers.live && Held(loop.phase) == 0
    ensures id in loop.timers.nodes && id in loop.clock.births
    ensures
      var elapsed, birth := loop.timers.nodes[id].elapsed, loop.clock.births[id];
      && elapsed == loop.clock.reported - birth.reported + (birth.reported - birth.charged)
      && birth.charged <= birth.reported
      && (elapsed == loop.clock.reported - birth.reported <==> birth.charged == birth.reported)
  {
    assert ClockAt(loop.timers, loop.clock, id);
  }

  /**
   * In every reachable state, and after the loop was destroyed: nothing is called between the
   * unregistration of a node and its release, nothing at all happens to it after that, and it is
   * released and unregistered at most once.
   */
  lemma UncalledAfterUnregister(loop: Loop, timers: bool, i: nat, j: nat)
    requires loop.Ok()
    ensures
      var log := if timers then loop.timers.log else loop.ios.log;
      i < j < |log| && log[i].id == log[j].id ==>
        && (log[i].Unregistered? ==> !log[j].Called? && !log[j].Unregistered?)
        && !log[i].Freed?
  {
    assert OrderOk(loop.ios.log) && OrderOk(loop.timers.log);
  }

  /** The log says what happened to a node: marked is unregistered, and freed is released. */
  lemma LogTellsState(loop: Loop, id: Id)
    requires loop.Ok() && !loop.phase.Destroyed? && id < loop.ios.next
    ensures
      var p := loop.ios;
      && (Unregistered(id) in p.log <==> id in p.deleted) && (Freed(id) in p.log <==> id !in p.nodes)
      && (id in p.live <==> Unregistered(id) !in p.log && Freed(id) !in p.log)
  {
    Where(loop.ios, id);
  }

  lemma TimersKnown(p: Pool<Timer>)
    requires PoolOk(p)
    ensures Known(p.live, p.nodes) && NoRepeat(p.live)
  {
    forall i | 0 <= i < |p.live| ensures p.live[i] in p.nodes {
      Where(p, p.live[i]);
    }
    forall i, j | 0 <= i < j < |p.live| ensures p.live[i] != p.live[j] {
      var id := p.live[j];
      assert p.live == p.live[..j] + [id] + p.live[j + 1..];
      assert multiset(p.live)[id] == multiset(p.live[..j])[id] + 1 + multiset(p.live[j + 1..])[id];
      assert Places(p)[id] == 1;
      assert p.live[i] in p.live[..j];
    }
  }

  lemma TickedPool(p: Pool<Timer>, tick: nat, after: map<Id, Timer>, expired: seq<Entry>)
    requires PoolOk(p) && TimesOk(p) && Known(p.live, p.nodes)
    requires after.Keys == p.nodes.Keys && TickedTo(p.live, p.nodes, tick, after, |p.live|)
    requires expired == Cut(Expiring(p.live, p.nodes, tick), MAX_EXPIRED)
    ensures PoolOk(p.(nodes := after)) && TimesOk(p.(nodes := after))
    ensures forall i :: 0 <= i < |expired| ==> expired[i].id in after
  {
    var q := p.(nodes := after);
    assert Places(q) == Places(p);
    forall id | id in after ensures OnTime(after[id]) {
      if id in p.live {
        var i: nat :| i < |p.live| && p.live[i] == id;
        assert TickedAt(p.live, p.nodes, tick, after, i);
        TickKeepsTime(p.nodes[id], tick, |Expiring(p.live[..i], p.nodes, tick)| < MAX_EXPIRED);
      } else {
        assert id !in p.live[..|p.live|];
      }
    }
    ExpiringKnown(p.live, p.nodes, tick);
  }

  lemma {:induction false} ExpiringKnown(list: seq<Id>, timers: map<Id, Timer>, delta: nat)
    requires Known(list, timers)
    ensures forall i :: 0 <= i < |Expiring(list, timers, delta)| ==> Expiring(list, timers, delta)[i].id in timers
    decreases |list|
  {
    if list != [] {
      ExpiringKnown(list[..|list| - 1], timers, delta);
    }
  }

  lemma CallIoOk(p: Pool<Io>, id: Id, way: Way)
    requires PoolOk(p) && FdsOk(p) && id in p.nodes && id !in p.deleted
    ensures PoolOk(Call(p, id, way)) && FdsOk(Call(p, id, way)) && id in p.live
  {
    CallOk(p, id, way);
  }

  /** A live handler is not marked, and its descriptor is in range. */
  lemma LiveInRange(p: Pool<Io>, id: Id)
    requires PoolOk(p) && FdsOk(p) && id in p.nodes
    ensures (id in p.live <==> id !in p.deleted) && (id in p.live ==> p.nodes[id].fd < FD_SETSIZE)
  {
  }

  lemma BuryFds(p: Pool<Io>, k: nat)
    requires PoolOk(p) && FdsOk(p) && k < |p.live|
    ensures FdsOk(Bury(p, k)) && p.live[k] !in Bury(p, k).live && Bury(p, k).nodes == p.nodes
  {
    BuryPlaces(p, k);
  }

  lemma AddFds(p: Pool<Io>, v: Io)
    requires PoolOk(p) && FdsOk(p) && v.fd < FD_SETSIZE && Unused(p, v.fd)
    ensures FdsOk(Add(p, v))
  {
    var q := Add(p, v);
    assert forall i :: 0 <= i < |p.live| ==> p.live[i] != p.next;
    assert q.live[0] == p.next && forall i :: 1 <= i < |q.live| ==> q.live[i] == p.live[i - 1];
    assert forall i :: 1 <= i < |q.live| ==> q.nodes[q.live[i]] == p.nodes[p.live[i - 1]];
  }
}
