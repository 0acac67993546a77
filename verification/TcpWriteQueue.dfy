/** The write side of a TCP connection: a linked queue of nodes with partial-send offsets and a delayed half-close. */
module TcpWriteQueue {
  import opened Bytes

  datatype State = IDLE | OPENING | OPEN

  /** What the socket answers to a send: it took some of the bytes, try again, or a fatal error. */
  datatype Answer = Took(n: nat) | Again | Fatal

  /** A send of `len` bytes takes at least one and at most all of them, and any number of them may be it. */
  function Taken(n: nat, len: nat): (w: nat)
    requires len > 0
    ensures 0 < w <= len && (0 < n <= len ==> w == n)
  {
    if n == 0 then 1 else if n > len then len else n
  }

  datatype Step = Finished | Stopped | Broke

  /**
   * The bytes accepted and sent, the half-closes sent and asked for, and whether one was already
   * pending when the epoch began.
   */
  datatype Epoch = Epoch(accepted: bytes, sent: bytes, fins: nat, asked: bool, stale: bool)

  function NewEpoch(pending: bool): Epoch {
    Epoch([], [], 0, false, pending)
  }

  /** Every byte accepted was sent or is queued, in order. */
  ghost predicate Conserved(e: Epoch, queue: seq<bytes>) {
    e.accepted == e.sent + Flatten(queue)
  }

  /** What an open connection keeps: conservation, and no half-close without a reason. */
  ghost predicate OpenOk(e: Epoch, queue: seq<bytes>, pending: bool) {
    Conserved(e, queue) && Reasons(e, pending) && (pending && !e.stale ==> queue != [])
  }

  /** A half-close was asked for in this epoch, or left over from the last one and then sent once. */
  ghost predicate Reasons(e: Epoch, pending: bool) {
    && (pending || e.fins > 0 ==> e.asked || e.stale)
    && (e.stale && !e.asked ==> e.fins == if pending then 0 else 1)
  }

  /**
   * A half-close that nobody asked for goes out at most once, and only in an epoch that began with
   * one pending; there it has gone out if and only if none is pending any more.
   */
  lemma UnaskedExactly(e: Epoch, queue: seq<bytes>, pending: bool)
    requires OpenOk(e, queue, pending) && !e.asked
    ensures e.fins > 0 <==> e.stale && !pending
    ensures e.fins <= 1
  {
  }

  /** One send for the first node: what it does to the queue and to the history. */
  ghost predicate Sent(q0: seq<bytes>, e0: Epoch, answer: Answer, step: Step, q: seq<bytes>, e: Epoch)
    requires q0 != [] && q0[0] != []
  {
    match answer
    case Took(n) =>
      var w := Taken(n, |q0[0]|);
      && e == e0.(sent := e0.sent + q0[0][..w])
      && (if w == |q0[0]| then step == Finished && q == q0[1..] else step == Stopped && q == q0[0 := q0[0][w..]])
    case Again => step == Stopped && e == e0 && q == q0
    case Fatal => step == Broke && e == e0 && q == q0[1..]
  }

  lemma AcceptConserves(e: Epoch, queue: seq<bytes>, data: bytes)
    requires Conserved(e, queue)
    ensures Conserved(e.(accepted := e.accepted + data), queue + [data])
  {
    FlattenNext(queue, data);
    assert e.accepted + data == e.sent + (Flatten(queue) + data);
  }

  /** What any number of sends leave alone, and that bytes only leave the front. */
  ghost predicate Progress(e0: Epoch, e: Epoch) {
    e == e0.(sent := e.sent) && e0.sent <= e.sent <= e.accepted
  }

  lemma ProgressTrans(e0: Epoch, e1: Epoch, e2: Epoch)
    requires Progress(e0, e1) && Progress(e1, e2)
    ensures Progress(e0, e2)
  {
  }

  /** No send loses, repeats or reorders a byte. */
  lemma SentConserves(q0: seq<bytes>, e0: Epoch, answer: Answer, step: Step, q: seq<bytes>, e: Epoch)
    requires q0 != [] && q0[0] != [] && Conserved(e0, q0) && Sent(q0, e0, answer, step, q, e)
    ensures Progress(e0, e) && (step != Broke ==> Conserved(e, q)) && (step == Broke <==> answer == Fatal)
  {
    if answer.Took? {
      var w := Taken(answer.n, |q0[0]|);
      var first, rest := q0[0], Flatten(q0[1..]);
      assert first == first[..w] + first[w..];
      assert e0.sent + (first + rest) == e0.sent + first[..w] + (first[w..] + rest);
      assert w < |first| ==> q[1..] == q0[1..];
      assert w == |first| ==> first[w..] + rest == rest;
    }
  }

  /** What a whole flush does: the queue left, the bytes sent, the socket answers used, and how it ended. */
  datatype Flushed = Flushed(queue: seq<bytes>, out: bytes, sends: nat, step: Step)

  /** Sends node by node from answer `k` on, until one is not taken whole. */
  function FlushFrom(socket: nat -> Answer, k: nat, q: seq<bytes>): Flushed
    decreases |q|
  {
    if q == [] || q[0] == [] then Flushed(q, [], k, Finished)
    else
      match socket(k)
      case Again => Flushed(q, [], k + 1, Stopped)
      case Fatal => Flushed(q[1..], [], k + 1, Broke)
      case Took(n) =>
        var w := Taken(n, |q[0]|);
        if w < |q[0]| then Flushed(q[0 := q[0][w..]], q[0][..w], k + 1, Stopped)
        else
          var f := FlushFrom(socket, k + 1, q[1..]);
          f.(out := q[0] + f.out)
  }

  ghost predicate AllUnsent(q: seq<bytes>) {
    forall i :: 0 <= i < |q| ==> q[i] != []
  }

  /**
   * A flush ends because the queue is empty, because the last answer took nothing or not all, or
   * because it was fatal; every answer before took a whole node.
   */
  lemma {:induction false} FlushEnds(socket: nat -> Answer, k: nat, q: seq<bytes>)
    requires AllUnsent(q)
    ensures
      var f := FlushFrom(socket, k, q);
      && k <= f.sends && (forall j :: k <= j < f.sends - 1 ==> socket(j).Took?)
      && (f.step == Finished ==> f.queue == [] && f.sends == k + |q|)
      && (f.step == Stopped ==> f.queue != [] && f.sends > k && socket(f.sends - 1) != Fatal)
      && (f.step == Broke <==> f.sends > k && socket(f.sends - 1) == Fatal)
    decreases |q|
  {
    if q != [] && socket(k).Took? {
      FlushEnds(socket, k + 1, q[1..]);
    }
  }

  /** What a flush that does not fail sent and what it left are the queue. */
  lemma {:induction false} FlushConserves(socket: nat -> Answer, k: nat, q: seq<bytes>)
    requires AllUnsent(q)
    ensures var f := FlushFrom(socket, k, q); f.step != Broke ==> Flatten(q) == f.out + Flatten(f.queue)
    decreases |q|
  {
    if q != [] && socket(k).Took? {
      var w := Taken(socket(k).n, |q[0]|);
      if w == |q[0]| {
        FlushConserves(socket, k + 1, q[1..]);
        var f := FlushFrom(socket, k + 1, q[1..]);
        assert f.step != Broke ==> q[0] + (f.out + Flatten(f.queue)) == q[0] + f.out + Flatten(f.queue);
      } else {
        assert FlushFrom(socket, k, q).queue[1..] == q[1..];
        assert q[0] + Flatten(q[1..]) == q[0][..w] + (q[0][w..] + Flatten(q[1..]));
      }
    }
  }

  lemma {:induction false} FlushShrinks(socket: nat -> Answer, k: nat, q: seq<bytes>)
    ensures q == [] ==> FlushFrom(socket, k, q).queue == []
  {
  }

  /** `f` and what was sent before it come to the same as `f0` and what was sent before that. */
  ghost predicate SameFlush(sent0: bytes, f0: Flushed, sent: bytes, f: Flushed) {
    f0.queue == f.queue && f0.sends == f.sends && f0.step == f.step && sent0 + f0.out == sent + f.out
  }

  /** The flush is over: nothing is left of it to do. */
  function Over(q: seq<bytes>, k: nat, step: Step): Flushed {
    Flushed(q, [], k, step)
  }

  /** One send is the first step of the flush. */
  lemma SentIsFlush(socket: nat -> Answer, k: nat, q0: seq<bytes>, e0: Epoch, step: Step, q: seq<bytes>, e: Epoch)
    requires q0 != [] && q0[0] != [] && Sent(q0, e0, socket(k), step, q, e)
    ensures
      var f := if step == Finished then FlushFrom(socket, k + 1, q) else Over(q, k + 1, step);
      SameFlush(e0.sent, FlushFrom(socket, k, q0), e.sent, f)
  {
    if step == Finished {
      Associate(e0.sent, q0[0], FlushFrom(socket, k + 1, q).out);
    }
  }

  /** What one round of the flush keeps, and what is left of the flush after it. */
  ghost predicate RoundOk(
    socket: nat -> Answer, k: nat, q0: seq<bytes>, e0: Epoch, step: Step, q: seq<bytes>, e: Epoch)
  {
    && Progress(e0, e) && (step != Broke ==> Conserved(e, q))
    && var f := if step == Finished then FlushFrom(socket, k + 1, q) else Over(q, k + 1, step);
       SameFlush(e0.sent, FlushFrom(socket, k, q0), e.sent, f)
  }

  lemma OneSend(socket: nat -> Answer, k: nat, q0: seq<bytes>, e0: Epoch, step: Step, q: seq<bytes>, e: Epoch)
    requires q0 != [] && q0[0] != [] && Conserved(e0, q0) && Sent(q0, e0, socket(k), step, q, e)
    ensures RoundOk(socket, k, q0, e0, step, q, e)
  {
    SentConserves(q0, e0, socket(k), step, q, e);
    SentIsFlush(socket, k, q0, e0, step, q, e);
  }

  class WriteNode {
    const data: bytes
    var offset: nat
    var next: WriteNode?

    constructor (data: bytes)
      ensures this.data == data && offset == 0 && next == null
    {
      this.data, offset, next := data, 0, null;
    }

    ghost function Rest(): bytes
      reads this`offset
    {
      if offset <= |data| then data[offset..] else []
    }
  }

  /** The nodes hold this queue: what each of them has left is not empty. */
  ghost predicate Holds(nodes: seq<WriteNode>, queue: seq<bytes>)
    reads nodes`offset
  {
    |nodes| == |queue| && forall i :: 0 <= i < |nodes| ==> nodes[i].Rest() == queue[i] != []
  }

  ghost predicate LinkAt(nodes: seq<WriteNode>, i: nat)
    reads nodes`next
  {
    i < |nodes| ==> nodes[i].next == if i + 1 < |nodes| then nodes[i + 1] else null
  }

  /** The nodes are all different, and each points to the one after it. */
  ghost predicate Chain(nodes: seq<WriteNode>)
    reads nodes`next
  {
    && (forall i, j :: 0 <= i < j < |nodes| ==> nodes[i] != nodes[j])
    && (forall i: nat :: LinkAt(nodes, i))
  }

  lemma ChainRest(nodes: seq<WriteNode>)
    requires Chain(nodes) && nodes != []
    ensures Chain(nodes[1..]) && nodes[0].next == if 1 < |nodes| then nodes[1] else null
  {
    assert LinkAt(nodes, 0);
    var rest := nodes[1..];
    forall i: nat ensures LinkAt(rest, i) {
      assert LinkAt(nodes, i + 1);
    }
  }

  class TcpConn {
    var state: State
    var head: WriteNode?
    var tail: WriteNode?
    var count: nat
    /** A half-close that waits for the queue to drain. */
    var pending: bool
    /** Whether on_write_ready is registered for the socket. */
    var writeInterest: bool
    /** The socket's answers, and how many were used. */
    const socket: nat -> Answer
    var sends: nat

    ghost var nodes: seq<WriteNode>
    /** Every node that was ever queued. */
    ghost var repr: set<WriteNode>
    /** What each node still has to send. */
    ghost var queue: seq<bytes>
    /** History of one epoch, from opening to closing. */
    ghost var epoch: Epoch

    ghost predicate Linked()
      reads this`count, this`head, this`tail, this`nodes, this`repr, nodes`next
    {
      && Chain(nodes) && count == |nodes| && (forall i :: 0 <= i < |nodes| ==> nodes[i] in repr)
      && (if nodes == [] then head == null && tail == null else head == nodes[0] && tail == nodes[|nodes| - 1])
    }

    ghost predicate Stored()
      reads this`count, this`head, this`tail, this`nodes, this`repr, this`queue, nodes`next, nodes`offset
    {
      Linked() && Holds(nodes, queue)
    }

    /** The outcome of the flush `f` that began when `before` had been sent. */
    ghost predicate Went(f: Flushed, before: bytes, ok: bool)
      reads this
    {
      sends == f.sends && epoch.sent == before + f.out && (ok <==> f.step != Broke) && (ok ==> queue == f.queue)
    }

    ghost predicate Valid()
      reads this, nodes
    {
      && Stored()
      && (state == OPEN ==> OpenOk(epoch, queue, pending) && (queue != [] ==> writeInterest))
      && (state != OPEN ==> queue == [] && epoch.sent <= epoch.accepted)
      && (state == OPENING ==> epoch == NewEpoch(pending))
    }

    constructor (socket: nat -> Answer)
      ensures Valid() && state == IDLE && repr == {} && !pending && this.socket == socket && sends == 0
    {
      this.socket, sends := socket, 0;
      state, head, tail, count, pending, writeInterest := IDLE, null, null, 0, false, false;
      nodes, repr, queue, epoch := [], {}, [], NewEpoch(false);
    }

    // -------------------------------------------------------------- the queue

    /** Appends a node to the list. */
    method Link(n: WriteNode)
      requires Linked() && n !in nodes && n.next == null
      modifies this`head, this`tail, this`count, this`nodes, this`repr, repr`next
      ensures Linked() && nodes == old(nodes) + [n] && repr == old(repr) + {n}
    {
      if tail != null {
        tail.next := n;
      } else {
        head := n;
      }
      tail := n;
      count := count + 1;
      nodes, repr := nodes + [n], repr + {n};
      forall i: nat ensures LinkAt(nodes, i) {
        assert old(LinkAt(nodes, i));
      }
    }

    method Enqueue(data: bytes)
      requires Stored() && data != []
      modifies this`head, this`tail, this`count, this`nodes, this`repr, this`queue, repr`next
      ensures Stored() && queue == old(queue) + [data] && fresh(repr - old(repr))
    {
      var n := new WriteNode(data);
      Link(n);
      queue := queue + [data];
    }

    /** Drops the first node. */
    method Unlink()
      requires Linked() && nodes != []
      modifies this`head, this`tail, this`count, this`nodes
      ensures Linked() && nodes == old(nodes)[1..]
    {
      ChainRest(nodes);
      head := head.next;
      if head == null {
        tail := null;
      }
      count := count - 1;
      nodes := nodes[1..];
    }

    method Drop()
      requires Linked() && nodes != [] && queue != [] && Holds(nodes[1..], queue[1..])
      modifies this`head, this`tail, this`count, this`nodes, this`queue
      ensures Stored() && nodes == old(nodes)[1..] && queue == old(queue)[1..]
    {
      Unlink();
      queue := queue[1..];
    }

    /** The socket took `w` bytes of the first node. */
    method Advance(w: nat)
      requires Stored() && nodes != [] && 0 < w <= |queue[0]|
      modifies this`epoch, head`offset
      ensures head.offset == old(head.offset) + w && head.Rest() == queue[0][w..]
      ensures Linked() && Holds(nodes[1..], queue[1..])
      ensures epoch == old(epoch).(sent := old(epoch).sent + queue[0][..w])
    {
      head.offset := head.offset + w;
      epoch := epoch.(sent := epoch.sent + queue[0][..w]);
    }

    ghost method Keep(w: nat)
      requires Linked() && nodes != [] && queue != [] && w < |queue[0]|
      requires head.Rest() == queue[0][w..] && Holds(nodes[1..], queue[1..])
      modifies this`queue
      ensures Stored() && queue == old(queue)[0 := old(queue)[0][w..]]
    {
      ghost var q := queue[0 := queue[0][w..]];
      forall i | 0 <= i < |nodes| ensures nodes[i].Rest() == q[i] != [] {
        assert i > 0 ==> nodes[i] == nodes[1..][i - 1] && q[i] == queue[1..][i - 1];
      }
      queue := q;
    }

    method FlushTook(n: nat) returns (step: Step)
      requires Stored() && nodes != []
      modifies this`head, this`tail, this`count, this`nodes, this`queue, this`epoch, head`offset
      ensures Stored()
      ensures nodes == if step == Stopped then old(nodes) else old(nodes)[1..]
      ensures Sent(old(queue), old(epoch), Took(n), step, queue, epoch)
    {
      var w := Taken(n, |head.data| - head.offset);
      Advance(w);
      if head.offset < |head.data| {
        Keep(w);
        return Stopped;
      }
      Drop();
      return Finished;
    }

    /** One round of the flush: the first node is done, the socket takes no more, or it failed. */
    method FlushOne() returns (step: Step)
      requires Stored() && nodes != []
      modifies this`head, this`tail, this`count, this`nodes, this`queue, this`sends, this`epoch, head`offset
      ensures Stored() && sends == old(sends) + 1
      ensures nodes == if step == Stopped then old(nodes) else old(nodes)[1..]
      ensures Sent(old(queue), old(epoch), socket(old(sends)), step, queue, epoch)
    {
      var answer := socket(sends);
      sends := sends + 1;
      match answer {
        case Took(n) =>
          step := FlushTook(n);
        case Again =>
          step := Stopped;
        case Fatal =>
          Drop();
          step := Broke;
      }
    }

    method Round() returns (step: Step)
      requires Stored() && nodes != [] && Conserved(epoch, queue)
      modifies this`head, this`tail, this`count, this`nodes, this`queue, this`sends, this`epoch, head`offset
      ensures Stored() && sends == old(sends) + 1
      ensures |nodes| == if step == Stopped then |old(nodes)| else |old(nodes)| - 1
      ensures RoundOk(socket, old(sends), old(queue), old(epoch), step, queue, epoch)
    {
      ghost var k, q, e := sends, queue, epoch;
      step := FlushOne();
      OneSend(socket, k, q, e, step, queue, epoch);
    }

    /** Sends until the queue is empty or the socket takes no more: 0, the nodes left, or -1. */
    method Flush() returns (r: int)
      requires Stored() && Conserved(epoch, queue)
      modifies this`head, this`tail, this`count, this`nodes, this`queue, this`sends, this`epoch, repr`offset
      ensures Stored() && Progress(old(epoch), epoch)
      ensures r >= 0 ==> Conserved(epoch, queue) && r == |queue|
      ensures
        var f := FlushFrom(socket, old(sends), old(queue));
        queue == f.queue && sends == f.sends && epoch.sent == old(epoch).sent + f.out && (r < 0 <==> f.step == Broke)
    {
      ghost var f0 := FlushFrom(socket, sends, queue);
      ghost var e0 := epoch;
      while head != null
        invariant Stored() && Conserved(epoch, queue) && Progress(e0, epoch)
        invariant SameFlush(e0.sent, f0, epoch.sent, FlushFrom(socket, sends, queue))
        decreases |nodes|
      {
        ghost var e := epoch;
        var step := Round();
        ProgressTrans(e0, e, epoch);
        if step != Finished {
          assert epoch.sent + [] == epoch.sent;
          return if step == Broke then -1 else count;
        }
      }
      assert epoch.sent + [] == epoch.sent;
      return 0;
    }

    // -------------------------------------------------------------- operations

    /** The half-close proper: only ever when every accepted byte was sent, and for a reason. */
    method ShutdownSocket()
      requires epoch.sent == epoch.accepted && (epoch.asked || epoch.stale)
      modifies this`epoch
      ensures epoch == old(epoch).(fins := old(epoch).fins + 1)
    {
      epoch := epoch.(fins := epoch.fins + 1);
    }

    /** The queue is dropped, and the connection is idle; a pending half-close stays. */
    method Teardown()
      requires epoch.sent <= epoch.accepted
      modifies this`head, this`tail, this`count, this`nodes, this`queue, this`state, this`writeInterest
      ensures Valid() && state == IDLE && queue == [] && nodes == []
    {
      head, tail, count, nodes, queue, state, writeInterest := null, null, 0, [], [], IDLE, false;
    }

    /** Write interest follows the queue. */
    method UpdateIo()
      requires Stored()
      modifies this`writeInterest
      ensures writeInterest <==> queue != []
    {
      writeInterest := head != null;
    }

    method MaybeShutdown()
      requires Stored() && Conserved(epoch, queue) && (pending ==> epoch.asked || epoch.stale)
      modifies this`pending, this`epoch
      ensures pending == (old(pending) && queue != [])
      ensures epoch == old(epoch).(fins := old(epoch).fins + if old(pending) && queue == [] then 1 else 0)
    {
      if pending && head == null {
        assert epoch.sent + [] == epoch.sent;
        pending := false;
        ShutdownSocket();
      }
    }

    method Accept(data: bytes)
      requires Stored() && Conserved(epoch, queue) && data != []
      modifies this`head, this`tail, this`count, this`nodes, this`repr, this`queue, this`epoch, repr`next
      ensures Stored() && Conserved(epoch, queue) && queue == old(queue) + [data]
      ensures epoch == old(epoch).(accepted := old(epoch).accepted + data)
      ensures fresh(repr - old(repr))
    {
      AcceptConserves(epoch, queue, data);
      Enqueue(data);
      epoch := epoch.(accepted := epoch.accepted + data);
    }

    /** The work of a write: queue, flush, then interest or the half-close. */
    method WriteOpen(data: bytes) returns (ok: bool)
      requires Valid() && state == OPEN && data != []
      modifies this, repr
      ensures Valid() && state == (if ok then OPEN else IDLE) && fresh(repr - old(repr))
      ensures epoch.accepted == old(epoch).accepted + data && old(epoch).sent <= epoch.sent
      ensures epoch.fins == old(epoch).fins + if ok && old(pending) && queue == [] then 1 else 0
      ensures pending == (old(pending) && (queue != [] || !ok))
      ensures epoch.asked == old(epoch).asked && epoch.stale == old(epoch).stale
      ensures Went(FlushFrom(socket, old(sends), old(queue) + [data]), old(epoch).sent, ok)
    {
      Accept(data);
      ok := FlushNow();
    }

    method FlushNow() returns (ok: bool)
      requires Stored() && state == OPEN && Conserved(epoch, queue)
      requires Reasons(epoch, pending)
      modifies this`head, this`tail, this`count, this`nodes, this`queue, this`sends, this`epoch, repr`offset
      modifies this`state, this`writeInterest, this`pending
      ensures Valid() && state == (if ok then OPEN else IDLE)
      ensures Progress(old(epoch).(fins := epoch.fins), epoch)
      ensures epoch.fins == old(epoch).fins + if ok && old(pending) && queue == [] then 1 else 0
      ensures pending == (old(pending) && (queue != [] || !ok))
      ensures Went(FlushFrom(socket, old(sends), old(queue)), old(epoch).sent, ok)
    {
      var r := Flush();
      if r < 0 {
        Teardown();
        return false;
      }
      Settle();
      return true;
    }

    method Settle()
      requires Stored() && state == OPEN && Conserved(epoch, queue)
      requires Reasons(epoch, pending)
      modifies this`writeInterest, this`pending, this`epoch
      ensures Valid() && pending == (old(pending) && queue != [])
      ensures epoch == old(epoch).(fins := old(epoch).fins + if old(pending) && queue == [] then 1 else 0)
    {
      if head != null {
        UpdateIo();
      } else {
        MaybeShutdown();
      }
    }

    /**
     * Data is accepted whole or not at all. The half-close goes out with the last byte exactly when one
     * was pending.
     */
    method Write(data: bytes) returns (ok: bool)
      requires Valid()
      modifies this, repr
      ensures Valid() && fresh(repr - old(repr))
      ensures ok ==> old(state) == OPEN
      ensures state == if old(state) == OPEN && !ok then IDLE else old(state)
      ensures old(state) != OPEN || data == [] ==> epoch == old(epoch) && queue == old(queue) && pending == old(pending)
      ensures old(state) == OPEN ==> epoch.accepted == old(epoch).accepted + data && old(epoch).sent <= epoch.sent
      ensures epoch.fins == old(epoch).fins + if ok && data != [] && old(pending) && queue == [] then 1 else 0
      ensures old(state) == OPEN ==> epoch.asked == old(epoch).asked && epoch.stale == old(epoch).stale
      ensures old(state) == OPEN && data != [] ==>
        && pending == (old(pending) && (queue != [] || !ok))
        && Went(FlushFrom(socket, old(sends), old(queue) + [data]), old(epoch).sent, ok)
    {
      if state != OPEN {
        return false;
      }
      if data == [] {
        assert epoch.accepted + data == epoch.accepted;
        return true;
      }
      ok := WriteOpen(data);
    }

    /** The socket is writable. */
    method OnWriteReady()
      requires Valid()
      modifies this, repr
      ensures Valid() && repr == old(repr)
      ensures old(state) != OPEN ==> state == old(state) && epoch == old(epoch) && pending == old(pending)
      ensures old(state) == OPEN ==> Progress(old(epoch).(fins := epoch.fins), epoch)
      ensures epoch.fins == old(epoch).fins + if state == OPEN && old(pending) && queue == [] then 1 else 0
      ensures state == OPEN ==> pending == (old(pending) && queue != [])
      ensures old(state) == OPEN ==> Went(FlushFrom(socket, old(sends), old(queue)), old(epoch).sent, state == OPEN)
    {
      if state != OPEN {
        return;
      }
      var ok := FlushReady();
    }

    method FlushReady() returns (ok: bool)
      requires Valid() && state == OPEN
      modifies this`head, this`tail, this`count, this`nodes, this`queue, this`sends, this`epoch, repr`offset
      modifies this`state, this`writeInterest, this`pending
      ensures Valid() && state == (if ok then OPEN else IDLE)
      ensures Progress(old(epoch).(fins := epoch.fins), epoch)
      ensures epoch.fins == old(epoch).fins + if ok && old(pending) && queue == [] then 1 else 0
      ensures pending == (old(pending) && (queue != [] || !ok))
      ensures Went(FlushFrom(socket, old(sends), old(queue)), old(epoch).sent, ok)
    {
      var r := Flush();
      if r < 0 {
        Teardown();
        return false;
      }
      FlushShrinks(socket, old(sends), old(queue));
      Drained();
      return true;
    }

    method Drained()
      requires Stored() && state == OPEN && Conserved(epoch, queue) && Reasons(epoch, pending)
      requires queue != [] ==> writeInterest
      modifies this`writeInterest, this`pending, this`epoch
      ensures Valid() && pending == (old(pending) && queue != [])
      ensures epoch == old(epoch).(fins := old(epoch).fins + if old(pending) && queue == [] then 1 else 0)
    {
      if head == null {
        MaybeShutdown();
        UpdateIo();
      }
    }

    /** Half-close for writing: at once if nothing is queued, else when the queue has drained. */
    method Shutdown() returns (ok: bool)
      requires Valid()
      modifies this`pending, this`epoch
      ensures Valid() && (ok <==> state == OPEN)
      ensures !ok ==> pending == old(pending) && epoch == old(epoch)
      ensures ok && queue == [] ==>
        pending == old(pending) && epoch == old(epoch).(asked := true, fins := old(epoch).fins + 1)
      ensures ok && queue != [] ==> pending && epoch == old(epoch).(asked := true)
    {
      if state != OPEN {
        return false;
      }
      epoch := epoch.(asked := true);
      if head != null {
        pending := true;
      } else {
        assert epoch.sent + [] == epoch.sent;
        ShutdownSocket();
      }
      return true;
    }

    /** Closing forgets the queue, but not that a half-close was pending. */
    method Close()
      requires Valid()
      modifies this
      ensures Valid() && state == IDLE && pending == old(pending) && epoch == old(epoch)
      ensures nodes == [] && repr == old(repr) && sends == old(sends)
    {
      Teardown();
    }

    /** A new epoch starts with whatever half-close the last one left. */
    method Open() returns (ok: bool)
      requires Valid()
      modifies this
      ensures Valid() && (ok <==> old(state) == IDLE) && pending == old(pending) && repr == old(repr)
      ensures sends == old(sends) && queue == old(queue)
      ensures ok ==> state == OPENING && epoch == NewEpoch(pending)
      ensures !ok ==> state == old(state) && epoch == old(epoch)
    {
      if state != IDLE {
        return false;
      }
      state, epoch := OPENING, NewEpoch(pending);
      return true;
    }

    method OnFirstReady()
      requires Valid()
      modifies this
      ensures Valid() && pending == old(pending) && epoch == old(epoch) && repr == old(repr)
      ensures sends == old(sends) && queue == old(queue)
      ensures state == if old(state) == OPENING then OPEN else old(state)
    {
      if state != OPENING {
        return;
      }
      state := OPEN;
      UpdateIo();
    }
  }

  // ---------------------------------------------------------------- whole runs

  datatype Event = Opens | Ready | Writes(data: bytes) | Writable | Halves | Closes

  /** Every run keeps the invariant, whatever the socket answers. */
  method Run(socket: nat -> Answer, events: seq<Event>) returns (t: TcpConn)
    ensures fresh(t) && fresh(t.repr) && t.Valid()
  {
    t := new TcpConn(socket);
    for k := 0 to |events|
      invariant fresh(t) && fresh(t.repr) && t.Valid()
    {
      match events[k] {
        case Opens =>
          var _ := t.Open();
        case Ready =>
          t.OnFirstReady();
        case Writes(data) =>
          var _ := t.Write(data);
        case Writable =>
          t.OnWriteReady();
        case Halves =>
          var _ := t.Shutdown();
        case Closes =>
          t.Close();
      }
    }
  }

  lemma OneNode(socket: nat -> Answer, k: nat, b: byte)
    ensures socket(k) == Again ==> FlushFrom(socket, k, [[b]]) == Flushed([[b]], [], k + 1, Stopped)
    ensures socket(k) == Took(1) ==> FlushFrom(socket, k, [[b]]) == Flushed([], [b], k + 1, Finished)
  {
    assert [[b]][1..] == [] && [b] + [] == [b];
  }

  method Establish(t: TcpConn)
    requires t.Valid() && t.state == IDLE
    modifies t
    ensures t.Valid() && t.state == OPEN && t.queue == [] && t.epoch == NewEpoch(t.pending)
    ensures t.pending == old(t.pending) && t.sends == old(t.sends) && t.repr == old(t.repr)
  {
    var ok := t.Open();
    t.OnFirstReady();
  }

  /** One byte written to a connection with nothing queued. */
  method WriteByte(t: TcpConn, b: byte)
    requires t.Valid() && t.state == OPEN && t.queue == [] && t.socket(t.sends) in {Again, Took(1)}
    modifies t, t.repr
    ensures t.Valid() && t.state == OPEN && fresh(t.repr - old(t.repr)) && t.sends == old(t.sends) + 1
    ensures t.queue == if t.socket(old(t.sends)) == Again then [[b]] else []
    ensures t.pending == (old(t.pending) && t.queue != [])
    ensures t.epoch.fins == old(t.epoch.fins) + if old(t.pending) && t.queue == [] then 1 else 0
    ensures t.epoch.sent == old(t.epoch.sent) + if t.queue == [] then [b] else []
    ensures t.epoch.asked == old(t.epoch.asked)
  {
    assert t.queue + [[b]] == [[b]];
    OneNode(t.socket, t.sends, b);
    var ok := t.WriteOpen([b]);
  }

  /** A byte that the socket does not take. */
  method LeaveByte(socket: nat -> Answer) returns (t: TcpConn)
    requires socket(0) == Again
    ensures fresh(t) && fresh(t.repr) && t.Valid() && t.state == OPEN && t.queue == [[0]] && !t.pending
    ensures t.socket == socket && t.sends == 1
  {
    t := new TcpConn(socket);
    Establish(t);
    WriteByte(t, 0);
  }

  /** A half-close behind it, and the connection is closed. */
  method LeavePending(socket: nat -> Answer) returns (t: TcpConn)
    requires socket(0) == Again
    ensures fresh(t) && fresh(t.repr) && t.Valid() && t.state == IDLE && t.pending
    ensures t.socket == socket && t.sends == 1
  {
    t := LeaveByte(socket);
    var ok := t.Shutdown();
    t.Close();
  }

  /**
   * The half-close of one connection reaches the next one: the first byte written on the reopened
   * connection is followed by a FIN that nobody asked for.
   */
  method UnaskedHalfClose() returns (t: TcpConn)
    ensures fresh(t) && t.Valid() && t.state == OPEN && t.epoch.sent == [1]
    ensures !t.epoch.asked && t.epoch.fins == 1
  {
    var socket := k => if k == 0 then Again else Took(1);
    t := LeavePending(socket);
    Establish(t);
    WriteByte(t, 1);
  }
}
