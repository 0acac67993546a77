/** The event loop's intrusive lists: live nodes with back pointers, and the chain of unregistered ones. */
module IntrusiveList {
  import opened Bytes

  class Node {
    var next: Node?
    /** The node whose `next` field points here; null stands for the head of the list. */
    var prev: Node?
    var deleted: bool

    constructor ()
      ensures !deleted
    {
      next, prev, deleted := null, null, false;
    }
  }

  /** The node at `i` points to its successor, and its successor back to it. */
  ghost predicate LinkedAt(nodes: seq<Node>, i: nat)
    reads nodes`next, nodes`prev
  {
    i < |nodes| ==>
      && nodes[i].next == (if i + 1 < |nodes| then nodes[i + 1] else null)
      && nodes[i].prev == (if i == 0 then null else nodes[i - 1])
  }

  ghost predicate NextAt(nodes: seq<Node>, i: nat)
    reads nodes`next
  {
    i < |nodes| ==> nodes[i].next == if i + 1 < |nodes| then nodes[i + 1] else null
  }

  ghost predicate Distinct(nodes: seq<Node>) {
    forall i, j :: 0 <= i < j < |nodes| ==> nodes[i] != nodes[j]
  }

  ghost function First(nodes: seq<Node>): Node? {
    if nodes == [] then null else nodes[0]
  }

  /** A singly linked chain: only `next` is meaningful. */
  ghost predicate Chain(nodes: seq<Node>)
    reads nodes`next
  {
    nodes != [] ==> nodes[0].next == First(nodes[1..]) && Chain(nodes[1..])
  }

  /** What a registry holds, whatever its nodes are: the value the event loop's state machine works on. */
  datatype Lists<T> = Lists(live: seq<T>, dead: seq<T>, freed: seq<T>)

  function Registered<T>(l: Lists<T>, x: T): Lists<T> {
    l.(live := [x] + l.live)
  }

  function Unregistered<T>(l: Lists<T>, k: nat): Lists<T>
    requires k < |l.live|
  {
    l.(live := Without(l.live, k), dead := [l.live[k]] + l.dead)
  }

  function Reaped<T>(l: Lists<T>): Lists<T> {
    l.(dead := [], freed := l.freed + l.dead)
  }

  /** One of the two registries of the loop, for IO handlers or for timers. */
  class Registry {
    var list: Node?
    var death: Node?
    var count: nat
    ghost var live: seq<Node>
    ghost var dead: seq<Node>
    /** History: what was given back to the allocator, in order. */
    ghost var freed: seq<Node>

    ghost predicate Live()
      reads this`list, this`live, this`count, live`next, live`prev, live`deleted
    {
      && list == First(live) && count == |live| && Distinct(live)
      && (forall i: nat :: LinkedAt(live, i))
      && (forall i :: 0 <= i < |live| ==> !live[i].deleted)
    }

    ghost predicate Dead()
      reads this`death, this`dead, dead`next, dead`deleted
    {
      && death == First(dead) && Distinct(dead) && Chain(dead)
      && (forall i :: 0 <= i < |dead| ==> dead[i].deleted)
    }

    ghost function Value(): Lists<Node>
      reads this
    {
      Lists(live, dead, freed)
    }

    /** Every node is in one of the live list, the death chain and the freed memory. */
    ghost predicate Apart()
      reads this`live, this`dead, this`freed
    {
      && (forall i :: 0 <= i < |live| ==> live[i] !in dead && live[i] !in freed)
      && (forall i :: 0 <= i < |dead| ==> dead[i] !in freed)
      && Distinct(freed)
    }

    ghost predicate Valid()
      reads this, live, dead
    {
      Live() && Dead() && Apart()
    }

    constructor ()
      ensures Valid() && live == [] && dead == [] && freed == []
    {
      list, death, count, live, dead, freed := null, null, 0, [], [], [];
    }

    /** Puts a node at the front of the live list. */
    method Add(n: Node)
      requires Live() && n !in live && !n.deleted
      modifies this`list, this`live, this`count, n`next, n`prev, live`prev
      ensures Live() && live == [n] + old(live)
    {
      n.next := list;
      if list != null {
        list.prev := n;
      }
      n.prev := null;
      list := n;
      count := count + 1;
      live := [n] + live;
      forall i: nat ensures LinkedAt(live, i) {
        if i > 0 {
          assert old(LinkedAt(live, i - 1));
        }
      }
    }

    /** Takes the node at `k` out of the live list by its two neighbours alone. */
    method Delete(n: Node, ghost k: nat)
      requires Live() && k < |live| && live[k] == n
      modifies this`list, this`live, this`count, live`next, live`prev
      ensures Live() && live == Without(old(live), k)
      ensures n.deleted == old(n.deleted) && n !in live
    {
      assert LinkedAt(live, k) && (k > 0 ==> LinkedAt(live, k - 1)) && LinkedAt(live, k + 1);
      if n.next != null {
        n.next.prev := n.prev;
      }
      if n.prev == null {
        list := n.next;
      } else {
        n.prev.next := n.next;
      }
      count := count - 1;
      live := Without(live, k);
      forall i: nat ensures LinkedAt(live, i) {
        if i < |live| {
          assert old(LinkedAt(live, i)) && old(LinkedAt(live, i + 1));
        }
      }
    }

    /** Walks the list for the handle; a handle that is not in it is left alone, whatever it is. */
    method Find(h: Node) returns (found: bool, ghost k: nat)
      requires Live()
      ensures found <==> h in live
      ensures found ==> k < |live| && live[k] == h
    {
      var p := list;
      k := 0;
      while p != null
        invariant 0 <= k <= |live| && p == (if k < |live| then live[k] else null)
        invariant forall i :: 0 <= i < k ==> live[i] != h
        decreases |live| - k
      {
        if p == h {
          return true, k;
        }
        assert LinkedAt(live, k);
        p := p.next;
        k := k + 1;
      }
      return false, k;
    }

    /** Marks the node, moves it to the death chain, and leaves its memory alone. */
    method Unregister(h: Node)
      requires Valid()
      modifies this, live
      ensures Valid() && h !in live
      ensures h !in old(live) ==> Value() == old(Value())
      ensures h in old(live) ==>
        h.deleted
        && exists k: nat :: k < |old(live)| && old(live)[k] == h && Value() == Unregistered(old(Value()), k)
    {
      var found, k := Find(h);
      if found {
        Delete(h, k);
        h.deleted := true;
        h.next := death;
        death := h;
        dead := [h] + dead;
      }
    }

    /** Registers a new node. */
    method Register() returns (n: Node)
      requires Valid()
      modifies this, live
      ensures Valid() && fresh(n) && Value() == Registered(old(Value()), n)
    {
      n := new Node();
      Add(n);
    }

    /** Gives a node back; it was not given back before. */
    ghost method Free(n: Node)
      requires n !in freed
      modifies this`freed
      ensures freed == old(freed) + [n]
    {
      freed := freed + [n];
    }

    /** Frees a chain, reading each link before its node goes. */
    method FreeChain(first: Node?, ghost nodes: seq<Node>)
      requires first == First(nodes) && Chain(nodes) && Distinct(nodes) && Distinct(freed)
      requires forall i :: 0 <= i < |nodes| ==> nodes[i] !in freed
      modifies this`freed
      ensures freed == old(freed) + nodes && Distinct(freed)
    {
      var p := first;
      ghost var rest := nodes;
      while p != null
        invariant p == First(rest) && Chain(rest) && Distinct(rest) && Distinct(freed)
        invariant forall i :: 0 <= i < |rest| ==> rest[i] !in freed
        invariant freed + rest == old(freed) + nodes
        decreases |rest|
      {
        var n := p.next;
        Free(p);
        assert freed + rest[1..] == old(freed) + nodes;
        p, rest := n, rest[1..];
      }
    }

    /** The start of a round: the chain is detached, then freed. */
    method FreeDeath()
      requires Valid()
      modifies this`death, this`dead, this`freed
      ensures Valid() && Value() == Reaped(old(Value()))
    {
      var p := death;
      ghost var nodes := dead;
      death, dead := null, [];
      FreeChain(p, nodes);
    }

    /** The end of the loop: every node that was not freed yet is freed now. */
    method Destroy()
      requires Valid()
      modifies this`freed
      ensures freed == old(freed) + old(live) + old(dead) && Distinct(freed)
    {
      forall i: nat ensures NextAt(live, i) {
        assert LinkedAt(live, i);
      }
      LiveIsChain(live);
      FreeChain(list, live);
      FreeChain(death, dead);
    }
  }

  lemma {:induction false} LiveIsChain(nodes: seq<Node>)
    requires forall i: nat :: NextAt(nodes, i)
    ensures Chain(nodes)
    decreases |nodes|
  {
    if nodes != [] {
      assert NextAt(nodes, 0);
      var rest := nodes[1..];
      forall i: nat ensures NextAt(rest, i) {
        assert NextAt(nodes, i + 1);
      }
      LiveIsChain(rest);
    }
  }
}
