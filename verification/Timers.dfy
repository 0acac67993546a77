/** Interval timers that catch up: what one tick does to a timer, and what that adds up to. */
module Timers {

  const MAX_FIRE := 100
  const MAX_EXPIRED := 32
  const INT_MAX := 0x7FFF_FFFF
  const UINT_MAX := 0xFFFF_FFFF

  type Id = nat

  /**
   * `elapsed`, `scheduled` and `lost` are history: the time that passed, the calls scheduled, and how
   * much of the schedule was given up because too many timers expired at once.
   */
  datatype Timer = Timer(interval: nat, remaining: int, elapsed: nat, scheduled: nat, lost: nat)

  /** The conversion of an unsigned interval to int. */
  function ToInt(u: nat): int {
    if u <= INT_MAX then u else u - (UINT_MAX + 1)
  }

  /** It is the number of 32 bits with a sign that differs by a multiple of 2^32, and no other is. */
  lemma ToIntExactly(u: nat, i: int)
    requires u < 0x1_0000_0000
    ensures i == ToInt(u) <==> -0x8000_0000 <= i < 0x8000_0000 && (u - i) % 0x1_0000_0000 == 0
  {
    if -0x8000_0000 <= i < 0x8000_0000 && (u - i) % 0x1_0000_0000 == 0 {
      var k := (u - i) / 0x1_0000_0000;
      assert u - i == k * 0x1_0000_0000 && 0 <= k <= 1;
    }
  }

  function NewTimer(interval: nat): Timer {
    Timer(interval, ToInt(interval), 0, 0, 0)
  }

  predicate Fits(t: Timer) {
    0 < t.interval <= INT_MAX
  }

  /** How often a timer with `r` left must fire to have time left again, up to the bound. */
  function FireCount(r: int, interval: int): (k: nat)
    ensures k <= MAX_FIRE && (k == 0 <==> r > 0)
  {
    if r > 0 then 0
    else if interval <= 0 || -r / interval + 1 > MAX_FIRE then MAX_FIRE
    else -r / interval + 1
  }

  lemma Quotient(a: nat, b: nat, k: nat)
    requires b > 0
    ensures k * b <= a <==> k <= a / b
  {
    var q := a / b;
    if k <= q {
      assert k * b <= q * b;
    } else {
      assert k * b >= (q + 1) * b;
    }
  }

  /** The catch-up loop. */
  method CatchUp(r: int, interval: int) returns (fires: nat, left: int)
    ensures fires == FireCount(r, interval) && left == r + fires * interval
  {
    fires, left := 0, r;
    while left <= 0 && fires < MAX_FIRE
      invariant 0 <= fires <= FireCount(r, interval) && left == r + fires * interval
      invariant left <= 0 && r <= 0 && interval > 0 ==> fires * interval <= -r
      decreases MAX_FIRE - fires
    {
      if interval > 0 {
        Quotient(-r, interval, fires);
      }
      fires := fires + 1;
      left := left + interval;
    }
    if r <= 0 && interval > 0 && left > 0 {
      Quotient(-r, interval, fires);
    }
  }

  /** One tick of `delta` milliseconds; `room` says that the timer still fits in the round. */
  function Tick(t: Timer, delta: nat, room: bool): Timer {
    var r := t.remaining - delta;
    var k := FireCount(r, ToInt(t.interval));
    if k > 0 && !room then t.(remaining := 1, elapsed := t.elapsed + delta, lost := t.lost + 1 - r)
    else t.(remaining := r + k * ToInt(t.interval), elapsed := t.elapsed + delta, scheduled := t.scheduled + k)
  }

  /** The time that passed is the time scheduled, the time used of the current interval, and what was lost. */
  ghost predicate OnTime(t: Timer) {
    Fits(t) ==>
      && t.elapsed == t.scheduled * t.interval + (t.interval - t.remaining) + t.lost
      && t.remaining <= t.interval
  }

  lemma NewIsOnTime(interval: nat)
    ensures OnTime(NewTimer(interval))
  {
  }

  lemma TickKeepsTime(t: Timer, delta: nat, room: bool)
    requires OnTime(t)
    ensures OnTime(Tick(t, delta, room))
  {
    var r := t.remaining - delta;
    var i := t.interval;
    if Fits(t) {
      var k := FireCount(r, i);
      assert (t.scheduled + k) * i == t.scheduled * i + k * i;
      if k > 0 {
        Quotient(-r, i, k - 1);
        assert (k - 1) * i == k * i - i;
      }
    }
  }

  /** A tick with room, or of a timer that is not due, loses nothing; any other loses what it is overdue and 1 ms. */
  lemma LostExactly(t: Timer, delta: nat, room: bool)
    ensures
      var overdue := delta - t.remaining;
      Tick(t, delta, room).lost == t.lost + if overdue >= 0 && !room then 1 + overdue else 0
  {
  }

  /**
   * A timer is never ahead: the calls scheduled are at most as many as its interval fits in the time
   * that passed. They are exactly as many if and only if it lost less than it has left; for a timer
   * that lost nothing that is, if and only if it has time left.
   */
  lemma NoDrift(t: Timer)
    requires OnTime(t) && Fits(t)
    ensures t.scheduled <= t.elapsed / t.interval
    ensures t.scheduled == t.elapsed / t.interval <==> t.lost < t.remaining
  {
    Quotient(t.elapsed, t.interval, t.scheduled);
    Quotient(t.elapsed, t.interval, t.scheduled + 1);
    assert (t.scheduled + 1) * t.interval == t.scheduled * t.interval + t.interval;
  }

  /** A tick leaves time, at most one interval, exactly when the bound on one round suffices. */
  lemma TickLeavesTime(t: Timer, delta: nat)
    requires Fits(t) && t.remaining <= t.interval
    ensures
      var r := t.remaining - delta;
      0 < Tick(t, delta, true).remaining <= t.interval <==> r > 0 || -r / t.interval + 1 <= 100
  {
    var r := t.remaining - delta;
    var k := FireCount(r, t.interval);
    if r <= 0 {
      Quotient(-r, t.interval, k);
      Quotient(-r, t.interval, k - 1);
      assert (k - 1) * t.interval == k * t.interval - t.interval;
    }
  }

  /** One round of a timer: the time that passed, and whether it was among the first that expired. */
  datatype Turn = Turn(delta: nat, room: bool)

  function Ticks(t: Timer, turns: seq<Turn>): Timer
    decreases |turns|
  {
    if turns == [] then t
    else Tick(Ticks(t, turns[..|turns| - 1]), turns[|turns| - 1].delta, turns[|turns| - 1].room)
  }

  function Sum(turns: seq<Turn>): nat
    decreases |turns|
  {
    if turns == [] then 0 else Sum(turns[..|turns| - 1]) + turns[|turns| - 1].delta
  }

  /**
   * A timer that lived through any rounds was scheduled floor(sum / interval) times if and only if it
   * lost less than it has left; with room in every round it lost nothing.
   */
  lemma {:induction false} TicksNeverDrift(interval: nat, turns: seq<Turn>)
    requires 0 < interval <= INT_MAX
    ensures
      var t := Ticks(NewTimer(interval), turns);
      && OnTime(t) && Fits(t) && t.interval == interval && t.elapsed == Sum(turns)
      && (t.scheduled == Sum(turns) / interval <==> t.lost < t.remaining)
      && ((forall k :: 0 <= k < |turns| ==> turns[k].room) ==> t.lost == 0)
    decreases |turns|
  {
    var t := Ticks(NewTimer(interval), turns);
    if turns != [] {
      var before, last := turns[..|turns| - 1], turns[|turns| - 1];
      TicksNeverDrift(interval, before);
      TickKeepsTime(Ticks(NewTimer(interval), before), last.delta, last.room);
    }
    NoDrift(t);
  }

  // ---------------------------------------------------------------- all timers of a round

  datatype Entry = Entry(id: Id, times: nat)

  function Fires(t: Timer, delta: nat): nat {
    FireCount(t.remaining - delta, ToInt(t.interval))
  }

  /** The timers that expire, in list order. */
  function Expiring(list: seq<Id>, timers: map<Id, Timer>, delta: nat): seq<Entry>
    requires Known(list, timers)
    decreases |list|
  {
    if list == [] then []
    else
      var id := list[|list| - 1];
      Expiring(list[..|list| - 1], timers, delta) +
      if Fires(timers[id], delta) > 0 then [Entry(id, Fires(timers[id], delta))] else []
  }

  function Cut<T>(s: seq<T>, n: nat): seq<T> {
    if |s| <= n then s else s[..n]
  }

  predicate Known(list: seq<Id>, timers: map<Id, Timer>) {
    forall i :: 0 <= i < |list| ==> list[i] in timers
  }

  /** The timer at `i` has ticked, with room if fewer than the bound expired before it. */
  ghost predicate TickedAt(list: seq<Id>, timers: map<Id, Timer>, delta: nat, after: map<Id, Timer>, i: nat)
    requires Known(list, timers)
  {
    i < |list| ==>
      list[i] in after &&
      after[list[i]] == Tick(timers[list[i]], delta, |Expiring(list[..i], timers, delta)| < MAX_EXPIRED)
  }

  lemma ExpiringNext(list: seq<Id>, timers: map<Id, Timer>, delta: nat, k: nat)
    requires Known(list, timers) && k < |list|
    ensures
      var n := Fires(timers[list[k]], delta);
      Expiring(list[..k + 1], timers, delta)
        == Expiring(list[..k], timers, delta) + if n > 0 then [Entry(list[k], n)] else []
  {
    assert list[..k + 1][..k] == list[..k];
  }

  predicate NoRepeat(list: seq<Id>) {
    forall i, j :: 0 <= i < j < |list| ==> list[i] != list[j]
  }

  /** The first `k` timers of the list have ticked, and no other has changed. */
  ghost predicate TickedTo(list: seq<Id>, timers: map<Id, Timer>, delta: nat, after: map<Id, Timer>, k: nat)
    requires Known(list, timers) && k <= |list|
  {
    && (forall i: nat | i < k :: TickedAt(list, timers, delta, after, i))
    && (forall id :: id in timers && id !in list[..k] ==> id in after && after[id] == timers[id])
  }

  lemma TickedNext(list: seq<Id>, timers: map<Id, Timer>, delta: nat, after: map<Id, Timer>, k: nat, t: Timer)
    requires Known(list, timers) && NoRepeat(list) && k < |list| && TickedTo(list, timers, delta, after, k)
    requires t == Tick(timers[list[k]], delta, |Expiring(list[..k], timers, delta)| < MAX_EXPIRED)
    ensures TickedTo(list, timers, delta, after[list[k] := t], k + 1)
  {
    var after2 := after[list[k] := t];
    forall i: nat | i < k + 1 ensures TickedAt(list, timers, delta, after2, i) {
      assert i < k ==> TickedAt(list, timers, delta, after, i);
    }
    forall id | id in timers && id !in list[..k + 1] ensures id in after2 && after2[id] == timers[id] {
      assert list[k] in list[..k + 1];
      assert forall x :: x in list[..k] ==> x in list[..k + 1];
    }
  }

  method TickOne(t: Timer, delta: nat, room: bool) returns (after: Timer, fires: nat)
    ensures after == Tick(t, delta, room) && fires == Fires(t, delta)
  {
    var left;
    fires, left := CatchUp(t.remaining - delta, ToInt(t.interval));
    if fires > 0 && !room {
      after := t.(remaining := 1, elapsed := t.elapsed + delta, lost := t.lost + 1 + delta - t.remaining);
    } else {
      after := t.(remaining := left, elapsed := t.elapsed + delta, scheduled := t.scheduled + fires);
    }
  }

  /** The locked part of the timer phase: every timer ticks, and the first expired ones are collected. */
  method TickAll(list: seq<Id>, timers: map<Id, Timer>, delta: nat) returns (after: map<Id, Timer>, expired: seq<Entry>)
    requires Known(list, timers)
    requires NoRepeat(list)
    ensures after.Keys == timers.Keys && expired == Cut(Expiring(list, timers, delta), MAX_EXPIRED)
    ensures TickedTo(list, timers, delta, after, |list|)
  {
    after, expired := timers, [];
    for k := 0 to |list|
      invariant after.Keys == timers.Keys && expired == Cut(Expiring(list[..k], timers, delta), MAX_EXPIRED)
      invariant TickedTo(list, timers, delta, after, k)
    {
      var id := list[k];
      ExpiringNext(list, timers, delta, k);
      var room := |expired| < MAX_EXPIRED;
      var t, fires := TickOne(timers[id], delta, room);
      if fires > 0 && room {
        expired := expired + [Entry(id, fires)];
      }
      TickedNext(list, timers, delta, after, k, t);
      after := after[id := t];
    }
    assert list[..|list|] == list;
  }

  /** The select timeout: the least time left, not below zero. */
  method NextTimeout(list: seq<Id>, timers: map<Id, Timer>) returns (next: nat, sec: nat, usec: nat)
    requires Known(list, timers)
    ensures forall i :: 0 <= i < |list| ==> next <= TimeLeft(timers[list[i]])
    ensures next == UINT_MAX || exists i :: 0 <= i < |list| && next == TimeLeft(timers[list[i]])
    ensures sec * 1000 + usec / 1000 == next && usec < 1_000_000 && usec % 1000 == 0
  {
    next := UINT_MAX;
    for k := 0 to |list|
      invariant forall i :: 0 <= i < k ==> next <= TimeLeft(timers[list[i]])
      invariant next == UINT_MAX || exists i :: 0 <= i < k && next == TimeLeft(timers[list[i]])
    {
      var r := TimeLeft(timers[list[k]]);
      if r < next {
        next := r;
      }
    }
    sec, usec := next / 1000, (next % 1000) * 1000;
  }

  function TimeLeft(t: Timer): (r: nat)
    ensures t.remaining <= r && (r == t.remaining || r == 0)
  {
    if t.remaining > 0 then t.remaining else 0
  }

  // ---------------------------------------------------------------- more than 32 at once

  /** When every timer of the list is due, every one of them counts as expiring. */
  lemma {:induction false} AllExpire(list: seq<Id>, timers: map<Id, Timer>, delta: nat)
    requires Known(list, timers) && forall i :: 0 <= i < |list| ==> Fires(timers[list[i]], delta) > 0
    ensures |Expiring(list, timers, delta)| == |list|
    decreases |list|
  {
    if list != [] {
      AllExpire(list[..|list| - 1], timers, delta);
    }
  }

  /** Thirty-three timers of 10 ms after 10 ms: the last one is not called in this round. */
  method ThirtyThird() returns (timers: map<Id, Timer>, expired: seq<Entry>)
    ensures |expired| == 32 && 32 in timers && timers[32] == Timer(10, 1, 10, 0, 1)
  {
    var list := seq(33, i => i);
    timers := map id | id in list :: NewTimer(10);
    ghost var before := timers;
    timers, expired := TickAll(list, timers, 10);
    LastOfThirtyThree(list, before, timers);
  }

  lemma LastOfThirtyThree(list: seq<Id>, before: map<Id, Timer>, after: map<Id, Timer>)
    requires |list| == 33 && Known(list, before) && TickedTo(list, before, 10, after, 33)
    requires forall i :: 0 <= i < 33 ==> before[list[i]] == NewTimer(10)
    ensures |Cut(Expiring(list, before, 10), MAX_EXPIRED)| == 32
    ensures list[32] in after && after[list[32]] == Timer(10, 1, 10, 0, 1)
  {
    AllExpire(list[..32], before, 10);
    AllExpire(list, before, 10);
    assert TickedAt(list, before, 10, after, 32);
  }

  /** Even with room 1 ms later its schedule stays 1 ms behind: at 20 ms it has one call, not two. */
  lemma TwoTurns(t: Timer)
    requires t == Timer(10, 1, 10, 0, 1)
    ensures Tick(Tick(t, 1, true), 9, true) == Timer(10, 1, 20, 1, 1)
  {
    assert Tick(t, 1, true) == Timer(10, 10, 11, 1, 1);
  }

  /** Thirty-three timers of 1 ms after `n` rounds of 1 ms: all but the last were called in each of them. */
  ghost predicate Starving(list: seq<Id>, timers: map<Id, Timer>, n: nat) {
    && |list| == 33 && NoRepeat(list) && Known(list, timers)
    && (forall i :: 0 <= i < 32 ==> timers[list[i]] == Timer(1, 1, n, n, 0))
    && timers[list[32]] == Timer(1, 1, n, 0, n)
  }

  /** A dropped timer can lose its place in every later round: here the last one is never called. */
  method Starve(n: nat) returns (list: seq<Id>, timers: map<Id, Timer>)
    ensures Starving(list, timers, n)
  {
    list := seq(33, i => i);
    timers := map id | id in list :: NewTimer(1);
    for k := 0 to n
      invariant Starving(list, timers, k)
    {
      ghost var before := timers;
      var after, _ := TickAll(list, timers, 1);
      timers := after;
      StarvingNext(list, before, timers, k);
    }
  }

  lemma StarvingNext(list: seq<Id>, before: map<Id, Timer>, after: map<Id, Timer>, n: nat)
    requires Starving(list, before, n) && TickedTo(list, before, 1, after, 33)
    ensures Starving(list, after, n + 1)
  {
    forall i | 0 <= i < 33
      ensures list[i] in after
      ensures after[list[i]] == if i < 32 then Timer(1, 1, n + 1, n + 1, 0) else Timer(1, 1, n + 1, 0, n + 1)
    {
      AllExpire(list[..i], before, 1);
      assert TickedAt(list, before, 1, after, i);
    }
  }

  // ---------------------------------------------------------------- who is called

  lemma {:induction false} ExpiringPrefix(list: seq<Id>, timers: map<Id, Timer>, delta: nat, i: nat)
    requires Known(list, timers) && i <= |list|
    ensures Expiring(list[..i], timers, delta) <= Expiring(list, timers, delta)
    decreases |list|
  {
    if i == |list| {
      assert list[..i] == list;
    } else {
      var before := list[..|list| - 1];
      ExpiringPrefix(before, timers, delta, i);
      assert before[..i] == list[..i];
    }
  }

  /** The entry at `k` is of a timer that is due, with `k` expiring ones before it in the list. */
  lemma {:induction false} ExpiringAt(list: seq<Id>, timers: map<Id, Timer>, delta: nat, k: nat) returns (i: nat)
    requires Known(list, timers) && k < |Expiring(list, timers, delta)|
    ensures i < |list| && Expiring(list, timers, delta)[k].id == list[i]
    ensures |Expiring(list[..i], timers, delta)| == k && Fires(timers[list[i]], delta) > 0
    decreases |list|
  {
    var before := list[..|list| - 1];
    if k < |Expiring(before, timers, delta)| {
      i := ExpiringAt(before, timers, delta, k);
      assert before[..i] == list[..i];
    } else {
      i := |list| - 1;
    }
  }

  /**
   * A timer is called in a round if and only if it is due and fewer than 32 timers before it in the
   * list are: so a dropped one is called in the first later round that ticks in which this holds.
   */
  lemma CalledExactly(list: seq<Id>, timers: map<Id, Timer>, delta: nat, i: nat)
    requires Known(list, timers) && NoRepeat(list) && i < |list|
    ensures
      (exists e :: e in Cut(Expiring(list, timers, delta), 32) && e.id == list[i])
        <==> delta >= timers[list[i]].remaining && |Expiring(list[..i], timers, delta)| < 32
  {
    var all := Expiring(list, timers, delta);
    var cut, n := Cut(all, MAX_EXPIRED), |Expiring(list[..i], timers, delta)|;
    if e :| e in cut && e.id == list[i] {
      var k :| 0 <= k < |cut| && cut[k] == e;
      var j := ExpiringAt(list, timers, delta, k);
      assert list[j] == list[i];
    }
    if Fires(timers[list[i]], delta) > 0 && n < MAX_EXPIRED {
      ExpiringNext(list, timers, delta, i);
      ExpiringPrefix(list, timers, delta, i + 1);
      assert cut[n].id == list[i] && cut[n] in cut;
    }
  }

  /** A dropped timer is due in every later round that ticks, and called in it exactly when it has room. */
  lemma DroppedThenDue(t: Timer, delta: nat, delta2: nat, room: bool)
    requires delta >= t.remaining && delta2 >= 1
    ensures
      var dropped := Tick(t, delta, false);
      && dropped.remaining == 1 && dropped.scheduled == t.scheduled
      && (Tick(dropped, delta2, room).scheduled > dropped.scheduled <==> room)
  {
  }
}
