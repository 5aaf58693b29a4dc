/** The SIEVE replacer in use: a visited counter per frame and a hand that moves from old to new. */
module Sieve {
  import opened Collections
  import opened ListArray

  /** The frames in the order the hand meets them: from the hand to the newest, then from the oldest. */
  ghost function Ring(items: seq<nat>, hand: nat): (order: seq<nat>)
    ensures |order| == |items|
  {
    seq(|items|, k requires 0 <= k < |items| => items[RingIndex(items, hand, k)])
  }

  /** Where the hand starts: at its frame, or at the oldest frame when it is at the head sentinel. */
  ghost function Start(items: seq<nat>, hand: nat): nat
    requires items != []
    ensures Start(items, hand) < |items|
  {
    if hand in items then Position(items, hand) else |items| - 1
  }

  ghost function RingIndex(items: seq<nat>, hand: nat, k: nat): nat
    requires k < |items|
    ensures RingIndex(items, hand, k) < |items|
  {
    var p := Start(items, hand);
    if k <= p then p - k else p - k + |items|
  }

  ghost predicate AnyOf(frames: seq<nat>, evictable: set<nat>) {
    exists j :: 0 <= j < |frames| && frames[j] in evictable
  }

  /** Not used since the hand last passed, and it can be taken. */
  ghost predicate Fresh(nodes: seq<ListNode>, evictable: set<nat>, f: nat) {
    f < |nodes| && nodes[f].val == 0 && f in evictable
  }

  /** `order[k]` is SIEVE's choice: the first fresh frame, or with none the first that can be taken. */
  ghost predicate Chosen(order: seq<nat>, nodes: seq<ListNode>, evictable: set<nat>, k: nat) {
    k < |order| && order[k] in evictable &&
    if Fresh(nodes, evictable, order[k])
    then forall j | 0 <= j < k :: !Fresh(nodes, evictable, order[j])
    else && (forall j | 0 <= j < |order| :: !Fresh(nodes, evictable, order[j]))
         && (forall j | 0 <= j < k :: order[j] !in evictable)
  }

  /** The counter of the frame at place j once the hand has stopped at place k. */
  ghost function CounterAfter(order: seq<nat>, nodes: seq<ListNode>, evictable: set<nat>, k: nat, j: nat): nat
    requires j < |order| && k < |order| && order[j] < |nodes|
  {
    if j < k || !Fresh(nodes, evictable, order[k]) then 0 else nodes[order[j]].val
  }

  /**
    What the scan has done when it stands at place k in lap 0, 1 or a later one: counters behind it
    are cleared, and it has passed no frame that SIEVE would have chosen.
   */
  ghost predicate Scanned(order: seq<nat>, was: seq<ListNode>, now: seq<ListNode>, evictable: set<nat>, lap: nat, k: nat)
    requires forall j | 0 <= j < |order| :: order[j] < |was| && order[j] < |now|
  {
    && k < |order|
    && (forall j | 0 <= j < |order| :: now[order[j]].val == if j < k || lap > 0 then 0 else was[order[j]].val)
    && (forall j | 0 <= j < |order| && (j < k || lap > 0) :: !Fresh(was, evictable, order[j]))
    && (forall j | 0 <= j < |order| && ((lap == 1 && j < k) || lap > 1) :: order[j] !in evictable)
  }

  ghost predicate AllCleared(order: seq<nat>, now: seq<ListNode>) {
    forall j | 0 <= j < |order| :: order[j] < |now| && now[order[j]].val == 0
  }

  /** SIEVE's choice is determined. */
  lemma ChosenIsUnique(order: seq<nat>, nodes: seq<ListNode>, evictable: set<nat>, k: nat, l: nat)
    requires Chosen(order, nodes, evictable, k) && Chosen(order, nodes, evictable, l)
    ensures k == l
  {
    assert Fresh(nodes, evictable, order[k]) == Fresh(nodes, evictable, order[l]);
  }

  /** Clearing the visited counter under the hand. */
  lemma CoolStep(order: seq<nat>, was: seq<ListNode>, now: seq<ListNode>, now': seq<ListNode>, evictable: set<nat>,
                 lap: nat, k: nat)
    requires (forall j | 0 <= j < |order| :: order[j] < |was| == |now|) && Distinct(order)
    requires Scanned(order, was, now, evictable, lap, k)
    requires now[order[k]].val == 1 && now' == now[order[k] := now[order[k]].(val := 0)]
    ensures lap == 0 && Scanned(order, was, now', evictable, NextLap(lap, k, |order|), NextPlace(k, |order|))
  {
  }

  /** Passing a frame that is in use. */
  lemma PassStep(order: seq<nat>, was: seq<ListNode>, now: seq<ListNode>, evictable: set<nat>, lap: nat, k: nat)
    requires forall j | 0 <= j < |order| :: order[j] < |was| == |now|
    requires Scanned(order, was, now, evictable, lap, k) && now[order[k]].val == 0 && order[k] !in evictable
    ensures Scanned(order, was, now, evictable, NextLap(lap, k, |order|), NextPlace(k, |order|))
  {
  }

  lemma StopIsChosen(order: seq<nat>, was: seq<ListNode>, now: seq<ListNode>, evictable: set<nat>, lap: nat, k: nat)
    requires forall j | 0 <= j < |order| :: order[j] < |was| == |now|
    requires Scanned(order, was, now, evictable, lap, k) && now[order[k]].val == 0 && order[k] in evictable
    ensures Chosen(order, was, evictable, k) && CountersAfter(order, was, now, evictable, k)
  {
  }

  /** The retries left: each one used has moved the hand one place. */
  ghost predicate Budget(capacity: nat, n: nat, count: nat, lap: nat, k: nat) {
    && (lap == 0 ==> count + k >= 2 * capacity)
    && (lap == 1 ==> count + n + k >= 2 * capacity)
  }

  /** Out of retries: the hand has gone round twice. */
  lemma NoneLeft(order: seq<nat>, was: seq<ListNode>, now: seq<ListNode>, evictable: set<nat>, lap: nat, k: nat,
                 capacity: nat)
    requires forall j | 0 <= j < |order| :: order[j] < |was| == |now|
    requires Scanned(order, was, now, evictable, lap, k) && Budget(capacity, |order|, 0, lap, k) && |order| <= capacity
    ensures !AnyOf(order, evictable) && AllCleared(order, now)
  {
  }

  ghost predicate CountersAfter(order: seq<nat>, was: seq<ListNode>, now: seq<ListNode>, evictable: set<nat>, k: nat) {
    k < |order| && forall j | 0 <= j < |order| ::
      order[j] < |was| && order[j] < |now| && now[order[j]].val == CounterAfter(order, was, evictable, k, j)
  }

  /** Where the hand goes when frame f is taken: to its newer neighbour, or to the head sentinel. */
  ghost function HandAfter(items: seq<nat>, capacity: nat, f: nat): nat
    requires f in items
  {
    At(items, capacity, Position(items, f))
  }

  /** Frames whose use was looked at and that could not be taken. */
  ghost predicate Passed(items: seq<nat>, evictable: set<nat>, passed: seq<nat>) {
    forall j | 0 <= j < |passed| :: passed[j] in items && passed[j] !in evictable
  }

  lemma CountersStay(order: seq<nat>, was: seq<ListNode>, now: seq<ListNode>, now': seq<ListNode>, evictable: set<nat>, k: nat)
    requires CountersAfter(order, was, now, evictable, k) && |now'| == |now|
    requires forall i | 0 <= i < |now| :: now'[i].val == now[i].val
    ensures CountersAfter(order, was, now', evictable, k)
  {
  }

  /** The hand's next place is still there when frame f has left the list. */
  lemma HandStays(items: seq<nat>, capacity: nat, f: nat, nodes: seq<ListNode>)
    requires ItemsOk(items, capacity) && f in items && |nodes| >= capacity
    requires forall i | i in items :: nodes[i].val <= 1
    ensures var hand := At(items, capacity, Position(items, f)); hand == capacity || hand in Without(items, f)
    ensures forall i | i in Without(items, f) :: i < |nodes| && nodes[i].val <= 1
  {
    WithoutOk(items, capacity, f);
    var p := Position(items, f);
    if p > 0 { assert items[p - 1] in Without(items, f); }
  }

  class SieveReplacer {
    const list: ListArray
    var pointer: nat

    ghost predicate Valid()
      reads this, list, list.nodes
    {
      && list.Valid()
      && (pointer == list.capacity || pointer in list.items)
      && forall i | i in list.items :: list.nodes[i].val <= 1
    }

    constructor (capacity: nat)
      requires capacity + 2 <= INVALID
      ensures Valid() && list.items == [] && list.capacity == capacity && fresh(list) && fresh(list.nodes)
    {
      list := new ListArray(capacity);
      pointer := capacity;
    }

    method Insert(value: nat)
      requires Valid() && value < list.capacity && value !in list.items
      modifies list`items, list.nodes
      ensures Valid() && list.items == [value] + old(list.items)
      ensures list.nodes[value].val == 0
      ensures forall i | 0 <= i < list.nodes.Length && i != value :: list.nodes[i].val == old(list.nodes[i].val)
    {
      list.nodes[value] := list.nodes[value].(val := 0);
      ValuesDoNotMatter(old(list.nodes[..]), list.nodes[..], list.items, list.capacity);
      var ok := list.MoveToFront(value);
    }

    method Promote(value: nat)
      requires Valid() && value < list.capacity
      modifies list.nodes
      ensures Valid() && list.nodes[value].val == 1
      ensures forall i | 0 <= i < list.nodes.Length && i != value :: list.nodes[i].val == old(list.nodes[i].val)
    {
      list.nodes[value] := list.nodes[value].(val := 1);
      ValuesDoNotMatter(old(list.nodes[..]), list.nodes[..], list.items, list.capacity);
    }

    /** The next frame under the hand: the newer neighbour, or after the newest the oldest. */
    method Advance(f: nat, ghost hand: nat, ghost k: nat) returns (r: nat)
      requires list.Valid() && k < |list.items| && f == Ring(list.items, hand)[k]
      ensures r == Ring(list.items, hand)[if k + 1 < |list.items| then k + 1 else 0]
    {
      r := list.GetPrevNodeIndex(f);
      if r == list.capacity {
        r := list.GetTail();
      }
    }

    /** What the scan keeps: the list, the hand and the counters of unlisted frames. */
    ghost predicate Scanning(was: seq<ListNode>, order: seq<nat>)
      reads this, list, list.nodes
    {
      && Valid() && order == Ring(list.items, pointer) && |was| == list.nodes.Length
      && forall i | 0 <= i < |was| && i !in order :: list.nodes[i].val == was[i].val
    }

    /** The scan stands at place k in some lap with `count` retries left. */
    ghost predicate ScanAt(was: seq<ListNode>, order: seq<nat>, evictable: set<nat>, count: nat, lap: nat, k: nat)
      reads this, list, list.nodes
    {
      && Scanning(was, order) && Distinct(order) && |order| <= list.capacity
      && (forall j | 0 <= j < |order| :: order[j] < |was|)
      && Scanned(order, was, list.nodes[..], evictable, lap, k) && Budget(list.capacity, |order|, count, lap, k)
    }

    lemma ScanStarts(order: seq<nat>, evictable: set<nat>)
      requires Scanning(list.nodes[..], order) && order != []
      ensures ScanAt(list.nodes[..], order, evictable, 2 * list.capacity, 0, 0)
    {
      RingDistinct(list.items, pointer);
      ListedBound(list.items, list.capacity);
    }

    /** One turn of the inner loop: takes one off a visited frame's counter and moves on. */
    method Cool(f: nat, ghost was: seq<ListNode>, ghost order: seq<nat>, ghost evictable: set<nat>, ghost count: nat,
                ghost lap: nat, ghost k: nat)
      returns (r: nat)
      requires ScanAt(was, order, evictable, count, lap, k) && f == order[k] && list.nodes[f].val > 0
      modifies list.nodes
      ensures lap == 0 && r == order[NextPlace(k, |order|)]
      ensures ScanAt(was, order, evictable, count, NextLap(lap, k, |order|), NextPlace(k, |order|))
    {
      RingDistinct(list.items, pointer);
      ghost var now := list.nodes[..];
      list.nodes[f] := list.nodes[f].(val := list.nodes[f].val - 1);
      ValuesDoNotMatter(now, list.nodes[..], list.items, list.capacity);
      CoolStep(order, was, now, list.nodes[..], evictable, lap, k);
      r := Advance(f, pointer, k);
    }

    /** The inner loop: on to the next frame with counter 0. */
    method CoolDown(f: nat, ghost was: seq<ListNode>, ghost order: seq<nat>, ghost evictable: set<nat>, ghost count: nat,
                    ghost lap0: nat, ghost k0: nat)
      returns (r: nat, ghost lap: nat, ghost k: nat)
      requires ScanAt(was, order, evictable, count, lap0, k0) && f == order[k0]
      modifies list.nodes
      ensures ScanAt(was, order, evictable, count, lap, k) && r == order[k] && list.nodes[r].val == 0
    {
      r, lap, k := f, lap0, k0;
      while list.nodes[r].val > 0
        invariant ScanAt(was, order, evictable, count, lap, k) && r == order[k]
        decreases if lap == 0 then |order| - k else 0
      {
        r := Cool(r, was, order, evictable, count, lap, k);
        lap, k := NextLap(lap, k, |order|), NextPlace(k, |order|);
      }
    }

    /** A frame in use is passed, for one retry. */
    method Pass(f: nat, ghost was: seq<ListNode>, ghost order: seq<nat>, ghost evictable: set<nat>, ghost count: nat,
                ghost lap: nat, ghost k: nat)
      returns (r: nat)
      requires ScanAt(was, order, evictable, count, lap, k) && count > 0
      requires f == order[k] && list.nodes[f].val == 0 && f !in evictable
      ensures r == order[NextPlace(k, |order|)]
      ensures ScanAt(was, order, evictable, count - 1, NextLap(lap, k, |order|), NextPlace(k, |order|))
    {
      PassStep(order, was, list.nodes[..], evictable, lap, k);
      r := Advance(f, pointer, k);
    }

    /** The outer loop of `Victim`, from frame f on, with a budget of twice the capacity. */
    method Scan(f: nat, evictable: set<nat>, ghost order: seq<nat>)
      returns (ok: bool, toEvict: nat, ghost k: nat, ghost passed: seq<nat>)
      requires Scanning(list.nodes[..], order) && order != [] && f == order[0]
      modifies list.nodes
      ensures Scanning(old(list.nodes[..]), order)
      ensures ok <==> AnyOf(order, evictable)
      ensures ok ==> Chosen(order, old(list.nodes[..]), evictable, k) && toEvict == order[k]
      ensures ok ==> CountersAfter(order, old(list.nodes[..]), list.nodes[..], evictable, k)
      ensures !ok ==> AllCleared(order, list.nodes[..])
      ensures Passed(order, evictable, passed) && |passed| <= 2 * list.capacity && (ok ==> |passed| < 2 * list.capacity)
    {
      ghost var was, lap: nat, n := list.nodes[..], 0, |order|;
      k, passed := 0, [];
      toEvict := f;
      var count: nat := 2 * list.capacity;
      ScanStarts(order, evictable);
      while true
        invariant ScanAt(was, order, evictable, count, lap, k) && toEvict == order[k]
        invariant Passed(order, evictable, passed) && |passed| + count == 2 * list.capacity
        decreases count
      {
        if count == 0 {
          NoneLeft(order, was, list.nodes[..], evictable, lap, k, list.capacity);
          return false, 0, k, passed;
        }
        toEvict, lap, k := CoolDown(toEvict, was, order, evictable, count, lap, k);
        if toEvict in evictable {
          StopIsChosen(order, was, list.nodes[..], evictable, lap, k);
          return true, toEvict, k, passed;
        }
        passed := passed + [toEvict];
        toEvict := Pass(toEvict, was, order, evictable, count, lap, k);
        count := count - 1;
        lap, k := NextLap(lap, k, n), NextPlace(k, n);
      }
    }

    ghost function Order(): seq<nat>
      reads this, list
    {
      Ring(list.items, pointer)
    }

    /**
      `Victim` for one frame while nobody else changes pins or mappings; `evictable` are the frames
      with no reference whose mapping can be locked.  It fails only when no listed frame is one.
      `passed` are the frames whose use was looked at before, each for one retry.
     */
    method Victim(evictable: set<nat>) returns (ok: bool, victim: nat, ghost k: nat, ghost passed: seq<nat>)
      requires Valid()
      modifies this`pointer, list`items, list.nodes
      ensures Valid()
      ensures ok <==> AnyOf(old(list.items), evictable)
      ensures ok ==> Chosen(old(Order()), old(list.nodes[..]), evictable, k) && victim == old(Order())[k]
      ensures ok ==> victim in old(list.items) && list.items == Without(old(list.items), victim)
      ensures ok ==> pointer == HandAfter(old(list.items), list.capacity, victim)
      ensures ok ==> CountersAfter(old(Order()), old(list.nodes[..]), list.nodes[..], evictable, k)
      ensures !ok ==> list.items == old(list.items) && pointer == old(pointer) && AllCleared(Order(), list.nodes[..])
      ensures forall i | 0 <= i < list.nodes.Length && i !in old(Order()) ::
                list.nodes[i].val == old(list.nodes[i].val)
      ensures Passed(old(list.items), evictable, passed) && |passed| <= 2 * list.capacity
      ensures ok ==> |passed| < 2 * list.capacity
    {
      var toEvict := pointer;
      if pointer == list.capacity {
        toEvict := list.GetTail();
      }
      k, passed := 0, [];
      if toEvict == list.capacity {
        return false, 0, 0, [];
      }
      ghost var was, order := list.nodes[..], Order();
      RingAny(list.items, pointer, evictable);
      ok, toEvict, k, passed := Scan(toEvict, evictable, order);
      RingDistinct(list.items, pointer);
      victim := toEvict;
      if ok {
        Take(victim, was, order, evictable, k);
      }
    }

    /** The chosen frame leaves the list and the hand goes to its newer neighbour. */
    method Take(f: nat, ghost was: seq<ListNode>, ghost order: seq<nat>, ghost evictable: set<nat>, ghost k: nat)
      requires Scanning(was, order) && Chosen(order, was, evictable, k) && f == order[k]
      requires CountersAfter(order, was, list.nodes[..], evictable, k)
      modifies this`pointer, list`items, list.nodes
      ensures Valid() && f in old(list.items) && list.items == Without(old(list.items), f)
      ensures pointer == HandAfter(old(list.items), list.capacity, f)
      ensures CountersAfter(order, was, list.nodes[..], evictable, k)
      ensures forall i | 0 <= i < list.nodes.Length && i !in order :: list.nodes[i].val == was[i].val
    {
      assert f == list.items[RingIndex(list.items, pointer, k)];
      ghost var now := list.nodes[..];
      Unlist(f);
      CountersStay(order, was, now, list.nodes[..], evictable, k);
    }

    method Unlist(f: nat)
      requires Valid() && f in list.items
      modifies this`pointer, list`items, list.nodes
      ensures Valid() && list.items == Without(old(list.items), f) && list.SameValues(old(list.nodes[..]))
      ensures pointer == HandAfter(old(list.items), list.capacity, f)
    {
      HandStays(list.items, list.capacity, f, list.nodes[..]);
      pointer := list.GetPrevNodeIndex(f);
      var removed := list.RemoveFromIndex(f);
    }
  }

  function NextPlace(k: nat, n: nat): nat {
    if k + 1 < n then k + 1 else 0
  }

  function NextLap(lap: nat, k: nat, n: nat): nat {
    if k + 1 < n then lap else lap + 1
  }

  /** The hand meets every listed frame exactly once in a lap. */
  lemma RingDistinct(items: seq<nat>, hand: nat)
    requires Distinct(items)
    ensures Distinct(Ring(items, hand))
    ensures forall f :: f in Ring(items, hand) <==> f in items
  {
    forall f | f in items ensures f in Ring(items, hand) {
      var q, p := Position(items, f), Start(items, hand);
      assert Ring(items, hand)[if q <= p then p - q else p - q + |items|] == f;
    }
  }

  lemma RingAny(items: seq<nat>, hand: nat, evictable: set<nat>)
    requires Distinct(items)
    ensures AnyOf(Ring(items, hand), evictable) <==> AnyOf(items, evictable)
  {
    RingDistinct(items, hand);
    if AnyOf(items, evictable) {
      var j :| 0 <= j < |items| && items[j] in evictable;
      assert items[j] in Ring(items, hand);
    }
    if AnyOf(Ring(items, hand), evictable) {
      var j :| 0 <= j < |items| && Ring(items, hand)[j] in evictable;
      assert Ring(items, hand)[j] in items;
    }
  }

  lemma {:induction false} ListedBound(items: seq<nat>, n: nat)
    requires Distinct(items) && forall i | 0 <= i < |items| :: items[i] < n
    ensures |items| <= n
  {
    if items != [] {
      assert items[0] < n;
      if n - 1 in items {
        WithoutOk(items, n, n - 1);
        ListedBound(Without(items, n - 1), n - 1);
      } else {
        ListedBound(items, n - 1);
      }
    }
  }

  /** The links are in order whatever the counters are. */
  lemma ValuesDoNotMatter(nodes: seq<ListNode>, nodes': seq<ListNode>, items: seq<nat>, capacity: nat)
    requires LinksOk(nodes, items, capacity) && |nodes'| == |nodes|
    requires forall i | 0 <= i < |nodes| :: nodes'[i].prev == nodes[i].prev && nodes'[i].next == nodes[i].next
    ensures LinksOk(nodes', items, capacity)
  {
    forall k | 0 <= k <= |items| ensures Link(nodes', items, capacity, k) {
      assert Link(nodes, items, capacity, k);
    }
  }
}
