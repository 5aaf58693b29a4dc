/** A doubly linked list whose links are indices into a fixed array, with two sentinels at its end. */
module ListArray {
  import opened Collections

  const INVALID: nat := 0xFFFF_FFFF

  datatype ListNode = ListNode(val: nat, prev: nat, next: nat)

  ghost predicate ItemsOk(items: seq<nat>, capacity: nat) {
    Distinct(items) && forall i | 0 <= i < |items| :: items[i] < capacity
  }

  /** The k-th node of the chain: the head sentinel, the items from newest to oldest, the tail sentinel. */
  function At(items: seq<nat>, capacity: nat, k: nat): nat
    requires k <= |items| + 1
  {
    if k == 0 then capacity else if k <= |items| then items[k - 1] else capacity + 1
  }

  ghost predicate Link(nodes: seq<ListNode>, items: seq<nat>, capacity: nat, k: nat)
    requires k <= |items| && ItemsOk(items, capacity) && |nodes| == capacity + 2
  {
    var a, b := At(items, capacity, k), At(items, capacity, k + 1);
    nodes[a].next == b && nodes[b].prev == a
  }

  /** Both directions of the links run through `items`, and no other node is linked. */
  ghost predicate LinksOk(nodes: seq<ListNode>, items: seq<nat>, capacity: nat) {
    && ItemsOk(items, capacity) && |nodes| == capacity + 2 <= INVALID
    && (forall k {:trigger Link(nodes, items, capacity, k)} | 0 <= k <= |items| :: Link(nodes, items, capacity, k))
    && nodes[capacity].prev == INVALID && nodes[capacity + 1].next == INVALID
    && (forall i | 0 <= i < capacity && i !in items :: nodes[i].prev == INVALID && nodes[i].next == INVALID)
  }

  /** Where an item is. */
  ghost function Position(items: seq<nat>, i: nat): (p: nat)
    requires i in items
    ensures p < |items| && items[p] == i
  {
    var p: nat :| p < |items| && items[p] == i; p
  }

  ghost function Without(items: seq<nat>, i: nat): seq<nat> {
    if i in items then items[..Position(items, i)] + items[Position(items, i) + 1..] else items
  }

  lemma WithoutOk(items: seq<nat>, capacity: nat, i: nat)
    requires ItemsOk(items, capacity)
    ensures ItemsOk(Without(items, i), capacity) && i !in Without(items, i)
    ensures forall x :: x in Without(items, i) <==> x in items && x != i
  {
    if i in items {
      var p := Position(items, i);
      forall x | x in items && x != i ensures x in Without(items, i) {
        var q :| 0 <= q < |items| && items[q] == x;
        assert Without(items, i)[if q < p then q else q - 1] == x;
      }
    }
  }

  /** What removeNode writes. */
  function Unlink(nodes: seq<ListNode>, i: nat): seq<ListNode>
    requires i < |nodes| && nodes[i].prev < |nodes| && nodes[i].next < |nodes|
  {
    var a, b := nodes[i].prev, nodes[i].next;
    var s := nodes[a := nodes[a].(next := b)];
    var t := s[b := s[b].(prev := a)];
    t[i := t[i].(next := INVALID, prev := INVALID)]
  }

  /** The chain without its node p + 1. */
  lemma ChainWithout(items: seq<nat>, capacity: nat, i: nat, k: nat)
    requires i in items && k <= |items|
    ensures At(Without(items, i), capacity, k) == At(items, capacity, if k <= Position(items, i) then k else k + 1)
  {
  }

  lemma ChainDistinct(items: seq<nat>, capacity: nat, j: nat, k: nat)
    requires ItemsOk(items, capacity) && j < k <= |items| + 1
    ensures At(items, capacity, j) != At(items, capacity, k)
  {
  }

  lemma UnlinkKeepsLink(nodes: seq<ListNode>, items: seq<nat>, capacity: nat, i: nat, k: nat)
    requires LinksOk(nodes, items, capacity) && i in items && k < |items|
    requires ItemsOk(Without(items, i), capacity) && nodes[i].prev < |nodes| && nodes[i].next < |nodes|
    ensures Link(Unlink(nodes, i), Without(items, i), capacity, k)
  {
    var p := Position(items, i);
    var l := if k <= p then k else k + 1;
    ChainWithout(items, capacity, i, k);
    ChainWithout(items, capacity, i, k + 1);
    assert Link(nodes, items, capacity, p) && Link(nodes, items, capacity, p + 1);
    assert Link(nodes, items, capacity, l);
    if k < p {
      ChainDistinct(items, capacity, k, p);
      ChainDistinct(items, capacity, k + 1, p + 2);
      ChainDistinct(items, capacity, k, p + 1);
    } else if k > p {
      ChainDistinct(items, capacity, p, l);
      ChainDistinct(items, capacity, p + 2, l + 1);
      ChainDistinct(items, capacity, p + 1, l);
    }
  }

  lemma UnlinkKeeps(nodes: seq<ListNode>, items: seq<nat>, capacity: nat, i: nat)
    requires LinksOk(nodes, items, capacity) && i in items
    ensures nodes[i].prev < |nodes| && nodes[i].next < |nodes|
    ensures LinksOk(Unlink(nodes, i), Without(items, i), capacity)
  {
    var p := Position(items, i);
    WithoutOk(items, capacity, i);
    assert Link(nodes, items, capacity, p) && Link(nodes, items, capacity, p + 1);
    forall k | 0 <= k < |items| ensures Link(Unlink(nodes, i), Without(items, i), capacity, k) {
      UnlinkKeepsLink(nodes, items, capacity, i, k);
    }
  }

  /** What addNodeToFront writes. */
  function LinkFront(nodes: seq<ListNode>, capacity: nat, i: nat): seq<ListNode>
    requires i < capacity < |nodes| && nodes[capacity].next < |nodes|
  {
    var first := nodes[capacity].next;
    var s := nodes[i := nodes[i].(next := first, prev := capacity)];
    var t := s[first := s[first].(prev := i)];
    t[capacity := t[capacity].(next := i)]
  }

  lemma LinkFrontKeeps(nodes: seq<ListNode>, items: seq<nat>, capacity: nat, i: nat)
    requires LinksOk(nodes, items, capacity) && i < capacity && i !in items
    ensures nodes[capacity].next < |nodes|
    ensures LinksOk(LinkFront(nodes, capacity, i), [i] + items, capacity)
  {
    assert Link(nodes, items, capacity, 0);
    var items' := [i] + items;
    forall k | 0 <= k <= |items'| ensures Link(LinkFront(nodes, capacity, i), items', capacity, k) {
      if k > 0 { assert Link(nodes, items, capacity, k - 1); }
    }
  }

  class ListArray {
    const capacity: nat
    const nodes: array<ListNode>
    /** The listed indices, newest first. */
    ghost var items: seq<nat>

    ghost predicate Valid()
      reads this, nodes
    {
      nodes.Length == capacity + 2 && LinksOk(nodes[..], items, capacity)
    }

    constructor (capacity: nat)
      requires capacity + 2 <= INVALID
      ensures Valid() && this.capacity == capacity && items == [] && fresh(nodes)
    {
      this.capacity := capacity;
      items := [];
      nodes := new ListNode[capacity + 2](_ => ListNode(0, INVALID, INVALID));
      new;
      nodes[capacity] := nodes[capacity].(next := capacity + 1);
      nodes[capacity + 1] := nodes[capacity + 1].(prev := capacity);
      assert Link(nodes[..], items, capacity, 0);
    }

    /** `inList` is membership; the sentinels are not members. */
    method InList(i: nat) returns (r: bool)
      requires Valid() && i < capacity + 2
      ensures r <==> i in items
    {
      if i in items {
        ghost var p := Position(items, i);
        assert Link(nodes[..], items, capacity, p) && Link(nodes[..], items, capacity, p + 1);
      }
      r := nodes[i].next != INVALID && nodes[i].prev != INVALID;
    }

    method RemoveNode(i: nat)
      requires Valid() && i < capacity
      modifies this`items, nodes
      ensures Valid() && items == Without(old(items), i)
      ensures SameValues(old(nodes[..]))
    {
      if i in items {
        ghost var p := Position(items, i);
        assert Link(nodes[..], items, capacity, p) && Link(nodes[..], items, capacity, p + 1);
        UnlinkKeeps(nodes[..], items, capacity, i);
      }
      items := Without(items, i);
      if nodes[i].next == INVALID || nodes[i].prev == INVALID {
        return;
      }
      var a, b := nodes[i].prev, nodes[i].next;
      nodes[a] := nodes[a].(next := b);
      nodes[b] := nodes[b].(prev := a);
      nodes[i] := nodes[i].(next := INVALID, prev := INVALID);
      assert nodes[..] == Unlink(old(nodes[..]), i);
    }

    ghost predicate SameValues(before: seq<ListNode>)
      reads nodes
    {
      nodes.Length == |before| && forall i | 0 <= i < |before| :: nodes[i].val == before[i].val
    }

    method AddNodeToFront(i: nat)
      requires Valid() && i < capacity && i !in items
      modifies this`items, nodes
      ensures Valid() && items == [i] + old(items)
      ensures SameValues(old(nodes[..]))
    {
      assert Link(nodes[..], items, capacity, 0);
      LinkFrontKeeps(nodes[..], items, capacity, i);
      nodes[i] := nodes[i].(next := nodes[capacity].next, prev := capacity);
      var first := nodes[capacity].next;
      nodes[first] := nodes[first].(prev := i);
      nodes[capacity] := nodes[capacity].(next := i);
      assert nodes[..] == LinkFront(old(nodes[..]), capacity, i);
      items := [i] + items;
    }

    method MoveToFront(i: nat) returns (ok: bool)
      requires Valid()
      modifies this`items, nodes
      ensures Valid() && (ok <==> i < capacity)
      ensures items == if ok then [i] + Without(old(items), i) else old(items)
      ensures SameValues(old(nodes[..]))
    {
      if i >= capacity {
        return false;
      }
      WithoutOk(items, capacity, i);
      RemoveNode(i);
      AddNodeToFront(i);
      ok := true;
    }

    method RemoveFromIndex(i: nat) returns (ok: bool)
      requires Valid()
      modifies this`items, nodes
      ensures Valid() && (ok <==> i < capacity)
      ensures items == if ok then Without(old(items), i) else old(items)
      ensures SameValues(old(nodes[..]))
    {
      if i >= capacity {
        return false;
      }
      RemoveNode(i);
      ok := true;
    }

    /** The newer neighbour of a listed index; the head sentinel for the newest. */
    method GetPrevNodeIndex(i: nat) returns (r: nat)
      requires Valid()
      ensures r == if i in items then At(items, capacity, Position(items, i)) else INVALID
    {
      if i >= capacity {
        return INVALID;
      }
      if i in items { assert Link(nodes[..], items, capacity, Position(items, i)); }
      r := nodes[i].prev;
    }

    /** The oldest item, or the head sentinel when there is none. */
    method GetTail() returns (r: nat)
      requires Valid()
      ensures r == if items == [] then capacity else items[|items| - 1]
    {
      assert Link(nodes[..], items, capacity, |items|);
      r := nodes[capacity + 1].prev;
    }
  }

  /** Following `next` n times from node a. */
  ghost function Forward(nodes: seq<ListNode>, a: nat, n: nat): seq<nat>
    decreases n
  {
    if n == 0 || a >= |nodes| then [] else [nodes[a].next] + Forward(nodes, nodes[a].next, n - 1)
  }

  ghost function Backward(nodes: seq<ListNode>, a: nat, n: nat): seq<nat>
    decreases n
  {
    if n == 0 || a >= |nodes| then [] else [nodes[a].prev] + Backward(nodes, nodes[a].prev, n - 1)
  }

  /** From the head sentinel forward the nodes are the items and the tail sentinel. */
  lemma {:induction false} ForwardIsItems(nodes: seq<ListNode>, items: seq<nat>, capacity: nat, k: nat)
    requires LinksOk(nodes, items, capacity) && k <= |items|
    ensures Forward(nodes, At(items, capacity, k), |items| - k + 1) == items[k..] + [capacity + 1]
    decreases |items| - k
  {
    assert Link(nodes, items, capacity, k);
    if k < |items| {
      ForwardIsItems(nodes, items, capacity, k + 1);
      assert items[k..] == [items[k]] + items[k + 1..];
    } else {
      assert Forward(nodes, capacity + 1, 0) == [];
    }
  }

  function Reversed(s: seq<nat>): seq<nat> {
    if s == [] then [] else [s[|s| - 1]] + Reversed(s[..|s| - 1])
  }

  /** From the tail sentinel backward they are the same in reverse. */
  lemma {:induction false} BackwardIsReverse(nodes: seq<ListNode>, items: seq<nat>, capacity: nat, k: nat)
    requires LinksOk(nodes, items, capacity) && k <= |items|
    ensures Backward(nodes, At(items, capacity, k + 1), k + 1) == Reversed(items[..k]) + [capacity]
  {
    assert Link(nodes, items, capacity, k);
    if k > 0 {
      BackwardIsReverse(nodes, items, capacity, k - 1);
      assert items[..k][..k - 1] == items[..k - 1];
    } else {
      assert Backward(nodes, capacity, 0) == [];
    }
  }
}
