/** The id indexer: keys get dense ids in the order they are first added, through a Robin Hood table. */
module IdIndexer {
  import opened Bits
  import opened RobinHood
  import opened Collections

  const MIN_LOOKUPS := 4

  function Max(a: nat, b: nat): nat {
    if a > b then a else b
  }

  /** Position of the highest bit, what id_indexer_impl::log2 looks up. */
  function Log2(v: nat): nat {
    if v < 2 then 0 else 1 + Log2(v / 2)
  }

  lemma {:induction false} BelowNextPower(v: nat, n: nat)
    requires Log2(v) < n
    ensures v < Pow2(n)
    decreases n
  {
    if v >= 2 { BelowNextPower(v / 2, n - 1); }
  }

  /** A table this big never grows while it holds at most n keys. */
  function Enough(n: nat): nat {
    Pow2(n) + 2 * n + 2
  }

  /** How far a table with this many slots is from never growing again. */
  function Room(n: nat, slots: nat): nat {
    if slots < Enough(n) then Enough(n) - slots else 0
  }

  function ComputeMaxLookups(slots: nat): nat {
    Max(MIN_LOOKUPS, Log2(slots))
  }

  /** The keys after adding oids to `keys` one by one: each new one goes to the end. */
  function FirstSeen(keys: seq<int>, oids: seq<int>): seq<int> {
    if oids == [] then keys
    else
      var before := FirstSeen(keys, oids[..|oids| - 1]);
      var oid := oids[|oids| - 1];
      if oid in before then before else before + [oid]
  }

  /**
    Ids are dense and in first-seen order: starting from no keys, the id of an added key is the
    number of different keys that were added before its first occurrence.
   */
  lemma {:induction false} FirstSeenOrder(oids: seq<int>, k: nat)
    requires k < |oids| && oids[k] !in oids[..k]
    ensures Distinct(FirstSeen([], oids)) && (forall x :: x in FirstSeen([], oids) <==> x in oids)
    ensures var lid := |Elements(oids[..k])|;
            lid < |FirstSeen([], oids)| && FirstSeen([], oids)[lid] == oids[k]
  {
    SeenExactly(oids);
    SeenExactly(oids[..k]);
    SizeOfElements(FirstSeen([], oids[..k]));
    assert Elements(FirstSeen([], oids[..k])) == Elements(oids[..k]);
    SeenStays(oids, k + 1);
    assert oids[..k + 1][..k] == oids[..k];
  }

  function Elements(s: seq<int>): set<int> {
    set x | x in s
  }

  lemma {:induction false} SeenExactly(oids: seq<int>)
    ensures Distinct(FirstSeen([], oids)) && (forall x :: x in FirstSeen([], oids) <==> x in oids)
  {
    if oids != [] {
      var n := |oids| - 1;
      SeenExactly(oids[..n]);
      assert oids == oids[..n] + [oids[n]];
    }
  }

  lemma {:induction false} SizeOfElements(s: seq<int>)
    requires Distinct(s)
    ensures |Elements(s)| == |s|
  {
    if s != [] {
      var n := |s| - 1;
      SizeOfElements(s[..n]);
      assert s == s[..n] + [s[n]];
      assert Elements(s) == Elements(s[..n]) + {s[n]};
    }
  }

  /** Later keys do not move earlier ones. */
  lemma {:induction false} SeenStays(oids: seq<int>, k: nat)
    requires k <= |oids|
    ensures FirstSeen([], oids[..k]) <= FirstSeen([], oids)
  {
    if k == |oids| {
      assert oids[..k] == oids;
    } else {
      SeenStays(oids[..|oids| - 1], k);
      assert oids[..|oids| - 1][..k] == oids[..k];
    }
  }

  class IdIndexer {
    const policy: Policy
    var keys: seq<int>
    var indices: seq<nat>
    var distances: seq<int>
    var maxLookups: nat
    var numElements: nat
    var slotsMinusOne: nat
    ghost var pos: map<nat, nat>

    ghost function Tab(): Table
      reads this
    {
      Table(keys, indices, distances, slotsMinusOne + 1, maxLookups)
    }

    /** The table is well-formed and at most half full; some keys may not be entered yet. */
    ghost predicate Sound()
      reads this
    {
      && Wf(policy, Tab(), pos) && Distinct(keys)
      && numElements == |pos| && 2 * numElements <= slotsMinusOne + 1
      && (slotsMinusOne == 0 || slotsMinusOne >= 3)
      && Log2(slotsMinusOne + 1) <= maxLookups
    }

    ghost predicate Valid()
      reads this
    {
      Sound() && Complete(Tab(), pos)
    }

    /** reset_to_empty_state */
    constructor (policy: Policy)
      requires GoodPolicy(policy)
      ensures Valid() && keys == [] && this.policy == policy
    {
      this.policy := policy;
      keys := [];
      indices := seq(MIN_LOOKUPS, _ => 0);
      distances := [-1, -1, -1, 0];
      slotsMinusOne := 0;
      maxLookups := MIN_LOOKUPS - 1;
      numElements := 0;
      pos := map[];
    }

    function BucketCount(): nat
      reads this
    {
      if slotsMinusOne != 0 then slotsMinusOne + 1 else 0
    }

    /** `get_index` finds a key exactly when it was added, and gives its place in the key buffer. */
    method GetIndex(oid: int) returns (found: bool, lid: nat)
      requires Valid()
      ensures found <==> oid in keys
      ensures found ==> lid < |keys| && keys[lid] == oid
    {
      var distance: nat, index: nat;
      found, distance, index, lid := Search(oid);
    }

    /** The probe loop shared by add and get_index. */
    method Search(oid: int) returns (found: bool, distance: nat, index: nat, lid: nat)
      requires Valid()
      ensures found <==> oid in keys
      ensures found ==> lid < |keys| && keys[lid] == oid && lid in pos && pos[lid] == index < Last(Tab())
      ensures !found ==> Stopped(oid, distance, index)
    {
      index := policy.home(oid, slotsMinusOne + 1);
      ghost var home := index;
      HomeInside(policy, oid, slotsMinusOne + 1);
      distance := 0;
      lid := 0;
      while distances[index] >= distance
        invariant index == home + distance <= Last(Tab())
        invariant index > home ==> distances[index - 1] >= index - 1 - home
        invariant forall j | home <= j < index :: indices[j] < |keys| && keys[indices[j]] != oid
        decreases |distances| - index
      {
        assert CellOk(policy, Tab(), pos, index);
        var cur := indices[index];
        if keys[cur] == oid {
          return true, distance, index, cur;
        }
        distance := distance + 1;
        index := index + 1;
      }
      if oid in keys {
        var l :| 0 <= l < |keys| && keys[l] == oid;
        assert PosOk(Tab(), pos, l) && CellOk(policy, Tab(), pos, pos[l]);
        if pos[l] >= index { SearchReaches(policy, Tab(), pos, l, index); }
      }
      found := false;
    }

    /** Where an unsuccessful search for a key stops: the cell at which it would be entered. */
    ghost predicate Stopped(oid: int, distance: nat, index: nat)
      reads this
    {
      && index <= Last(Tab()) < |distances|
      && policy.home(oid, slotsMinusOne + 1) + distance == index
      && distances[index] < distance
      && (distance > 0 ==> distances[index - 1] >= distance - 1)
    }

    /** `add`: a new key gets the next id; a known one is reported with the id it has. */
    method Add(oid: int) returns (added: bool, lid: nat)
      requires Valid()
      modifies this
      ensures Valid()
      ensures added <==> oid !in old(keys)
      ensures keys == if added then old(keys) + [oid] else old(keys)
      ensures lid < |keys| && keys[lid] == oid
    {
      var found, distance, index, cur := Search(oid);
      if found {
        return false, cur;
      }
      lid := |keys|;
      assert Wf(policy, Tab(), pos);
      keys := keys + [oid];
      MoreKeys(old(Tab()), oid);
      EmplaceNewValue(distance, index, lid);
      added := true;
    }

    /** Any sequence of `add` calls, from any state: the keys are numbered by first appearance. */
    method AddAll(oids: seq<int>)
      requires Valid()
      modifies this
      ensures Valid() && keys == FirstSeen(old(keys), oids)
    {
      for i := 0 to |oids|
        invariant Valid() && keys == FirstSeen(old(keys), oids[..i])
      {
        var added, lid := Add(oids[i]);
        assert oids[..i + 1][..i] == oids[..i];
      }
      assert oids[..|oids|] == oids;
    }

    lemma MoreKeys(t: Table, oid: int)
      requires Wf(policy, t, pos)
      ensures Wf(policy, t.(keys := t.keys + [oid]), pos) && |t.keys| !in pos
    {
      var r := t.(keys := t.keys + [oid]);
      forall j | 0 <= j < Last(r) ensures CellOk(policy, r, pos, j) { assert CellOk(policy, t, pos, j); }
      forall l | l in pos ensures l < |t.keys| && PosOk(r, pos, l) { assert PosOk(t, pos, l); }
    }

    /** Exactly these lids are entered, or the table has grown and every one is. */
    ghost predicate Entered(lids: set<nat>, oldSlots: nat)
      reads this
    {
      || (pos.Keys == lids && slotsMinusOne == oldSlots)
      || (Complete(Tab(), pos) && slotsMinusOne > oldSlots)
    }

    /**
      Enters lid at the cell where its search stopped, displacing entries that are closer to their
      homes.  When the table has to grow, in the middle of a displacement chain or before it, the
      entry being carried is dropped and every key is entered anew.
     */
    method EmplaceNewValue(distance: nat, index: nat, lid: nat)
      requires Sound() && lid < |keys| && lid !in pos && Stopped(keys[lid], distance, index)
      modifies this
      ensures Sound() && keys == old(keys) && Entered(old(pos.Keys) + {lid}, old(slotsMinusOne))
      decreases Room(|keys|, slotsMinusOne + 1), 4
    {
      HomeInside(policy, keys[lid], slotsMinusOne + 1);
      OneMissing(lid);
      if slotsMinusOne == 0 || distance == maxLookups || 2 * (numElements + 1) > slotsMinusOne + 1 {
        if distance == maxLookups { TooFar(lid, distance, index); }
        Grow();
        return;
      }
      Carry(lid, distance, index);
      if distances[index] < 0 {
        Place(lid, distance, index);
        return;
      }
      var d, x := Swap(lid, distance, index);
      Displace(d, index + 1, x);
    }

    /** Lid x, at distance d from home, is on its way through cell i and will fit. */
    ghost predicate Carrying(x: nat, d: nat, i: nat)
      reads this
    {
      && Sound() && Carried(policy, Tab(), pos, x, d, i)
      && 2 * (numElements + 1) <= slotsMinusOne + 1 && slotsMinusOne >= 3
    }

    lemma Carry(x: nat, d: nat, i: nat)
      requires Sound() && x < |keys| && x !in pos && Stopped(keys[x], d, i) && d != maxLookups
      requires 2 * (numElements + 1) <= slotsMinusOne + 1 && slotsMinusOne >= 3
      ensures Carrying(x, d, i)
    {
      if i > 0 { assert CellOk(policy, Tab(), pos, i - 1); }
      HomeInside(policy, keys[x], slotsMinusOne + 1);
    }

    /** The displacement chain. */
    method Displace(d0: nat, i0: nat, x0: nat)
      requires Carrying(x0, d0, i0)
      modifies this
      ensures Sound() && keys == old(keys) && Entered(old(pos.Keys) + {x0}, old(slotsMinusOne))
      decreases Room(|keys|, slotsMinusOne + 1), 3
    {
      var d: nat, i: nat, x: nat := d0, i0, x0;
      ghost var all := pos.Keys + {x0};
      while true
        invariant Carrying(x, d, i) && pos.Keys + {x} == all
        invariant keys == old(keys) && slotsMinusOne == old(slotsMinusOne) && maxLookups == old(maxLookups)
        decreases slotsMinusOne + maxLookups - i
      {
        var done;
        done, d, x := Hop(d, i, x);
        if done {
          return;
        }
        i := i + 1;
      }
    }

    /** One cell of the chain: the carried entry is put down, exchanged, passed on or dropped for growth. */
    method Hop(d: nat, i: nat, x: nat) returns (done: bool, e: nat, y: nat)
      requires Carrying(x, d, i)
      modifies this
      ensures keys == old(keys)
      ensures done ==> Sound() && Entered(old(pos.Keys) + {x}, old(slotsMinusOne))
      ensures !done ==> Carrying(y, e, i + 1) && pos.Keys + {y} == old(pos.Keys) + {x}
      ensures !done ==> slotsMinusOne == old(slotsMinusOne) && maxLookups == old(maxLookups)
      decreases Room(|keys|, slotsMinusOne + 1), 2
    {
      if distances[i] < 0 {
        Place(x, d, i);
        return true, 0, 0;
      } else if distances[i] < d {
        e, y := Swap(x, d, i);
      } else if d + 1 == maxLookups {
        GrowAround(x, d, i);
        return true, 0, 0;
      } else {
        Pass(x, d, i);
        e, y := d + 1, x;
      }
      done := false;
    }

    lemma Pass(x: nat, d: nat, i: nat)
      requires Carrying(x, d, i) && distances[i] >= d && d + 1 < maxLookups
      ensures Carrying(x, d + 1, i + 1)
    {
      PassCarries(policy, Tab(), pos, x, d, i);
    }

    lemma ChainTooLong(x: nat, d: nat, i: nat)
      requires Carrying(x, d, i) && distances[i] >= d && d + 1 == maxLookups
      ensures numElements <= |keys| && slotsMinusOne + 1 < Enough(|keys|)
    {
      TooFar(x, d + 1, i + 1);
    }

    /** The carried entry is dropped; the growth enters it with all the others. */
    method GrowAround(x: nat, d: nat, i: nat)
      requires Carrying(x, d, i) && distances[i] >= d && d + 1 == maxLookups
      modifies this
      ensures Valid() && keys == old(keys) && slotsMinusOne > old(slotsMinusOne)
      decreases Room(|keys|, slotsMinusOne + 1), 1
    {
      ChainTooLong(x, d, i);
      Grow();
    }

    method Grow()
      requires GoodPolicy(policy) && Distinct(keys) && numElements <= |keys|
      requires slotsMinusOne + 1 < Enough(|keys|)
      modifies this
      ensures Valid() && keys == old(keys) && slotsMinusOne > old(slotsMinusOne)
      decreases Room(|keys|, slotsMinusOne + 1), 0
    {
      Rehash(Max(4, 2 * BucketCount()));
    }

    /** A fresh table of at least the asked size, into which every key is entered in id order. */
    method Rehash(numBuckets: nat)
      requires GoodPolicy(policy) && Distinct(keys) && numElements <= |keys| && numBuckets >= 4
      requires policy.next(Max(numBuckets, 2 * numElements)) == BucketCount() ==> Valid()
      modifies this
      ensures Valid() && keys == old(keys) && slotsMinusOne + 1 >= numBuckets
      ensures slotsMinusOne + 1 >= policy.next(Max(numBuckets, 2 * old(numElements)))
      decreases Room(|keys|, numBuckets), 6
    {
      var slots := policy.next(Max(numBuckets, 2 * numElements));
      if slots == BucketCount() {
        return;
      }
      FreshTable(slots);
      for lid := 0 to |keys|
        invariant Sound() && keys == old(keys) && slotsMinusOne + 1 >= slots
        invariant forall l: nat :: l < lid ==> l in pos
      {
        Emplace(lid);
      }
    }

    method FreshTable(slots: nat)
      requires GoodPolicy(policy) && Distinct(keys) && slots >= 4
      modifies this`indices, this`distances, this`slotsMinusOne, this`maxLookups, this`numElements, this`pos
      ensures Sound() && pos == map[] && slotsMinusOne + 1 == slots && maxLookups == ComputeMaxLookups(slots) && numElements == 0
    {
      var lookups := ComputeMaxLookups(slots);
      indices := seq(slots + lookups, _ => 0);
      distances := seq(slots + lookups - 1, _ => -1) + [0];
      slotsMinusOne := slots - 1;
      maxLookups := lookups;
      numElements := 0;
      pos := map[];
      EmptyTableIsWf(policy, Tab());
    }

    /** Enters one key unless its id is already there. */
    method Emplace(lid: nat)
      requires Sound() && lid < |keys|
      modifies this
      ensures Sound() && keys == old(keys) && slotsMinusOne >= old(slotsMinusOne)
      ensures old(pos.Keys) + {lid} <= pos.Keys
      decreases Room(|keys|, slotsMinusOne + 1), 5
    {
      var there, distance, index := Locate(lid);
      if there {
        return;
      }
      forall l | l in pos ensures l < |keys| { assert PosOk(Tab(), pos, l); }
      EmplaceNewValue(distance, index, lid);
    }

    /** The probe loop of emplace: it looks for the id, not the key. */
    method Locate(lid: nat) returns (there: bool, distance: nat, index: nat)
      requires Sound() && lid < |keys|
      ensures there <==> lid in pos
      ensures !there ==> Stopped(keys[lid], distance, index)
    {
      index := policy.home(keys[lid], slotsMinusOne + 1);
      ghost var home := index;
      HomeInside(policy, keys[lid], slotsMinusOne + 1);
      distance := 0;
      while distances[index] >= distance
        invariant index == home + distance <= Last(Tab())
        invariant index > home ==> distances[index - 1] >= index - 1 - home
        invariant forall j | home <= j < index :: indices[j] != lid
        decreases |distances| - index
      {
        assert CellOk(policy, Tab(), pos, index);
        if indices[index] == lid {
          return true, distance, index;
        }
        index := index + 1;
        distance := distance + 1;
      }
      there := false;
      if lid in pos {
        assert PosOk(Tab(), pos, lid) && CellOk(policy, Tab(), pos, pos[lid]);
        if pos[lid] >= index { SearchReaches(policy, Tab(), pos, lid, index); }
      }
    }

    /** Puts x into an empty cell: the chain ends. */
    method Place(x: nat, d: nat, i: nat)
      requires Carrying(x, d, i) && distances[i] < 0
      modifies this`indices, this`distances, this`numElements, this`pos
      ensures Sound() && Tab() == Put(old(Tab()), i, x, d) && pos == old(pos)[x := i]
    {
      PutKeeps(policy, Tab(), pos, x, d, i, pos[x := i]);
      indices := indices[i := x];
      distances := distances[i := d];
      numElements := numElements + 1;
      pos := pos[x := i];
    }

    /** Exchanges x with the entry in cell i, which is then carried one cell on. */
    method Swap(x: nat, d: nat, i: nat) returns (e: nat, y: nat)
      requires Carrying(x, d, i) && 0 <= distances[i] < d
      modifies this`indices, this`distances, this`pos
      ensures Carrying(y, e, i + 1) && Tab() == Put(old(Tab()), i, x, d)
      ensures y == old(indices[i]) && pos == (old(pos) - {y})[x := i] && pos.Keys + {y} == old(pos.Keys) + {x}
    {
      assert CellOk(policy, Tab(), pos, i);
      y, e := indices[i], distances[i] + 1;
      PutKeeps(policy, Tab(), pos, x, d, i, (pos - {y})[x := i]);
      SwapCarries(policy, Tab(), pos, x, d, i);
      ExchangeSize(pos, x, y, i);
      indices := indices[i := x];
      distances := distances[i := d];
      pos := (pos - {y})[x := i];
      assert Tab() == Put(old(Tab()), i, x, d);
    }

    lemma OneMissing(lid: nat)
      requires Wf(policy, Tab(), pos) && lid < |keys| && lid !in pos
      ensures |pos| < |keys|
    {
      forall l | l in pos.Keys ensures l < |keys| { assert PosOk(Tab(), pos, l); }
      BelowCount(pos.Keys + {lid}, |keys|);
      assert |pos.Keys + {lid}| == |pos| + 1;
    }

    /** An entry carried to max_lookups has that many entries behind it, so the table is small. */
    lemma TooFar(x: nat, d: nat, i: nat)
      requires Wf(policy, Tab(), pos) && x < |keys| && x !in pos && d == maxLookups && 0 < i <= Last(Tab())
      requires policy.home(keys[x], slotsMinusOne + 1) + d == i
      requires distances[i - 1] >= d - 1 && Log2(slotsMinusOne + 1) <= maxLookups
      ensures slotsMinusOne + 1 < Enough(|keys|) && |pos| < |keys|
    {
      OneMissing(x);
      CarriedPastEntries(policy, Tab(), pos, policy.home(keys[x], slotsMinusOne + 1), i);
      BelowNextPower(slotsMinusOne + 1, |keys|);
    }
  }

  lemma ExchangeSize(pos: map<nat, nat>, x: nat, y: nat, i: nat)
    requires y in pos && x !in pos
    ensures |(pos - {y})[x := i]| == |pos| && (pos - {y})[x := i].Keys + {y} == pos.Keys + {x}
  {
    assert (pos - {y}).Keys == pos.Keys - {y};
    assert (pos - {y})[x := i].Keys == pos.Keys - {y} + {x};
    assert |pos| == |pos.Keys|;
    assert |(pos - {y})[x := i]| == |(pos - {y})[x := i].Keys|;
  }

  lemma EmptyTableIsWf(p: Policy, t: Table)
    requires GoodPolicy(p) && t.slots >= 1 && t.maxLookups >= 1 && |t.indices| == |t.distances| == t.slots + t.maxLookups
    requires t.distances == seq(Last(t), _ => -1) + [0]
    ensures Wf(p, t, map[])
  {
    forall j | 0 <= j < Last(t) ensures CellOk(p, t, map[], j) { }
  }
}
