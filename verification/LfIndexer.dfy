/**
  The read-only indexer built from an id indexer: the same slots, searched by linear probing that
  wraps around before the last slot, without distances.
 */
module LfIndexer {
  import opened RobinHood
  import opened IdIndexer
  import opened Collections

  /** index_key_item; the largest index value is the sentinel. */
  datatype Cell = Sentinel | Entry(index: nat, key: int)

  /** The cell looked at after cell x; n is num_slots_minus_one_. */
  function Next(n: nat, x: nat): (r: nat)
    requires n > 0
    ensures r < n
    ensures x < n ==> r == if x == n - 1 then 0 else x + 1
    ensures x == n >= 2 ==> r == 1
  {
    assert x == n >= 2 ==> (n + 1) % n == 1;
    (x + 1) % n
  }

  /** The cell looked at after t steps from `home`. */
  function Probe(n: nat, home: nat, t: nat): nat
    requires t > 0 ==> n > 0
  {
    if t == 0 then home else Next(n, Probe(n, home, t - 1))
  }

  lemma {:induction false} ProbeAt(n: nat, home: nat, t: nat)
    requires 2 <= n && home <= n && t < n
    ensures var start := if home == n then 1 else if home == n - 1 then 0 else home + 1;
            Probe(n, home, t + 1) == if start + t < n then start + t else start + t - n
  {
    if t == 0 {
      assert Probe(n, home, 0) == home;
    } else {
      ProbeAt(n, home, t - 1);
    }
  }

  /** From every home, probing comes to every cell below n within n steps. */
  lemma ProbeReaches(n: nat, home: nat, cell: nat) returns (t: nat)
    requires 2 <= n && home <= n && cell < n
    ensures 1 <= t <= n && Probe(n, home, t) == cell
  {
    var start := if home == n then 1 else if home == n - 1 then 0 else home + 1;
    t := if cell >= start then cell - start + 1 else cell + n - start + 1;
    ProbeAt(n, home, t - 1);
  }

  ghost predicate Used(cells: seq<Cell>, n: nat, home: nat, t: nat) {
    (t > 0 ==> n > 0) && Probe(n, home, t) < |cells| && cells[Probe(n, home, t)].Entry?
  }

  /** Key number l is in some cell that probing from its home reaches over used cells only. */
  ghost predicate Reachable(p: Policy, keys: seq<int>, cells: seq<Cell>, n: nat, l: nat) {
    l < |keys| && exists t: nat :: Reached(p, keys, cells, n, l, t)
  }

  ghost predicate Reached(p: Policy, keys: seq<int>, cells: seq<Cell>, n: nat, l: nat, t: nat)
    requires l < |keys|
  {
    var home := p.home(keys[l], n + 1);
    && (forall s: nat :: s <= t ==> Used(cells, n, home, s)) && Used(cells, n, home, t)
    && cells[Probe(n, home, t)] == Entry(l, keys[l])
  }

  ghost predicate EntryOk(keys: seq<int>, cells: seq<Cell>, at: map<nat, nat>, c: nat)
    requires c < |cells|
  {
    cells[c].Entry? ==>
      var l := cells[c].index;
      l < |keys| && cells[c].key == keys[l] && l in at && at[l] == c
  }

  /** Every used cell holds a key and its number, and no number is in two cells. */
  ghost predicate EntriesOk(keys: seq<int>, cells: seq<Cell>, at: map<nat, nat>, n: nat) {
    && n < |cells|
    && (forall c {:trigger EntryOk(keys, cells, at, c)} | 0 <= c < |cells| :: EntryOk(keys, cells, at, c))
    && (forall l | l in at :: l < |keys|)
  }

  /** What holds of the cells at any time: true entries, and room for one more. */
  ghost predicate CellsOk(p: Policy, keys: seq<int>, cells: seq<Cell>, at: map<nat, nat>, n: nat) {
    && GoodPolicy(p) && Distinct(keys) && EntriesOk(keys, cells, at, n)
    && (n == 0 ==> keys == []) && (n > 0 ==> 2 <= n && |keys| < n)
  }

  lemma AllUsed(keys: seq<int>, cells: seq<Cell>, at: map<nat, nat>, n: nat, home: nat)
    requires EntriesOk(keys, cells, at, n) && home <= n && n >= 2
    requires forall t {:trigger Used(cells, n, home, t)} | 1 <= t <= n :: Used(cells, n, home, t)
    ensures n <= |keys|
  {
    var indices := seq(n, c requires 0 <= c < n => if cells[c].Entry? then cells[c].index else 0);
    forall c | 0 <= c < n ensures indices[c] in at && at[indices[c]] == c {
      var t := ProbeReaches(n, home, c);
      assert Used(cells, n, home, t) && EntryOk(keys, cells, at, c);
    }
    RunIsShort(indices, at, 0, n);
    BelowCount(at.Keys, |keys|);
    assert |at| == |at.Keys|;
  }

  /** Probing comes to an empty cell within n steps. */
  lemma FreeCellAhead(p: Policy, keys: seq<int>, cells: seq<Cell>, at: map<nat, nat>, n: nat, home: nat, t: nat)
    requires CellsOk(p, keys, cells, at, n) && home <= n && Used(cells, n, home, t)
    requires forall s | 0 <= s < t :: Used(cells, n, home, s)
    ensures t < n
  {
    assert EntryOk(keys, cells, at, Probe(n, home, t));
    if t >= n {
      AllUsed(keys, cells, at, n, home);
    }
  }

  /** Probing for a key in the table meets it before any empty cell. */
  lemma MetBeforeFree(p: Policy, keys: seq<int>, cells: seq<Cell>, n: nat, l: nat, home: nat, t: nat)
    requires Reachable(p, keys, cells, n, l) && home == p.home(keys[l], n + 1) && !Used(cells, n, home, t)
    ensures exists s {:trigger Used(cells, n, home, s)} ::
              0 <= s < t && Used(cells, n, home, s) && cells[Probe(n, home, s)] == Entry(l, keys[l])
  {
    var u: nat :| Reached(p, keys, cells, n, l, u);
    assert Used(cells, n, home, u);
  }

  ghost predicate AllReachable(p: Policy, keys: seq<int>, cells: seq<Cell>, n: nat, lids: set<nat>) {
    forall l {:trigger Reachable(p, keys, cells, n, l)} | l in lids :: Reachable(p, keys, cells, n, l)
  }

  lemma OnTheWay(p: Policy, keys: seq<int>, cells: seq<Cell>, n: nat, at: map<nat, nat>, oid: int, t: nat)
    requires AllReachable(p, keys, cells, n, at.Keys) && (forall l: nat | l < |keys| :: l in at)
    requires oid in keys && !Used(cells, n, p.home(oid, n + 1), t)
    ensures exists s {:trigger Used(cells, n, p.home(oid, n + 1), s)} ::
              0 <= s < t && Used(cells, n, p.home(oid, n + 1), s) && cells[Probe(n, p.home(oid, n + 1), s)].key == oid
  {
    var l: nat :| l < |keys| && keys[l] == oid;
    MetBeforeFree(p, keys, cells, n, l, p.home(oid, n + 1), t);
  }

  class LfIndexer {
    var policy: Policy
    var cells: seq<Cell>
    var slotsMinusOne: nat
    ghost var keys: seq<int>
    ghost var at: map<nat, nat>

    ghost predicate Valid()
      reads this
    {
      && CellsOk(policy, keys, cells, at, slotsMinusOne)
      && AllReachable(policy, keys, cells, slotsMinusOne, at.Keys) && forall l: nat | l < |keys| :: l in at
    }

    constructor ()
    {
      policy := Policy((k, n) => 0, n => n);
      cells := [];
      slotsMinusOne := 0;
      keys := [];
      at := map[];
    }

    /** `get_index` by linear probing: it ends, and finds exactly the keys of the table it was built from. */
    method GetIndex(oid: int) returns (found: bool, lid: nat)
      requires Valid()
      ensures found <==> oid in keys
      ensures found ==> lid < |keys| && keys[lid] == oid
    {
      var index := policy.home(oid, slotsMinusOne + 1);
      HomeInside(policy, oid, slotsMinusOne + 1);
      ghost var home, t := index, 0;
      while true
        invariant t <= slotsMinusOne && index == Probe(slotsMinusOne, home, t) <= slotsMinusOne
        invariant forall s {:trigger Used(cells, slotsMinusOne, home, s)} | 0 <= s < t ::
                    Used(cells, slotsMinusOne, home, s) && cells[Probe(slotsMinusOne, home, s)].key != oid
        decreases slotsMinusOne - t
      {
        var cell := cells[index];
        if cell.Sentinel? {
          if oid in keys {
            OnTheWay(policy, keys, cells, slotsMinusOne, at, oid, t);
          }
          return false, 0;
        }
        assert EntryOk(keys, cells, at, index);
        if cell.key == oid {
          return true, cell.index;
        }
        FreeCellAhead(policy, keys, cells, at, slotsMinusOne, home, t);
        index := Next(slotsMinusOne, index);
        t := t + 1;
      }
    }

    /** `build_lf_indexer`: entries before the last slot stay where they are, the others are probed in. */
    method Build(input: IdIndexer)
      requires input.Valid()
      modifies this
      ensures Valid() && keys == input.keys && policy == input.policy
      ensures slotsMinusOne == input.slotsMinusOne && |cells| == |input.indices|
    {
      policy := input.policy;
      slotsMinusOne := input.slotsMinusOne;
      keys := input.keys;
      at := map l | l in input.pos && input.pos[l] < slotsMinusOne :: input.pos[l];
      var extra := CopyInPlace(input);
      CopiedCellsOk(input);
      InsertAll(extra);
    }

    method InsertAll(extra: seq<(int, nat)>)
      requires CellsOk(policy, keys, cells, at, slotsMinusOne) && ExtraOk(keys, at.Keys, extra)
      requires AllReachable(policy, keys, cells, slotsMinusOne, at.Keys)
      modifies this`cells, this`at
      ensures Valid() && |cells| == old(|cells|)
    {
      for e := 0 to |extra|
        invariant CellsOk(policy, keys, cells, at, slotsMinusOne) && |cells| == old(|cells|)
        invariant ExtraOk(keys, at.Keys, extra[e..])
        invariant AllReachable(policy, keys, cells, slotsMinusOne, at.Keys)
      {
        ghost var before, was := cells, at.Keys;
        ExtraTail(keys, was, extra, e);
        InsertExtra(extra[e].0, extra[e].1);
        AllStillReachable(policy, keys, before, cells, slotsMinusOne, was);
      }
    }

    /** Every key's entry before the last slot goes to the cell with the same number. */
    method CopyInPlace(input: IdIndexer) returns (extra: seq<(int, nat)>)
      requires input.Valid() && policy == input.policy && keys == input.keys && slotsMinusOne == input.slotsMinusOne
      requires at == map l | l in input.pos && input.pos[l] < slotsMinusOne :: input.pos[l]
      modifies this`cells
      ensures |cells| == |input.indices| && ExtraOk(keys, at.Keys, extra)
      ensures forall c | 0 <= c < |cells| :: cells[c] == Copied(input.Tab(), c, |keys|)
    {
      extra := [];
      cells := seq(|input.indices|, _ => Sentinel);
      for m := 0 to |input.keys|
        invariant |cells| == |input.indices|
        invariant forall c | 0 <= c < |cells| :: cells[c] == Copied(input.Tab(), c, m)
        invariant LeftOver(keys, at.Keys, extra, m)
      {
        var oid := input.keys[m];
        var found, distance, index, ret := input.Search(oid);
        assert ret == m;
        assert PosOk(input.Tab(), input.pos, m);
        CopiedNext(input, m, index);
        LeftOverNext(keys, at.Keys, extra, m);
        if index >= slotsMinusOne {
          extra := extra + [(oid, ret)];
        } else {
          cells := cells[index := Entry(ret, oid)];
        }
        forall c | 0 <= c < |cells| ensures cells[c] == Copied(input.Tab(), c, m + 1) {
          assert CopiedOne(input.Tab(), c, m, index);
        }
      }
    }

    /** Looking at key m adds its cell to those copied, if that is before the last slot. */
    lemma CopiedNext(input: IdIndexer, m: nat, index: nat)
      requires input.Valid() && policy == input.policy && slotsMinusOne == input.slotsMinusOne
      requires m in input.pos && input.pos[m] == index && m < |input.keys|
      ensures forall c | 0 <= c < |input.indices| :: CopiedOne(input.Tab(), c, m, index)
    {
      assert PosOk(input.Tab(), input.pos, m);
      forall c | 0 <= c < |input.indices| ensures CopiedOne(input.Tab(), c, m, index) {
        if c < slotsMinusOne { assert CellOk(policy, input.Tab(), input.pos, c); }
      }
    }

    lemma CopiedCellsOk(input: IdIndexer)
      requires input.Valid() && policy == input.policy && keys == input.keys && slotsMinusOne == input.slotsMinusOne
      requires at == map l | l in input.pos && input.pos[l] < slotsMinusOne :: input.pos[l]
      requires |cells| == |input.indices|
      requires forall c | 0 <= c < |cells| :: cells[c] == Copied(input.Tab(), c, |keys|)
      ensures CellsOk(policy, keys, cells, at, slotsMinusOne)
      ensures AllReachable(policy, keys, cells, slotsMinusOne, at.Keys)
    {
      forall c | 0 <= c < |cells| ensures EntryOk(keys, cells, at, c) {
        if c < slotsMinusOne { assert CellOk(policy, input.Tab(), input.pos, c); }
      }
      AboveCount(input.pos.Keys, |keys|);
      assert |input.pos| == |input.pos.Keys|;
      forall l | l in at ensures l < |keys| && Reachable(policy, keys, cells, slotsMinusOne, l) {
        assert PosOk(input.Tab(), input.pos, l);
        CopiedReachable(policy, input.Tab(), input.pos, cells, l);
      }
    }

    /** The extra loop's body: the pair goes to the first empty cell on its way. */
    method InsertExtra(oid: int, lid: nat)
      requires CellsOk(policy, keys, cells, at, slotsMinusOne)
      requires lid < |keys| && keys[lid] == oid && lid !in at
      modifies this`cells, this`at
      ensures CellsOk(policy, keys, cells, at, slotsMinusOne) && |cells| == |old(cells)|
      ensures at.Keys == old(at.Keys) + {lid} && Reachable(policy, keys, cells, slotsMinusOne, lid)
      ensures forall c | 0 <= c < |cells| && old(cells)[c].Entry? :: cells[c] == old(cells)[c]
    {
      var index := policy.home(oid, slotsMinusOne + 1);
      HomeInside(policy, oid, slotsMinusOne + 1);
      ghost var home, t := index, 0;
      while cells[index].Entry?
        invariant t <= slotsMinusOne && index == Probe(slotsMinusOne, home, t) <= slotsMinusOne
        invariant cells == old(cells) && at == old(at)
        invariant forall s | 0 <= s < t :: Used(cells, slotsMinusOne, home, s)
        decreases slotsMinusOne - t
      {
        FreeCellAhead(policy, keys, cells, at, slotsMinusOne, home, t);
        index := Next(slotsMinusOne, index);
        t := t + 1;
      }
      cells := cells[index := Entry(lid, oid)];
      at := at[lid := index];
      forall c | 0 <= c < |cells| ensures EntryOk(keys, cells, at, c) {
        assert EntryOk(keys, old(cells), old(at), c);
      }
      forall s: nat | s <= t ensures Used(cells, slotsMinusOne, home, s) {
        assert s == t || Used(old(cells), slotsMinusOne, home, s);
      }
      assert Reached(policy, keys, cells, slotsMinusOne, lid, t);
    }
  }

  /** The pairs still to be entered: exactly the keys not in a cell yet, each once. */
  ghost predicate ExtraOk(keys: seq<int>, lids: set<nat>, extra: seq<(int, nat)>) {
    LeftOver(keys, lids, extra, |keys|)
  }

  ghost predicate Waiting(keys: seq<int>, extra: seq<(int, nat)>, l: nat)
    requires l < |keys|
  {
    (keys[l], l) in extra
  }

  lemma ExtraTail(keys: seq<int>, lids: set<nat>, extra: seq<(int, nat)>, e: nat)
    requires e < |extra| && ExtraOk(keys, lids, extra[e..])
    ensures var (oid, lid) := extra[e];
            lid < |keys| && keys[lid] == oid && lid !in lids && ExtraOk(keys, lids + {lid}, extra[e + 1..])
  {
    var all, rest := extra[e..], extra[e + 1..];
    assert all == [extra[e]] + rest;
    forall x | x in rest ensures x in all && x != extra[e] {
      var j :| 0 <= j < |rest| && rest[j] == x;
      assert all[0] != all[j + 1];
    }
    forall i, j | 0 <= i < j < |rest| ensures rest[i] != rest[j] {
      assert all[i + 1] != all[j + 1];
    }
    forall l: nat | l < |keys| && l !in lids + {extra[e].1} ensures Waiting(keys, rest, l) {
      assert Waiting(keys, all, l);
    }
  }

  /** What cell c holds after the first m keys have been copied. */
  ghost function Copied(t: Table, c: nat, m: nat): Cell
    requires c < |t.indices| == |t.distances|
  {
    if c < t.slots - 1 && t.distances[c] >= 0 && t.indices[c] < m && t.indices[c] < |t.keys|
    then Entry(t.indices[c], t.keys[t.indices[c]]) else Sentinel
  }

  /** The entries left over from the first m keys, each once. */
  ghost predicate LeftOver(keys: seq<int>, copied: set<nat>, extra: seq<(int, nat)>, m: nat)
    requires m <= |keys|
  {
    && (forall x | x in extra :: x.1 < m && keys[x.1] == x.0 && x.1 !in copied)
    && (forall l: nat | l < m && l !in copied :: Waiting(keys, extra, l))
    && (forall i, j | 0 <= i < j < |extra| :: extra[i] != extra[j])
  }

  lemma LeftOverNext(keys: seq<int>, copied: set<nat>, extra: seq<(int, nat)>, m: nat)
    requires m < |keys| && LeftOver(keys, copied, extra, m)
    ensures LeftOver(keys, copied, if m in copied then extra else extra + [(keys[m], m)], m + 1)
  {
  }

  /** The cell to be copied when key m, found at index, has been looked at. */
  ghost predicate CopiedOne(t: Table, c: nat, m: nat, index: nat)
    requires c < |t.indices| == |t.distances| && m < |t.keys|
  {
    Copied(t, c, m + 1) == if c == index && index < t.slots - 1 then Entry(m, t.keys[m]) else Copied(t, c, m)
  }

  /** More entries do not make a key unreachable. */
  lemma StillReachable(p: Policy, keys: seq<int>, cells: seq<Cell>, cells': seq<Cell>, n: nat, l: nat)
    requires Reachable(p, keys, cells, n, l) && |cells'| == |cells|
    requires forall c | 0 <= c < |cells| && cells[c].Entry? :: cells'[c] == cells[c]
    ensures Reachable(p, keys, cells', n, l)
  {
    var t: nat :| Reached(p, keys, cells, n, l, t);
    var home := p.home(keys[l], n + 1);
    forall s: nat | s <= t ensures Used(cells', n, home, s) {
      assert Used(cells, n, home, s);
    }
    assert Used(cells, n, home, t);
    assert Reached(p, keys, cells', n, l, t);
  }

  lemma AllStillReachable(p: Policy, keys: seq<int>, cells: seq<Cell>, cells': seq<Cell>, n: nat, lids: set<nat>)
    requires AllReachable(p, keys, cells, n, lids) && |cells'| == |cells|
    requires forall c | 0 <= c < |cells| && cells[c].Entry? :: cells'[c] == cells[c]
    ensures AllReachable(p, keys, cells', n, lids)
  {
    forall l | l in lids ensures Reachable(p, keys, cells', n, l) {
      assert Reachable(p, keys, cells, n, l);
      StillReachable(p, keys, cells, cells', n, l);
    }
  }

  /** While it does not wrap around, probing is counting up. */
  lemma {:induction false} ProbeUp(n: nat, home: nat, t: nat)
    requires home + t < n
    ensures Probe(n, home, t) == home + t
  {
    if t > 0 { ProbeUp(n, home, t - 1); }
  }

  /** A Robin Hood entry has only used cells between its home and itself. */
  lemma CopiedReachable(p: Policy, t: Table, pos: map<nat, nat>, cells: seq<Cell>, l: nat)
    requires Wf(p, t, pos) && l in pos && pos[l] < t.slots - 1
    requires |cells| == |t.indices|
    requires forall c | 0 <= c < |cells| :: cells[c] == Copied(t, c, |t.keys|)
    ensures Reachable(p, t.keys, cells, t.slots - 1, l)
  {
    assert PosOk(t, pos, l) && CellOk(p, t, pos, pos[l]);
    var n, home := t.slots - 1, p.home(t.keys[l], t.slots);
    HomeInside(p, t.keys[l], t.slots);
    var d := pos[l] - home;
    forall s: nat | s <= d ensures Used(cells, n, home, s) {
      ProbeUp(n, home, s);
      SearchReaches(p, t, pos, l, home + s);
      assert CellOk(p, t, pos, home + s);
    }
    ProbeUp(n, home, d);
    assert Reached(p, t.keys, cells, n, l, d);
  }
}
