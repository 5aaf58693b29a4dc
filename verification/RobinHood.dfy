/**
  The Robin Hood table of the id indexer as a value: what well-formed means, why a search may stop
  early, and what one displacement does to it.
 */
module RobinHood {

  /**
    The hash policy: which slot a key calls home among `slots` slots, and the table size used when
    at least n slots are wanted.  Nothing else is known about either.
   */
  datatype Policy = Policy(home: (int, nat) -> nat, next: nat -> nat)

  ghost predicate GoodPolicy(p: Policy) {
    && (forall k: int, slots: nat :: slots > 0 ==> p.home(k, slots) < slots)
    && (forall n: nat :: p.next(n) >= n)
  }

  lemma HomeInside(p: Policy, k: int, slots: nat)
    requires GoodPolicy(p) && slots > 0
    ensures p.home(k, slots) < slots
  {
  }

  /** keys_, indices_, distances_, the number of slots and max_lookups_ of the source. */
  datatype Table = Table(keys: seq<int>, indices: seq<nat>, distances: seq<int>, slots: nat, maxLookups: nat)

  /** The cell after the last one an entry may use; its distance 0 stops every search. */
  function Last(t: Table): int {
    t.slots + t.maxLookups - 1
  }

  /**
    One cell: the Robin Hood bound (a distance exceeds its left neighbour's by at most 1), and if
    occupied, the entry sits at its recorded distance from home.
   */
  ghost predicate CellOk(p: Policy, t: Table, pos: map<nat, nat>, i: nat)
    requires i < |t.distances| == |t.indices|
  {
    var d := t.distances[i];
    && -1 <= d < t.maxLookups
    && d <= (if i == 0 then 0 else t.distances[i - 1] + 1)
    && (d >= 0 ==>
          && t.indices[i] < |t.keys| && t.indices[i] in pos && pos[t.indices[i]] == i
          && p.home(t.keys[t.indices[i]], t.slots) + d == i)
  }

  ghost predicate PosOk(t: Table, pos: map<nat, nat>, l: nat)
    requires |t.distances| == |t.indices|
  {
    l in pos && l < |t.keys| && pos[l] < Last(t) < |t.distances| && t.distances[pos[l]] >= 0 && t.indices[pos[l]] == l
  }

  /** `pos` says in which cell each entered lid is. */
  ghost predicate Wf(p: Policy, t: Table, pos: map<nat, nat>) {
    && GoodPolicy(p)
    && 1 <= t.slots && 1 <= t.maxLookups && |t.distances| == |t.indices| == t.slots + t.maxLookups
    && t.distances[Last(t)] == 0
    && (forall i {:trigger CellOk(p, t, pos, i)} | 0 <= i < Last(t) :: CellOk(p, t, pos, i))
    && (forall l {:trigger PosOk(t, pos, l)} | l in pos :: PosOk(t, pos, l))
  }

  /** Every lid below the number of keys is entered. */
  ghost predicate Complete(t: Table, pos: map<nat, nat>) {
    forall l: nat :: l < |t.keys| ==> l in pos
  }

  /** Distances climb by at most 1 from cell to cell. */
  lemma {:induction false} Climb(p: Policy, t: Table, pos: map<nat, nat>, a: nat, b: nat)
    requires Wf(p, t, pos) && a <= b < Last(t)
    ensures t.distances[b] <= t.distances[a] + (b - a)
    decreases b - a
  {
    if a < b {
      Climb(p, t, pos, a, b - 1);
      assert CellOk(p, t, pos, b);
    }
  }

  /** A search for an entered lid cannot stop before reaching its cell. */
  lemma SearchReaches(p: Policy, t: Table, pos: map<nat, nat>, l: nat, index: nat)
    requires Wf(p, t, pos) && l in pos && l < |t.keys|
    requires p.home(t.keys[l], t.slots) <= index <= pos[l]
    ensures pos[l] < Last(t) && t.distances[index] >= index - p.home(t.keys[l], t.slots)
  {
    assert PosOk(t, pos, l) && CellOk(p, t, pos, pos[l]);
    Climb(p, t, pos, index, pos[l]);
  }

  /** A run of occupied cells is no longer than the number of entries. */
  lemma {:induction false} RunIsShort(indices: seq<nat>, pos: map<nat, nat>, a: nat, b: nat)
    requires a <= b <= |indices|
    requires forall j | a <= j < b :: indices[j] in pos && pos[indices[j]] == j
    ensures b - a <= |pos|
    decreases b
  {
    if a < b {
      var rest := pos - {indices[b - 1]};
      assert rest.Keys == pos.Keys - {indices[b - 1]};
      forall j | a <= j < b - 1 ensures indices[j] in rest && rest[indices[j]] == j {
        assert pos[indices[j]] != pos[indices[b - 1]];
      }
      RunIsShort(indices, rest, a, b - 1);
      assert |pos| == |pos.Keys| == |rest.Keys| + 1;
    }
  }

  /** An entry carried at distance d from home has d entries behind it. */
  lemma CarriedPastEntries(p: Policy, t: Table, pos: map<nat, nat>, home: nat, index: nat)
    requires Wf(p, t, pos) && home <= index <= Last(t)
    requires index > home ==> t.distances[index - 1] >= index - 1 - home
    ensures index - home <= |pos|
  {
    forall j | home <= j < index ensures t.indices[j] in pos && pos[t.indices[j]] == j {
      Climb(p, t, pos, j, index - 1);
      assert CellOk(p, t, pos, j);
    }
    RunIsShort(t.indices, pos, home, index);
  }

  /** The entry being carried: lid x at distance d from home has reached cell i. */
  ghost predicate Carried(p: Policy, t: Table, pos: map<nat, nat>, x: nat, d: nat, i: nat) {
    && x < |t.keys| && x !in pos && d < t.maxLookups && i < Last(t) < |t.distances|
    && p.home(t.keys[x], t.slots) + d == i
    && (i > 0 ==> d <= t.distances[i - 1] + 1)
  }

  function Put(t: Table, i: nat, x: nat, d: nat): Table
    requires i < |t.indices| == |t.distances|
  {
    t.(indices := t.indices[i := x], distances := t.distances[i := d])
  }

  /** Into an empty cell, or in place of an entry closer to its home: the table stays well-formed. */
  lemma PutKeeps(p: Policy, t: Table, pos: map<nat, nat>, x: nat, d: nat, i: nat, pos': map<nat, nat>)
    requires Wf(p, t, pos) && Carried(p, t, pos, x, d, i) && t.distances[i] < d
    requires pos' == (if t.distances[i] < 0 then pos else pos - {t.indices[i]})[x := i]
    ensures Wf(p, Put(t, i, x, d), pos')
  {
    var r := Put(t, i, x, d);
    assert CellOk(p, t, pos, i);
    forall j | 0 <= j < Last(r) ensures CellOk(p, r, pos', j) {
      assert CellOk(p, t, pos, j);
    }
    forall l | l in pos' ensures PosOk(r, pos', l) {
      if l != x { assert PosOk(t, pos, l); }
    }
  }

  /** After a swap the old entry is carried on to the next cell. */
  lemma SwapCarries(p: Policy, t: Table, pos: map<nat, nat>, x: nat, d: nat, i: nat)
    requires Wf(p, t, pos) && Carried(p, t, pos, x, d, i) && 0 <= t.distances[i] < d
    ensures var y, e := t.indices[i], t.distances[i] + 1;
            Carried(p, Put(t, i, x, d), (pos - {y})[x := i], y, e, i + 1)
  {
    assert CellOk(p, t, pos, i);
    var y := t.indices[i];
    HomeInside(p, t.keys[y], t.slots);
  }

  /** Passing an entry at least as far from its home. */
  lemma PassCarries(p: Policy, t: Table, pos: map<nat, nat>, x: nat, d: nat, i: nat)
    requires Wf(p, t, pos) && Carried(p, t, pos, x, d, i) && t.distances[i] >= d && d + 1 < t.maxLookups
    ensures Carried(p, t, pos, x, d + 1, i + 1)
  {
    HomeInside(p, t.keys[x], t.slots);
  }
}
