/** Each kind of change to the shared state keeps the pool invariant and leaves the others alone. */
module PageFetchSteps {
  import opened Collections
  import opened PageFetch
  import opened PageFetchInv

  /** r differs from g only in reference counts, strays and debts. */
  ghost predicate OnlyCounts(g: Pool, r: Pool) {
    && r == g.(ptes := r.ptes, strays := r.strays, debts := r.debts)
    && |r.ptes| == |g.ptes| && |r.strays| == |g.strays|
    && forall x | 0 <= x < |g.ptes| :: r.ptes[x] == g.ptes[x].(refCount := r.ptes[x].refCount)
  }

  lemma KeepOnlyCounts(g: Pool, r: Pool)
    requires PoolInv(g) && OnlyCounts(g, r)
    requires forall m | 0 <= m < |g.ptes| :: CountOk(r, m)
    ensures PoolInv(r)
  {
    forall x | 0 <= x < |r.ptes| ensures PlaceOk(r, x) { assert PlaceOk(g, x); StillBacked(g, r, x); }
    forall q | q in r.mapping ensures PageOk(r, q) { assert PageOk(g, q); }
    forall k | k in r.pins ensures PinOk(r, k) { assert PinOk(g, k); }
  }

  lemma CountsOnly(g: Pool, r: Pool, t: int)
    requires Shaped(g) && Shaped(r) && |r.ptes| == |g.ptes|
    requires r == g.(ptes := r.ptes, strays := r.strays, debts := r.debts, pins := r.pins, nextPin := r.nextPin)
    requires forall x | 0 <= x < |g.ptes| :: r.ptes[x] == g.ptes[x].(refCount := r.ptes[x].refCount, dirty := r.ptes[x].dirty)
    requires t >= 0 && forall k | k in g.pins && k != g.nextPin :: k in r.pins && r.pins[k] == g.pins[k]
    requires forall x, u | 0 <= x < |g.ptes| && u in r.strays[x] && u != t :: u in g.strays[x]
    requires forall u: nat | u != t :: (u in g.debts <==> u in r.debts) && (u in g.debts ==> r.debts[u] == g.debts[u])
    ensures Leaves(g, r, t)
  {
  }

  lemma KeepPinAddBusy(g: Pool, t: nat, m: nat)
    requires PoolInv(g) && m < |g.ptes| && g.ptes[m].busy && t !in g.strays[m]
    ensures var r := SetPte(g, m, g.ptes[m].(refCount := g.ptes[m].refCount + 1)).(strays := g.strays[m := g.strays[m] + {t}]);
            PoolInv(r)
  {
    var r := SetPte(g, m, g.ptes[m].(refCount := g.ptes[m].refCount + 1)).(strays := g.strays[m := g.strays[m] + {t}]);
    forall x | 0 <= x < |r.ptes| ensures CountOk(r, x) {
      assert CountOk(g, x);
      assert PinsOn(r, x) == PinsOn(g, x) && DebtsOn(r, x) == DebtsOn(g, x);
    }
    KeepOnlyCounts(g, r);
  }

  lemma KeepPinAddOther(g: Pool, t: nat, m: nat)
    requires PoolInv(g) && m < |g.ptes| && g.ptes[m].initialized && !g.ptes[m].busy && t !in g.debts
    ensures var r := SetPte(g, m, g.ptes[m].(refCount := g.ptes[m].refCount + 1)).(debts := g.debts[t := m]);
            PoolInv(r)
  {
    var r := SetPte(g, m, g.ptes[m].(refCount := g.ptes[m].refCount + 1)).(debts := g.debts[t := m]);
    forall x | 0 <= x < |r.ptes| ensures CountOk(r, x) {
      assert CountOk(g, x);
      AddDebt(g.debts, t, m, x);
      assert x != m ==> DebtsOn(r, x) == DebtsOn(g, x);
    }
    KeepOnlyCounts(g, r);
  }

  lemma KeepPinUndo(g: Pool, t: nat, m: nat)
    requires PoolInv(g) && m < |g.ptes| && t in g.debts && g.debts[t] == m
    ensures var r := SetPte(g, m, g.ptes[m].(refCount := g.ptes[m].refCount - 1)).(debts := g.debts - {t});
            PoolInv(r)
  {
    var r := SetPte(g, m, g.ptes[m].(refCount := g.ptes[m].refCount - 1)).(debts := g.debts - {t});
    forall x | 0 <= x < |r.ptes| ensures CountOk(r, x) {
      assert CountOk(g, x);
      DropDebt(g.debts, t, x);
      assert DebtsOn(r, x) <= DebtsOn(g, x);
      assert x == m ==> t in DebtsOn(g, m);
    }
    KeepOnlyCounts(g, r);
  }

  lemma KeepPinGrant(g: Pool, t: nat, m: nat)
    requires PoolInv(g) && m < |g.ptes| && g.ptes[m].initialized && !g.ptes[m].busy
    ensures var r := GrantPin(SetPte(g, m, g.ptes[m].(refCount := g.ptes[m].refCount + 1)), m, g.ptes[m].page);
            PoolInv(r)
  {
    var k0, e := g.nextPin, g.ptes[m];
    var r := GrantPin(SetPte(g, m, e.(refCount := e.refCount + 1)), m, e.page);
    forall k | k in g.pins ensures k < k0 { assert PinOk(g, k); }
    forall x | 0 <= x < |r.ptes| ensures CountOk(r, x) {
      assert CountOk(g, x);
      AddPin(g.pins, k0, Pin(m, e.page, false), x);
      assert x != m ==> PinsOn(r, x) == PinsOn(g, x);
    }
    KeepGranted(g, r, m);
  }

  lemma KeepGranted(g: Pool, r: Pool, m: nat)
    requires PoolInv(g) && m < |g.ptes| && g.ptes[m].initialized && !g.ptes[m].busy
    requires r == GrantPin(SetPte(g, m, g.ptes[m].(refCount := g.ptes[m].refCount + 1)), m, g.ptes[m].page)
    requires forall k | k in g.pins :: k < g.nextPin
    requires forall x | 0 <= x < |r.ptes| :: CountOk(r, x)
    ensures PoolInv(r)
  {
    assert PlaceOk(g, m);
    forall x | 0 <= x < |r.ptes| ensures PlaceOk(r, x) { assert PlaceOk(g, x); StillBacked(g, r, x); }
    forall q | q in r.mapping ensures PageOk(r, q) { assert PageOk(g, q); }
    forall k | k in r.pins ensures PinOk(r, k) { if k in g.pins { assert PinOk(g, k); } }
  }

  /** A frame stays backed while its bytes and its page agree and no mark is lost. */
  lemma StillBacked(g: Pool, r: Pool, m: nat)
    requires Shaped(g) && Shaped(r) && m < |g.ptes| == |r.ptes| && r.mapping.Keys == g.mapping.Keys
    requires g.ptes[m].page in g.mapping ==>
               r.content[g.ptes[m].page] == g.content[g.ptes[m].page] && r.disk[g.ptes[m].page] == g.disk[g.ptes[m].page]
    requires r.frames[m] == g.frames[m] && r.ptes[m].page == g.ptes[m].page && (g.ptes[m].dirty ==> r.ptes[m].dirty)
    requires forall k {:trigger WroteTo(g, k, m)} | WroteTo(g, k, m) :: WroteTo(r, k, m) || r.ptes[m].dirty
    ensures Backed(g, m) ==> Backed(r, m)
  {
    if Backed(g, m) && exists k :: WroteTo(g, k, m) {
      var k :| WroteTo(g, k, m);
      assert WroteTo(r, k, m) || r.ptes[m].dirty;
    }
  }

  lemma CountsStay(g: Pool, r: Pool)
    requires PoolInv(g) && Shaped(r) && r.ptes == g.ptes && r.pins == g.pins && r.debts == g.debts && r.strays == g.strays
    requires r.mapping.Keys == g.mapping.Keys
    ensures forall m | 0 <= m < |r.ptes| :: CountOk(r, m)
  {
    forall x | 0 <= x < |r.ptes| ensures CountOk(r, x) {
      assert CountOk(g, x) && PinsOn(r, x) == PinsOn(g, x) && DebtsOn(r, x) == DebtsOn(g, x);
    }
  }

  lemma PinsStay(g: Pool, r: Pool)
    requires PoolInv(g) && Shaped(r) && r.ptes == g.ptes && r.pins == g.pins && r.nextPin == g.nextPin && r.place == g.place
    ensures forall k | k in r.pins :: PinOk(r, k)
  {
    forall k | k in r.pins ensures PinOk(r, k) { assert PinOk(g, k); }
  }

  /** Locking or releasing the mapping of p does not concern the other threads. */
  lemma OwnerLeaves(g: Pool, r: Pool, t: nat, p: PageId)
    requires Shaped(g) && Shaped(r) && r == g.(mapping := r.mapping, owner := r.owner) && r.mapping.Keys == g.mapping.Keys
    requires r.owner - {p} == g.owner - {p}
    requires (p in g.owner ==> g.owner[p].who == t) && (p in r.owner ==> r.owner[p].who == t)
    ensures Leaves(g, r, t)
  {
    forall q ensures LeavesPage(g, r, t, q) {
      if q != p {
        assert q in g.owner <==> q in g.owner - {p};
        assert q in r.owner <==> q in r.owner - {p};
      }
    }
  }

  lemma KeepTakeMapping(g: Pool, t: nat, p: PageId)
    requires PoolInv(g) && p in g.mapping && g.mapping[p] != Busy
    ensures var r := TakeMapping(g, p, Lock(t, if g.mapping[p].Empty? then Absent else At(g.mapping[p].id)));
            PoolInv(r)
  {
    var r := TakeMapping(g, p, Lock(t, if g.mapping[p].Empty? then Absent else At(g.mapping[p].id)));
    assert PageOk(g, p);
    CountsStay(g, r);
    PinsStay(g, r);
    forall x | 0 <= x < |r.ptes| ensures PlaceOk(r, x) { assert PlaceOk(g, x); StillBacked(g, r, x); }
    forall q | q in r.mapping ensures PageOk(r, q) { assert PageOk(g, q); }
  }

  lemma TakeMappingLeaves(g: Pool, t: nat, p: PageId)
    requires PoolInv(g) && p in g.mapping && g.mapping[p] != Busy
    ensures Leaves(g, TakeMapping(g, p, Lock(t, if g.mapping[p].Empty? then Absent else At(g.mapping[p].id))), t)
  {
    assert PageOk(g, p);
    OwnerLeaves(g, TakeMapping(g, p, Lock(t, if g.mapping[p].Empty? then Absent else At(g.mapping[p].id))), t, p);
  }

  lemma KeepPublish(g: Pool, t: nat, p: PageId, m: nat)
    requires PoolInv(g) && Resident(g, t, p, m, false)
    ensures p in g.mapping && g.mapping[p] == Busy
    ensures var r := PublishStep(g, p, Frame(m), Idle).0; PoolInv(r)
  {
    assert p in g.mapping && PageOk(g, p) && PlaceOk(g, m);
    var r := PublishStep(g, p, Frame(m), Idle).0;
    CountsStay(g, r);
    PinsStay(g, r);
    forall x | 0 <= x < |r.ptes| ensures PlaceOk(r, x) { assert PlaceOk(g, x); StillBacked(g, r, x); }
    forall q | q in r.mapping ensures PageOk(r, q) { assert PageOk(g, q); }
  }

  lemma KeepBusyBit(g: Pool, r: Pool, t: nat, p: PageId, m: nat)
    requires PoolInv(g) && m < |g.ptes| == |r.ptes| && Resident(g, t, p, m, g.ptes[m].busy)
    requires r == SetPte(g, m, r.ptes[m]).(strays := r.strays) && |r.strays| == |g.strays|
    requires r.ptes[m] == g.ptes[m].(busy := r.ptes[m].busy, refCount := r.ptes[m].refCount)
    requires forall x | 0 <= x < |r.ptes| :: CountOk(r, x)
    ensures PoolInv(r)
  {
    assert p in g.mapping && PageOk(g, p) && PlaceOk(g, m) && CountOk(r, m);
    forall x | 0 <= x < |r.ptes| ensures PlaceOk(r, x) { assert PlaceOk(g, x); StillBacked(g, r, x); }
    forall q | q in r.mapping ensures PageOk(r, q) { assert PageOk(g, q); }
    forall k | k in r.pins ensures PinOk(r, k) {
      assert PinOk(g, k) && k in PinsOn(r, g.pins[k].frame) && CountOk(r, g.pins[k].frame);
    }
  }

  /** PTE::Lock on a resident frame: its count is 0, so it has no pin and owes nobody. */
  lemma KeepLock(g: Pool, t: nat, p: PageId, m: nat)
    requires PoolInv(g) && Resident(g, t, p, m, false) && Lockable(g.ptes[m])
    ensures var r := SetPte(g, m, g.ptes[m].(busy := true)); PoolInv(r)
  {
    var r := SetPte(g, m, g.ptes[m].(busy := true));
    assert CountOk(g, m) && PlaceOk(g, m);
    forall x | 0 <= x < |r.ptes| ensures CountOk(r, x) {
      assert CountOk(g, x) && PinsOn(r, x) == PinsOn(g, x) && DebtsOn(r, x) == DebtsOn(g, x);
    }
    KeepBusyBit(g, r, t, p, m);
  }

  /** PTE::UnLock: the count it zeroes consists of strays only. */
  lemma KeepUnlock(g: Pool, t: nat, p: PageId, m: nat)
    requires PoolInv(g) && Resident(g, t, p, m, true)
    ensures var r := SetPte(g, m, g.ptes[m].(busy := false, refCount := 0)).(strays := g.strays[m := {}]); PoolInv(r)
  {
    var r := SetPte(g, m, g.ptes[m].(busy := false, refCount := 0)).(strays := g.strays[m := {}]);
    forall x | 0 <= x < |r.ptes| ensures CountOk(r, x) {
      assert CountOk(g, x) && PinsOn(r, x) == PinsOn(g, x) && DebtsOn(r, x) == DebtsOn(g, x);
    }
    KeepBusyBit(g, r, t, p, m);
  }

  lemma BusyBitLeaves(g: Pool, r: Pool, t: nat, p: PageId, m: nat)
    requires Shaped(g) && Shaped(r) && m < |g.ptes| == |r.ptes| && OwnedAs(g, p, Lock(t, At(m))) && Listing(g, m) && g.ptes[m].page == p
    requires r == SetPte(g, m, r.ptes[m]).(strays := r.strays) && r.strays[m] <= g.strays[m] && r.strays == g.strays[m := r.strays[m]]
    requires r.ptes[m] == g.ptes[m].(busy := r.ptes[m].busy, refCount := r.ptes[m].refCount)
    ensures Leaves(g, r, t)
  {
  }

  lemma KeepPoll(g: Pool, t: nat, p: PageId)
    requires PoolInv(g) && g.free != []
    ensures var r := InitStep(g, t, p).0;
            && g.free[0] < |g.ptes| && r == g.(free := g.free[1..], place := g.place[g.free[0] := Blank(t)])
            && PoolInv(r)
  {
    var m := g.free[0];
    assert m in g.free;
    assert forall x | x in g.free[1..] :: x in g.free;
    var r := g.(free := g.free[1..], place := g.place[m := Blank(t)]);
    CountsStay(g, r);
    assert PlaceOk(g, m);
    forall x | 0 <= x < |r.ptes| ensures PlaceOk(r, x) {
      assert PlaceOk(g, x);
      StillBacked(g, r, x);
      assert x in g.free <==> x == m || x in r.free;
    }
    forall q | q in r.mapping ensures PageOk(r, q) { assert PageOk(g, q); }
    forall k | k in r.pins ensures PinOk(r, k) { assert PinOk(g, k); }
  }

  lemma PollLeaves(g: Pool, t: nat, p: PageId)
    requires PoolInv(g) && g.free != []
    ensures Leaves(g, InitStep(g, t, p).0, t)
  {
    assert g.free[0] in g.free && PlaceOk(g, g.free[0]);
  }

  lemma KeepLatch(g: Pool, t: nat)
    requires PoolInv(g) && g.latch == None
    ensures var r := g.(latch := Some(t)); PoolInv(r) && Leaves(g, r, t)
  {
    var r := g.(latch := Some(t));
    CountsStay(g, r);
    PinsStay(g, r);
    forall x | 0 <= x < |r.ptes| ensures PlaceOk(r, x) { assert PlaceOk(g, x); StillBacked(g, r, x); }
    forall q | q in r.mapping ensures PageOk(r, q) { assert PageOk(g, q); }
  }

  lemma RemoveWorks(l: seq<nat>, m: nat)
    requires Distinct(l)
    ensures Distinct(Remove(l, m)) && m !in Remove(l, m)
    ensures forall x :: x in Remove(l, m) <==> x in l && x != m
  {
    if l != [] {
      RemoveWorks(l[1..], m);
      assert forall x :: x in l <==> x == l[0] || x in l[1..];
      assert l[0] !in l[1..];
    }
  }

  lemma KeepTake(g: Pool, t: nat, p: PageId, m: nat)
    requires PoolInv(g) && Scanning(g, t, p) && m < |g.ptes| && Resident(g, t, g.ptes[m].page, m, true)
    ensures var r := TakeStep(g, t, p, m).0; PoolInv(r)
  {
    var r, q0 := TakeStep(g, t, p, m).0, g.ptes[m].page;
    RemoveWorks(g.list, m);
    assert CountOk(g, m) && PlaceOk(g, m) && q0 in g.mapping && PageOk(g, q0);
    CountsStay(g, r);
    forall x | 0 <= x < |r.ptes| ensures PlaceOk(r, x) { assert PlaceOk(g, x); StillBacked(g, r, x); }
    forall q | q in r.mapping ensures PageOk(r, q) { assert PageOk(g, q); }
    forall k | k in r.pins ensures PinOk(r, k) { assert PinOk(g, k); }
  }

  lemma TakeLeaves(g: Pool, t: nat, p: PageId, m: nat)
    requires PoolInv(g) && Scanning(g, t, p) && m < |g.ptes| && Resident(g, t, g.ptes[m].page, m, true)
    ensures Leaves(g, TakeStep(g, t, p, m).0, t)
  {
  }

  lemma KeepEvictWrite(g: Pool, t: nat, p: PageId, m: nat)
    requires PoolInv(g) && Evicting(g, t, p, m)
    ensures var r := g.(disk := g.disk[g.ptes[m].page := g.frames[m]]);
            PoolInv(r) && r.disk[g.ptes[m].page] == r.content[g.ptes[m].page]
  {
    var r, q0 := g.(disk := g.disk[g.ptes[m].page := g.frames[m]]), g.ptes[m].page;
    assert PlaceOk(g, m) && PageOk(g, q0);
    CountsStay(g, r);
    PinsStay(g, r);
    forall x | 0 <= x < |r.ptes| ensures PlaceOk(r, x) {
      assert PlaceOk(g, x);
      if g.ptes[x].page != q0 { StillBacked(g, r, x); }
    }
    forall q | q in r.mapping ensures PageOk(r, q) { assert PageOk(g, q); }
  }

  lemma EvictWriteLeaves(g: Pool, t: nat, p: PageId, m: nat)
    requires PoolInv(g) && Evicting(g, t, p, m)
    ensures Leaves(g, g.(disk := g.disk[g.ptes[m].page := g.frames[m]]), t)
  {
  }

  lemma KeepDelete(g: Pool, t: nat, p: PageId, m: nat)
    requires PoolInv(g) && Evicting(g, t, p, m) && g.disk[g.ptes[m].page] == g.content[g.ptes[m].page]
    ensures g.mapping[g.ptes[m].page] == Busy && PoolInv(DeleteStep(g, t, p, m).0)
  {
    var r, q0 := DeleteStep(g, t, p, m).0, g.ptes[m].page;
    assert PlaceOk(g, m) && PageOk(g, q0);
    CountsStay(g, r);
    forall x | 0 <= x < |r.ptes| ensures PlaceOk(r, x) { assert PlaceOk(g, x); StillBacked(g, r, x); }
    forall q | q in r.mapping ensures PageOk(r, q) { assert PageOk(g, q); }
    forall k | k in r.pins ensures PinOk(r, k) { assert PinOk(g, k); }
  }

  lemma DeleteLeaves(g: Pool, t: nat, p: PageId, m: nat)
    requires Shaped(g) && Evicting(g, t, p, m) && g.mapping[g.ptes[m].page] == Busy
    ensures Leaves(g, DeleteStep(g, t, p, m).0, t)
  {
  }

  lemma KeepLoad(g: Pool, t: nat, p: PageId, m: nat)
    requires PoolInv(g) && p in g.mapping && OwnedAs(g, p, Lock(t, Absent)) && InHand(g, m, Blank(t))
    ensures var r := g.(frames := g.frames[m := g.disk[p]]);
            PoolInv(r) && Leaves(g, r, t) && r.frames[m] == r.content[p]
  {
    var r := g.(frames := g.frames[m := g.disk[p]]);
    assert PageOk(g, p);
    CountsStay(g, r);
    PinsStay(g, r);
    forall x | 0 <= x < |r.ptes| ensures PlaceOk(r, x) { assert PlaceOk(g, x); if x != m { StillBacked(g, r, x); } }
    forall q | q in r.mapping ensures PageOk(r, q) { assert PageOk(g, q); }
  }

  /** Overwriting the PTE wipes the strays the busy frame collected, and nothing else. */
  lemma StoreCounts(g: Pool, t: nat, p: PageId, m: nat)
    requires PoolInv(g) && p in g.mapping && InHand(g, m, Blank(t))
    ensures var r := StoreStep(g, t, p, m).0; forall x | 0 <= x < |r.ptes| :: CountOk(r, x)
    ensures PinsOn(g, m) == {} && g.nextPin !in g.pins
  {
    var r, k0 := StoreStep(g, t, p, m).0, g.nextPin;
    assert PlaceOk(g, m) && CountOk(g, m);
    forall k | k in g.pins ensures k < k0 { assert PinOk(g, k); }
    forall x | 0 <= x < |r.ptes| ensures CountOk(r, x) {
      assert CountOk(g, x) && DebtsOn(r, x) == DebtsOn(g, x);
      AddPin(g.pins, k0, Pin(m, p, false), x);
      assert x != m ==> PinsOn(r, x) == PinsOn(g, x);
    }
  }

  lemma KeepStore(g: Pool, t: nat, p: PageId, m: nat)
    requires PoolInv(g) && p in g.mapping && OwnedAs(g, p, Lock(t, Absent)) && InHand(g, m, Blank(t)) && g.frames[m] == g.content[p]
    ensures PoolInv(StoreStep(g, t, p, m).0)
  {
    var r := StoreStep(g, t, p, m).0;
    StoreCounts(g, t, p, m);
    assert PageOk(g, p) && PlaceOk(g, m);
    forall x | 0 <= x < |r.ptes| ensures PlaceOk(r, x) { assert PlaceOk(g, x); if x != m { StillBacked(g, r, x); } }
    forall q | q in r.mapping ensures PageOk(r, q) { assert PageOk(g, q); }
    forall k | k in r.pins ensures PinOk(r, k) { if k in g.pins { assert PinOk(g, k); } }
  }

  lemma StoreLeaves(g: Pool, t: nat, p: PageId, m: nat)
    requires PoolInv(g) && p in g.mapping && OwnedAs(g, p, Lock(t, Absent)) && InHand(g, m, Blank(t))
    ensures Leaves(g, StoreStep(g, t, p, m).0, t)
  {
  }

  lemma KeepInsert(g: Pool, t: nat, p: PageId, m: nat)
    requires PoolInv(g) && g.latch == None && OwnedAs(g, p, Lock(t, At(m))) && InHand(g, m, Fresh(t)) && g.ptes[m].page == p
    ensures PoolInv(InsertStep(g, p, m).0)
  {
    var r := InsertStep(g, p, m).0;
    assert PlaceOk(g, m);
    CountsStay(g, r);
    forall x | 0 <= x < |r.ptes| ensures PlaceOk(r, x) { assert PlaceOk(g, x); StillBacked(g, r, x); }
    forall q | q in r.mapping ensures PageOk(r, q) { assert PageOk(g, q); }
    forall k | k in r.pins ensures PinOk(r, k) { assert PinOk(g, k); }
  }

  lemma InsertLeaves(g: Pool, t: nat, p: PageId, m: nat)
    requires Shaped(g) && g.latch == None && OwnedAs(g, p, Lock(t, At(m))) && InHand(g, m, Fresh(t)) && g.ptes[m].page == p
    ensures Leaves(g, InsertStep(g, p, m).0, t)
  {
  }

  lemma ClientPins(g: Pool, r: Pool)
    requires PoolInv(g) && Shaped(r) && r.place == g.place && r.nextPin == g.nextPin && |r.ptes| == |g.ptes|
    requires forall x | 0 <= x < |g.ptes| :: r.ptes[x] == g.ptes[x].(refCount := r.ptes[x].refCount, dirty := r.ptes[x].dirty)
    requires forall k | k in r.pins :: k in g.pins && r.pins[k].frame == g.pins[k].frame && r.pins[k].page == g.pins[k].page
    ensures forall k | k in r.pins :: PinOk(r, k)
  {
    forall k | k in r.pins ensures PinOk(r, k) { assert PinOk(g, k); }
  }

  lemma MarkCounts(g: Pool, r: Pool, k: nat)
    requires PoolInv(g) && k in g.pins && k in r.pins && Shaped(r) && |r.ptes| == |g.ptes| && r.debts == g.debts && r.strays == g.strays
    requires r.mapping == g.mapping && r.pins == g.pins[k := g.pins[k].(wrote := r.pins[k].wrote)] && g.pins[k].frame < |g.ptes|
    requires r.ptes == g.ptes || r.ptes == g.ptes[g.pins[k].frame := g.ptes[g.pins[k].frame].(dirty := true)]
    ensures forall x | 0 <= x < |r.ptes| :: CountOk(r, x)
  {
    assert PinOk(g, k);
    forall x | 0 <= x < |r.ptes| ensures CountOk(r, x) {
      assert CountOk(g, x) && PinsOn(r, x) == PinsOn(g, x) && DebtsOn(r, x) == DebtsOn(g, x);
    }
  }

  lemma ReleaseCounts(g: Pool, r: Pool, k: nat)
    requires PoolInv(g) && k in g.pins && g.pins[k].frame < |g.ptes| && Shaped(r) && r.pins == g.pins - {k}
    requires r.debts == g.debts && r.strays == g.strays && r.mapping == g.mapping
    requires var m := g.pins[k].frame; r.ptes == g.ptes[m := g.ptes[m].(refCount := g.ptes[m].refCount - 1)]
    ensures forall x | 0 <= x < |r.ptes| :: CountOk(r, x)
  {
    assert PinOk(g, k);
    forall x | 0 <= x < |r.ptes| ensures CountOk(r, x) {
      assert CountOk(g, x) && DebtsOn(r, x) == DebtsOn(g, x);
      DropPin(g.pins, k, x);
      assert PinsOn(r, x) <= PinsOn(g, x);
    }
  }

  /** A write through a live pin reaches the one frame its page has. */
  lemma KeepWrite(g: Pool, k0: nat, bytes: Bytes)
    requires PoolInv(g) && k0 in g.pins
    ensures PinInRange(g, k0) && PoolInv(Client(g, Write(k0, bytes)))
  {
    var r, m, p := Client(g, Write(k0, bytes)), g.pins[k0].frame, g.pins[k0].page;
    assert PinOk(g, k0) && PlaceOk(g, m) && p in g.mapping && PageOk(g, p);
    MarkCounts(g, r, k0);
    ClientPins(g, r);
    WriteKeepsPlaces(g, k0, bytes);
    WriteKeepsPages(g, k0, bytes);
  }

  lemma WriteKeepsPlaces(g: Pool, k0: nat, bytes: Bytes)
    requires PoolInv(g) && k0 in g.pins && PinInRange(g, k0)
    ensures var r := Client(g, Write(k0, bytes)); forall x | 0 <= x < |r.ptes| :: PlaceOk(r, x)
  {
    var r, m, p := Client(g, Write(k0, bytes)), g.pins[k0].frame, g.pins[k0].page;
    assert PinOk(g, k0) && PlaceOk(g, m) && PageOk(g, p);
    assert WroteTo(r, k0, m);
    forall x | 0 <= x < |r.ptes| ensures PlaceOk(r, x) {
      assert PlaceOk(g, x);
      if g.ptes[x].page != p { StillBacked(g, r, x); }
    }
  }

  lemma WriteKeepsPages(g: Pool, k0: nat, bytes: Bytes)
    requires PoolInv(g) && k0 in g.pins && PinInRange(g, k0)
    ensures var r := Client(g, Write(k0, bytes)); forall q | q in r.mapping :: PageOk(r, q)
  {
    var r := Client(g, Write(k0, bytes));
    assert PinOk(g, k0) && PlaceOk(g, g.pins[k0].frame) && PageOk(g, g.pins[k0].page);
    forall q | q in r.mapping ensures PageOk(r, q) { assert PageOk(g, q); }
  }

  lemma KeepMarkDirty(g: Pool, k0: nat)
    requires PoolInv(g) && k0 in g.pins
    ensures PinInRange(g, k0) && PoolInv(Client(g, MarkDirty(k0)))
  {
    var r, m, p := Client(g, MarkDirty(k0)), g.pins[k0].frame, g.pins[k0].page;
    assert PinOk(g, k0) && PlaceOk(g, m);
    MarkCounts(g, r, k0);
    ClientPins(g, r);
    forall x | 0 <= x < |r.ptes| ensures PlaceOk(r, x) { assert PlaceOk(g, x); StillBacked(g, r, x); }
    forall q | q in r.mapping ensures PageOk(r, q) { assert PageOk(g, q); }
  }

  lemma KeepRelease(g: Pool, k0: nat)
    requires PoolInv(g) && k0 in g.pins && !g.pins[k0].wrote
    ensures PinInRange(g, k0) && PoolInv(Client(g, Release(k0)))
  {
    var r, m, p := Client(g, Release(k0)), g.pins[k0].frame, g.pins[k0].page;
    assert PinOk(g, k0) && PlaceOk(g, m);
    ReleaseCounts(g, r, k0);
    ClientPins(g, r);
    forall x | 0 <= x < |r.ptes| ensures PlaceOk(r, x) { assert PlaceOk(g, x); StillBacked(g, r, x); }
    forall q | q in r.mapping ensures PageOk(r, q) { assert PageOk(g, q); }
  }

  lemma WriteLeaves(g: Pool, k: nat, bytes: Bytes)
    requires PoolInv(g) && PinInRange(g, k)
    ensures Leaves(g, Client(g, Write(k, bytes)), -1)
  {
    var r, m, p := Client(g, Write(k, bytes)), g.pins[k].frame, g.pins[k].page;
    assert PinOk(g, k) && PageOk(g, p) && PlaceOk(g, m);
    forall q ensures LeavesPage(g, r, -1, q) { if q in g.mapping { assert PageOk(g, q); } }
  }

  lemma CountLeaves(g: Pool, e: Event)
    requires Shaped(g) && (e.MarkDirty? || e.Release?) && PinInRange(g, e.k)
    ensures Leaves(g, Client(g, e), -1)
  {
  }

  lemma ClientLeaves(g: Pool, e: Event)
    requires PoolInv(g)
    ensures Leaves(g, Client(g, e), -1)
  {
    if e.Write? && PinInRange(g, e.k) { WriteLeaves(g, e.k, e.bytes); }
    else if (e.MarkDirty? || e.Release?) && PinInRange(g, e.k) { CountLeaves(g, e); }
  }
}
