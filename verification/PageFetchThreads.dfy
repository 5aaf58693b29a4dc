/** Every step of a thread keeps the shared invariant and its own, and leaves the others theirs. */
module PageFetchThreads {
  import opened PageFetch
  import opened PageFetchInv
  import opened PageFetchSteps

  /** What a step of thread t from g to r, ending at `next`, owes. */
  ghost predicate Did(g: Pool, t: nat, r: Pool, next: Pc)
    requires Shaped(g) && Shaped(r)
  {
    PoolInv(r) && Leaves(g, r, t) && ThreadInv(r, t, next)
  }

  lemma PinFindOk(g: Pool, t: nat, p: PageId, pick: Pick)
    requires PoolInv(g) && ThreadInv(g, t, PinFind(p))
    ensures var (r, next) := Step(g, t, PinFind(p), pick); Did(g, t, r, next)
  {
    assert PageOk(g, p);
    if g.mapping[p].Frame? { assert PlaceOk(g, g.mapping[p].id) && CountOk(g, g.mapping[p].id); }
  }

  lemma GrantLeaves(g: Pool, t: nat, m: nat)
    requires Shaped(g) && m < |g.ptes|
    ensures Leaves(g, GrantPin(SetPte(g, m, g.ptes[m].(refCount := g.ptes[m].refCount + 1)), m, g.ptes[m].page), t)
  {
    CountsOnly(g, GrantPin(SetPte(g, m, g.ptes[m].(refCount := g.ptes[m].refCount + 1)), m, g.ptes[m].page), t);
  }

  lemma PinAddStray(g: Pool, t: nat, m: nat)
    requires PoolInv(g) && m < |g.ptes| && g.ptes[m].busy && t !in g.strays[m]
    ensures var r := SetPte(g, m, g.ptes[m].(refCount := g.ptes[m].refCount + 1)).(strays := g.strays[m := g.strays[m] + {t}]);
            PoolInv(r) && Leaves(g, r, t)
  {
    KeepPinAddBusy(g, t, m);
    CountsOnly(g, SetPte(g, m, g.ptes[m].(refCount := g.ptes[m].refCount + 1)).(strays := g.strays[m := g.strays[m] + {t}]), t);
  }

  lemma PinAddOwed(g: Pool, t: nat, m: nat)
    requires PoolInv(g) && m < |g.ptes| && g.ptes[m].initialized && !g.ptes[m].busy && t !in g.debts
    ensures var r := SetPte(g, m, g.ptes[m].(refCount := g.ptes[m].refCount + 1)).(debts := g.debts[t := m]);
            PoolInv(r) && Leaves(g, r, t)
  {
    KeepPinAddOther(g, t, m);
    CountsOnly(g, SetPte(g, m, g.ptes[m].(refCount := g.ptes[m].refCount + 1)).(debts := g.debts[t := m]), t);
  }

  lemma PinAddShared(g: Pool, t: nat, p: PageId, m: nat)
    requires PoolInv(g) && m < |g.ptes| && g.ptes[m].initialized && t !in g.strays[m] && t !in g.debts
    ensures var r := PinAddStep(g, t, p, m).0; PoolInv(r) && Leaves(g, r, t)
  {
    if g.ptes[m].busy {
      PinAddStray(g, t, m);
    } else if g.ptes[m].page != p {
      PinAddOwed(g, t, m);
    } else {
      KeepPinGrant(g, t, m);
      GrantLeaves(g, t, m);
    }
  }

  lemma PinAddOwn(g: Pool, t: nat, p: PageId, m: nat)
    requires Shaped(g) && ThreadInv(g, t, PinAdd(p, m))
    ensures var (r, next) := PinAddStep(g, t, p, m); ThreadInv(r, t, next)
  {
  }

  lemma PinAddOk(g: Pool, t: nat, p: PageId, m: nat)
    requires PoolInv(g) && ThreadInv(g, t, PinAdd(p, m))
    ensures var (r, next) := PinAddStep(g, t, p, m); Did(g, t, r, next)
  {
    PinAddShared(g, t, p, m);
    PinAddOwn(g, t, p, m);
  }

  lemma PinUndoOk(g: Pool, t: nat, p: PageId, m: nat)
    requires PoolInv(g) && ThreadInv(g, t, PinUndo(p, m))
    ensures var (r, next) := PinUndoStep(g, t, p, m); Did(g, t, r, next)
  {
    KeepPinUndo(g, t, m);
    CountsOnly(g, PinUndoStep(g, t, p, m).0, t);
  }

  lemma BeginOwn(g: Pool, t: nat, p: PageId)
    requires PoolInv(g) && ThreadInv(g, t, Begin(p))
    ensures var (r, next) := BeginStep(g, t, p); ThreadInv(r, t, next)
  {
    assert PageOk(g, p);
  }

  lemma BeginOk(g: Pool, t: nat, p: PageId)
    requires PoolInv(g) && ThreadInv(g, t, Begin(p))
    ensures var (r, next) := BeginStep(g, t, p); Did(g, t, r, next)
  {
    BeginOwn(g, t, p);
    if g.mapping[p] != Busy {
      KeepTakeMapping(g, t, p);
      TakeMappingLeaves(g, t, p);
    }
  }

  lemma LockShared(g: Pool, t: nat, q: PageId, m: nat)
    requires PoolInv(g) && Resident(g, t, q, m, false) && Lockable(g.ptes[m])
    ensures var r := SetPte(g, m, g.ptes[m].(busy := true)); PoolInv(r) && Leaves(g, r, t)
  {
    KeepLock(g, t, q, m);
    BusyBitLeaves(g, SetPte(g, m, g.ptes[m].(busy := true)), t, q, m);
  }

  lemma LockPteOk(g: Pool, t: nat, p: PageId, m: nat)
    requires PoolInv(g) && ThreadInv(g, t, LockPte(p, m))
    ensures var (r, next) := LockStep(g, m, UnlockPte(p, m), Publish(p, m)); Did(g, t, r, next)
  {
    if Lockable(g.ptes[m]) { LockShared(g, t, p, m); }
  }

  lemma UnlockShared(g: Pool, t: nat, q: PageId, m: nat)
    requires PoolInv(g) && Resident(g, t, q, m, true)
    ensures var r := SetPte(g, m, g.ptes[m].(busy := false, refCount := 0)).(strays := g.strays[m := {}]);
            PoolInv(r) && Leaves(g, r, t)
  {
    KeepUnlock(g, t, q, m);
    BusyBitLeaves(g, SetPte(g, m, g.ptes[m].(busy := false, refCount := 0)).(strays := g.strays[m := {}]), t, q, m);
  }

  lemma UnlockPteOk(g: Pool, t: nat, p: PageId, m: nat)
    requires PoolInv(g) && ThreadInv(g, t, UnlockPte(p, m))
    ensures var (r, next) := UnlockStep(g, p, m, Publish(p, m)); Did(g, t, r, next)
  {
    UnlockShared(g, t, p, m);
  }

  lemma PublishOk(g: Pool, t: nat, p: PageId, m: nat)
    requires PoolInv(g) && ThreadInv(g, t, Publish(p, m))
    ensures var (r, next) := PublishStep(g, p, Frame(m), PinFind(p)); Did(g, t, r, next)
  {
    KeepPublish(g, t, p, m);
    OwnerLeaves(g, PublishStep(g, p, Frame(m), PinFind(p)).0, t, p);
  }

  lemma CreateOk(g: Pool, t: nat, p: PageId, m: nat)
    requires PoolInv(g) && ThreadInv(g, t, Create(p, m))
    ensures var (r, next) := PublishStep(g, p, Frame(m), Idle); Did(g, t, r, next)
  {
    KeepPublish(g, t, p, m);
    OwnerLeaves(g, PublishStep(g, p, Frame(m), Idle).0, t, p);
  }

  lemma InitOk(g: Pool, t: nat, p: PageId)
    requires PoolInv(g) && ThreadInv(g, t, Init(p))
    ensures var (r, next) := InitStep(g, t, p); Did(g, t, r, next)
  {
    if g.free != [] {
      KeepPoll(g, t, p);
      PollLeaves(g, t, p);
    }
  }

  lemma VicEnterOk(g: Pool, t: nat, p: PageId)
    requires PoolInv(g) && ThreadInv(g, t, VicEnter(p)) && g.latch == None
    ensures var (r, next) := (g.(latch := Some(t)), Victim(p, Next)); Did(g, t, r, next)
  {
    KeepLatch(g, t);
  }

  lemma ScanNextOk(g: Pool, t: nat, p: PageId, pick: Pick)
    requires PoolInv(g) && ThreadInv(g, t, Victim(p, Next))
    ensures var (r, next) := VictimStep(g, t, p, Next, pick); Did(g, t, r, next)
  {
    assert pick.frame in g.list ==> pick.frame < |g.ptes| && PlaceOk(g, pick.frame);
  }

  lemma ScanCheckOk(g: Pool, t: nat, p: PageId, m: nat, pick: Pick)
    requires PoolInv(g) && ThreadInv(g, t, Victim(p, Check(m)))
    ensures var (r, next) := VictimStep(g, t, p, Check(m), pick); Did(g, t, r, next)
  {
  }

  lemma ScanReadOk(g: Pool, t: nat, p: PageId, m: nat, pick: Pick)
    requires PoolInv(g) && ThreadInv(g, t, Victim(p, Read(m)))
    ensures var (r, next) := VictimStep(g, t, p, Read(m), pick); Did(g, t, r, next)
  {
    assert PlaceOk(g, m);
  }

  lemma ScanLockMapOwn(g: Pool, t: nat, p: PageId, m: nat, q: PageId)
    requires PoolInv(g) && ThreadInv(g, t, Victim(p, LockMap(m, q)))
    ensures var (r, next) := VicLockMapStep(g, t, p, m, q); ThreadInv(r, t, next)
  {
    assert PlaceOk(g, m) && PageOk(g, q);
  }

  lemma ScanLockMapOk(g: Pool, t: nat, p: PageId, m: nat, q: PageId, pick: Pick)
    requires PoolInv(g) && ThreadInv(g, t, Victim(p, LockMap(m, q)))
    ensures var (r, next) := VictimStep(g, t, p, LockMap(m, q), pick); Did(g, t, r, next)
  {
    ScanLockMapOwn(g, t, p, m, q);
    if g.mapping[q] != Busy {
      KeepTakeMapping(g, t, q);
      TakeMappingLeaves(g, t, q);
    }
  }

  lemma ScanLockVicOk(g: Pool, t: nat, p: PageId, m: nat, q: PageId, n: nat, pick: Pick)
    requires PoolInv(g) && ThreadInv(g, t, Victim(p, LockVic(m, q, n)))
    ensures var (r, next) := VictimStep(g, t, p, LockVic(m, q, n), pick); Did(g, t, r, next)
  {
    if Lockable(g.ptes[n]) { LockShared(g, t, q, m); }
  }

  lemma ScanRecheckOk(g: Pool, t: nat, p: PageId, m: nat, q: PageId, n: nat, pick: Pick)
    requires PoolInv(g) && ThreadInv(g, t, Victim(p, Recheck(m, q, n)))
    ensures var (r, next) := VictimStep(g, t, p, Recheck(m, q, n), pick); Did(g, t, r, next)
  {
  }

  lemma ScanTakeOk(g: Pool, t: nat, p: PageId, m: nat, pick: Pick)
    requires PoolInv(g) && ThreadInv(g, t, Victim(p, Take(m)))
    ensures var (r, next) := VictimStep(g, t, p, Take(m), pick); Did(g, t, r, next)
  {
    KeepTake(g, t, p, m);
    TakeLeaves(g, t, p, m);
  }

  lemma ScanUnlockOk(g: Pool, t: nat, p: PageId, m: nat, n: nat, pick: Pick)
    requires PoolInv(g) && ThreadInv(g, t, Victim(p, UnlockVic(m, n)))
    ensures var (r, next) := VictimStep(g, t, p, UnlockVic(m, n), pick); Did(g, t, r, next)
  {
    UnlockShared(g, t, g.ptes[m].page, m);
  }

  lemma ScanRepublishOk(g: Pool, t: nat, p: PageId, q: PageId, n: nat, pick: Pick)
    requires PoolInv(g) && ThreadInv(g, t, Victim(p, Republish(q, n)))
    ensures var (r, next) := VictimStep(g, t, p, Republish(q, n), pick); Did(g, t, r, next)
  {
    KeepPublish(g, t, q, n);
    OwnerLeaves(g, VictimStep(g, t, p, Republish(q, n), pick).0, t, q);
  }

  /** A locked frame has no pin, so nobody has bytes in it that the dirty bit does not announce. */
  lemma NoWriters(g: Pool, m: nat)
    requires Shaped(g) && m < |g.ptes| && CountOk(g, m) && g.ptes[m].busy
    ensures forall k :: !WroteTo(g, k, m)
  {
    forall k ensures !WroteTo(g, k, m) {
      assert k in g.pins && g.pins[k].frame == m ==> k in PinsOn(g, m);
    }
  }

  lemma EvictOk(g: Pool, t: nat, p: PageId, m: nat)
    requires PoolInv(g) && ThreadInv(g, t, Carry(p, m, Evict))
    ensures var (r, next) := CarryStep(g, t, p, m, Evict); Did(g, t, r, next)
  {
    assert PlaceOk(g, m) && CountOk(g, m);
    NoWriters(g, m);
  }

  lemma EvictWriteOk(g: Pool, t: nat, p: PageId, m: nat)
    requires PoolInv(g) && ThreadInv(g, t, Carry(p, m, EvictWrite))
    ensures var (r, next) := CarryStep(g, t, p, m, EvictWrite); Did(g, t, r, next)
  {
    KeepEvictWrite(g, t, p, m);
    EvictWriteLeaves(g, t, p, m);
  }

  lemma EvictDeleteOk(g: Pool, t: nat, p: PageId, m: nat)
    requires PoolInv(g) && ThreadInv(g, t, Carry(p, m, EvictDelete))
    ensures var (r, next) := CarryStep(g, t, p, m, EvictDelete); Did(g, t, r, next)
  {
    KeepDelete(g, t, p, m);
    DeleteLeaves(g, t, p, m);
  }

  lemma LoadOk(g: Pool, t: nat, p: PageId, m: nat)
    requires PoolInv(g) && ThreadInv(g, t, Carry(p, m, Load))
    ensures var (r, next) := CarryStep(g, t, p, m, Load); Did(g, t, r, next)
  {
    KeepLoad(g, t, p, m);
  }

  lemma StoreOk(g: Pool, t: nat, p: PageId, m: nat)
    requires PoolInv(g) && ThreadInv(g, t, Carry(p, m, Store))
    ensures var (r, next) := CarryStep(g, t, p, m, Store); Did(g, t, r, next)
  {
    KeepStore(g, t, p, m);
    StoreLeaves(g, t, p, m);
  }

  lemma InsertOk(g: Pool, t: nat, p: PageId, m: nat)
    requires PoolInv(g) && ThreadInv(g, t, Carry(p, m, Insert))
    ensures var (r, next) := CarryStep(g, t, p, m, Insert); Did(g, t, r, next)
  {
    assert PlaceOk(g, m);
    if g.latch == None {
      KeepInsert(g, t, p, m);
      InsertLeaves(g, t, p, m);
    }
  }

  lemma VictimSearchOk(g: Pool, t: nat, p: PageId, at: Scan, pick: Pick)
    requires PoolInv(g) && ThreadInv(g, t, Victim(p, at)) && (at.Next? || at.Check? || at.Read? || at.LockMap?)
    ensures ScanInRange(g, at) && var (r, next) := VictimStep(g, t, p, at, pick); Did(g, t, r, next)
  {
    if at.Next? { ScanNextOk(g, t, p, pick); }
    else if at.Check? { ScanCheckOk(g, t, p, at.m, pick); }
    else if at.Read? { ScanReadOk(g, t, p, at.m, pick); }
    else { ScanLockMapOk(g, t, p, at.m, at.q, pick); }
  }

  lemma VictimStepOk(g: Pool, t: nat, p: PageId, at: Scan, pick: Pick)
    requires PoolInv(g) && ThreadInv(g, t, Victim(p, at))
    ensures ScanInRange(g, at) && var (r, next) := VictimStep(g, t, p, at, pick); Did(g, t, r, next)
  {
    if at.Next? || at.Check? || at.Read? || at.LockMap? { VictimSearchOk(g, t, p, at, pick); }
    else if at.LockVic? { ScanLockVicOk(g, t, p, at.m, at.q, at.n, pick); }
    else if at.Recheck? { ScanRecheckOk(g, t, p, at.m, at.q, at.n, pick); }
    else if at.Take? { ScanTakeOk(g, t, p, at.m, pick); }
    else if at.UnlockVic? { ScanUnlockOk(g, t, p, at.m, at.n, pick); }
    else if at.Republish? { ScanRepublishOk(g, t, p, at.q, at.n, pick); }
  }

  lemma ThreadInRange(g: Pool, t: nat, pc: Pc)
    requires PoolInv(g) && ThreadInv(g, t, pc)
    ensures InRange(g, pc)
  {
  }

  lemma CarryStepOk(g: Pool, t: nat, p: PageId, m: nat, todo: Stage)
    requires PoolInv(g) && ThreadInv(g, t, Carry(p, m, todo)) && InRange(g, Carry(p, m, todo))
    ensures var (r, next) := CarryStep(g, t, p, m, todo); Did(g, t, r, next)
  {
    if todo.Evict? { EvictOk(g, t, p, m); }
    else if todo.EvictWrite? { EvictWriteOk(g, t, p, m); }
    else if todo.EvictDelete? { EvictDeleteOk(g, t, p, m); }
    else if todo.Load? { LoadOk(g, t, p, m); }
    else if todo.Store? { StoreOk(g, t, p, m); }
    else if todo.Insert? { InsertOk(g, t, p, m); }
  }

  lemma IdleOk(g: Pool, t: nat, pick: Pick)
    requires PoolInv(g) && ThreadInv(g, t, Idle)
    ensures var (r, next) := Step(g, t, Idle, pick); Did(g, t, r, next)
  {
  }

  lemma PinStepKeeps(g: Pool, t: nat, pc: Pc, pick: Pick)
    requires PoolInv(g) && ThreadInv(g, t, pc) && InRange(g, pc) && (pc.PinFind? || pc.PinAdd? || pc.PinUndo?)
    ensures var (r, next) := Step(g, t, pc, pick); Did(g, t, r, next)
  {
    if pc.PinFind? { PinFindOk(g, t, pc.p, pick); }
    else if pc.PinAdd? { PinAddOk(g, t, pc.p, pc.m); }
    else { PinUndoOk(g, t, pc.p, pc.m); }
  }

  lemma UndoStepKeeps(g: Pool, t: nat, pc: Pc, pick: Pick)
    requires PoolInv(g) && ThreadInv(g, t, pc) && InRange(g, pc) && (pc.LockPte? || pc.UnlockPte? || pc.Publish?)
    ensures var (r, next) := Step(g, t, pc, pick); Did(g, t, r, next)
  {
    if pc.LockPte? { LockPteOk(g, t, pc.p, pc.m); }
    else if pc.UnlockPte? { UnlockPteOk(g, t, pc.p, pc.m); }
    else { PublishOk(g, t, pc.p, pc.m); }
  }

  lemma StepKeeps(g: Pool, t: nat, pc: Pc, pick: Pick)
    requires PoolInv(g) && ThreadInv(g, t, pc)
    ensures var (r, next) := Step(g, t, pc, pick); Did(g, t, r, next)
  {
    ThreadInRange(g, t, pc);
    if pc.Victim? { VictimStepOk(g, t, pc.p, pc.scan, pick); }
    else if pc.Carry? { CarryStepOk(g, t, pc.p, pc.m, pc.todo); }
    else if pc.LockPte? || pc.UnlockPte? || pc.Publish? { UndoStepKeeps(g, t, pc, pick); }
    else if pc.Init? { InitOk(g, t, pc.p); }
    else if pc.VicEnter? { if g.latch == None { VicEnterOk(g, t, pc.p); } }
    else if pc.Create? { CreateOk(g, t, pc.p, pc.m); }
    else if pc.Begin? { BeginOk(g, t, pc.p); }
    else if pc.Idle? { IdleOk(g, t, pick); }
    else { PinStepKeeps(g, t, pc, pick); }
  }
}
