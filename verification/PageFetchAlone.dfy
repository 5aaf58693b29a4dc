/**
  A fetch that nobody disturbs: when it comes to an end, and what it has then done to the pool.
  This is what `FetchPageSync` is meant to do, told without its phases.
 */
module PageFetchAlone {
  import opened Collections
  import opened PageFetch
  import opened PageFetchInv
  import opened PageFetchSafety

  /** Thread t goes on alone from (g, pc), one operation for each of the scheduler's picks. */
  function Alone(g: Pool, t: nat, pc: Pc, picks: seq<Pick>): (r: (Pool, Pc))
    requires Shaped(g)
    ensures Shaped(r.0)
    decreases |picks|
  {
    if picks == [] then (g, pc) else
    var (h, next) := Step(g, t, pc, picks[0]);
    Alone(h, t, next, picks[1..])
  }

  lemma {:induction false} AloneThen(g: Pool, t: nat, pc: Pc, a: seq<Pick>, b: seq<Pick>)
    requires Shaped(g)
    ensures var (h, next) := Alone(g, t, pc, a); Alone(g, t, pc, a + b) == Alone(h, t, next, b)
    decreases |a|
  {
    if a == [] {
      assert a + b == b;
    } else {
      var (h, next) := Step(g, t, pc, a[0]);
      AloneThen(h, t, next, a[1..], b);
      assert (a + b)[0] == a[0] && (a + b)[1..] == a[1..] + b;
    }
  }

  /** The same pick n times. */
  function Always(pick: Pick, n: nat): seq<Pick> {
    if n == 0 then [] else [pick] + Always(pick, n - 1)
  }

  ghost predicate InSteps(g: Pool, t: nat, pc: Pc, m: nat, n: nat, h: Pool, next: Pc)
    requires Shaped(g)
  {
    Alone(g, t, pc, Always(Pick(NO_PAGE, m, false), n)) == (h, next)
  }

  /** From (g, pc) thread t gets to (h, next) alone, looking at frame m if it needs a victim. */
  ghost predicate Gets(g: Pool, t: nat, pc: Pc, m: nat, h: Pool, next: Pc)
    requires Shaped(g)
  {
    exists n: nat :: InSteps(g, t, pc, m, n, h, next)
  }

  lemma Stay(g: Pool, t: nat, pc: Pc, m: nat)
    requires Shaped(g)
    ensures Gets(g, t, pc, m, g, pc)
  {
    assert InSteps(g, t, pc, m, 0, g, pc);
  }

  lemma First(g: Pool, t: nat, pc: Pc, m: nat, h: Pool, next: Pc, r: Pool, last: Pc)
    requires Shaped(g) && Shaped(h)
    requires Step(g, t, pc, Pick(NO_PAGE, m, false)) == (h, next) && Gets(h, t, next, m, r, last)
    ensures Gets(g, t, pc, m, r, last)
  {
    var n: nat :| InSteps(h, t, next, m, n, r, last);
    assert InSteps(g, t, pc, m, n + 1, r, last);
  }

  lemma Chain(g: Pool, t: nat, pc: Pc, m: nat, h: Pool, next: Pc, r: Pool, last: Pc)
    requires Shaped(g) && Shaped(h) && Gets(g, t, pc, m, h, next) && Gets(h, t, next, m, r, last)
    ensures Gets(g, t, pc, m, r, last)
  {
    var pick := Pick(NO_PAGE, m, false);
    var a: nat :| InSteps(g, t, pc, m, a, h, next);
    var b: nat :| InSteps(h, t, next, m, b, r, last);
    AloneThen(g, t, pc, Always(pick, a), Always(pick, b));
    AlwaysSum(pick, a, b);
    assert InSteps(g, t, pc, m, a + b, r, last);
  }

  lemma {:induction false} AlwaysSum(pick: Pick, a: nat, b: nat)
    ensures Always(pick, a + b) == Always(pick, a) + Always(pick, b)
  {
    if a > 0 { AlwaysSum(pick, a - 1, b); }
  }

  /** Victim may take m: it is listed, nobody counts on it, and its page's mapping is not BUSY. */
  predicate Evictable(g: Pool, m: nat)
    requires Shaped(g)
  {
    && m in g.list && m < |g.ptes| && g.ptes[m].refCount == 0
    && g.ptes[m].page in g.mapping && g.mapping[g.ptes[m].page] != Busy
  }

  /** The page is resident, or it can be brought in: a free frame, or one to evict. */
  predicate CanFetch(g: Pool, p: PageId)
    requires Shaped(g) && p in g.mapping
  {
    match g.mapping[p]
    case Frame(_) => true
    case Busy => false
    case Empty => g.latch == None && (g.free != [] || exists m | m in g.list :: Evictable(g, m))
  }

  // ---- What a fetch does ----

  /** The pool after page p was pinned in frame m, where it already was. */
  function Pinned(g: Pool, p: PageId, m: nat): Pool
    requires m < |g.ptes|
  {
    GrantPin(SetPte(g, m, g.ptes[m].(refCount := g.ptes[m].refCount + 1)), m, p)
  }

  /** The pool after page p was read into frame m, which nobody used, and pinned there. */
  function Loaded(g: Pool, p: PageId, m: nat): Pool
    requires Shaped(g) && m < |g.ptes| && p in g.mapping
  {
    GrantPin(g.(
      mapping := g.mapping[p := Frame(m)],
      frames := g.frames[m := g.disk[p]],
      ptes := g.ptes[m := Pte(1, p, true, false, false)],
      strays := g.strays[m := {}],
      place := g.place[m := Listed],
      list := [m] + g.list), m, p)
  }

  /** The pool after frame m was taken from its page, whose bytes are on disk if they were dirty. */
  function Evicted(g: Pool, m: nat): Pool
    requires Shaped(g) && m < |g.ptes| && g.ptes[m].page in g.mapping
  {
    var e := g.ptes[m];
    g.(mapping := g.mapping[e.page := Empty],
       disk := if e.dirty then g.disk[e.page := g.frames[m]] else g.disk,
       list := Remove(g.list, m))
  }

  // ---- One stretch of the fetch after the other ----

  /** Listing frame m, whose PTE names p, and publishing it. */
  lemma ListAlone(g: Pool, t: nat, p: PageId, m: nat, v: nat)
    requires Shaped(g) && m < |g.ptes| && p in g.mapping && g.mapping[p] == Busy && g.latch == None
    ensures Gets(g, t, Carry(p, m, Insert), v, g.(list := [m] + g.list, place := g.place[m := Listed], mapping := g.mapping[p := Frame(m)], owner := g.owner - {p}), Idle)
  {
    var h := g.(list := [m] + g.list, place := g.place[m := Listed]);
    var r := h.(mapping := g.mapping[p := Frame(m)], owner := g.owner - {p});
    Stay(r, t, Idle, v);
    First(h, t, Create(p, m), v, r, Idle, r, Idle);
    First(g, t, Carry(p, m, Insert), v, h, Create(p, m), r, Idle);
  }

  lemma StoredAndListed(g: Pool, t: nat, p: PageId, m: nat)
    requires Shaped(g) && m < |g.ptes| && p in g.mapping && g.frames[m] == g.disk[p]
    ensures var h := StoreStep(g, t, p, m).0;
            h.(list := [m] + h.list, place := h.place[m := Listed], mapping := h.mapping[p := Frame(m)], owner := h.owner - {p})
            == Loaded(g, p, m).(owner := g.owner - {p})
  {
    var h := StoreStep(g, t, p, m).0;
    assert h.owner - {p} == g.owner - {p} && h.place[m := Listed] == g.place[m := Listed] && g.frames[m := g.disk[p]] == g.frames;
  }

  /** Overwriting the PTE of frame m, listing and publishing it. */
  lemma StoreAlone(g: Pool, t: nat, p: PageId, m: nat, v: nat)
    requires Shaped(g) && m < |g.ptes| && p in g.mapping && g.mapping[p] == Busy && g.latch == None
    requires g.frames[m] == g.disk[p]
    ensures Gets(g, t, Carry(p, m, Store), v, Loaded(g, p, m).(owner := g.owner - {p}), Idle)
  {
    var h := StoreStep(g, t, p, m).0;
    ListAlone(h, t, p, m, v);
    StoredAndListed(g, t, p, m);
    First(g, t, Carry(p, m, Store), v, h, Carry(p, m, Insert), Loaded(g, p, m).(owner := g.owner - {p}), Idle);
  }

  /** Reading p into frame m, which is in t's hands, listing it, and publishing it. */
  lemma LoadAlone(g: Pool, t: nat, p: PageId, m: nat, v: nat)
    requires Shaped(g) && m < |g.ptes| && p in g.mapping && g.mapping[p] == Busy && g.latch == None
    ensures Gets(g, t, Carry(p, m, Load), v, Loaded(g, p, m).(owner := g.owner - {p}), Idle)
  {
    var h := g.(frames := g.frames[m := g.disk[p]]);
    StoreAlone(h, t, p, m, v);
    assert h.frames[m := h.disk[p]] == g.frames[m := g.disk[p]];
    First(g, t, Carry(p, m, Load), v, h, Carry(p, m, Store), Loaded(g, p, m).(owner := g.owner - {p}), Idle);
  }

  /** What t has done to the pool when it takes m off the list, with the mapping and the PTE locked. */
  function Taken(g: Pool, t: nat, m: nat): (r: Pool)
    requires Shaped(g) && m < |g.ptes| && g.ptes[m].page in g.mapping
    ensures Shaped(r)
  {
    TakeMapping(SetPte(g, m, g.ptes[m].(busy := true)), g.ptes[m].page, Lock(t, Going(m)))
      .(list := Remove(g.list, m), latch := None, place := g.place[m := Leaving(t)])
  }

  lemma TakenByStep(g: Pool, t: nat, p: PageId, m: nat)
    requires Shaped(g) && m < |g.ptes| && g.ptes[m].page in g.mapping
    ensures var h := SetPte(TakeMapping(g, g.ptes[m].page, Lock(t, At(m))), m, g.ptes[m].(busy := true));
            Shaped(h) && TakeStep(h, t, p, m) == (Taken(g, t, m), Carry(p, m, Evict))
  {
    var q := g.ptes[m].page;
    assert g.owner[q := Lock(t, At(m))][q := Lock(t, Going(m))] == g.owner[q := Lock(t, Going(m))];
  }

  lemma TakeOffAlone(g: Pool, t: nat, p: PageId, m: nat)
    requires Shaped(g) && Evictable(g, m) && p in g.mapping
    ensures var h := SetPte(TakeMapping(g, g.ptes[m].page, Lock(t, At(m))), m, g.ptes[m].(busy := true));
            Shaped(h) && Gets(h, t, Victim(p, Take(m)), m, Taken(g, t, m), Carry(p, m, Evict))
  {
    var h := SetPte(TakeMapping(g, g.ptes[m].page, Lock(t, At(m))), m, g.ptes[m].(busy := true));
    TakenByStep(g, t, p, m);
    Stay(Taken(g, t, m), t, Carry(p, m, Evict), m);
    First(h, t, Victim(p, Take(m)), m, Taken(g, t, m), Carry(p, m, Evict), Taken(g, t, m), Carry(p, m, Evict));
  }

  lemma RecheckAlone(g: Pool, t: nat, p: PageId, m: nat)
    requires Shaped(g) && Evictable(g, m) && p in g.mapping
    ensures var h := SetPte(TakeMapping(g, g.ptes[m].page, Lock(t, At(m))), m, g.ptes[m].(busy := true));
            Shaped(h) && Gets(h, t, Victim(p, Recheck(m, g.ptes[m].page, m)), m, Taken(g, t, m), Carry(p, m, Evict))
  {
    var h := SetPte(TakeMapping(g, g.ptes[m].page, Lock(t, At(m))), m, g.ptes[m].(busy := true));
    TakeOffAlone(g, t, p, m);
    First(h, t, Victim(p, Recheck(m, g.ptes[m].page, m)), m, h, Victim(p, Take(m)), Taken(g, t, m), Carry(p, m, Evict));
  }

  lemma LockPteAlone(g: Pool, t: nat, p: PageId, m: nat)
    requires Shaped(g) && Evictable(g, m) && p in g.mapping && !g.ptes[m].busy
    ensures var q := g.ptes[m].page; var h := TakeMapping(g, q, Lock(t, At(m)));
            Shaped(h) && Gets(h, t, Victim(p, LockVic(m, q, m)), m, Taken(g, t, m), Carry(p, m, Evict))
  {
    var q := g.ptes[m].page;
    var h := TakeMapping(g, q, Lock(t, At(m)));
    RecheckAlone(g, t, p, m);
    First(h, t, Victim(p, LockVic(m, q, m)), m, SetPte(h, m, g.ptes[m].(busy := true)), Victim(p, Recheck(m, q, m)), Taken(g, t, m), Carry(p, m, Evict));
  }

  lemma LockAlone(g: Pool, t: nat, p: PageId, m: nat)
    requires Shaped(g) && Evictable(g, m) && p in g.mapping
    requires g.mapping[g.ptes[m].page] == Frame(m) && !g.ptes[m].busy
    ensures Gets(g, t, Victim(p, LockMap(m, g.ptes[m].page)), m, Taken(g, t, m), Carry(p, m, Evict))
  {
    var q := g.ptes[m].page;
    var g1 := TakeMapping(g, q, Lock(t, At(m)));
    LockPteAlone(g, t, p, m);
    First(g, t, Victim(p, LockMap(m, q)), m, g1, Victim(p, LockVic(m, q, m)), Taken(g, t, m), Carry(p, m, Evict));
  }

  lemma ReadAlone(g: Pool, t: nat, p: PageId, m: nat)
    requires Shaped(g) && Evictable(g, m) && p in g.mapping
    requires g.mapping[g.ptes[m].page] == Frame(m) && !g.ptes[m].busy
    ensures Gets(g, t, Victim(p, Read(m)), m, Taken(g, t, m), Carry(p, m, Evict))
  {
    LockAlone(g, t, p, m);
    First(g, t, Victim(p, Read(m)), m, g, Victim(p, LockMap(m, g.ptes[m].page)), Taken(g, t, m), Carry(p, m, Evict));
  }

  lemma CheckAlone(g: Pool, t: nat, p: PageId, m: nat)
    requires Shaped(g) && Evictable(g, m) && p in g.mapping
    requires g.mapping[g.ptes[m].page] == Frame(m) && !g.ptes[m].busy
    ensures Gets(g, t, Victim(p, Check(m)), m, Taken(g, t, m), Carry(p, m, Evict))
  {
    ReadAlone(g, t, p, m);
    First(g, t, Victim(p, Check(m)), m, g, Victim(p, Read(m)), Taken(g, t, m), Carry(p, m, Evict));
  }

  /** Victim on a frame nobody uses: read the count, lock the mapping and the PTE, look again, take it. */
  lemma TakeAlone(g: Pool, t: nat, p: PageId, m: nat)
    requires Shaped(g) && Evictable(g, m) && p in g.mapping
    requires g.mapping[g.ptes[m].page] == Frame(m) && !g.ptes[m].busy
    ensures Gets(g, t, Victim(p, Next), m, Taken(g, t, m), Carry(p, m, Evict))
  {
    CheckAlone(g, t, p, m);
    First(g, t, Victim(p, Next), m, g, Victim(p, Check(m)), Taken(g, t, m), Carry(p, m, Evict));
  }

  /** The pool after t has evicted the page of m, with m in its hands. */
  function Freed(g: Pool, t: nat, m: nat): (r: Pool)
    requires Shaped(g) && m < |g.ptes| && g.ptes[m].page in g.mapping
    ensures Shaped(r)
  {
    Evicted(g, m).(list := g.list, owner := g.owner - {g.ptes[m].page}, place := g.place[m := Blank(t)])
  }

  /** Writing the victim's page back if it is dirty, and emptying its mapping. */
  lemma EvictAlone(g: Pool, t: nat, p: PageId, m: nat, v: nat)
    requires Shaped(g) && m < |g.ptes| && p in g.mapping && g.ptes[m].page in g.mapping && g.mapping[g.ptes[m].page] == Busy
    ensures Gets(g, t, Carry(p, m, Evict), v, Freed(g, t, m), Carry(p, m, Load))
  {
    var q := g.ptes[m].page;
    var r, last := Freed(g, t, m), Carry(p, m, Load);
    var h := if g.ptes[m].dirty then g.(disk := g.disk[q := g.frames[m]]) else g;
    assert Step(h, t, Carry(p, m, EvictDelete), Pick(NO_PAGE, v, false)) == (r, last);
    Stay(r, t, last, v);
    First(h, t, Carry(p, m, EvictDelete), v, r, last, r, last);
    if g.ptes[m].dirty {
      First(g, t, Carry(p, m, EvictWrite), v, h, Carry(p, m, EvictDelete), r, last);
    }
    First(g, t, Carry(p, m, Evict), v, g, if g.ptes[m].dirty then Carry(p, m, EvictWrite) else Carry(p, m, EvictDelete), r, last);
  }

  /** Both locks of a resident page given back: it is mapped again, and its frame's count is zeroed. */
  function LocksUndone(g: Pool, q: PageId, m: nat): (r: Pool)
    requires Shaped(g) && m < |g.ptes| && q in g.mapping
    ensures Shaped(r)
  {
    PteUnlocked(g, m).(mapping := g.mapping[q := Frame(m)], owner := g.owner - {q})
  }

  function PteUnlocked(g: Pool, m: nat): (r: Pool)
    requires Shaped(g) && m < |g.ptes|
    ensures Shaped(r)
  {
    SetPte(g, m, g.ptes[m].(busy := false, refCount := 0)).(strays := g.strays[m := {}])
  }

  lemma RepublishAlone(g: Pool, t: nat, p: PageId, q: PageId, m: nat, v: nat)
    requires Shaped(g) && p in g.mapping && q in g.mapping && m < |g.ptes| && g.mapping[q] == Busy
    ensures Gets(g, t, Victim(p, Republish(q, m)), v, g.(mapping := g.mapping[q := Frame(m)], owner := g.owner - {q}), Victim(p, Next))
  {
    var r := g.(mapping := g.mapping[q := Frame(m)], owner := g.owner - {q});
    Stay(r, t, Victim(p, Next), v);
    First(g, t, Victim(p, Republish(q, m)), v, r, Victim(p, Next), r, Victim(p, Next));
  }

  lemma UnlockVicAlone(g: Pool, t: nat, p: PageId, m: nat, v: nat)
    requires Shaped(g) && p in g.mapping && m < |g.ptes| && g.ptes[m].busy && g.ptes[m].page in g.mapping
    requires g.mapping[g.ptes[m].page] == Busy
    ensures Gets(g, t, Victim(p, UnlockVic(m, m)), v, LocksUndone(g, g.ptes[m].page, m), Victim(p, Next))
  {
    var q := g.ptes[m].page;
    RepublishAlone(PteUnlocked(g, m), t, p, q, m, v);
    First(g, t, Victim(p, UnlockVic(m, m)), v, PteUnlocked(g, m), Victim(p, Republish(q, m)), LocksUndone(g, q, m), Victim(p, Next));
  }

  /**
    When somebody has counted himself on the candidate before its PTE was locked, Victim gives it up:
    the page stays resident, nothing is taken off the list, and the scan goes on.
   */
  lemma GiveUpAlone(g: Pool, t: nat, p: PageId, m: nat, v: nat)
    requires Shaped(g) && p in g.mapping && m < |g.ptes| && g.ptes[m].busy && g.ptes[m].page in g.mapping
    requires g.mapping[g.ptes[m].page] == Busy && g.ptes[m].refCount != 0
    ensures Gets(g, t, Victim(p, Recheck(m, g.ptes[m].page, m)), v, LocksUndone(g, g.ptes[m].page, m), Victim(p, Next))
  {
    var q := g.ptes[m].page;
    UnlockVicAlone(g, t, p, m, v);
    First(g, t, Victim(p, Recheck(m, q, m)), v, g, Victim(p, UnlockVic(m, m)), LocksUndone(g, q, m), Victim(p, Next));
  }

  lemma PublishAlone(g: Pool, t: nat, p: PageId, m: nat, v: nat)
    requires Shaped(g) && p in g.mapping && m < |g.ptes| && g.mapping[p] == Busy
    ensures Gets(g, t, Publish(p, m), v, g.(mapping := g.mapping[p := Frame(m)], owner := g.owner - {p}), PinFind(p))
  {
    var r := g.(mapping := g.mapping[p := Frame(m)], owner := g.owner - {p});
    Stay(r, t, PinFind(p), v);
    First(g, t, Publish(p, m), v, r, PinFind(p), r, PinFind(p));
  }

  lemma UnlockAlone(g: Pool, t: nat, p: PageId, m: nat, v: nat)
    requires Shaped(g) && p in g.mapping && m < |g.ptes| && g.mapping[p] == Busy && g.ptes[m].busy && g.ptes[m].page == p
    ensures Gets(g, t, UnlockPte(p, m), v, LocksUndone(g, p, m), PinFind(p))
  {
    PublishAlone(PteUnlocked(g, m), t, p, m, v);
    First(g, t, UnlockPte(p, m), v, PteUnlocked(g, m), Publish(p, m), LocksUndone(g, p, m), PinFind(p));
  }

  /**
    A page that turns out to be resident once its mapping is locked: if its frame is free of pins the
    PTE is locked too and both locks are given back, else only the mapping is; then Pin is tried again.
   */
  lemma UndoAlone(g: Pool, t: nat, p: PageId, m: nat, v: nat)
    requires Shaped(g) && p in g.mapping && m < |g.ptes| && g.mapping[p] == Busy && g.ptes[m].page == p
    ensures Gets(g, t, LockPte(p, m), v,
                 if Lockable(g.ptes[m]) then LocksUndone(g, p, m) else g.(mapping := g.mapping[p := Frame(m)], owner := g.owner - {p}),
                 PinFind(p))
  {
    if Lockable(g.ptes[m]) {
      var h := SetPte(g, m, g.ptes[m].(busy := true));
      UnlockAlone(h, t, p, m, v);
      LocksUndoneAgain(g, p, m);
      First(g, t, LockPte(p, m), v, h, UnlockPte(p, m), LocksUndone(g, p, m), PinFind(p));
    } else {
      PublishAlone(g, t, p, m, v);
      First(g, t, LockPte(p, m), v, g, Publish(p, m), g.(mapping := g.mapping[p := Frame(m)], owner := g.owner - {p}), PinFind(p));
    }
  }

  lemma LocksUndoneAgain(g: Pool, p: PageId, m: nat)
    requires Shaped(g) && m < |g.ptes| && p in g.mapping
    ensures LocksUndone(SetPte(g, m, g.ptes[m].(busy := true)), p, m) == LocksUndone(g, p, m)
  {
  }

  // ---- The whole fetch ----

  /** PinFind, an EMPTY mapping, and its lock. */
  lemma ClaimAlone(g: Pool, t: nat, p: PageId, v: nat)
    requires Shaped(g) && p in g.mapping && g.mapping[p] == Empty
    ensures Gets(g, t, PinFind(p), v, TakeMapping(g, p, Lock(t, Absent)), Init(p))
  {
    var r := TakeMapping(g, p, Lock(t, Absent));
    Stay(r, t, Init(p), v);
    First(g, t, Begin(p), v, r, Init(p), r, Init(p));
    First(g, t, PinFind(p), v, g, Begin(p), r, Init(p));
  }

  /** A resident page gets one more pin, and nothing else happens. */
  lemma FetchResident(g: Pool, t: nat, p: PageId, v: nat)
    requires PoolInv(g) && p in g.mapping && g.mapping[p].Frame?
    ensures var m := g.mapping[p].id; m < |g.ptes| && Gets(g, t, PinFind(p), v, Pinned(g, p, m), Idle)
  {
    var m := g.mapping[p].id;
    assert PageOk(g, p);
    Stay(Pinned(g, p, m), t, Idle, v);
    First(g, t, PinAdd(p, m), v, Pinned(g, p, m), Idle, Pinned(g, p, m), Idle);
    First(g, t, PinFind(p), v, g, PinAdd(p, m), Pinned(g, p, m), Idle);
  }

  lemma PolledAndLoaded(g: Pool, t: nat, p: PageId, m: nat)
    requires Shaped(g) && p in g.mapping && p !in g.owner && m < |g.ptes| && g.free != []
    ensures var h := TakeMapping(g, p, Lock(t, Absent)).(free := g.free[1..], place := g.place[m := Blank(t)]);
            Loaded(h, p, m).(owner := h.owner - {p}) == Loaded(g, p, m).(free := g.free[1..])
  {
    var h := TakeMapping(g, p, Lock(t, Absent)).(free := g.free[1..], place := g.place[m := Blank(t)]);
    assert h.owner - {p} == g.owner && h.place[m := Listed] == g.place[m := Listed] && h.mapping[p := Frame(m)] == g.mapping[p := Frame(m)];
  }

  lemma PollAlone(g: Pool, t: nat, p: PageId, v: nat)
    requires Shaped(g) && p in g.mapping && g.mapping[p] == Busy && g.latch == None && g.free != [] && g.free[0] < |g.ptes|
    ensures var m := g.free[0]; var h := g.(free := g.free[1..], place := g.place[m := Blank(t)]);
            Gets(g, t, Init(p), v, Loaded(h, p, m).(owner := h.owner - {p}), Idle)
  {
    var m := g.free[0];
    var h := g.(free := g.free[1..], place := g.place[m := Blank(t)]);
    LoadAlone(h, t, p, m, v);
    First(g, t, Init(p), v, h, Carry(p, m, Load), Loaded(h, p, m).(owner := h.owner - {p}), Idle);
  }

  /** With a free frame, the page is read into the first of them. */
  lemma FetchIntoFree(g: Pool, t: nat, p: PageId, v: nat)
    requires PoolInv(g) && p in g.mapping && g.mapping[p] == Empty && g.latch == None && g.free != []
    ensures var m := g.free[0]; m < |g.ptes| && Gets(g, t, PinFind(p), v, Loaded(g, p, m).(free := g.free[1..]), Idle)
  {
    var m := g.free[0];
    assert m in g.free && PageOk(g, p);
    PollAlone(TakeMapping(g, p, Lock(t, Absent)), t, p, v);
    PolledAndLoaded(g, t, p, m);
    ClaimAlone(g, t, p, v);
    Chain(g, t, PinFind(p), v, TakeMapping(g, p, Lock(t, Absent)), Init(p), Loaded(g, p, m).(free := g.free[1..]), Idle);
  }

  /** The page of an evictable frame is mapped to it, and nobody has locked its PTE. */
  lemma EvictableIsMapped(g: Pool, m: nat)
    requires PoolInv(g) && Evictable(g, m)
    ensures g.mapping[g.ptes[m].page] == Frame(m) && !g.ptes[m].busy && g.ptes[m].page !in g.owner && Distinct(g.list)
  {
    assert PlaceOk(g, m) && PageOk(g, g.ptes[m].page);
  }

  /** The pool in which t looks for a victim, to read p into its frame. */
  function Searching(g: Pool, t: nat, p: PageId): (r: Pool)
    requires Shaped(g) && p in g.mapping
    ensures Shaped(r)
  {
    TakeMapping(g, p, Lock(t, Absent)).(latch := Some(t))
  }

  lemma EnterAlone(g: Pool, t: nat, p: PageId, v: nat)
    requires Shaped(g) && p in g.mapping && g.latch == None && g.free == []
    ensures Gets(g, t, Init(p), v, g.(latch := Some(t)), Victim(p, Next))
  {
    var r := g.(latch := Some(t));
    Stay(r, t, Victim(p, Next), v);
    First(g, t, VicEnter(p), v, r, Victim(p, Next), r, Victim(p, Next));
    First(g, t, Init(p), v, g, VicEnter(p), r, Victim(p, Next));
  }

  lemma SearchAlone(g: Pool, t: nat, p: PageId, v: nat)
    requires Shaped(g) && p in g.mapping && g.mapping[p] == Empty && g.latch == None && g.free == []
    ensures Gets(g, t, PinFind(p), v, Searching(g, t, p), Victim(p, Next))
  {
    var h, r := TakeMapping(g, p, Lock(t, Absent)), Searching(g, t, p);
    EnterAlone(h, t, p, v);
    ClaimAlone(g, t, p, v);
    Chain(g, t, PinFind(p), v, h, Init(p), r, Victim(p, Next));
  }

  /** Page p is to be read in, and the only way is to evict the page of m. */
  predicate Replaces(g: Pool, p: PageId, m: nat) {
    && Shaped(g) && p in g.mapping && g.mapping[p] == Empty && g.latch == None && g.free == [] && Evictable(g, m)
    && g.mapping[g.ptes[m].page] == Frame(m) && !g.ptes[m].busy && p !in g.owner && g.ptes[m].page !in g.owner
  }

  function Replaced(g: Pool, p: PageId, m: nat): Pool
    requires Replaces(g, p, m)
  {
    Loaded(Evicted(g, m), p, m)
  }

  /** What is locked and then given back leaves no trace. */
  lemma LocksGivenBack(owner: map<PageId, Lock>, p: PageId, q: PageId, a: Lock, b: Lock)
    requires p !in owner && q !in owner
    ensures owner[p := a][q := b] - {q} - {p} == owner
  {
  }

  lemma MappingsGivenBack(mapping: map<PageId, MapWord>, p: PageId, q: PageId, m: nat)
    requires p != q
    ensures mapping[p := Busy][q := Busy][q := Empty][p := Frame(m)] == mapping[q := Empty][p := Frame(m)]
  {
  }

  lemma PlaceGivenBack(place: seq<Place>, t: nat, m: nat)
    requires m < |place|
    ensures place[m := Leaving(t)][m := Blank(t)][m := Listed] == place[m := Listed]
  {
  }

  lemma PteOverwritten(ptes: seq<Pte>, m: nat, e: Pte)
    requires m < |ptes|
    ensures ptes[m := ptes[m].(busy := true)][m := e] == ptes[m := e]
  {
  }

  /** The pool while t has the evicted frame m in its hands, field by field. */
  ghost predicate HasFreed(g: Pool, h: Pool, t: nat, p: PageId, m: nat)
    requires Replaces(g, p, m)
  {
    var e := g.ptes[m];
    h == g.(mapping := g.mapping[p := Busy][e.page := Busy][e.page := Empty],
            owner := g.owner[p := Lock(t, Absent)][e.page := Lock(t, Going(m))] - {e.page},
            place := g.place[m := Leaving(t)][m := Blank(t)],
            ptes := g.ptes[m := e.(busy := true)],
            disk := if e.dirty then g.disk[e.page := g.frames[m]] else g.disk,
            list := Remove(g.list, m))
  }

  lemma HasFreedFrame(g: Pool, t: nat, p: PageId, m: nat)
    requires Replaces(g, p, m)
    ensures HasFreed(g, Freed(Taken(Searching(g, t, p), t, m), t, m), t, p, m)
  {
  }

  lemma LoadedIsReplaced(g: Pool, h: Pool, t: nat, p: PageId, m: nat)
    requires Replaces(g, p, m) && HasFreed(g, h, t, p, m) && Shaped(h)
    ensures p in h.mapping && Loaded(h, p, m).(owner := h.owner - {p}) == Replaced(g, p, m)
  {
    LocksGivenBack(g.owner, p, g.ptes[m].page, Lock(t, Absent), Lock(t, Going(m)));
    MappingsGivenBack(g.mapping, p, g.ptes[m].page, m);
    PlaceGivenBack(g.place, t, m);
    PteOverwritten(g.ptes, m, Pte(1, p, true, false, false));
  }

  /** What is left of the search, the eviction and the load is the replacement. */
  lemma ReplacedIs(g: Pool, h: Pool, t: nat, p: PageId, m: nat)
    requires Replaces(g, p, m) && h == Freed(Taken(Searching(g, t, p), t, m), t, m)
    ensures Loaded(h, p, m).(owner := h.owner - {p}) == Replaced(g, p, m)
  {
    HasFreedFrame(g, t, p, m);
    LoadedIsReplaced(g, h, t, p, m);
  }

  /** Evicting the page of m and reading p into it. */
  lemma ReplaceAlone(g: Pool, t: nat, p: PageId, m: nat)
    requires Shaped(g) && m < |g.ptes| && p in g.mapping && g.mapping[p] == Busy && g.latch == None
    requires g.ptes[m].page in g.mapping && g.mapping[g.ptes[m].page] == Busy && g.ptes[m].page != p
    ensures var h := Freed(g, t, m);
            Gets(g, t, Carry(p, m, Evict), m, Loaded(h, p, m).(owner := h.owner - {p}), Idle)
  {
    var h := Freed(g, t, m);
    EvictAlone(g, t, p, m, m);
    LoadAlone(h, t, p, m, m);
    Chain(g, t, Carry(p, m, Evict), m, h, Carry(p, m, Load), Loaded(h, p, m).(owner := h.owner - {p}), Idle);
  }

  lemma VictimAlone(g: Pool, t: nat, p: PageId, m: nat) returns (h: Pool)
    requires Replaces(g, p, m)
    ensures h == Taken(Searching(g, t, p), t, m) && Gets(g, t, PinFind(p), m, h, Carry(p, m, Evict))
  {
    SearchAlone(g, t, p, m);
    TakeAlone(Searching(g, t, p), t, p, m);
    h := Taken(Searching(g, t, p), t, m);
    Chain(g, t, PinFind(p), m, Searching(g, t, p), Victim(p, Next), h, Carry(p, m, Evict));
  }

  lemma FromVictimAlone(g: Pool, h: Pool, t: nat, p: PageId, m: nat)
    requires Replaces(g, p, m) && h == Taken(Searching(g, t, p), t, m)
    ensures Shaped(h) && Gets(h, t, Carry(p, m, Evict), m, Replaced(g, p, m), Idle)
  {
    ReplaceAlone(h, t, p, m);
    ReplacedIs(g, Freed(h, t, m), t, p, m);
  }

  /** Without one, any frame that can be evicted will do: its page is written back, and p takes it. */
  lemma FetchByEviction(g: Pool, t: nat, p: PageId, m: nat)
    requires Replaces(g, p, m)
    ensures Gets(g, t, PinFind(p), m, Replaced(g, p, m), Idle)
  {
    var h := VictimAlone(g, t, p, m);
    FromVictimAlone(g, h, t, p, m);
    Chain(g, t, PinFind(p), m, h, Carry(p, m, Evict), Replaced(g, p, m), Idle);
  }

  /** A fetch of p finds what it needs; m is the frame it evicts if it has to. */
  predicate Ready(g: Pool, p: PageId, m: nat) {
    && Shaped(g) && p in g.mapping
    && match g.mapping[p] {
         case Frame(n) => n < |g.ptes|
         case Busy => false
         case Empty => if g.free != [] then g.latch == None && g.free[0] < |g.ptes| else Replaces(g, p, m)
       }
  }

  /** What a fetch of p is for: p's frame has one more pin, and if p was not resident, it is now. */
  function Fetched(g: Pool, p: PageId, m: nat): Pool
    requires Ready(g, p, m)
  {
    match g.mapping[p]
    case Frame(n) => Pinned(g, p, n)
    case Empty => if g.free != [] then Loaded(g, p, g.free[0]).(free := g.free[1..]) else Replaced(g, p, m)
  }

  /** Alone, a thread ends its fetch with exactly that effect on the pool. */
  lemma FetchAlone(g: Pool, t: nat, p: PageId, m: nat)
    requires PoolInv(g) && Ready(g, p, m)
    ensures Gets(g, t, PinFind(p), m, Fetched(g, p, m), Idle)
  {
    if g.mapping[p].Frame? { FetchResident(g, t, p, m); }
    else if g.free != [] { FetchIntoFree(g, t, p, m); }
    else { FetchByEviction(g, t, p, m); }
  }

  /** A page that lost its frame is on disk; every other page has what it had. */
  ghost predicate Undisturbed(g: Pool, r: Pool, q: PageId)
    requires Shaped(g) && Shaped(r) && r.mapping.Keys == g.mapping.Keys && q in g.mapping
  {
    || (r.mapping[q] == g.mapping[q] && r.disk[q] == g.disk[q]
        && (g.mapping[q].Frame? && g.mapping[q].id < |g.ptes| == |r.ptes| ==>
              r.frames[g.mapping[q].id] == g.frames[g.mapping[q].id] && r.ptes[g.mapping[q].id] == g.ptes[g.mapping[q].id]))
    || (g.mapping[q].Frame? && r.mapping[q] == Empty && r.disk[q] == g.content[q])
  }

  lemma PinSpares(g: Pool, p: PageId, n: nat, q: PageId)
    requires Shaped(g) && p in g.mapping && q in g.mapping && q != p
    requires g.mapping[p] == Frame(n) && PageOk(g, p) && PageOk(g, q)
    ensures Undisturbed(g, Pinned(g, p, n), q)
  {
  }

  lemma LoadSpares(g: Pool, p: PageId, n: nat, free: seq<nat>, q: PageId)
    requires Shaped(g) && p in g.mapping && q in g.mapping && q != p && n < |g.ptes|
    requires PageOk(g, q) && g.mapping[q] != Frame(n)
    ensures var r := Loaded(g, p, n).(free := free); r.mapping.Keys == g.mapping.Keys && Undisturbed(g, r, q)
  {
    assert Loaded(g, p, n).mapping.Keys == g.mapping.Keys;
  }

  lemma ReplaceSpares(g: Pool, p: PageId, m: nat, q: PageId)
    requires Replaces(g, p, m) && q in g.mapping && q != p && PageOk(g, q)
    requires var e := g.ptes[m]; g.frames[m] == g.content[e.page] && (e.dirty || g.disk[e.page] == g.content[e.page])
    ensures var r := Replaced(g, p, m); r.mapping.Keys == g.mapping.Keys && Shaped(r) && Undisturbed(g, r, q)
  {
    var r := Replaced(g, p, m);
    assert r.mapping.Keys == g.mapping.Keys;
  }

  /** No other page suffers. */
  lemma FetchSpares(g: Pool, p: PageId, m: nat, q: PageId)
    requires PoolInv(g) && Ready(g, p, m) && q in g.mapping && q != p
    ensures var r := Fetched(g, p, m); Shaped(r) && r.mapping.Keys == g.mapping.Keys && Undisturbed(g, r, q)
  {
    assert PageOk(g, p) && PageOk(g, q);
    if g.mapping[p].Frame? {
      PinSpares(g, p, g.mapping[p].id, q);
    } else if g.free != [] {
      assert g.free[0] in g.free && PlaceOk(g, g.free[0]);
      LoadSpares(g, p, g.free[0], g.free[1..], q);
    } else {
      EvictedIsBacked(g, m);
      ReplaceSpares(g, p, m, q);
    }
  }

  /** The newest pin of r is on p, and shows its bytes as g knows them. */
  ghost predicate Delivers(g: Pool, r: Pool, p: PageId)
    requires p in g.content
  {
    && r.content == g.content && r.nextPin == g.nextPin + 1 && r.pins.Keys == g.pins.Keys + {g.nextPin}
    && var pin := r.pins[g.nextPin];
    && pin.page == p && p in r.mapping && r.mapping[p] == Frame(pin.frame)
    && pin.frame < |r.ptes| && r.ptes[pin.frame].page == p
    && pin.frame < |r.frames| && r.frames[pin.frame] == g.content[p]
  }

  lemma LoadDelivers(g: Pool, p: PageId, n: nat, free: seq<nat>)
    requires Shaped(g) && p in g.mapping && n < |g.ptes| && g.disk[p] == g.content[p]
    ensures Delivers(g, Loaded(g, p, n).(free := free), p)
  {
  }

  lemma ReplaceDelivers(g: Pool, p: PageId, m: nat)
    requires Replaces(g, p, m) && g.disk[p] == g.content[p]
    ensures Delivers(g, Replaced(g, p, m), p)
  {
  }

  /** The pin a fetch grants shows the page as last written. */
  lemma FetchDelivers(g: Pool, p: PageId, m: nat)
    requires PoolInv(g) && Ready(g, p, m)
    ensures Delivers(g, Fetched(g, p, m), p)
  {
    assert PageOk(g, p);
    if g.mapping[p].Frame? {
      assert PlaceOk(g, g.mapping[p].id);
    } else if g.free != [] {
      LoadDelivers(g, p, g.free[0], g.free[1..]);
    } else {
      ReplaceDelivers(g, p, m);
    }
  }

  lemma EvictedIsBacked(g: Pool, m: nat)
    requires PoolInv(g) && Evictable(g, m) && !g.ptes[m].busy
    ensures var e := g.ptes[m]; g.frames[m] == g.content[e.page] && (e.dirty || g.disk[e.page] == g.content[e.page])
  {
    assert PlaceOk(g, m) && CountOk(g, m);
    assert PinsOn(g, m) == {};
    forall k ensures !WroteTo(g, k, m) {
      assert k in g.pins && g.pins[k].frame == m ==> k in PinsOn(g, m);
    }
  }

  // ---- When there is nothing to fetch into ----

  /** No listed frame can be evicted. */
  predicate NoneEvictable(g: Pool)
    requires Shaped(g)
  {
    forall m | m in g.list :: m < |g.ptes| && g.ptes[m].page in g.mapping && (g.ptes[m].refCount != 0 || g.mapping[g.ptes[m].page] == Busy)
  }

  predicate Barren(g: Pool)
    requires Shaped(g)
  {
    g.latch != None || (g.free == [] && NoneEvictable(g))
  }

  predicate HopelessScan(g: Pool, at: Scan)
    requires Shaped(g)
  {
    NoneEvictable(g) && match at
      case Next => true
      case Check(m) => m in g.list
      case Read(m) => m in g.list && g.ptes[m].refCount == 0
      case LockMap(m, q) => q in g.mapping && g.mapping[q] == Busy
      case GaveUp => true
      case _ => false
  }

  /** Left alone, the thread will never come to the end of its fetch. */
  predicate Hopeless(g: Pool, pc: Pc)
    requires Shaped(g)
  {
    match pc
    case PinFind(p) => p in g.mapping && (g.mapping[p] == Busy || (g.mapping[p] == Empty && Barren(g)))
    case Begin(p) => p in g.mapping && (g.mapping[p] == Busy || (g.mapping[p] == Empty && Barren(g)))
    case Init(p) => Barren(g)
    case VicEnter(p) => Barren(g)
    case Victim(p, at) => HopelessScan(g, at)
    case Carry(p, m, at) => g.latch != None && (at == Load || at == Store || at == Insert)
    case _ => false
  }

  lemma HopelessStep(g: Pool, t: nat, pc: Pc, pick: Pick)
    requires Shaped(g) && Hopeless(g, pc)
    ensures var (h, next) := Step(g, t, pc, pick); Hopeless(h, next)
  {
  }

  lemma {:induction false} HopelessAlone(g: Pool, t: nat, pc: Pc, picks: seq<Pick>)
    requires Shaped(g) && Hopeless(g, pc)
    ensures !Alone(g, t, pc, picks).1.Idle?
    decreases |picks|
  {
    if picks != [] {
      HopelessStep(g, t, pc, picks[0]);
      HopelessAlone(Step(g, t, pc, picks[0]).0, t, Step(g, t, pc, picks[0]).1, picks[1..]);
    }
  }

  /** Alone, the thread can end its fetch. */
  ghost predicate EndsAlone(g: Pool, t: nat, p: PageId)
    requires Shaped(g)
  {
    exists picks :: Alone(g, t, PinFind(p), picks).1.Idle?
  }

  /**
    In every state of every run, a fetch that is left alone comes to its end if and only if its page
    is resident, or neither page nor replacer is locked and some frame is free or can be evicted.
   */
  lemma EndsWhenItCan(run: seq<State>, events: seq<Event>, i: nat, t: nat, p: PageId)
    requires IsRun(run, events) && i < |run| && p in run[i].pool.mapping
    ensures var g := run[i].pool; Shaped(g) && (EndsAlone(g, t, p) <==> CanFetch(g, p))
  {
    RunKeeps(run, events, i);
    var g := run[i].pool;
    if CanFetch(g, p) {
      var m: nat := ReadyWith(g, p);
      FetchAlone(g, t, p, m);
      var n: nat :| InSteps(g, t, PinFind(p), m, n, Fetched(g, p, m), Idle);
      assert Alone(g, t, PinFind(p), Always(Pick(NO_PAGE, m, false), n)).1.Idle?;
    } else {
      CannotBeHopeful(g, p);
      forall picks ensures !Alone(g, t, PinFind(p), picks).1.Idle? { HopelessAlone(g, t, PinFind(p), picks); }
    }
  }

  lemma ReadyWith(g: Pool, p: PageId) returns (m: nat)
    requires PoolInv(g) && p in g.mapping && CanFetch(g, p)
    ensures Ready(g, p, m)
  {
    assert PageOk(g, p);
    m := 0;
    if g.mapping[p] == Empty {
      if g.free != [] {
        assert g.free[0] in g.free;
      } else {
        m :| m in g.list && Evictable(g, m);
        EvictableIsMapped(g, m);
      }
    }
  }

  lemma CannotBeHopeful(g: Pool, p: PageId)
    requires PoolInv(g) && p in g.mapping && !CanFetch(g, p)
    ensures Hopeless(g, PinFind(p))
  {
    forall m | m in g.list ensures m < |g.ptes| && g.ptes[m].page in g.mapping { assert PlaceOk(g, m); }
  }
}
