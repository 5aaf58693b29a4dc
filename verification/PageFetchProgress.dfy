/**
  Deadlock freedom of the page-fetch protocol: as long as no Victim has given up, every fetch under
  way can still be brought to its end and every pin released, exactly when there are as many frames
  as threads or as pages.
 */
module PageFetchProgress {
  import opened Collections
  import opened PageFetch
  import opened PageFetchInv
  import opened PageFetchThreads
  import opened PageFetchSafety
  import opened PageFetchAlone

  /** The state the events lead to. */
  function After(s: State, events: seq<Event>): (r: State)
    requires Shaped(s.pool)
    ensures Shaped(r.pool)
    decreases |events|
  {
    if events == [] then s else After(Apply(s, events[0]), events[1..])
  }

  lemma {:induction false} AfterThen(s: State, a: seq<Event>, b: seq<Event>)
    requires Shaped(s.pool)
    ensures After(s, a + b) == After(After(s, a), b)
    decreases |a|
  {
    if a == [] {
      assert a + b == b;
    } else {
      AfterThen(Apply(s, a[0]), a[1..], b);
      assert (a + b)[0] == a[0] && (a + b)[1..] == a[1..] + b;
    }
  }

  /** Nobody is fetching and nothing is pinned. */
  predicate Quiet(s: State) {
    (forall t | 0 <= t < |s.threads| :: s.threads[t] == Idle) && s.pool.pins == map[]
  }

  predicate GaveUpAt(pc: Pc) {
    pc.Victim? && pc.scan.GaveUp?
  }

  predicate NobodyGaveUp(s: State) {
    forall t | 0 <= t < |s.threads| :: !GaveUpAt(s.threads[t])
  }

  /** Some events lead from s to a quiet state. */
  ghost predicate CanRest(s: State)
    requires Shaped(s.pool)
  {
    exists more :: Quiet(After(s, more))
  }

  predicate WantsVictim(pc: Pc) {
    pc.VicEnter? || pc.Victim? || pc.VicEmpty?
  }

  /** A thread looks for a victim only after it found the free list empty. */
  predicate FreeGone(s: State) {
    forall t | 0 <= t < |s.threads| :: WantsVictim(s.threads[t]) ==> s.pool.free == []
  }

  /** Nobody asks a thread in Victim to give up. */
  predicate Patient(e: Event) {
    e.Run? ==> !e.pick.giveUp
  }

  /** The threads cannot have all frames in their hands and need one more. */
  predicate EnoughFrames(s: State) {
    |s.threads| <= |s.pool.ptes| || |s.pool.mapping| <= |s.pool.ptes|
  }

  ghost predicate Sound(s: State) {
    StateInv(s) && FreeGone(s) && NobodyGaveUp(s) && EnoughFrames(s)
  }

  /** After a step to (h, next) from (g, pc): the free list has not come back, and nobody gave up on his own. */
  predicate StaysGone(g: Pool, pc: Pc, pick: Pick, h: Pool, next: Pc) {
    && (g.free == [] ==> h.free == []) && (WantsVictim(next) ==> h.free == [])
    && (GaveUpAt(next) ==> GaveUpAt(pc) || pick.giveUp)
  }

  lemma ScanStaysGone(g: Pool, t: nat, p: PageId, at: Scan, pick: Pick)
    requires Shaped(g) && g.free == [] && ScanInRange(g, at)
    ensures var (h, next) := VictimStep(g, t, p, at, pick); StaysGone(g, Victim(p, at), pick, h, next)
  {
  }

  lemma CarryStaysGone(g: Pool, t: nat, p: PageId, m: nat, at: Stage, pick: Pick)
    requires Shaped(g) && InRange(g, Carry(p, m, at))
    ensures var (h, next) := CarryStep(g, t, p, m, at); StaysGone(g, Carry(p, m, at), pick, h, next)
  {
  }

  lemma PinStaysGone(g: Pool, t: nat, pc: Pc, pick: Pick)
    requires Shaped(g) && (pc.PinAdd? || pc.PinUndo? || pc.Begin? || pc.LockPte? || pc.UnlockPte?)
    ensures var (h, next) := Step(g, t, pc, pick); StaysGone(g, pc, pick, h, next)
  {
  }

  lemma FreeShrinks(g: Pool, t: nat, pc: Pc, pick: Pick)
    requires Shaped(g) && (WantsVictim(pc) ==> g.free == [])
    ensures var (h, next) := Step(g, t, pc, pick); StaysGone(g, pc, pick, h, next)
  {
    if InRange(g, pc) {
      if pc.Victim? { ScanStaysGone(g, t, pc.p, pc.scan, pick); }
      else if pc.Carry? { CarryStaysGone(g, t, pc.p, pc.m, pc.todo, pick); }
      else if pc.PinAdd? || pc.PinUndo? || pc.Begin? || pc.LockPte? || pc.UnlockPte? { PinStaysGone(g, t, pc, pick); }
    }
  }

  lemma FreeGoneKeeps(s: State, e: Event)
    requires Shaped(s.pool) && FreeGone(s)
    ensures FreeGone(Apply(s, e)) && (Patient(e) && NobodyGaveUp(s) ==> NobodyGaveUp(Apply(s, e)))
  {
    if e.Run? && e.t < |s.threads| { FreeShrinks(s.pool, e.t, s.threads[e.t], e.pick); }
  }

  lemma SizesKeep(s: State, e: Event)
    requires StateInv(s)
    ensures var r := Apply(s, e);
            |r.threads| == |s.threads| && |r.pool.ptes| == |s.pool.ptes| && r.pool.mapping.Keys == s.pool.mapping.Keys
            && |r.pool.mapping| == |s.pool.mapping|
  {
    if e.Run? && e.t < |s.threads| { RunLeaves(s, e); } else { ClientKeeps(s.pool, e); }
    assert |s.pool.mapping.Keys| == |s.pool.mapping| && |Apply(s, e).pool.mapping.Keys| == |Apply(s, e).pool.mapping|;
  }

  lemma SoundKeeps(s: State, e: Event)
    requires Sound(s) && Patient(e)
    ensures Sound(Apply(s, e))
  {
    ApplyKeeps(s, e);
    FreeGoneKeeps(s, e);
    SizesKeep(s, e);
  }

  // ---- How far a thread is from the end of its fetch ----

  function ScanRank(at: Scan): nat {
    match at
    case GaveUp => 0
    case Take(_) => 9
    case Next => 10
    case Republish(_, _) => 11
    case UnlockVic(_, _) => 12
    case Recheck(_, _, _) => 13
    case LockVic(_, _, _) => 14
    case LockMap(_, _) => 15
    case Read(_) => 16
    case Check(_) => 17
  }

  function StageRank(at: Stage): nat {
    match at
    case Insert => 2
    case Store => 4
    case Load => 5
    case EvictDelete => 6
    case EvictWrite => 7
    case Evict => 8
  }

  /** Counts the operations left, with 1 for the release of the pin. */
  function Rank(pc: Pc): nat {
    match pc
    case Idle => 0
    case Failed => 0
    case Create(_, _) => 1
    case Carry(_, _, at) => StageRank(at)
    case Victim(_, at) => ScanRank(at)
    case VicEmpty(_, _) => 11
    case VicEnter(_) => 18
    case Init(_) => 19
    case PinFind(_) => 20
    case Publish(_, _) => 21
    case UnlockPte(_, _) => 22
    case LockPte(_, _) => 23
    case Begin(_) => 24
    case PinUndo(_, _) => 25
    case PinAdd(_, _) => 26
  }

  function Measure(s: State): nat {
    Sum(s.threads, Rank) + |s.pool.pins|
  }

  /** One operation does not bring the thread closer to its end: it has to wait or to begin anew. */
  predicate Waits(g: Pool, pc: Pc) {
    match pc
    case Idle => true
    case PinFind(p) => true
    case Begin(p) => p in g.mapping && g.mapping[p] == Busy
    case VicEnter(_) => g.latch != None
    case Victim(_, at) => at == Next || at == GaveUp
    case Carry(_, _, at) => at == Insert && g.latch != None
    case _ => false
  }

  lemma GrantCounts(g: Pool, m: nat, p: PageId)
    ensures |GrantPin(g, m, p).pins| <= |g.pins| + 1
  {
  }

  /** The thread's next operation brings it, or the release of its pin, closer to the end. */
  predicate Nears(g: Pool, t: nat, pc: Pc, pick: Pick)
    requires Shaped(g)
  {
    var (h, next) := Step(g, t, pc, pick);
    Rank(next) + |h.pins| < Rank(pc) + |g.pins|
  }

  lemma LockScanNears(g: Pool, t: nat, p: PageId, at: Scan, pick: Pick)
    requires Shaped(g) && InRange(g, Victim(p, at)) && (at.LockMap? || at.LockVic?)
    ensures Nears(g, t, Victim(p, at), pick)
  {
  }

  lemma UnlockScanNears(g: Pool, t: nat, p: PageId, at: Scan, pick: Pick)
    requires Shaped(g) && InRange(g, Victim(p, at)) && (at.UnlockVic? || at.Republish?)
    ensures Nears(g, t, Victim(p, at), pick)
  {
  }

  lemma ScanNears(g: Pool, t: nat, p: PageId, at: Scan, pick: Pick)
    requires Shaped(g) && InRange(g, Victim(p, at)) && !Waits(g, Victim(p, at))
    ensures Nears(g, t, Victim(p, at), pick)
  {
    if at.LockMap? || at.LockVic? { LockScanNears(g, t, p, at, pick); }
    else if at.UnlockVic? || at.Republish? { UnlockScanNears(g, t, p, at, pick); }
  }

  lemma EvictNears(g: Pool, t: nat, p: PageId, m: nat, at: Stage, pick: Pick)
    requires Shaped(g) && InRange(g, Carry(p, m, at)) && (at.Evict? || at.EvictWrite? || at.EvictDelete?)
    ensures Nears(g, t, Carry(p, m, at), pick)
  {
  }

  lemma StoreNears(g: Pool, t: nat, p: PageId, m: nat, pick: Pick)
    requires Shaped(g) && InRange(g, Carry(p, m, Store))
    ensures Nears(g, t, Carry(p, m, Store), pick)
  {
    GrantCounts(SetPte(g, m, Pte(1, p, true, false, false)), m, p);
  }

  lemma CarryNears(g: Pool, t: nat, p: PageId, m: nat, at: Stage, pick: Pick)
    requires Shaped(g) && InRange(g, Carry(p, m, at)) && !Waits(g, Carry(p, m, at))
    ensures Nears(g, t, Carry(p, m, at), pick)
  {
    if at.Store? { StoreNears(g, t, p, m, pick); }
    else if !at.Load? && !at.Insert? { EvictNears(g, t, p, m, at, pick); }
  }

  lemma PinAddNears(g: Pool, t: nat, p: PageId, m: nat, pick: Pick)
    requires Shaped(g) && InRange(g, PinAdd(p, m))
    ensures Nears(g, t, PinAdd(p, m), pick)
  {
    GrantCounts(SetPte(g, m, g.ptes[m].(refCount := g.ptes[m].refCount + 1)), m, p);
  }

  lemma PublishKeepsPins(g: Pool, p: PageId, w: MapWord, next: Pc)
    requires Shaped(g) && p in g.mapping
    ensures var r := PublishStep(g, p, w, next); r.0.pins == g.pins && (r.1 == next || r.1 == Failed)
  {
  }

  lemma PublishNears(g: Pool, t: nat, pc: Pc, pick: Pick)
    requires Shaped(g) && InRange(g, pc) && (pc.Publish? || pc.Create? || pc.VicEmpty?)
    ensures Nears(g, t, pc, pick)
  {
    if pc.Publish? { PublishKeepsPins(g, pc.p, Frame(pc.m), PinFind(pc.p)); }
    else if pc.Create? { PublishKeepsPins(g, pc.p, Frame(pc.m), Idle); }
  }

  lemma LockNears(g: Pool, t: nat, pc: Pc, pick: Pick)
    requires Shaped(g) && InRange(g, pc) && (pc.LockPte? || pc.UnlockPte? || pc.Publish? || pc.Create? || pc.VicEmpty?)
    ensures Nears(g, t, pc, pick)
  {
    if !pc.LockPte? && !pc.UnlockPte? { PublishNears(g, t, pc, pick); }
  }

  /** Any other operation does, whatever its outcome. */
  lemma Downhill(g: Pool, t: nat, pc: Pc, pick: Pick)
    requires Shaped(g) && InRange(g, pc) && (g.free != [] ==> g.free[0] < |g.ptes|) && !Waits(g, pc) && !pc.Failed?
    ensures Nears(g, t, pc, pick)
  {
    if pc.Victim? { ScanNears(g, t, pc.p, pc.scan, pick); }
    else if pc.Carry? { CarryNears(g, t, pc.p, pc.m, pc.todo, pick); }
    else if pc.PinAdd? { PinAddNears(g, t, pc.p, pc.m, pick); }
    else if !pc.PinUndo? && !pc.Begin? && !pc.Init? && !pc.VicEnter? { LockNears(g, t, pc, pick); }
  }

  // ---- One thread goes on while the others stand still ----

  lemma {:induction false} AloneRuns(s: State, t: nat, m: nat, n: nat, h: Pool, next: Pc) returns (more: seq<Event>)
    requires Sound(s) && t < |s.threads| && InSteps(s.pool, t, s.threads[t], m, n, h, next)
    ensures Sound(After(s, more)) && After(s, more) == State(s.threads[t := next], h)
    decreases n
  {
    if n == 0 {
      more := [];
      assert s.threads[t := s.threads[t]] == s.threads;
    } else {
      var e := Run(t, Pick(NO_PAGE, m, false));
      SoundKeeps(s, e);
      StepFirst(s, t, m, n, h, next);
      var rest := AloneRuns(Apply(s, e), t, m, n - 1, h, next);
      more := [e] + rest;
      assert more[0] == e && more[1..] == rest;
      assert Apply(s, e).threads[t := next] == s.threads[t := next];
    }
  }

  lemma StepFirst(s: State, t: nat, m: nat, n: nat, h: Pool, next: Pc)
    requires Shaped(s.pool) && t < |s.threads| && n > 0 && InSteps(s.pool, t, s.threads[t], m, n, h, next)
    ensures var r := Apply(s, Run(t, Pick(NO_PAGE, m, false)));
            |r.threads| == |s.threads| && InSteps(r.pool, t, r.threads[t], m, n - 1, h, next)
            && forall u | 0 <= u < |s.threads| && u != t :: r.threads[u] == s.threads[u]
  {
    var pick := Pick(NO_PAGE, m, false);
    assert Always(pick, n)[0] == pick && Always(pick, n)[1..] == Always(pick, n - 1);
  }

  /** Thread t does what it does alone, and the whole comes closer to rest. */
  lemma LetGoOn(s: State, t: nat, m: nat, h: Pool, next: Pc) returns (more: seq<Event>)
    requires Sound(s) && t < |s.threads| && Gets(s.pool, t, s.threads[t], m, h, next)
    requires Rank(next) + |h.pins| < Rank(s.threads[t]) + |s.pool.pins|
    ensures Sound(After(s, more)) && Measure(After(s, more)) < Measure(s)
  {
    var n: nat :| InSteps(s.pool, t, s.threads[t], m, n, h, next);
    more := AloneRuns(s, t, m, n, h, next);
    SumUpdate(s.threads, t, next, Rank);
  }

  // ---- A victim can be found ----

  ghost predicate AllWait(s: State) {
    forall t | 0 <= t < |s.threads| :: Waits(s.pool, s.threads[t])
  }

  predicate Locked(g: Pool, p: PageId, t: nat) {
    p in g.owner && g.owner[p].who == t
  }

  predicate HasLatch(g: Pool, t: nat) {
    g.latch == Some(t)
  }

  /** The frame is in a thread's hands, between Poll or Victim and Insert, and the thread has its page locked. */
  lemma InHands(s: State, m: nat) returns (u: nat)
    requires StateInv(s) && m < |s.pool.ptes| && !s.pool.place[m].Free? && !s.pool.place[m].Listed?
    ensures u < |s.threads| && HasFrame(s.threads[u], m) && Locked(s.pool, s.threads[u].p, u) && s.threads[u].p in s.pool.mapping
  {
    u := s.pool.place[m].who;
    assert ThreadInv(s.pool, u, s.threads[u]) && HeldBy(s.pool.place[m], u);
  }

  /** Which threads have the first k frames, when none of these is free or listed. */
  lemma {:induction false} AllInHands(s: State, k: nat) returns (who: seq<nat>)
    requires StateInv(s) && k <= |s.pool.ptes| && forall m | 0 <= m < k :: !s.pool.place[m].Free? && !s.pool.place[m].Listed?
    ensures |who| == k
    ensures forall m | 0 <= m < k :: who[m] < |s.threads| && HasFrame(s.threads[who[m]], m)
              && Locked(s.pool, s.threads[who[m]].p, who[m]) && s.threads[who[m]].p in s.pool.mapping
  {
    who := [];
    if k > 0 {
      who := AllInHands(s, k - 1);
      var u := InHands(s, k - 1);
      who := who + [u];
    }
  }

  /** Not all frames are in the hands of threads: there are too few of those, or of their pages. */
  lemma SomeListed(s: State, t: nat) returns (m: nat)
    requires Sound(s) && t < |s.threads| && WantsVictim(s.threads[t])
    ensures m < |s.pool.ptes| && s.pool.place[m] == Listed
  {
    if k :| 0 <= k < |s.pool.ptes| && s.pool.place[k] == Listed {
      m := k;
    } else {
      var n := |s.pool.ptes|;
      forall k | 0 <= k < n ensures !s.pool.place[k].Free? { assert PlaceOk(s.pool, k); }
      var who := AllInHands(s, n);
      assert ThreadInv(s.pool, t, s.threads[t]) && Locked(s.pool, s.threads[t].p, t);
      NoLongerThan(who + [t], set u | u in who + [t]);
      BelowCount(set u | u in who + [t], |s.threads|);
      NoLongerThan(seq(n, i requires 0 <= i < n => s.threads[who[i]].p) + [s.threads[t].p], s.pool.mapping.Keys);
      assert false;
    }
  }

  /** A thread that waits has locked its own page only, and that has no listed frame. */
  lemma WaitersLockNoListed(s: State, q: PageId)
    requires Sound(s) && AllWait(s) && q in s.pool.owner
    ensures var why := s.pool.owner[q].why; !(why.At? && why.m < |s.pool.ptes| && s.pool.place[why.m] == Listed)
  {
    var u := s.pool.owner[q].who;
    assert ThreadInv(s.pool, u, s.threads[u]) && Holds(s.pool, s.threads[u], q);
  }

  /** When all the others wait and nothing is pinned, a listed frame can be evicted. */
  lemma ListedIsEvictable(s: State, m: nat)
    requires Sound(s) && AllWait(s) && s.pool.pins == map[] && m < |s.pool.ptes| && s.pool.place[m] == Listed
    ensures Evictable(s.pool, m) && s.pool.mapping[s.pool.ptes[m].page] == Frame(m) && !s.pool.ptes[m].busy
  {
    var g := s.pool;
    var q := g.ptes[m].page;
    assert PlaceOk(g, m) && CountOk(g, m);
    if q in g.owner { WaitersLockNoListed(s, q); }
    assert PageOk(g, q);
    forall t: nat | t < |s.threads| ensures t !in g.debts { assert ThreadInv(g, t, s.threads[t]); }
    assert PinsOn(g, m) == {} && DebtsOn(g, m) == {};
  }

  // ---- From every state to a quiet one ----

  /** When all wait for something else than the latch, no mapping is BUSY. */
  lemma NothingLocked(s: State, p: PageId)
    requires Sound(s) && AllWait(s) && s.pool.latch == None && p in s.pool.mapping
    ensures s.pool.mapping[p] != Busy
  {
    assert PageOk(s.pool, p);
    forall t: nat | t < |s.threads| ensures !Locked(s.pool, p, t) {
      assert ThreadInv(s.pool, t, s.threads[t]) && Waits(s.pool, s.threads[t]);
    }
    assert p in s.pool.owner ==> Locked(s.pool, p, s.pool.owner[p].who);
  }

  lemma AfterTwo(s: State, a: Event, b: Event)
    requires Shaped(s.pool)
    ensures After(s, [a, b]) == Apply(Apply(s, a), b)
  {
    assert [a, b][1..] == [b] && [b][1..] == [];
    assert After(Apply(s, a), [b]) == Apply(Apply(s, a), b);
  }

  lemma MarkedPin(s: State, k: nat)
    requires Sound(s) && k in s.pool.pins
    ensures var r := Apply(s, MarkDirty(k));
            Sound(r) && r.threads == s.threads && k in r.pool.pins && !r.pool.pins[k].wrote && |r.pool.pins| == |s.pool.pins|
  {
    assert PinOk(s.pool, k) && PlaceOk(s.pool, s.pool.pins[k].frame);
    SoundKeeps(s, MarkDirty(k));
  }

  lemma ReleasedPin(s: State, k: nat)
    requires Sound(s) && k in s.pool.pins && !s.pool.pins[k].wrote
    ensures var r := Apply(s, Release(k));
            Sound(r) && r.threads == s.threads && |r.pool.pins| == |s.pool.pins| - 1
  {
    assert PinOk(s.pool, k) && PlaceOk(s.pool, s.pool.pins[k].frame);
    SoundKeeps(s, Release(k));
  }

  lemma ReleasePin(s: State, k: nat) returns (more: seq<Event>)
    requires Sound(s) && k in s.pool.pins
    ensures Sound(After(s, more)) && Measure(After(s, more)) < Measure(s)
  {
    MarkedPin(s, k);
    var s1 := Apply(s, MarkDirty(k));
    ReleasedPin(s1, k);
    more := [MarkDirty(k), Release(k)];
    AfterTwo(s, MarkDirty(k), Release(k));
  }

  lemma StepOne(s: State, t: nat) returns (more: seq<Event>)
    requires Sound(s) && t < |s.threads| && !Waits(s.pool, s.threads[t])
    ensures Sound(After(s, more)) && Measure(After(s, more)) < Measure(s)
  {
    var e := Run(t, Pick(NO_PAGE, 0, false));
    assert ThreadInv(s.pool, t, s.threads[t]);
    ThreadInRange(s.pool, t, s.threads[t]);
    assert s.pool.free != [] ==> s.pool.free[0] in s.pool.free;
    Downhill(s.pool, t, s.threads[t], e.pick);
    SoundKeeps(s, e);
    SumUpdate(s.threads, t, Apply(s, e).threads[t], Rank);
    more := [e];
    assert more[1..] == [];
  }

  /** A thread that waits in Victim finds one. */
  lemma FinishVictim(s: State, t: nat) returns (more: seq<Event>)
    requires Sound(s) && AllWait(s) && s.pool.pins == map[] && t < |s.threads| && s.threads[t].Victim?
    ensures Sound(After(s, more)) && Measure(After(s, more)) < Measure(s)
  {
    assert Waits(s.pool, s.threads[t]) && !GaveUpAt(s.threads[t]) && ThreadInv(s.pool, t, s.threads[t]);
    var m := SomeListed(s, t);
    ListedIsEvictable(s, m);
    var p := s.threads[t].p;
    TakeAlone(s.pool, t, p, m);
    more := LetGoOn(s, t, m, Taken(s.pool, t, m), Carry(p, m, Evict));
  }

  /** A thread that begins finds its page's mapping unlocked. */
  lemma BeginFetch(s: State, t: nat) returns (more: seq<Event>)
    requires Sound(s) && AllWait(s) && s.pool.latch == None && t < |s.threads| && s.threads[t].PinFind?
    ensures Sound(After(s, more)) && Measure(After(s, more)) < Measure(s)
  {
    var g, p := s.pool, s.threads[t].p;
    assert ThreadInv(g, t, s.threads[t]);
    NothingLocked(s, p);
    if g.mapping[p].Frame? {
      FetchResident(g, t, p, 0);
      GrantCounts(g, g.mapping[p].id, p);
      more := LetGoOn(s, t, 0, Pinned(g, p, g.mapping[p].id), Idle);
    } else {
      ClaimAlone(g, t, p, 0);
      more := LetGoOn(s, t, 0, TakeMapping(g, p, Lock(t, Absent)), Init(p));
    }
  }

  lemma Progress(s: State) returns (more: seq<Event>)
    requires Sound(s) && !Quiet(s)
    ensures Sound(After(s, more)) && Measure(After(s, more)) < Measure(s)
  {
    if t :| 0 <= t < |s.threads| && !Waits(s.pool, s.threads[t]) {
      more := StepOne(s, t);
    } else if k :| k in s.pool.pins {
      more := ReleasePin(s, k);
    } else if t :| 0 <= t < |s.threads| && s.threads[t].Victim? {
      assert s.pool.pins == map[];
      more := FinishVictim(s, t);
    } else {
      LatchIsFree(s);
      var t := Beginner(s);
      more := BeginFetch(s, t);
    }
  }

  lemma LatchIsFree(s: State)
    requires Sound(s) && forall t | 0 <= t < |s.threads| :: !s.threads[t].Victim?
    ensures s.pool.latch == None
  {
    forall t: nat | t < |s.threads| ensures !HasLatch(s.pool, t) { assert ThreadInv(s.pool, t, s.threads[t]); }
    assert s.pool.latch.Some? ==> HasLatch(s.pool, s.pool.latch.value);
  }

  lemma Beginner(s: State) returns (t: nat)
    requires Sound(s) && AllWait(s) && !Quiet(s) && s.pool.pins == map[] && s.pool.latch == None
    ensures t < |s.threads| && s.threads[t].PinFind?
  {
    t :| 0 <= t < |s.threads| && s.threads[t] != Idle;
    assert Waits(s.pool, s.threads[t]) && ThreadInv(s.pool, t, s.threads[t]);
    if s.threads[t].Begin? { NothingLocked(s, s.threads[t].p); }
  }

  /** However the threads stand, they can all come to the end of their fetches. */
  lemma {:induction false} ComesToRest(s: State) returns (more: seq<Event>)
    requires Sound(s)
    ensures Quiet(After(s, more)) && StateInv(After(s, more))
    decreases Measure(s)
  {
    more := [];
    if !Quiet(s) {
      more := Progress(s);
      var rest := ComesToRest(After(s, more));
      AfterThen(s, more, rest);
      more := more + rest;
    }
  }

  /** At rest nothing is left over: no count, no lock, no frame astray, no page half moved. */
  lemma RestIsClean(s: State)
    requires StateInv(s) && Quiet(s)
    ensures var g := s.pool;
            && g.latch == None
            && (forall p | p in g.mapping :: g.mapping[p] != Busy)
            && (forall m | 0 <= m < |g.ptes| :: g.ptes[m].refCount == 0 && !g.ptes[m].busy && (m in g.free || m in g.list))
  {
    var g := s.pool;
    forall t: nat | t < |s.threads| ensures t !in g.debts && g.latch != Some(t) { assert ThreadInv(g, t, s.threads[t]); }
    forall p | p in g.mapping ensures g.mapping[p] != Busy { RestLocksNothing(s, p); }
    forall m | 0 <= m < |g.ptes| ensures g.ptes[m].refCount == 0 && !g.ptes[m].busy && (m in g.free || m in g.list) {
      RestHoldsNothing(s, m);
    }
  }

  lemma RestLocksNothing(s: State, p: PageId)
    requires StateInv(s) && Quiet(s) && p in s.pool.mapping
    ensures s.pool.mapping[p] != Busy && p !in s.pool.owner
  {
    assert PageOk(s.pool, p);
    forall t: nat | t < |s.threads| ensures !Locked(s.pool, p, t) {
      assert ThreadInv(s.pool, t, s.threads[t]);
    }
    assert p in s.pool.owner ==> Locked(s.pool, p, s.pool.owner[p].who);
  }

  lemma RestHoldsNothing(s: State, m: nat)
    requires StateInv(s) && Quiet(s) && m < |s.pool.ptes|
    ensures var g := s.pool; g.ptes[m].refCount == 0 && !g.ptes[m].busy && (m in g.free || m in g.list)
  {
    var g := s.pool;
    forall t: nat | t < |s.threads| ensures t !in g.debts && !HeldBy(g.place[m], t) { assert ThreadInv(g, t, s.threads[t]); }
    assert CountOk(g, m) && PlaceOk(g, m);
    assert !g.place[m].Free? && !g.place[m].Listed? ==> HeldBy(g.place[m], g.place[m].who);
    assert g.ptes[m].page in g.mapping ==> PageOk(g, g.ptes[m].page);
    if g.ptes[m].page in g.mapping { RestLocksNothing(s, g.ptes[m].page); }
    assert PinsOn(g, m) == {} && DebtsOn(g, m) == {};
  }
}
