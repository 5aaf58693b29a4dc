/**
  The page-fetch and eviction protocol of one buffer pool, as a transition system over any number
  of threads.  One `Step` is one atomic operation of one thread: a load, a store, a fetch-add, a
  successful compare-and-swap, one disk transfer, or one critical section of the replacer latch.
  A run (`IsRun`) is any sequence of events from the initial state, so every interleaving is covered.
 */
module PageFetch {
  import opened Collections

  /** A file page: file handle and page number in that file. */
  datatype PageId = PageId(fd: nat, fpage: nat)

  /** What an EMPTY_PTE names: no registered page. */
  const NO_PAGE := PageId(8191, 0xFFFF_FFFF)

  /** The word kept for each file page: not resident, somebody is working on it, or its frame. */
  datatype MapWord = Empty | Busy | Frame(id: nat)

  /** A page-table entry, unpacked; module PackedPte relates it to the 64-bit word. */
  datatype Pte = Pte(refCount: int, page: PageId, initialized: bool, dirty: bool, busy: bool)

  const EMPTY_PTE := Pte(0, NO_PAGE, false, false, false)

  type Bytes = seq<bv8>

  datatype Option<T> = None | Some(value: T)

  /** Where a thread is in `Pin` and `FetchPageSync`; `p` is the page it fetches. */
  datatype Pc =
    | Idle
    | PinFind(p: PageId)                  // Pin: about to read the mapping
    | PinAdd(p: PageId, m: nat)           // Pin: about to fetch-add frame m
    | PinUndo(p: PageId, m: nat)          // Pin: m held another page, take 1 back
    | Begin(p: PageId)                    // about to lock the mapping
    | LockPte(p: PageId, m: nat)          // mapping locked, about to lock frame m
    | UnlockPte(p: PageId, m: nat)        // both locked, page was resident: undo
    | Publish(p: PageId, m: nat)          // about to put m back into the mapping
    | Init(p: PageId)                     // needs a frame
    | VicEnter(p: PageId)                 // waits for the replacer latch
    | Victim(p: PageId, scan: Scan)       // in Victim, with the latch
    | VicEmpty(p: PageId, m: nat)         // in Victim, locked a mapping that was EMPTY
    | Carry(p: PageId, m: nat, todo: Stage) // has frame m to itself
    | Create(p: PageId, m: nat)           // about to publish m as p's frame
    | Failed                              // an assertion of the code failed

  /** Where a thread is in `Victim`. */
  datatype Scan =
    | Next                                // picks the next listed frame
    | Check(m: nat)                       // about to read m's count
    | Read(m: nat)                        // about to read which page m holds
    | LockMap(m: nat, q: PageId)          // about to lock the mapping of q
    | LockVic(m: nat, q: PageId, n: nat)  // q locked, it named frame n
    | Recheck(m: nat, q: PageId, n: nat)  // n locked, about to read m's count again
    | Take(m: nat)                        // about to take m off the list
    | UnlockVic(m: nat, n: nat)           // gives n up: about to unlock its PTE
    | Republish(q: PageId, n: nat)        // gives n up: about to republish it
    | GaveUp                              // out of budget: assert(false)

  /** What a thread is about to do with the frame in its hands. */
  datatype Stage =
    | Evict                               // read the dirty bit
    | EvictWrite                          // write the old page back
    | EvictDelete                         // empty the old page's mapping
    | Load                                // read p from disk
    | Store                               // overwrite the PTE
    | Insert                              // list the frame in the replacer

  /** A pin handed out by Pin or FetchPageSync.  `wrote`: bytes changed, dirty bit not yet set. */
  datatype Pin = Pin(frame: nat, page: PageId, wrote: bool)

  /** Who has a frame; a held frame still carries its old page, carries nothing, or its new page. */
  datatype Place = Free | Listed | Leaving(who: nat) | Blank(who: nat) | Fresh(who: nat)

  /** Who turned a mapping BUSY, and what it knows about the page. */
  datatype Lock = Lock(who: nat, why: Why)
  datatype Why = Absent | At(m: nat) | Going(m: nat)

  /**
    The first seven fields are the pool's own state.  The others are bookkeeping that no step
    consults: `content` is what each page logically holds, `pins` the live pins, `owner` who holds
    each BUSY mapping, `place` who has each frame, `debts` which thread owes which frame a
    decrement, and `strays` whose increments of a busy frame were left behind.
   */
  datatype Pool = Pool(
    mapping: map<PageId, MapWord>,
    ptes: seq<Pte>,
    free: seq<nat>,
    list: seq<nat>,
    latch: Option<nat>,
    frames: seq<Bytes>,
    disk: map<PageId, Bytes>,
    content: map<PageId, Bytes>,
    pins: map<nat, Pin>,
    nextPin: nat,
    owner: map<PageId, Lock>,
    place: seq<Place>,
    debts: map<nat, nat>,
    strays: seq<set<nat>>)

  datatype State = State(threads: seq<Pc>, pool: Pool)

  /** The scheduler's choices: which page an idle thread fetches, which frame a scan looks at. */
  datatype Pick = Pick(page: PageId, frame: nat, giveUp: bool)

  datatype Event =
    | Run(t: nat, pick: Pick)         // thread t does its next operation
    | Write(k: nat, bytes: Bytes)     // the holder of pin k stores into the frame
    | MarkDirty(k: nat)               // DecRefCount(true): fetch_or of the dirty bit
    | Release(k: nat)                 // DecRefCount: fetch_sub

  predicate Shaped(g: Pool) {
    && |g.frames| == |g.ptes| && |g.place| == |g.ptes| && |g.strays| == |g.ptes|
    && g.disk.Keys == g.mapping.Keys && g.content.Keys == g.mapping.Keys
    && NO_PAGE !in g.mapping
  }

  predicate ScanInRange(g: Pool, at: Scan) {
    && (at.Check? || at.Read? || at.LockMap? || at.LockVic? || at.Recheck? || at.Take? || at.UnlockVic? ==> at.m < |g.ptes|)
    && (at.LockVic? || at.UnlockVic? ==> at.n < |g.ptes|)
    && (at.LockMap? || at.Republish? ==> at.q in g.mapping)
  }

  /** The operands of a program point exist. */
  predicate InRange(g: Pool, pc: Pc) {
    && (!pc.Idle? && !pc.Failed? ==> pc.p in g.mapping)
    && (pc.PinAdd? || pc.PinUndo? || pc.LockPte? || pc.UnlockPte? || pc.VicEmpty? || pc.Carry? ==> pc.m < |g.ptes|)
    && (pc.Victim? ==> ScanInRange(g, pc.scan))
    && (pc.VicEmpty? || (pc.Carry? && (pc.todo.EvictWrite? || pc.todo.EvictDelete?)) ==> g.ptes[pc.m].page in g.mapping)
  }

  /** PageMapping::LockMapping on a word that is not BUSY. */
  function TakeMapping(g: Pool, p: PageId, l: Lock): Pool {
    g.(mapping := g.mapping[p := Busy], owner := g.owner[p := l])
  }

  function SetPte(g: Pool, m: nat, e: Pte): Pool
    requires m < |g.ptes|
  {
    g.(ptes := g.ptes[m := e])
  }

  /** PTE::Lock succeeds on a free entry, and on one never loaded whatever its count. */
  predicate Lockable(e: Pte) {
    !((e.refCount != 0 && e.initialized) || e.busy)
  }

  function GrantPin(g: Pool, m: nat, p: PageId): Pool {
    g.(pins := g.pins[g.nextPin := Pin(m, p, false)], nextPin := g.nextPin + 1)
  }

  /** IncRefCount1: the count goes up first, and only then is the old word looked at. */
  function PinAddStep(g: Pool, t: nat, p: PageId, m: nat): (r: (Pool, Pc))
    requires Shaped(g) && m < |g.ptes|
    ensures Shaped(r.0)
  {
    var e := g.ptes[m];
    var g1 := SetPte(g, m, e.(refCount := e.refCount + 1));
    if e.busy then (g1.(strays := g.strays[m := g.strays[m] + {t}]), Begin(p))
    else if e.page != p then (g1.(debts := g.debts[t := m]), PinUndo(p, m))
    else (GrantPin(g1, m, p), Idle)
  }

  function PinUndoStep(g: Pool, t: nat, p: PageId, m: nat): (r: (Pool, Pc))
    requires Shaped(g) && m < |g.ptes|
    ensures Shaped(r.0)
  {
    var e := g.ptes[m];
    (SetPte(g, m, e.(refCount := e.refCount - 1)).(debts := g.debts - {t}), Begin(p))
  }

  function BeginStep(g: Pool, t: nat, p: PageId): (r: (Pool, Pc))
    requires Shaped(g) && p in g.mapping
    ensures Shaped(r.0)
  {
    match g.mapping[p]
    case Busy => (g, PinFind(p))
    case Empty => (TakeMapping(g, p, Lock(t, Absent)), Init(p))
    case Frame(m) => (TakeMapping(g, p, Lock(t, At(m))), LockPte(p, m))
  }

  function LockStep(g: Pool, n: nat, locked: Pc, refused: Pc): (r: (Pool, Pc))
    requires Shaped(g) && n < |g.ptes|
    ensures Shaped(r.0)
  {
    if Lockable(g.ptes[n]) then (SetPte(g, n, g.ptes[n].(busy := true)), locked) else (g, refused)
  }

  /**
    The first half of UnLockMapping: its quick check, then PTE::UnLock, which clears the busy bit
    and zeroes the count whatever arrived meanwhile.
   */
  function UnlockStep(g: Pool, p: PageId, n: nat, next: Pc): (r: (Pool, Pc))
    requires Shaped(g) && n < |g.ptes|
    ensures Shaped(r.0)
  {
    var e := g.ptes[n];
    if (e.page.fpage != p.fpage && e.page.fd == p.fd) || !e.busy then (g, Failed)
    else (SetPte(g, n, e.(busy := false, refCount := 0)).(strays := g.strays[n := {}]), next)
  }

  /** CreateMapping and DeleteMapping: both insist on a BUSY word. */
  function PublishStep(g: Pool, p: PageId, w: MapWord, next: Pc): (r: (Pool, Pc))
    requires Shaped(g) && p in g.mapping
    ensures Shaped(r.0)
  {
    if g.mapping[p] == Busy then (g.(mapping := g.mapping[p := w], owner := g.owner - {p}), next) else (g, Failed)
  }

  function InitStep(g: Pool, t: nat, p: PageId): (r: (Pool, Pc))
    requires Shaped(g)
    ensures Shaped(r.0)
  {
    if g.free == [] then (g, VicEnter(p))
    else if g.free[0] >= |g.ptes| then (g, Init(p))
    else (g.(free := g.free[1..], place := g.place[g.free[0] := Blank(t)]), Carry(p, g.free[0], Load))
  }

  function VicLockMapStep(g: Pool, t: nat, p: PageId, m: nat, q: PageId): (r: (Pool, Pc))
    requires Shaped(g) && q in g.mapping
    ensures Shaped(r.0)
  {
    match g.mapping[q]
    case Busy => (g, Victim(p, Next))
    case Empty => (TakeMapping(g, q, Lock(t, Absent)), VicEmpty(p, m))
    case Frame(n) => (TakeMapping(g, q, Lock(t, At(n))), Victim(p, LockVic(m, q, n)))
  }

  function TakeStep(g: Pool, t: nat, p: PageId, m: nat): (r: (Pool, Pc))
    requires Shaped(g) && m < |g.ptes|
    ensures Shaped(r.0)
  {
    (g.(list := Remove(g.list, m), latch := None, place := g.place[m := Leaving(t)],
        owner := g.owner[g.ptes[m].page := Lock(t, Going(m))]), Carry(p, m, Evict))
  }

  function DeleteStep(g: Pool, t: nat, p: PageId, m: nat): (r: (Pool, Pc))
    requires Shaped(g) && m < |g.ptes| && g.ptes[m].page in g.mapping
    ensures Shaped(r.0)
  {
    var (g1, pc) := PublishStep(g, g.ptes[m].page, Empty, Carry(p, m, Load));
    (g1.(place := g.place[m := Blank(t)]), pc)
  }

  function StoreStep(g: Pool, t: nat, p: PageId, m: nat): (r: (Pool, Pc))
    requires Shaped(g) && m < |g.ptes|
    ensures Shaped(r.0)
  {
    var g1 := SetPte(g, m, Pte(1, p, true, false, false));
    (GrantPin(g1, m, p).(strays := g.strays[m := {}], place := g.place[m := Fresh(t)], owner := g.owner[p := Lock(t, At(m))]),
     Carry(p, m, Insert))
  }

  function InsertStep(g: Pool, p: PageId, m: nat): (r: (Pool, Pc))
    requires Shaped(g) && m < |g.ptes|
    ensures Shaped(r.0)
  {
    if g.latch != None then (g, Carry(p, m, Insert))
    else (g.(list := [m] + g.list, place := g.place[m := Listed]), Create(p, m))
  }

  function VictimStep(g: Pool, t: nat, p: PageId, at: Scan, pick: Pick): (r: (Pool, Pc))
    requires Shaped(g) && ScanInRange(g, at)
    ensures Shaped(r.0)
  {
    match at
    case Next =>
      (g, Victim(p, if pick.giveUp then GaveUp else if pick.frame in g.list then Check(pick.frame) else Next))
    case Check(m) => (g, Victim(p, if g.ptes[m].refCount != 0 then Next else Read(m)))
    case Read(m) => (g, Victim(p, LockMap(m, g.ptes[m].page)))
    case LockMap(m, q) => VicLockMapStep(g, t, p, m, q)
    case LockVic(m, q, n) => LockStep(g, n, Victim(p, Recheck(m, q, n)), Victim(p, Republish(q, n)))
    case Recheck(m, q, n) => (g, Victim(p, if g.ptes[m].refCount == 0 then Take(m) else UnlockVic(m, n)))
    case Take(m) => TakeStep(g, t, p, m)
    case UnlockVic(m, n) => UnlockStep(g, g.ptes[m].page, n, Victim(p, Republish(g.ptes[m].page, n)))
    case Republish(q, n) => PublishStep(g, q, Frame(n), Victim(p, Next))
    case GaveUp => (g, Victim(p, GaveUp))
  }

  function CarryStep(g: Pool, t: nat, p: PageId, m: nat, at: Stage): (r: (Pool, Pc))
    requires Shaped(g) && p in g.mapping && m < |g.ptes| && (at.EvictWrite? || at.EvictDelete? ==> g.ptes[m].page in g.mapping)
    ensures Shaped(r.0)
  {
    match at
    case Evict => (g, Carry(p, m, if g.ptes[m].dirty then EvictWrite else EvictDelete))
    case EvictWrite => (g.(disk := g.disk[g.ptes[m].page := g.frames[m]]), Carry(p, m, EvictDelete))
    case EvictDelete => DeleteStep(g, t, p, m)
    case Load => (g.(frames := g.frames[m := g.disk[p]]), Carry(p, m, Store))
    case Store => StoreStep(g, t, p, m)
    case Insert => InsertStep(g, p, m)
  }

  /** One atomic operation of thread t at `pc`.  A thread that has to wait changes nothing. */
  function Step(g: Pool, t: nat, pc: Pc, pick: Pick): (r: (Pool, Pc))
    requires Shaped(g)
    ensures Shaped(r.0)
  {
    if !InRange(g, pc) then (g, pc) else
    match pc
    case Idle => (g, if pick.page in g.mapping then PinFind(pick.page) else Idle)
    case PinFind(p) => (g, if g.mapping[p].Frame? then PinAdd(p, g.mapping[p].id) else Begin(p))
    case PinAdd(p, m) => PinAddStep(g, t, p, m)
    case PinUndo(p, m) => PinUndoStep(g, t, p, m)
    case Begin(p) => BeginStep(g, t, p)
    case LockPte(p, m) => LockStep(g, m, UnlockPte(p, m), Publish(p, m))
    case UnlockPte(p, m) => UnlockStep(g, p, m, Publish(p, m))
    case Publish(p, m) => PublishStep(g, p, Frame(m), PinFind(p))
    case Init(p) => InitStep(g, t, p)
    case VicEnter(p) => if g.latch == None then (g.(latch := Some(t)), Victim(p, Next)) else (g, pc)
    case Victim(p, at) => VictimStep(g, t, p, at, pick)
    case VicEmpty(p, m) => PublishStep(g, g.ptes[m].page, Empty, Victim(p, Next))
    case Carry(p, m, at) => CarryStep(g, t, p, m, at)
    case Create(p, m) => PublishStep(g, p, Frame(m), Idle)
    case Failed => (g, pc)
  }

  predicate PinInRange(g: Pool, k: nat) {
    k in g.pins && g.pins[k].frame < |g.ptes| && g.pins[k].page in g.mapping
  }

  /**
    What the holders of pins do.  A pin that was written through is released only after its dirty
    bit was set, as DecRefCount(true) does; releasing it earlier is not an event.
   */
  function Client(g: Pool, e: Event): (r: Pool)
    requires Shaped(g)
    ensures Shaped(r)
  {
    match e
    case Run(t, pick) => g
    case Write(k, bytes) =>
      if PinInRange(g, k) then
        g.(frames := g.frames[g.pins[k].frame := bytes], content := g.content[g.pins[k].page := bytes],
           pins := g.pins[k := g.pins[k].(wrote := true)])
      else g
    case MarkDirty(k) =>
      if PinInRange(g, k) then
        SetPte(g, g.pins[k].frame, g.ptes[g.pins[k].frame].(dirty := true)).(pins := g.pins[k := g.pins[k].(wrote := false)])
      else g
    case Release(k) =>
      if PinInRange(g, k) && !g.pins[k].wrote then
        var m := g.pins[k].frame;
        SetPte(g, m, g.ptes[m].(refCount := g.ptes[m].refCount - 1)).(pins := g.pins - {k})
      else g
  }

  function Apply(s: State, e: Event): (r: State)
    requires Shaped(s.pool)
    ensures Shaped(r.pool)
  {
    if e.Run? && e.t < |s.threads| then
      var (g, pc) := Step(s.pool, e.t, s.threads[e.t], e.pick);
      State(s.threads[e.t := pc], g)
    else s.(pool := Client(s.pool, e))
  }

  /** What BufferPool::init leaves behind: every frame free, no page resident, no thread at work. */
  predicate Initial(s: State) {
    var g := s.pool;
    && Shaped(g)
    && (forall t | 0 <= t < |s.threads| :: s.threads[t] == Idle)
    && (forall p | p in g.mapping :: g.mapping[p] == Empty)
    && (forall m | 0 <= m < |g.ptes| :: g.ptes[m] == EMPTY_PTE && g.place[m] == Free && g.strays[m] == {})
    && |g.free| == |g.ptes| && (forall i | 0 <= i < |g.free| :: g.free[i] == i)
    && g.list == [] && g.latch == None && g.content == g.disk
    && g.pins == map[] && g.owner == map[] && g.debts == map[]
  }

  /** Event i takes state i of the run to the next one. */
  ghost predicate Takes(run: seq<State>, events: seq<Event>, i: nat) {
    i < |events| && i + 1 < |run| && Shaped(run[i].pool) && run[i + 1] == Apply(run[i], events[i])
  }

  /** The states of a run of the pool, from the initial one on, under any events. */
  ghost predicate IsRun(run: seq<State>, events: seq<Event>) {
    && |run| == |events| + 1 && Initial(run[0])
    && forall i {:trigger Takes(run, events, i)} | 0 <= i < |events| :: Takes(run, events, i)
  }
}
