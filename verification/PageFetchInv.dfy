/** What every step of the page-fetch protocol keeps, and what it leaves alone for the others. */
module PageFetchInv {
  import opened Collections
  import opened PageFetch

  ghost function PinsIn(pins: map<nat, Pin>, m: nat): set<nat> {
    set k | k in pins && pins[k].frame == m
  }

  ghost function DebtsIn(debts: map<nat, nat>, m: nat): set<nat> {
    set t | t in debts && debts[t] == m
  }

  ghost function PinsOn(g: Pool, m: nat): set<nat> {
    PinsIn(g.pins, m)
  }

  ghost function DebtsOn(g: Pool, m: nat): set<nat> {
    DebtsIn(g.debts, m)
  }

  lemma AddPin(pins: map<nat, Pin>, k: nat, pin: Pin, m: nat)
    requires k !in pins
    ensures |PinsIn(pins[k := pin], m)| == |PinsIn(pins, m)| + (if pin.frame == m then 1 else 0)
  {
    assert PinsIn(pins[k := pin], m) == PinsIn(pins, m) + (if pin.frame == m then {k} else {});
  }

  lemma DropPin(pins: map<nat, Pin>, k: nat, m: nat)
    requires k in pins
    ensures |PinsIn(pins - {k}, m)| == |PinsIn(pins, m)| - (if pins[k].frame == m then 1 else 0)
  {
    assert PinsIn(pins - {k}, m) == PinsIn(pins, m) - (if pins[k].frame == m then {k} else {});
  }

  lemma AddDebt(debts: map<nat, nat>, t: nat, n: nat, m: nat)
    requires t !in debts
    ensures |DebtsIn(debts[t := n], m)| == |DebtsIn(debts, m)| + (if n == m then 1 else 0)
  {
    assert DebtsIn(debts[t := n], m) == DebtsIn(debts, m) + (if n == m then {t} else {});
  }

  lemma DropDebt(debts: map<nat, nat>, t: nat, m: nat)
    requires t in debts
    ensures |DebtsIn(debts - {t}, m)| == |DebtsIn(debts, m)| - (if debts[t] == m then 1 else 0)
  {
    assert DebtsIn(debts - {t}, m) == DebtsIn(debts, m) - (if debts[t] == m then {t} else {});
  }

  /** The count of a frame is its pins, the decrements still owed to it, and strays if it is busy. */
  ghost predicate CountOk(g: Pool, m: nat)
    requires Shaped(g) && m < |g.ptes|
  {
    var e := g.ptes[m];
    && e.refCount == |PinsOn(g, m)| + |DebtsOn(g, m)| + |g.strays[m]|
    && (e.busy ==> e.initialized && PinsOn(g, m) == {} && DebtsOn(g, m) == {})
    && (!e.busy ==> g.strays[m] == {})
    && (if e.initialized then e.page in g.mapping else e == EMPTY_PTE)
  }

  /** Pin k wrote to frame m and has not set the dirty bit yet. */
  ghost predicate WroteTo(g: Pool, k: nat, m: nat) {
    k in g.pins && g.pins[k].frame == m && g.pins[k].wrote
  }

  /** The bytes of frame m are its page's content, and they are on disk or known to be newer. */
  ghost predicate Backed(g: Pool, m: nat)
    requires Shaped(g) && m < |g.ptes|
  {
    var p := g.ptes[m].page;
    && p in g.mapping
    && g.frames[m] == g.content[p]
    && (g.disk[p] == g.content[p] || g.ptes[m].dirty || exists k :: WroteTo(g, k, m))
  }

  ghost predicate OwnedAs(g: Pool, p: PageId, l: Lock) {
    p in g.owner && g.owner[p] == l
  }

  /** Each frame is in exactly one place, and what it carries fits that place. */
  ghost predicate PlaceOk(g: Pool, m: nat)
    requires Shaped(g) && m < |g.ptes|
  {
    var e := g.ptes[m];
    && (g.place[m] == Free <==> m in g.free)
    && (g.place[m] == Listed <==> m in g.list)
    && match g.place[m] {
         case Free => !e.initialized
         case Listed => e.initialized && Backed(g, m) && (g.mapping[e.page] == Frame(m) || (e.page in g.owner && g.owner[e.page].why == At(m)))
         case Leaving(t) => e.busy && Backed(g, m) && OwnedAs(g, e.page, Lock(t, Going(m)))
         case Blank(t) => e.busy || !e.initialized
         case Fresh(t) => e.initialized && !e.busy && Backed(g, m) && OwnedAs(g, e.page, Lock(t, At(m)))
       }
  }

  /** The mapping word of p agrees with the frame it names, or somebody holds it. */
  ghost predicate PageOk(g: Pool, p: PageId)
    requires Shaped(g) && p in g.mapping
  {
    match g.mapping[p]
    case Empty => p !in g.owner && g.disk[p] == g.content[p]
    case Frame(m) => p !in g.owner && m < |g.ptes| && g.place[m] == Listed && g.ptes[m].page == p && !g.ptes[m].busy
    case Busy =>
      && p in g.owner
      && match g.owner[p].why {
           case Absent => g.disk[p] == g.content[p]
           case At(m) => m < |g.ptes| && g.ptes[m].page == p && g.place[m] in {Listed, Fresh(g.owner[p].who)}
           case Going(m) => m < |g.ptes| && g.ptes[m].page == p && g.place[m] == Leaving(g.owner[p].who)
         }
  }

  /** A live pin: its frame holds its page unlocked, and is listed or about to be. */
  ghost predicate PinOk(g: Pool, k: nat)
    requires Shaped(g) && k in g.pins
  {
    var m := g.pins[k].frame;
    && k < g.nextPin && m < |g.ptes|
    && g.ptes[m].page == g.pins[k].page && g.ptes[m].initialized && !g.ptes[m].busy
    && (g.place[m].Listed? || g.place[m].Fresh?)
  }

  ghost predicate ListsOk(g: Pool) {
    && Distinct(g.free) && Distinct(g.list)
    && (forall m | m in g.free :: m < |g.ptes|) && (forall m | m in g.list :: m < |g.ptes|)
    && (forall p | p in g.owner :: p in g.mapping)
  }

  /** The invariant of the shared state. */
  ghost predicate PoolInv(g: Pool) {
    && Shaped(g) && ListsOk(g)
    && (forall m | 0 <= m < |g.ptes| :: CountOk(g, m))
    && (forall m | 0 <= m < |g.ptes| :: PlaceOk(g, m))
    && (forall p {:trigger PageOk(g, p)} | p in g.mapping :: PageOk(g, p))
    && (forall k {:trigger PinOk(g, k)} | k in g.pins :: PinOk(g, k))
  }

  ghost predicate Scanning(g: Pool, t: nat, p: PageId) {
    OwnedAs(g, p, Lock(t, Absent)) && g.latch == Some(t)
  }

  ghost predicate Listing(g: Pool, m: nat)
    requires Shaped(g)
  {
    m < |g.ptes| && g.place[m] == Listed
  }

  ghost predicate Resident(g: Pool, t: nat, p: PageId, m: nat, busy: bool)
    requires Shaped(g)
  {
    OwnedAs(g, p, Lock(t, At(m))) && Listing(g, m) && g.ptes[m].busy == busy && g.ptes[m].page == p
  }

  ghost predicate InHand(g: Pool, m: nat, place: Place)
    requires Shaped(g)
  {
    m < |g.ptes| && g.place[m] == place
  }

  ghost predicate Evicting(g: Pool, t: nat, p: PageId, m: nat)
    requires Shaped(g)
  {
    && OwnedAs(g, p, Lock(t, Absent)) && InHand(g, m, Leaving(t))
    && g.ptes[m].page in g.mapping && OwnedAs(g, g.ptes[m].page, Lock(t, Going(m)))
  }

  /** While t runs Victim: it holds the latch, and what it found out about frame m stands. */
  ghost predicate AtScan(g: Pool, t: nat, p: PageId, at: Scan)
    requires Shaped(g)
  {
    && Scanning(g, t, p)
    && match at {
         case Next => true
         case Check(m) => Listing(g, m)
         case Read(m) => Listing(g, m)
         case LockMap(m, q) => Listing(g, m) && g.ptes[m].page == q && q in g.mapping
         case LockVic(m, q, n) => m == n && Resident(g, t, q, m, false)
         case Recheck(m, q, n) => m == n && Resident(g, t, q, m, true)
         case Take(m) => m < |g.ptes| && Resident(g, t, g.ptes[m].page, m, true)
         case UnlockVic(m, n) => m == n && m < |g.ptes| && Resident(g, t, g.ptes[m].page, m, true)
         case Republish(q, n) => Resident(g, t, q, n, false)
         case GaveUp => true
       }
  }

  /** While t has a frame in hand: first with the victim's page, then blank, then with its own. */
  ghost predicate AtStage(g: Pool, t: nat, p: PageId, m: nat, at: Stage)
    requires Shaped(g)
  {
    match at
    case Evict => Evicting(g, t, p, m)
    case EvictWrite => Evicting(g, t, p, m)
    case EvictDelete => Evicting(g, t, p, m) && g.disk[g.ptes[m].page] == g.content[g.ptes[m].page]
    case Load => OwnedAs(g, p, Lock(t, Absent)) && InHand(g, m, Blank(t))
    case Store => OwnedAs(g, p, Lock(t, Absent)) && InHand(g, m, Blank(t)) && p in g.mapping && g.frames[m] == g.content[p]
    case Insert => OwnedAs(g, p, Lock(t, At(m))) && InHand(g, m, Fresh(t)) && g.ptes[m].page == p
  }

  /** What is true of the shared state while thread t stands at a program point. */
  ghost predicate AtPc(g: Pool, t: nat, pc: Pc)
    requires Shaped(g)
  {
    match pc
    case Idle => true
    case PinFind(p) => true
    case PinAdd(p, m) => m < |g.ptes| && g.ptes[m].initialized && t !in g.strays[m]
    case PinUndo(p, m) => m < |g.ptes|
    case Begin(p) => true
    case LockPte(p, m) => Resident(g, t, p, m, false)
    case UnlockPte(p, m) => Resident(g, t, p, m, true)
    case Publish(p, m) => Resident(g, t, p, m, false)
    case Init(p) => OwnedAs(g, p, Lock(t, Absent))
    case VicEnter(p) => OwnedAs(g, p, Lock(t, Absent))
    case Victim(p, at) => AtScan(g, t, p, at)
    case VicEmpty(p, m) => false
    case Carry(p, m, at) => AtStage(g, t, p, m, at)
    case Create(p, m) => Resident(g, t, p, m, false)
    case Failed => false
  }

  predicate LocksOwnPage(pc: Pc) {
    pc.LockPte? || pc.UnlockPte? || pc.Publish? || pc.Init? || pc.VicEnter? || pc.Victim? || pc.VicEmpty? || pc.Carry? || pc.Create?
  }

  /** The thread turned the mapping of p BUSY and has not given it back. */
  ghost predicate Holds(g: Pool, pc: Pc, p: PageId) {
    || (LocksOwnPage(pc) && pc.p == p)
    || (pc.Victim? && LocksVictimPage(g, pc.scan, p))
    || (pc.Carry? && (pc.todo.Evict? || pc.todo.EvictWrite? || pc.todo.EvictDelete?) && pc.m < |g.ptes| && g.ptes[pc.m].page == p)
  }

  ghost predicate LocksVictimPage(g: Pool, at: Scan, q: PageId) {
    || ((at.LockVic? || at.Recheck? || at.Republish?) && at.q == q)
    || ((at.Take? || at.UnlockVic?) && at.m < |g.ptes| && g.ptes[at.m].page == q)
  }

  predicate HasFrame(pc: Pc, m: nat) {
    pc.Carry? && pc.m == m
  }

  ghost predicate HeldBy(pl: Place, t: nat) {
    !pl.Free? && !pl.Listed? && pl.who == t
  }

  ghost predicate PagesAccounted(g: Pool, t: nat, pc: Pc) {
    forall p | p in g.owner && g.owner[p].who == t :: Holds(g, pc, p)
  }

  ghost predicate FramesAccounted(g: Pool, t: nat, pc: Pc) {
    forall m | 0 <= m < |g.place| && HeldBy(g.place[m], t) :: HasFrame(pc, m)
  }

  /** Everything the bookkeeping assigns to thread t is accounted for by its program point. */
  ghost predicate Custody(g: Pool, t: nat, pc: Pc)
    requires Shaped(g)
  {
    && PagesAccounted(g, t, pc) && FramesAccounted(g, t, pc)
    && (g.latch == Some(t) ==> pc.Victim?)
    && (t in g.debts <==> pc.PinUndo?) && (pc.PinUndo? ==> g.debts[t] == pc.m)
  }

  ghost predicate ThreadInv(g: Pool, t: nat, pc: Pc)
    requires Shaped(g)
  {
    (!pc.Idle? && !pc.Failed? ==> pc.p in g.mapping) && AtPc(g, t, pc) && Custody(g, t, pc)
  }

  /** What a step of thread t (or of a client, t == -1) may not disturb. */
  ghost predicate Leaves(g: Pool, r: Pool, t: int)
    requires Shaped(g) && Shaped(r)
  {
    && |r.ptes| == |g.ptes| && r.mapping.Keys == g.mapping.Keys
    && (forall p :: LeavesPage(g, r, t, p))
    && (forall m | 0 <= m < |g.ptes| :: LeavesFrame(g, r, t, m))
    && (forall u: nat | u != t :: LeavesThread(g, r, u))
    && (t >= 0 ==> r.content == g.content && forall k :: LeavesPin(g, r, k))
  }

  /** Threads grant pins; only clients change or release them. */
  ghost predicate LeavesPin(g: Pool, r: Pool, k: nat) {
    k in g.pins && k != g.nextPin ==> k in r.pins && r.pins[k] == g.pins[k]
  }

  /** Others keep their locks, and what is known about a page they are moving in or out. */
  ghost predicate LeavesPage(g: Pool, r: Pool, t: int, p: PageId)
    requires Shaped(g) && Shaped(r) && r.mapping.Keys == g.mapping.Keys
  {
    && (p in g.owner && g.owner[p].who != t ==>
          && p in r.owner && r.owner[p] == g.owner[p]
          && (p in g.mapping && !g.owner[p].why.At? ==> r.disk[p] == g.disk[p] && r.content[p] == g.content[p]))
    && (p in r.owner && r.owner[p].who != t ==> p in g.owner && r.owner[p] == g.owner[p])
  }

  ghost predicate LeavesThread(g: Pool, r: Pool, u: nat) {
    && (g.latch == Some(u) <==> r.latch == Some(u))
    && (u in g.debts <==> u in r.debts) && (u in g.debts ==> r.debts[u] == g.debts[u])
  }

  ghost predicate LeavesFrame(g: Pool, r: Pool, t: int, m: nat)
    requires Shaped(g) && Shaped(r) && |r.ptes| == |g.ptes| && m < |g.ptes|
  {
    var e, f := g.ptes[m], r.ptes[m];
    && (e.initialized ==> f.initialized)
    && (forall u | u in r.strays[m] && u != t :: u in g.strays[m])
    && (forall u: nat | u != t :: HeldBy(g.place[m], u) <==> HeldBy(r.place[m], u))
    && (g.place[m].Listed? && g.latch != Some(t) ==> r.place[m].Listed? && f.page == e.page)
    && (g.place[m].Listed? && e.page in g.owner && g.owner[e.page].who != t ==> r.place[m].Listed? && f.page == e.page && f.busy == e.busy)
    && (!g.place[m].Free? && !g.place[m].Listed? && g.place[m].who != t ==> r.place[m] == g.place[m] && f.page == e.page)
    && (g.place[m].Blank? && g.place[m].who != t ==> r.frames[m] == g.frames[m])
    && (t >= 0 && r.frames[m] != g.frames[m] ==> g.place[m] == Blank(t))
  }

  lemma OthersInVictim(g: Pool, r: Pool, t: int, u: nat, p: PageId, at: Scan)
    requires Shaped(g) && Shaped(r) && u != t && Leaves(g, r, t) && AtScan(g, u, p, at)
    ensures AtScan(r, u, p, at)
  {
    assert LeavesPage(g, r, t, p) && LeavesThread(g, r, u);
    if at.Republish? {
      assert LeavesFrame(g, r, t, at.n) && LeavesPage(g, r, t, at.q);
    } else if !at.Next? && !at.GaveUp? {
      assert LeavesFrame(g, r, t, at.m) && LeavesPage(g, r, t, g.ptes[at.m].page);
    }
  }

  lemma OthersCarry(g: Pool, r: Pool, t: int, u: nat, p: PageId, m: nat, at: Stage)
    requires Shaped(g) && Shaped(r) && u != t && Leaves(g, r, t) && AtStage(g, u, p, m, at)
    ensures AtStage(r, u, p, m, at)
  {
    assert LeavesPage(g, r, t, p) && LeavesFrame(g, r, t, m) && LeavesPage(g, r, t, g.ptes[m].page);
  }

  lemma OthersElsewhere(g: Pool, r: Pool, t: int, u: nat, pc: Pc)
    requires Shaped(g) && Shaped(r) && u != t && Leaves(g, r, t) && AtPc(g, u, pc) && !pc.Victim? && !pc.Carry?
    ensures AtPc(r, u, pc)
  {
    if !pc.Idle? { assert LeavesPage(g, r, t, pc.p); }
    if pc.PinAdd? || pc.LockPte? || pc.UnlockPte? || pc.Publish? || pc.Create? { assert LeavesFrame(g, r, t, pc.m); }
  }

  lemma OthersPages(g: Pool, r: Pool, t: int, u: nat, pc: Pc)
    requires Shaped(g) && Shaped(r) && u != t && Leaves(g, r, t) && AtPc(g, u, pc) && PagesAccounted(g, u, pc)
    ensures PagesAccounted(r, u, pc)
  {
    forall p | p in r.owner && r.owner[p].who == u ensures Holds(r, pc, p) {
      assert LeavesPage(g, r, t, p) && Holds(g, pc, p);
      if pc.Victim? && (pc.scan.Take? || pc.scan.UnlockVic?) { assert LeavesFrame(g, r, t, pc.scan.m); }
      if pc.Carry? { assert LeavesFrame(g, r, t, pc.m); }
    }
  }

  lemma OthersFrames(g: Pool, r: Pool, t: int, u: nat, pc: Pc)
    requires Shaped(g) && Shaped(r) && u != t && Leaves(g, r, t) && FramesAccounted(g, u, pc)
    ensures FramesAccounted(r, u, pc)
  {
    forall m | 0 <= m < |r.place| && HeldBy(r.place[m], u) ensures HasFrame(pc, m) {
      assert LeavesFrame(g, r, t, m);
    }
  }

  /** The rely step: what one thread does keeps every other thread's invariant. */
  lemma OthersKeep(g: Pool, r: Pool, t: int, u: nat, pc: Pc)
    requires Shaped(g) && Shaped(r) && ThreadInv(g, u, pc) && u != t && Leaves(g, r, t)
    ensures ThreadInv(r, u, pc)
  {
    if pc.Victim? { OthersInVictim(g, r, t, u, pc.p, pc.scan); }
    else if pc.Carry? { OthersCarry(g, r, t, u, pc.p, pc.m, pc.todo); }
    else { OthersElsewhere(g, r, t, u, pc); }
    OthersPages(g, r, t, u, pc);
    OthersFrames(g, r, t, u, pc);
    assert LeavesThread(g, r, u);
  }
}
