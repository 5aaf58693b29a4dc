/**
  The pools as a batch of requests on one thread sees them while nobody else fetches or evicts: what
  holds between two calls of FetchPageSync2, and what each of its phases does to it.
 */
module BatchState {
  import opened PageFetch
  import opened Collections

  /** Where a frame is: in a pool's free list, in its replacer, or in the hands of a request. */
  datatype Kept = InFreeList | InReplacer | InHand(owner: nat)

  datatype Mem = Mem(name: PageId, pins: nat, dirty: bool, bytes: Bytes, kept: Kept)

  datatype Cache = Cache(words: map<PageId, MapWord>, mem: seq<Mem>, disk: map<PageId, Bytes>, loads: multiset<PageId>)

  /** BP_sync_request_type::Phase; ReBegin and EvictingFinish are not used. */
  datatype Phase = Begin | Initing | Evicting | Loading | LoadingFinish | End

  datatype Request = Request(page: PageId, off: nat, slot: nat, block: nat, phase: Phase, frame: nat, inserted: bool)

  /** Which pool a page and a frame belong to. */
  datatype Pools = Pools(ofPage: PageId -> nat, ofFrame: seq<nat>)

  function Rank(p: Phase): nat {
    match p
    case Begin => 0
    case Initing => 1
    case Evicting => 2
    case Loading => 3
    case LoadingFinish => 4
    case End => 5
  }

  /** The phase a call leaves a request in, given its page's mapping. */
  function PhaseAfter(ph: Phase, w: MapWord): Phase {
    match ph
    case Begin => (match w case Empty => Loading case Busy => Phase.Begin case Frame(_) => End)
    case Initing => Loading
    case Evicting => Loading
    case Loading => LoadingFinish
    case LoadingFinish => End
    case End => End
  }

  /** A call that is to end in phase `end` stands at phase ph, and goes on or ends there. */
  predicate OnTheWay(ph: Phase, goOn: bool, end: Phase) {
    if goOn then !ph.Begin? && !ph.LoadingFinish? && PhaseAfter(ph, Busy) == end else ph == end
  }

  /** A call of this request returns true: it is finished, or its page is resident and not pinned. */
  predicate Finishes(c: Cache, r: Request) {
    || r.phase.LoadingFinish? || r.phase.End?
    || (r.phase.Begin? && var w := Word(c.words, r.page); w.Frame? && w.id < |c.mem| && c.mem[w.id].pins == 0)
  }

  function Word(words: map<PageId, MapWord>, p: PageId): MapWord {
    if p in words then words[p] else Empty
  }

  /** The bytes of a page: its frame's if it is resident, else the disk's. */
  function Logical(c: Cache, p: PageId): Bytes
    requires p in c.disk
  {
    var w := Word(c.words, p);
    if w.Frame? && w.id < |c.mem| then c.mem[w.id].bytes else c.disk[p]
  }

  ghost predicate MemOk(c: Cache, pools: Pools, m: nat)
    requires m < |c.mem| == |pools.ofFrame|
  {
    var f := c.mem[m];
    && (!f.kept.InReplacer? ==> f.pins == 0)
    && (f.kept.InReplacer? ==>
          && Word(c.words, f.name) == Frame(m) && f.name in c.disk && pools.ofFrame[m] == pools.ofPage(f.name)
          && (!f.dirty ==> f.bytes == c.disk[f.name]))
  }

  ghost predicate WordOk(c: Cache, reqs: seq<Request>, holder: map<PageId, nat>, p: PageId) {
    var w := Word(c.words, p);
    && (w.Frame? ==> w.id < |c.mem| && c.mem[w.id].kept.InReplacer? && c.mem[w.id].name == p)
    && (w.Busy? ==> p in holder && holder[p] < |reqs| && reqs[holder[p]].page == p && Holding(reqs[holder[p]].phase))
  }

  /** The request has its page's mapping locked. */
  predicate Holding(ph: Phase) {
    ph.Initing? || ph.Loading? || ph.LoadingFinish?
  }

  ghost predicate ReqOk(c: Cache, pools: Pools, holder: map<PageId, nat>, paid: set<PageId>, r: Request, i: nat)
    requires |c.mem| == |pools.ofFrame|
  {
    && r.page in c.disk && r.page in paid && !r.phase.Evicting? && (r.inserted ==> r.phase.End?)
    && (Holding(r.phase) ==> Word(c.words, r.page) == Busy && r.page in holder && holder[r.page] == i)
    && (Loads(r.phase) ==>
          r.frame < |c.mem| && c.mem[r.frame].kept == InHand(i) && pools.ofFrame[r.frame] == pools.ofPage(r.page))
    && (r.phase.LoadingFinish? ==> c.mem[r.frame].bytes == c.disk[r.page])
    && (r.phase.End? ==> Resident(c, r.page, r.frame))
  }

  /** Frame m holds page p and is pinned. */
  ghost predicate Resident(c: Cache, p: PageId, m: nat) {
    m < |c.mem| && c.mem[m].kept.InReplacer? && c.mem[m].name == p && c.mem[m].pins >= 1
  }

  ghost function OfPool(pools: Pools, q: nat): set<nat> {
    set m | 0 <= m < |pools.ofFrame| && pools.ofFrame[m] == q
  }

  /** The pages of pool q among those paid for. */
  ghost function PaidOf(pools: Pools, paid: set<PageId>, q: nat): set<PageId> {
    set p | p in paid && pools.ofPage(p) == q
  }

  /** Every page paid for could have a frame of its pool to itself. */
  ghost predicate Roomy(pools: Pools, paid: set<PageId>) {
    forall q :: |PaidOf(pools, paid, q)| <= |OfPool(pools, q)|
  }

  /** The request has a frame in hand for its page. */
  predicate Loads(ph: Phase) {
    ph.Loading? || ph.LoadingFinish?
  }

  /** A frame in use is in use for a page paid for: it is pinned, or in the hands of a request for it. */
  ghost predicate UseOk(c: Cache, reqs: seq<Request>, paid: set<PageId>, m: nat)
    requires m < |c.mem|
  {
    var f := c.mem[m];
    && (f.pins > 0 ==> f.name in paid)
    && (f.kept.InHand? ==> f.kept.owner < |reqs| && reqs[f.kept.owner].frame == m && Loads(reqs[f.kept.owner].phase))
  }

  /** A page is read at most once, since a read page is held or pinned from then on. */
  ghost predicate LoadOk(c: Cache, reqs: seq<Request>, holder: map<PageId, nat>, p: PageId) {
    c.loads[p] == 0
    || (c.loads[p] == 1
        && var w := Word(c.words, p);
           || (w.Busy? && p in holder && holder[p] < |reqs| && reqs[holder[p]].phase.LoadingFinish?)
           || (w.Frame? && Resident(c, p, w.id)))
  }

  ghost predicate Inv(c: Cache, pools: Pools, reqs: seq<Request>, holder: map<PageId, nat>, paid: set<PageId>) {
    && |c.mem| == |pools.ofFrame|
    && (forall m {:trigger MemOk(c, pools, m)} | 0 <= m < |c.mem| :: MemOk(c, pools, m))
    && (forall p {:trigger WordOk(c, reqs, holder, p)} :: WordOk(c, reqs, holder, p))
    && (forall p {:trigger LoadOk(c, reqs, holder, p)} :: LoadOk(c, reqs, holder, p))
    && (forall i {:trigger ReqOk(c, pools, holder, paid, reqs[i], i)} | 0 <= i < |reqs| :: ReqOk(c, pools, holder, paid, reqs[i], i))
    && (forall m {:trigger UseOk(c, reqs, paid, m)} | 0 <= m < |c.mem| :: UseOk(c, reqs, paid, m))
  }

  /** No page has lost or changed its bytes. */
  ghost predicate SameBytes(c: Cache, c': Cache) {
    c.disk.Keys == c'.disk.Keys && forall p | p in c.disk :: Logical(c, p) == Logical(c', p)
  }

  /** Frames that are pinned stay, with their page. */
  ghost predicate PinsKept(c: Cache, c': Cache) {
    |c.mem| == |c'.mem| && forall m, p {:trigger Resident(c, p, m)} | Resident(c, p, m) :: Resident(c', p, m)
  }

  /** Counts a request that has its page in frame m: it owns one pin. */
  function OwnPin(m: nat): Request -> nat {
    (r: Request) => if r.phase.End? && r.frame == m then 1 else 0
  }

  /** The pins taken or given on frame m are those that requests came to own. */
  ghost predicate PinFollows(c: Cache, reqs: seq<Request>, c': Cache, reqs': seq<Request>, m: nat)
    requires m < |c.mem| == |c'.mem|
  {
    c'.mem[m].pins + Sum(reqs, OwnPin(m)) == c.mem[m].pins + Sum(reqs', OwnPin(m))
  }

  ghost predicate PinsFollow(c: Cache, reqs: seq<Request>, c': Cache, reqs': seq<Request>) {
    |c.mem| == |c'.mem| &&
    forall m {:trigger PinFollows(c, reqs, c', reqs', m)} | 0 <= m < |c.mem| :: PinFollows(c, reqs, c', reqs', m)
  }

  lemma PinsFollowUpdate(c: Cache, c': Cache, reqs: seq<Request>, reqs': seq<Request>, i: nat, r: Request)
    requires i < |reqs| && |c.mem| == |c'.mem| && reqs' == reqs[i := r]
    requires forall m | 0 <= m < |c.mem| :: c'.mem[m].pins + OwnPin(m)(reqs[i]) == c.mem[m].pins + OwnPin(m)(r)
    ensures PinsFollow(c, reqs, c', reqs')
  {
    forall m | 0 <= m < |c.mem| ensures PinFollows(c, reqs, c', reqs', m) { SumUpdate(reqs, i, r, OwnPin(m)); }
  }

  /** In a replacer and not pinned. */
  predicate Idle(f: Mem) {
    f.kept.InReplacer? && f.pins == 0
  }

  /** A frame that is free, in hand or pinned does not end up evictable. */
  ghost predicate BusyStays(c: Cache, c': Cache) {
    |c.mem| == |c'.mem| && forall m | 0 <= m < |c.mem| :: !Idle(c.mem[m]) ==> !Idle(c'.mem[m])
  }

  /** Every resident page is still in its frame. */
  ghost predicate SameMapped(c: Cache, c': Cache) {
    forall p :: Word(c.words, p).Frame? ==> Word(c'.words, p) == Word(c.words, p)
  }

  /** What one call may do for request i. */
  ghost predicate Advances(c: Cache, reqs: seq<Request>, c': Cache, reqs': seq<Request>, i: nat) {
    && i < |reqs| == |reqs'| && SameBytes(c, c') && PinsKept(c, c') && PinsFollow(c, reqs, c', reqs') && BusyStays(c, c')
    && (forall j | 0 <= j < |reqs| && j != i :: reqs'[j] == reqs[j])
    && reqs'[i] == reqs[i].(phase := reqs'[i].phase, frame := reqs'[i].frame)
    && Rank(reqs[i].phase) <= Rank(reqs'[i].phase) && (reqs[i].phase.End? ==> reqs'[i] == reqs[i])
  }

  /** IncRefCount of frame m. */
  function Pinned(c: Cache, m: nat): Cache
    requires m < |c.mem|
  {
    c.(mem := c.mem[m := c.mem[m].(pins := c.mem[m].pins + 1)])
  }

  /** Request i gets its page's frame m pinned; the page was resident. */
  lemma PinKeeps(c: Cache, pools: Pools, reqs: seq<Request>, holder: map<PageId, nat>, paid: set<PageId>, i: nat, m: nat)
    requires Inv(c, pools, reqs, holder, paid) && i < |reqs| && reqs[i].phase.Begin?
    requires Word(c.words, reqs[i].page) == Frame(m)
    ensures m < |c.mem|
    ensures var c' := Pinned(c, m);
            var reqs' := reqs[i := reqs[i].(phase := End, frame := m)];
            Inv(c', pools, reqs', holder, paid) && Advances(c, reqs, c', reqs', i) && SameMapped(c, c')
  {
    var p := reqs[i].page;
    assert WordOk(c, reqs, holder, p) && ReqOk(c, pools, holder, paid, reqs[i], i) && MemOk(c, pools, m);
    var c' := Pinned(c, m);
    var reqs' := reqs[i := reqs[i].(phase := End, frame := m)];
    PinsFollowUpdate(c, c', reqs, reqs', i, reqs'[i]);
    forall k | 0 <= k < |c'.mem| ensures MemOk(c', pools, k) { assert MemOk(c, pools, k); }
    forall x ensures WordOk(c', reqs', holder, x) { assert WordOk(c, reqs, holder, x); }
    forall x ensures LoadOk(c', reqs', holder, x) { assert LoadOk(c, reqs, holder, x) && WordOk(c, reqs, holder, x); }
    forall j | 0 <= j < |reqs'| ensures ReqOk(c', pools, holder, paid, reqs'[j], j) { assert ReqOk(c, pools, holder, paid, reqs[j], j); }
    forall k | 0 <= k < |c.mem| ensures UseOk(c', reqs', paid, k) { assert UseOk(c, reqs, paid, k) && MemOk(c, pools, k); }
  }

  /** Begin: the mapping is locked because the page is not resident. */
  lemma LockKeeps(c: Cache, pools: Pools, reqs: seq<Request>, holder: map<PageId, nat>, paid: set<PageId>, i: nat)
    requires Inv(c, pools, reqs, holder, paid) && i < |reqs| && reqs[i].phase.Begin?
    requires Word(c.words, reqs[i].page) == Empty
    ensures var c' := c.(words := c.words[reqs[i].page := Busy]);
            var reqs' := reqs[i := reqs[i].(phase := Initing)];
            Inv(c', pools, reqs', holder[reqs[i].page := i], paid) && Advances(c, reqs, c', reqs', i) && SameMapped(c, c')
  {
    var p := reqs[i].page;
    var c', holder' := c.(words := c.words[p := Busy]), holder[p := i];
    var reqs' := reqs[i := reqs[i].(phase := Initing)];
    assert WordOk(c, reqs, holder, p) && ReqOk(c, pools, holder, paid, reqs[i], i);
    PinsFollowUpdate(c, c', reqs, reqs', i, reqs'[i]);
    forall k | 0 <= k < |c'.mem| ensures MemOk(c', pools, k) { assert MemOk(c, pools, k); }
    forall x ensures WordOk(c', reqs', holder', x) { assert WordOk(c, reqs, holder, x); }
    forall x ensures LoadOk(c', reqs', holder', x) { assert LoadOk(c, reqs, holder, x) && WordOk(c, reqs, holder, x); }
    forall j | 0 <= j < |reqs'| ensures ReqOk(c', pools, holder', paid, reqs'[j], j) { assert ReqOk(c, pools, holder, paid, reqs[j], j); }
    forall k | 0 <= k < |c.mem| ensures UseOk(c', reqs', paid, k) { assert UseOk(c, reqs, paid, k) && MemOk(c, pools, k); }
  }

  /** A frame that Poll or Victim may give to a page of pool q. */
  predicate Available(c: Cache, pools: Pools, q: nat, m: nat)
    requires |c.mem| == |pools.ofFrame|
  {
    m < |c.mem| && pools.ofFrame[m] == q && c.mem[m].pins == 0 && !c.mem[m].kept.InHand?
  }

  /** The page a frame in use is in use for. */
  ghost function UsedFor(c: Cache, reqs: seq<Request>, m: nat): PageId
    requires m < |c.mem| && (c.mem[m].kept.InHand? ==> c.mem[m].kept.owner < |reqs|)
  {
    if c.mem[m].kept.InHand? then reqs[c.mem[m].kept.owner].page else c.mem[m].name
  }

  /** A frame in use tells its page: a mapped one by the mapping, one in hand by who locked it. */
  lemma UsedTells(c: Cache, pools: Pools, reqs: seq<Request>, holder: map<PageId, nat>, paid: set<PageId>, m: nat)
    requires Inv(c, pools, reqs, holder, paid) && m < |c.mem| && !Available(c, pools, pools.ofFrame[m], m)
    ensures c.mem[m].kept.InHand? ==> c.mem[m].kept.owner < |reqs|
    ensures var p := UsedFor(c, reqs, m);
            && p in paid && pools.ofPage(p) == pools.ofFrame[m]
            && if c.mem[m].kept.InHand?
               then Word(c.words, p) == Busy && p in holder && holder[p] < |reqs| && reqs[holder[p]].frame == m && Loads(reqs[holder[p]].phase)
               else Word(c.words, p) == Frame(m)
  {
    assert MemOk(c, pools, m) && UseOk(c, reqs, paid, m);
    if c.mem[m].kept.InHand? {
      assert ReqOk(c, pools, holder, paid, reqs[c.mem[m].kept.owner], c.mem[m].kept.owner);
    }
  }

  /** Different frames of pool q that are all in use are in use for different pages, and not for request i's. */
  lemma UsedPages(c: Cache, pools: Pools, reqs: seq<Request>, holder: map<PageId, nat>, paid: set<PageId>, i: nat, frames: seq<nat>)
    returns (pages: seq<PageId>)
    requires Inv(c, pools, reqs, holder, paid) && i < |reqs| && reqs[i].phase.Initing?
    requires forall k, l | 0 <= k < l < |frames| :: frames[k] != frames[l]
    requires forall k | 0 <= k < |frames| ::
               frames[k] < |c.mem| && pools.ofFrame[frames[k]] == pools.ofPage(reqs[i].page) && !Available(c, pools, pools.ofPage(reqs[i].page), frames[k])
    ensures |pages| == |frames|
    ensures forall k, l | 0 <= k < l < |frames| :: pages[k] != pages[l]
    ensures forall k | 0 <= k < |frames| :: pages[k] in PaidOf(pools, paid, pools.ofPage(reqs[i].page)) - {reqs[i].page}
    ensures forall k | 0 <= k < |frames| :: Word(c.words, pages[k]) == Busy || Word(c.words, pages[k]) == Frame(frames[k])
  {
    var q := pools.ofPage(reqs[i].page);
    forall k | 0 <= k < |frames| ensures c.mem[frames[k]].kept.InHand? ==> c.mem[frames[k]].kept.owner < |reqs| {
      UsedTells(c, pools, reqs, holder, paid, frames[k]);
    }
    pages := seq(|frames|, k requires 0 <= k < |frames| => UsedFor(c, reqs, frames[k]));
    assert ReqOk(c, pools, holder, paid, reqs[i], i);
    forall k | 0 <= k < |frames|
      ensures pages[k] in PaidOf(pools, paid, q) - {reqs[i].page}
      ensures Word(c.words, pages[k]) == Busy || Word(c.words, pages[k]) == Frame(frames[k])
    {
      UsedTells(c, pools, reqs, holder, paid, frames[k]);
    }
    forall k, l | 0 <= k < l < |frames| ensures pages[k] != pages[l] {
      UsedTells(c, pools, reqs, holder, paid, frames[k]);
      UsedTells(c, pools, reqs, holder, paid, frames[l]);
    }
  }

  /**
    When a request finds neither a free nor an evictable frame, each frame of its pool is in use for
    a different page, and none for the request's own: there are more pages to pay for than frames.
   */
  lemma NothingAvailable(c: Cache, pools: Pools, reqs: seq<Request>, holder: map<PageId, nat>, paid: set<PageId>, i: nat)
    requires Inv(c, pools, reqs, holder, paid) && i < |reqs| && reqs[i].phase.Initing?
    requires forall m | 0 <= m < |c.mem| :: !Available(c, pools, pools.ofPage(reqs[i].page), m)
    ensures !Roomy(pools, paid)
  {
    var q := pools.ofPage(reqs[i].page);
    var n := |OfPool(pools, q)|;
    var frames := Enumerate(OfPool(pools, q), n);
    forall k | 0 <= k < n ensures frames[k] < |c.mem| && pools.ofFrame[frames[k]] == q { assert frames[k] in OfPool(pools, q); }
    var pages := UsedPages(c, pools, reqs, holder, paid, i, frames);
    NoLongerThan(pages, PaidOf(pools, paid, q) - {reqs[i].page});
    assert ReqOk(c, pools, holder, paid, reqs[i], i);
    assert reqs[i].page in PaidOf(pools, paid, q);
  }

  /** The pools between two batches: nothing is being loaded. */
  ghost predicate Consistent(c: Cache, pools: Pools) {
    && |c.mem| == |pools.ofFrame|
    && (forall m {:trigger MemOk(c, pools, m)} | 0 <= m < |c.mem| :: MemOk(c, pools, m) && !c.mem[m].kept.InHand?)
    && (forall p {:trigger WordOk(c, [], map[], p)} :: WordOk(c, [], map[], p))
  }

  /** The pages of pool q among those paid for that are not resident. */
  ghost function AbsentOf(c: Cache, pools: Pools, paid: set<PageId>, q: nat): set<PageId> {
    set p | p in paid && pools.ofPage(p) == q && !Word(c.words, p).Frame?
  }

  ghost function FreeOf(c: Cache, pools: Pools, q: nat): set<nat>
    requires |c.mem| == |pools.ofFrame|
  {
    set m | 0 <= m < |c.mem| && pools.ofFrame[m] == q && c.mem[m].kept.InFreeList?
  }

  /** In every pool, the absent pages are no more than the free frames. */
  ghost predicate Ample(c: Cache, pools: Pools, paid: set<PageId>)
    requires |c.mem| == |pools.ofFrame|
  {
    forall q :: |AbsentOf(c, pools, paid, q)| <= |FreeOf(c, pools, q)|
  }

  /** Since the batch began with cache `first`, no page was evicted that free frames could have saved. */
  ghost predicate Frugal(first: Cache, pools: Pools, paid: set<PageId>, c: Cache) {
    Consistent(first, pools) && BusyStays(first, c) && (Ample(first, pools, paid) ==> SameMapped(first, c))
  }

  /**
    When a request finds no free frame and no page was evicted yet, the frames that were free are all
    in use for different pages that were absent, and none for the request's own.
   */
  lemma FreeUsedUp(first: Cache, c: Cache, pools: Pools, reqs: seq<Request>, holder: map<PageId, nat>, paid: set<PageId>, i: nat)
    requires Consistent(first, pools) && BusyStays(first, c) && SameMapped(first, c)
    requires Inv(c, pools, reqs, holder, paid) && i < |reqs| && reqs[i].phase.Initing?
    requires forall m | 0 <= m < |c.mem| && pools.ofFrame[m] == pools.ofPage(reqs[i].page) :: !c.mem[m].kept.InFreeList?
    ensures var q := pools.ofPage(reqs[i].page); |FreeOf(first, pools, q)| < |AbsentOf(first, pools, paid, q)|
  {
    var page, q := reqs[i].page, pools.ofPage(reqs[i].page);
    var n := |FreeOf(first, pools, q)|;
    var frames := Enumerate(FreeOf(first, pools, q), n);
    forall k | 0 <= k < n
      ensures frames[k] < |c.mem| && pools.ofFrame[frames[k]] == q && first.mem[frames[k]].kept.InFreeList? && !Available(c, pools, q, frames[k])
    {
      assert frames[k] in FreeOf(first, pools, q);
    }
    var pages := UsedPages(c, pools, reqs, holder, paid, i, frames);
    forall k | 0 <= k < n ensures pages[k] in AbsentOf(first, pools, paid, q) - {page} {
      assert pages[k] in PaidOf(pools, paid, q) - {page} && WordOk(first, [], map[], pages[k]);
    }
    NoLongerThan(pages, AbsentOf(first, pools, paid, q) - {page});
    assert ReqOk(c, pools, holder, paid, reqs[i], i) && page in AbsentOf(first, pools, paid, q);
  }

  /** A request that finds no free frame: there were more absent pages than free frames. */
  lemma NoneFree(first: Cache, c: Cache, pools: Pools, reqs: seq<Request>, holder: map<PageId, nat>, paid: set<PageId>, i: nat)
    requires Frugal(first, pools, paid, c) && Inv(c, pools, reqs, holder, paid) && i < |reqs| && reqs[i].phase.Initing?
    requires forall m | 0 <= m < |c.mem| && pools.ofFrame[m] == pools.ofPage(reqs[i].page) :: !c.mem[m].kept.InFreeList?
    ensures !Ample(first, pools, paid)
  {
    if SameMapped(first, c) { FreeUsedUp(first, c, pools, reqs, holder, paid, i); }
  }

  /** A step that keeps all resident pages, or is not one of an ample batch, stays frugal. */
  lemma FrugalOn(first: Cache, pools: Pools, paid: set<PageId>, c: Cache, c': Cache)
    requires Frugal(first, pools, paid, c) && BusyStays(c, c') && (SameMapped(c, c') || !Ample(first, pools, paid))
    ensures Frugal(first, pools, paid, c')
  {
  }

  /** When all pages paid for are resident and pinned, each has a frame of its pool to itself. */
  lemma AllServed(c: Cache, pools: Pools, reqs: seq<Request>, holder: map<PageId, nat>, paid: set<PageId>)
    requires Inv(c, pools, reqs, holder, paid) && forall p | p in paid :: exists m :: Resident(c, p, m)
    ensures Roomy(pools, paid)
  {
    forall q ensures |PaidOf(pools, paid, q)| <= |OfPool(pools, q)| {
      var n := |PaidOf(pools, paid, q)|;
      var pages := Enumerate(PaidOf(pools, paid, q), n);
      forall k | 0 <= k < n
        ensures var w := Word(c.words, pages[k]); w.Frame? && w.id in OfPool(pools, q) && c.mem[w.id].name == pages[k]
      {
        assert pages[k] in PaidOf(pools, paid, q);
        var m :| Resident(c, pages[k], m);
        assert MemOk(c, pools, m);
      }
      var frames := seq(n, k requires 0 <= k < n => Word(c.words, pages[k]).id);
      NoLongerThan(frames, OfPool(pools, q));
    }
  }

  /** The victim leaves the replacer with its mapping locked. */
  function Victimized(c: Cache, i: nat, m: nat): Cache
    requires m < |c.mem|
  {
    c.(words := c.words[c.mem[m].name := Busy], mem := c.mem[m := c.mem[m].(kept := InHand(i))])
  }

  /** A dirty victim is written to disk, and its page is no longer resident. */
  function Evicted(c: Cache, m: nat): Cache
    requires m < |c.mem|
  {
    var f := c.mem[m];
    c.(words := c.words[f.name := Empty], disk := if f.dirty then c.disk[f.name := f.bytes] else c.disk)
  }

  /** What taking frame m for request i amounts to, from the free list or from the replacer. */
  function Taken(c: Cache, i: nat, m: nat): Cache
    requires m < |c.mem|
  {
    if c.mem[m].kept.InReplacer? then Evicted(Victimized(c, i, m), m)
    else c.(mem := c.mem[m := c.mem[m].(kept := InHand(i))])
  }

  lemma TakeSameBytes(c: Cache, pools: Pools, reqs: seq<Request>, holder: map<PageId, nat>, paid: set<PageId>, i: nat, m: nat)
    requires Inv(c, pools, reqs, holder, paid) && m < |c.mem|
    ensures SameBytes(c, Taken(c, i, m))
  {
    var c' := Taken(c, i, m);
    assert MemOk(c, pools, m);
    forall p | p in c.disk ensures p in c'.disk && Logical(c, p) == Logical(c', p) { assert WordOk(c, reqs, holder, p); }
  }

  lemma TakeKeeps(c: Cache, pools: Pools, reqs: seq<Request>, holder: map<PageId, nat>, paid: set<PageId>, i: nat, m: nat)
    requires Inv(c, pools, reqs, holder, paid) && i < |reqs| && reqs[i].phase.Initing?
    requires Available(c, pools, pools.ofPage(reqs[i].page), m)
    ensures var reqs' := reqs[i := reqs[i].(phase := Loading, frame := m)];
            && Inv(Taken(c, i, m), pools, reqs', holder, paid) && Advances(c, reqs, Taken(c, i, m), reqs', i)
            && (c.mem[m].kept.InFreeList? ==> SameMapped(c, Taken(c, i, m)))
  {
    var c' := Taken(c, i, m);
    var reqs' := reqs[i := reqs[i].(phase := Loading, frame := m)];
    var old_ := c.mem[m].name;
    assert MemOk(c, pools, m) && ReqOk(c, pools, holder, paid, reqs[i], i) && WordOk(c, reqs, holder, old_);
    PinsFollowUpdate(c, c', reqs, reqs', i, reqs'[i]);
    forall k | 0 <= k < |c'.mem| ensures MemOk(c', pools, k) { assert MemOk(c, pools, k); }
    forall x ensures WordOk(c', reqs', holder, x) { assert WordOk(c, reqs, holder, x); }
    forall x ensures LoadOk(c', reqs', holder, x) { assert LoadOk(c, reqs, holder, x) && WordOk(c, reqs, holder, x); }
    forall j | 0 <= j < |reqs'| ensures ReqOk(c', pools, holder, paid, reqs'[j], j) { assert ReqOk(c, pools, holder, paid, reqs[j], j); }
    forall k | 0 <= k < |c.mem| ensures UseOk(c', reqs', paid, k) { assert UseOk(c, reqs, paid, k) && MemOk(c, pools, k); }
    TakeSameBytes(c, pools, reqs, holder, paid, i, m);
  }

  /** The page's bytes arrive in the frame. */
  lemma LoadKeeps(c: Cache, pools: Pools, reqs: seq<Request>, holder: map<PageId, nat>, paid: set<PageId>, i: nat)
    requires Inv(c, pools, reqs, holder, paid) && i < |reqs| && reqs[i].phase.Loading?
    ensures reqs[i].frame < |c.mem| && reqs[i].page in c.disk
    ensures var p, m := reqs[i].page, reqs[i].frame;
            var c' := c.(mem := c.mem[m := c.mem[m].(bytes := c.disk[p])], loads := c.loads + multiset{p});
            var reqs' := reqs[i := reqs[i].(phase := LoadingFinish)];
            Inv(c', pools, reqs', holder, paid) && Advances(c, reqs, c', reqs', i) && SameMapped(c, c')
  {
    var p, m := reqs[i].page, reqs[i].frame;
    assert ReqOk(c, pools, holder, paid, reqs[i], i) && LoadOk(c, reqs, holder, p) && MemOk(c, pools, m);
    var c' := c.(mem := c.mem[m := c.mem[m].(bytes := c.disk[p])], loads := c.loads + multiset{p});
    var reqs' := reqs[i := reqs[i].(phase := LoadingFinish)];
    PinsFollowUpdate(c, c', reqs, reqs', i, reqs'[i]);
    forall k | 0 <= k < |c'.mem| ensures MemOk(c', pools, k) { assert MemOk(c, pools, k); }
    forall x ensures WordOk(c', reqs', holder, x) { assert WordOk(c, reqs, holder, x); }
    forall x ensures LoadOk(c', reqs', holder, x) { assert LoadOk(c, reqs, holder, x) && WordOk(c, reqs, holder, x); }
    forall j | 0 <= j < |reqs'| ensures ReqOk(c', pools, holder, paid, reqs'[j], j) { assert ReqOk(c, pools, holder, paid, reqs[j], j); }
    forall k | 0 <= k < |c.mem| ensures UseOk(c', reqs', paid, k) { assert UseOk(c, reqs, paid, k) && MemOk(c, pools, k); }
    forall x | x in c.disk ensures Logical(c, x) == Logical(c', x) { assert WordOk(c, reqs, holder, x); }
  }

  lemma FinishSameBytes(c: Cache, pools: Pools, reqs: seq<Request>, holder: map<PageId, nat>, paid: set<PageId>, i: nat)
    requires Inv(c, pools, reqs, holder, paid) && i < |reqs| && reqs[i].phase.LoadingFinish? && reqs[i].frame < |c.mem|
    ensures var p, m := reqs[i].page, reqs[i].frame;
            SameBytes(c, c.(mem := c.mem[m := Mem(p, 1, false, c.mem[m].bytes, InReplacer)], words := c.words[p := Frame(m)]))
  {
    var p, m := reqs[i].page, reqs[i].frame;
    assert ReqOk(c, pools, holder, paid, reqs[i], i);
    var c' := c.(mem := c.mem[m := Mem(p, 1, false, c.mem[m].bytes, InReplacer)], words := c.words[p := Frame(m)]);
    forall x | x in c.disk ensures Logical(c, x) == Logical(c', x) { assert WordOk(c, reqs, holder, x); }
  }

  /** The frame's entry is published with one pin, then the mapping. */
  lemma FinishKeeps(c: Cache, pools: Pools, reqs: seq<Request>, holder: map<PageId, nat>, paid: set<PageId>, i: nat)
    requires Inv(c, pools, reqs, holder, paid) && i < |reqs| && reqs[i].phase.LoadingFinish?
    ensures reqs[i].frame < |c.mem|
    ensures var p, m := reqs[i].page, reqs[i].frame;
            var c' := c.(mem := c.mem[m := Mem(p, 1, false, c.mem[m].bytes, InReplacer)], words := c.words[p := Frame(m)]);
            var reqs' := reqs[i := reqs[i].(phase := End)];
            Inv(c', pools, reqs', holder, paid) && Advances(c, reqs, c', reqs', i) && SameMapped(c, c')
  {
    var p, m := reqs[i].page, reqs[i].frame;
    assert ReqOk(c, pools, holder, paid, reqs[i], i) && LoadOk(c, reqs, holder, p) && MemOk(c, pools, m);
    var c' := c.(mem := c.mem[m := Mem(p, 1, false, c.mem[m].bytes, InReplacer)], words := c.words[p := Frame(m)]);
    var reqs' := reqs[i := reqs[i].(phase := End)];
    PinsFollowUpdate(c, c', reqs, reqs', i, reqs'[i]);
    forall k | 0 <= k < |c'.mem| ensures MemOk(c', pools, k) { assert MemOk(c, pools, k); }
    forall x ensures WordOk(c', reqs', holder, x) { assert WordOk(c, reqs, holder, x); }
    forall x ensures LoadOk(c', reqs', holder, x) { assert LoadOk(c, reqs, holder, x) && WordOk(c, reqs, holder, x); }
    forall j | 0 <= j < |reqs'| ensures ReqOk(c', pools, holder, paid, reqs'[j], j) { assert ReqOk(c, pools, holder, paid, reqs[j], j); }
    forall k | 0 <= k < |c.mem| ensures UseOk(c', reqs', paid, k) { assert UseOk(c, reqs, paid, k) && MemOk(c, pools, k); }
    FinishSameBytes(c, pools, reqs, holder, paid, i);
  }

  /** A page that is resident when its request is looked at is pinned at once. */
  lemma DirectPinKeeps(c: Cache, pools: Pools, reqs: seq<Request>, holder: map<PageId, nat>, paid: set<PageId>,
                       p: PageId, m: nat)
    requires Inv(c, pools, reqs, holder, paid) && Word(c.words, p) == Frame(m) && p in paid
    ensures m < |c.mem|
    ensures var c' := Pinned(c, m);
            && Inv(c', pools, reqs, holder, paid)
            && SameBytes(c, c') && PinsKept(c, c') && Resident(c', p, m) && BusyStays(c, c') && SameMapped(c, c')
  {
    assert WordOk(c, reqs, holder, p) && MemOk(c, pools, m);
    var c' := Pinned(c, m);
    forall k | 0 <= k < |c'.mem| ensures MemOk(c', pools, k) { assert MemOk(c, pools, k); }
    forall x ensures WordOk(c', reqs, holder, x) { assert WordOk(c, reqs, holder, x); }
    forall x ensures LoadOk(c', reqs, holder, x) { assert LoadOk(c, reqs, holder, x) && WordOk(c, reqs, holder, x); }
    forall j | 0 <= j < |reqs| ensures ReqOk(c', pools, holder, paid, reqs[j], j) { assert ReqOk(c, pools, holder, paid, reqs[j], j); }
    forall k | 0 <= k < |c.mem| ensures UseOk(c', reqs, paid, k) { assert UseOk(c, reqs, paid, k) && MemOk(c, pools, k); }
  }

  /** Any other page gets a request. */
  lemma AddKeeps(c: Cache, pools: Pools, reqs: seq<Request>, holder: map<PageId, nat>, paid: set<PageId>, r: Request)
    requires Inv(c, pools, reqs, holder, paid) && r.page in paid
    requires r.phase.Begin? && !r.inserted && r.page in c.disk
    ensures Inv(c, pools, reqs + [r], holder, paid)
  {
    var reqs' := reqs + [r];
    forall x ensures WordOk(c, reqs', holder, x) { assert WordOk(c, reqs, holder, x); }
    forall x ensures LoadOk(c, reqs', holder, x) { assert LoadOk(c, reqs, holder, x) && WordOk(c, reqs, holder, x); }
    forall j | 0 <= j < |reqs'| ensures ReqOk(c, pools, holder, paid, reqs'[j], j) {
      if j < |reqs| { assert ReqOk(c, pools, holder, paid, reqs[j], j); }
    }
    forall k | 0 <= k < |c.mem| ensures UseOk(c, reqs', paid, k) { assert UseOk(c, reqs, paid, k) && MemOk(c, pools, k); }
  }

  /** Inserting a finished request's page into its block changes nothing here. */
  lemma InsertedKeeps(c: Cache, pools: Pools, reqs: seq<Request>, holder: map<PageId, nat>, paid: set<PageId>, i: nat)
    requires Inv(c, pools, reqs, holder, paid) && i < |reqs| && reqs[i].phase.End?
    ensures Inv(c, pools, reqs[i := reqs[i].(inserted := true)], holder, paid)
  {
    var reqs' := reqs[i := reqs[i].(inserted := true)];
    forall x ensures WordOk(c, reqs', holder, x) { assert WordOk(c, reqs, holder, x); }
    forall x ensures LoadOk(c, reqs', holder, x) { assert LoadOk(c, reqs, holder, x) && WordOk(c, reqs, holder, x); }
    forall j | 0 <= j < |reqs'| ensures ReqOk(c, pools, holder, paid, reqs'[j], j) { assert ReqOk(c, pools, holder, paid, reqs[j], j); }
    forall k | 0 <= k < |c.mem| ensures UseOk(c, reqs', paid, k) { assert UseOk(c, reqs, paid, k) && MemOk(c, pools, k); }
  }

  lemma AdvancesTrans(c: Cache, reqs: seq<Request>, c1: Cache, reqs1: seq<Request>, c2: Cache, reqs2: seq<Request>, i: nat)
    requires Advances(c, reqs, c1, reqs1, i) && Advances(c1, reqs1, c2, reqs2, i)
    ensures Advances(c, reqs, c2, reqs2, i)
  {
    forall m | 0 <= m < |c.mem| ensures PinFollows(c, reqs, c2, reqs2, m) {
      assert PinFollows(c, reqs, c1, reqs1, m) && PinFollows(c1, reqs1, c2, reqs2, m);
    }
  }
}
