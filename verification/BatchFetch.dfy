/**
  GetBlockBatchWithoutDirectCache on one thread: every page of every request is pinned at once if it
  is resident, and otherwise fetched by a request whose phases are driven round by round.
 */
module BatchFetch {
  import opened BatchState
  import opened Collections
  import opened PageFetch
  import Paging

  datatype BatchRequest = BatchRequest(fileOffset: nat, blockSize: nat, fd: nat)

  /** A page of a result block: the frame it is in and where in it the data start. */
  datatype PagePtr = PagePtr(frame: nat, off: nat)

  function PageAt(r: BatchRequest, j: nat): PageId {
    PageId(r.fd, r.fileOffset / Paging.PAGE + j)
  }

  function OffAt(r: BatchRequest, j: nat): nat {
    if j == 0 then r.fileOffset % Paging.PAGE else 0
  }

  function PageCount(r: BatchRequest): nat {
    if r.blockSize == 0 then 0 else Paging.NumPage(r.fileOffset % Paging.PAGE, r.blockSize)
  }

  /** The pages the batch asks for. */
  ghost function Wanted(batch: seq<BatchRequest>): set<PageId> {
    set b, j | 0 <= b < |batch| && 0 <= j < PageCount(batch[b]) :: PageAt(batch[b], j)
  }

  ghost function PinnedPages(c: Cache): set<PageId> {
    set m | 0 <= m < |c.mem| && c.mem[m].pins > 0 :: c.mem[m].name
  }

  /** In every pool, the pages asked for and the pages already pinned are no more than the frames. */
  ghost predicate Enough(c: Cache, pools: Pools, batch: seq<BatchRequest>) {
    Roomy(pools, Wanted(batch) + PinnedPages(c))
  }

  /** The result of a call that ends the program when the replacer has no victim. */
  datatype Outcome<+T> = Done(value: T) | Aborted {
    predicate IsFailure() {
      Aborted?
    }

    function PropagateFailure<U>(): Outcome<U>
      requires Aborted?
    {
      Aborted
    }

    function Extract(): T
      requires Done?
    {
      value
    }
  }

  type Results = seq<seq<Option<PagePtr>>>

  /** A filled slot shows its page, pinned; an empty one has a request that will fill it. */
  ghost predicate SlotOk(c: Cache, reqs: seq<Request>, waiting: map<(nat, nat), nat>, batch: seq<BatchRequest>,
                         results: Results, b: nat, j: nat)
    requires b < |results| <= |batch| && j < |results[b]|
  {
    match results[b][j]
    case Some(ptr) => Resident(c, PageAt(batch[b], j), ptr.frame) && ptr.off == OffAt(batch[b], j)
    case None =>
      && (b, j) in waiting && waiting[(b, j)] < |reqs|
      && var r := reqs[waiting[(b, j)]]; !r.inserted && r.block == b && r.slot == j
  }

  /** A request belongs to one slot, which is empty until the request is inserted. */
  ghost predicate RequestOk(reqs: seq<Request>, waiting: map<(nat, nat), nat>, batch: seq<BatchRequest>,
                            results: Results, i: nat)
    requires i < |reqs| && |results| <= |batch|
  {
    var r := reqs[i];
    && r.block < |results| && r.slot < |results[r.block]|
    && r.page == PageAt(batch[r.block], r.slot) && r.off == OffAt(batch[r.block], r.slot)
    && (!r.inserted ==> results[r.block][r.slot].None? && (r.block, r.slot) in waiting && waiting[(r.block, r.slot)] == i)
  }

  /** All slots are in order but those of the last block from `made` on, which are still empty. */
  ghost predicate SlotsOk(c: Cache, reqs: seq<Request>, waiting: map<(nat, nat), nat>, batch: seq<BatchRequest>,
                          results: Results, made: nat)
  {
    && |results| <= |batch|
    && (forall b | 0 <= b < |results| :: |results[b]| == PageCount(batch[b]))
    && (forall b, j {:trigger SlotOk(c, reqs, waiting, batch, results, b, j)} |
          0 <= b < |results| && 0 <= j < |results[b]| && (b < |results| - 1 || j < made) ::
          SlotOk(c, reqs, waiting, batch, results, b, j))
    && (forall i {:trigger RequestOk(reqs, waiting, batch, results, i)} | 0 <= i < |reqs| ::
          RequestOk(reqs, waiting, batch, results, i))
    && (forall i | 0 <= i < |reqs| && reqs[i].block == |results| - 1 :: reqs[i].slot < made)
    && (results != [] ==> BlankFrom(results[|results| - 1], made))
  }

  ghost predicate BlankFrom(block: seq<Option<PagePtr>>, made: nat) {
    forall j | made <= j < |block| :: block[j].None?
  }

  /** A step of request i leaves the slots in order. */
  lemma AdvanceKeepsSlots(c: Cache, reqs: seq<Request>, c': Cache, reqs': seq<Request>, i: nat,
                          waiting: map<(nat, nat), nat>, batch: seq<BatchRequest>, results: Results, made: nat)
    requires SlotsOk(c, reqs, waiting, batch, results, made) && Advances(c, reqs, c', reqs', i)
    ensures SlotsOk(c', reqs', waiting, batch, results, made)
  {
    forall b, j | 0 <= b < |results| && 0 <= j < |results[b]| && (b < |results| - 1 || j < made)
      ensures SlotOk(c', reqs', waiting, batch, results, b, j)
    {
      assert SlotOk(c, reqs, waiting, batch, results, b, j);
    }
    forall k | 0 <= k < |reqs'| ensures RequestOk(reqs', waiting, batch, results, k) {
      assert RequestOk(reqs, waiting, batch, results, k);
    }
  }

  /** A finished request's page goes into its slot. */
  lemma InsertKeepsSlots(c: Cache, reqs: seq<Request>, i: nat, waiting: map<(nat, nat), nat>,
                         batch: seq<BatchRequest>, results: Results, made: nat)
    requires SlotsOk(c, reqs, waiting, batch, results, made) && i < |reqs| && !reqs[i].inserted
    requires Resident(c, reqs[i].page, reqs[i].frame)
    ensures reqs[i].block < |results| && reqs[i].slot < |results[reqs[i].block]|
    ensures results[reqs[i].block][reqs[i].slot].None?
    ensures SlotsOk(c, reqs[i := reqs[i].(inserted := true)], waiting, batch, Filled(results, reqs[i]), made)
  {
    var r, reqs' := reqs[i], reqs[i := reqs[i].(inserted := true)];
    assert RequestOk(reqs, waiting, batch, results, i);
    var results' := Filled(results, r);
    forall b, j | 0 <= b < |results'| && 0 <= j < |results'[b]| && (b < |results'| - 1 || j < made)
      ensures SlotOk(c, reqs', waiting, batch, results', b, j)
    {
      assert SlotOk(c, reqs, waiting, batch, results, b, j);
    }
    forall k | 0 <= k < |reqs'| ensures RequestOk(reqs', waiting, batch, results', k) {
      assert RequestOk(reqs, waiting, batch, results, k);
    }
  }

  /** Counts a slot that shows frame m, and the slots of a block that do. */
  function Shows(m: nat): Option<PagePtr> -> nat {
    (slot: Option<PagePtr>) => if slot.Some? && slot.value.frame == m then 1 else 0
  }

  function ShowsIn(m: nat): seq<Option<PagePtr>> -> nat {
    (block: seq<Option<PagePtr>>) => Sum(block, Shows(m))
  }

  /** Counts a request whose page, in frame m, is inserted. */
  function Shown(m: nat): Request -> nat {
    (r: Request) => if r.inserted && r.frame == m then 1 else 0
  }

  lemma FillCounts(results: Results, b: nat, j: nat, ptr: PagePtr, m: nat)
    requires b < |results| && j < |results[b]| && results[b][j].None?
    ensures Sum(results[b := results[b][j := Some(ptr)]], ShowsIn(m)) == Sum(results, ShowsIn(m)) + (if ptr.frame == m then 1 else 0)
  {
    SumUpdate(results, b, results[b][j := Some(ptr)], ShowsIn(m));
    SumUpdate(results[b], j, Some(ptr), Shows(m));
  }

  /**
    The pins on frame m are those it had at first, one for each request that has its page there and
    one for each slot filled at once; and the slots showing it are exactly those.
   */
  ghost predicate AccountOk(c: Cache, reqs: seq<Request>, results: Results, base: seq<nat>, direct: multiset<nat>, m: nat)
    requires m < |c.mem| == |base|
  {
    && c.mem[m].pins == base[m] + Sum(reqs, OwnPin(m)) + direct[m]
    && Sum(results, ShowsIn(m)) == Sum(reqs, Shown(m)) + direct[m]
  }

  ghost predicate AccountsOk(c: Cache, reqs: seq<Request>, results: Results, base: seq<nat>, direct: multiset<nat>) {
    |c.mem| == |base| &&
    forall m {:trigger AccountOk(c, reqs, results, base, direct, m)} | 0 <= m < |base| ::
      AccountOk(c, reqs, results, base, direct, m)
  }

  ghost function PinCounts(c: Cache): (r: seq<nat>)
    ensures |r| == |c.mem| && forall m | 0 <= m < |r| :: r[m] == c.mem[m].pins
  {
    seq(|c.mem|, m requires 0 <= m < |c.mem| => c.mem[m].pins as nat)
  }

  lemma NoAccountsYet(c: Cache)
    ensures AccountsOk(c, [], [], PinCounts(c), multiset{})
  {
    forall m | 0 <= m < |c.mem| ensures AccountOk(c, [], [], PinCounts(c), multiset{}, m) { }
  }

  lemma AdvanceKeepsAccounts(c: Cache, reqs: seq<Request>, c': Cache, reqs': seq<Request>, i: nat, results: Results,
                             base: seq<nat>, direct: multiset<nat>)
    requires AccountsOk(c, reqs, results, base, direct) && Advances(c, reqs, c', reqs', i)
    requires reqs[i].inserted ==> reqs[i].phase.End?
    ensures AccountsOk(c', reqs', results, base, direct)
  {
    assert reqs' == reqs[i := reqs'[i]];
    forall m | 0 <= m < |base| ensures AccountOk(c', reqs', results, base, direct, m) {
      assert AccountOk(c, reqs, results, base, direct, m) && PinFollows(c, reqs, c', reqs', m);
      SumUpdate(reqs, i, reqs'[i], Shown(m));
    }
  }

  lemma InsertKeepsAccounts(c: Cache, reqs: seq<Request>, i: nat, results: Results, base: seq<nat>, direct: multiset<nat>)
    requires AccountsOk(c, reqs, results, base, direct) && i < |reqs| && !reqs[i].inserted
    requires reqs[i].block < |results| && reqs[i].slot < |results[reqs[i].block]|
    requires results[reqs[i].block][reqs[i].slot].None?
    ensures AccountsOk(c, reqs[i := reqs[i].(inserted := true)], Filled(results, reqs[i]), base, direct)
  {
    var r := reqs[i].(inserted := true);
    var reqs', results' := reqs[i := r], Filled(results, reqs[i]);
    forall m | 0 <= m < |base| ensures AccountOk(c, reqs', results', base, direct, m) {
      assert AccountOk(c, reqs, results, base, direct, m);
      SumUpdate(reqs, i, r, Shown(m));
      SumUpdate(reqs, i, r, OwnPin(m));
      FillCounts(results, r.block, r.slot, PagePtr(r.frame, r.off), m);
    }
  }

  lemma DirectKeepsAccounts(c: Cache, reqs: seq<Request>, results: Results, base: seq<nat>, direct: multiset<nat>,
                            b: nat, j: nat, ptr: PagePtr, results': Results)
    requires AccountsOk(c, reqs, results, base, direct) && ptr.frame < |c.mem|
    requires b < |results| && j < |results[b]| && results[b][j].None? && results' == results[b := results[b][j := Some(ptr)]]
    ensures AccountsOk(Pinned(c, ptr.frame), reqs, results', base, direct + multiset{ptr.frame})
  {
    forall m | 0 <= m < |base|
      ensures AccountOk(Pinned(c, ptr.frame), reqs, results', base, direct + multiset{ptr.frame}, m)
    {
      assert AccountOk(c, reqs, results, base, direct, m);
      FillCounts(results, b, j, ptr, m);
    }
  }

  lemma GrowKeepsAccounts(c: Cache, reqs: seq<Request>, results: Results, base: seq<nat>, direct: multiset<nat>,
                          more: seq<Request>, blank: Results)
    requires AccountsOk(c, reqs, results, base, direct)
    requires more == [] || (|more| == 1 && more[0].phase.Begin? && !more[0].inserted)
    requires blank == [] || (|blank| == 1 && BlankFrom(blank[0], 0))
    ensures AccountsOk(c, reqs + more, results + blank, base, direct)
  {
    forall m | 0 <= m < |base| ensures AccountOk(c, reqs + more, results + blank, base, direct, m) {
      assert AccountOk(c, reqs, results, base, direct, m);
      if more == [] {
        assert reqs + more == reqs;
      } else {
        assert more == [more[0]];
        SumAppend(reqs, more[0], OwnPin(m));
        SumAppend(reqs, more[0], Shown(m));
      }
      if blank == [] {
        assert results + blank == results;
      } else {
        assert blank == [blank[0]];
        SumAppend(results, blank[0], ShowsIn(m));
        SumZero(blank[0], Shows(m));
      }
    }
  }

  /** When every request is inserted, each slot owns one pin on its frame and there are no others. */
  lemma SlotsOwnThePins(c: Cache, pools: Pools, reqs: seq<Request>, holder: map<PageId, nat>, paid: set<PageId>,
                        results: Results, base: seq<nat>, direct: multiset<nat>, m: nat)
    requires Inv(c, pools, reqs, holder, paid) && AccountsOk(c, reqs, results, base, direct) && m < |base|
    requires forall i | 0 <= i < |reqs| :: reqs[i].inserted
    ensures c.mem[m].pins == base[m] + Sum(results, ShowsIn(m))
  {
    assert AccountOk(c, reqs, results, base, direct, m);
    forall i | 0 <= i < |reqs| ensures OwnPin(m)(reqs[i]) == Shown(m)(reqs[i]) {
      assert ReqOk(c, pools, holder, paid, reqs[i], i);
    }
    SumSame(reqs, OwnPin(m), Shown(m));
  }

  function Filled(results: Results, r: Request): Results
    requires r.block < |results| && r.slot < |results[r.block]|
  {
    results[r.block := results[r.block][r.slot := Some(PagePtr(r.frame, r.off))]]
  }

  class Batch {
    const pools: Pools
    var cache: Cache
    var requests: seq<Request>
    var results: Results
    ghost var holder: map<PageId, nat>
    /** The pages the batch asks for and the pages pinned when it began. */
    ghost var paid: set<PageId>
    /** The pools as they were then. */
    ghost var first: Cache
    /** Which request will fill an empty slot. */
    ghost var waiting: map<(nat, nat), nat>
    /** The pins each frame had at first, and those taken for slots filled at once. */
    ghost var base: seq<nat>
    ghost var direct: multiset<nat>

    ghost predicate Ok()
      reads `cache, `requests, `holder, `paid, `first
    {
      Inv(cache, pools, requests, holder, paid) && Frugal(first, pools, paid, cache)
    }

    constructor (pools: Pools, cache: Cache)
      ensures this.pools == pools && this.cache == cache && requests == [] && results == [] && waiting == map[]
    {
      this.pools, this.cache := pools, cache;
      requests, results := [], [];
      holder, paid, waiting, base, direct, first := map[], {}, map[], [], multiset{}, cache;
    }

    /** Some free frame of pool q, if there is one. */
    method Poll(q: nat) returns (ok: bool, m: nat)
      requires |cache.mem| == |pools.ofFrame|
      ensures ok ==> m < |cache.mem| && pools.ofFrame[m] == q && cache.mem[m].kept.InFreeList?
      ensures !ok ==> forall k | 0 <= k < |cache.mem| :: pools.ofFrame[k] == q ==> !cache.mem[k].kept.InFreeList?
    {
      if k: nat :| k < |cache.mem| && pools.ofFrame[k] == q && cache.mem[k].kept.InFreeList? {
        return true, k;
      }
      return false, 0;
    }

    /** Some frame of pool q in its replacer that nobody has pinned, if there is one. */
    method Victim(q: nat) returns (ok: bool, m: nat)
      requires |cache.mem| == |pools.ofFrame|
      ensures ok ==> Available(cache, pools, q, m) && cache.mem[m].kept.InReplacer?
      ensures !ok ==> forall k | 0 <= k < |cache.mem| :: Available(cache, pools, q, k) ==> !cache.mem[k].kept.InReplacer?
    {
      if k: nat :| k < |cache.mem| && Available(cache, pools, q, k) && cache.mem[k].kept.InReplacer? {
        return true, k;
      }
      return false, 0;
    }

    /** Nothing happened for request i, because its page is being loaded for another one. */
    ghost predicate Blocked(c: Cache, reqs: seq<Request>, i: nat)
      reads `cache, `requests
    {
      cache == c && requests == reqs && i < |reqs| && reqs[i].phase.Begin? && Word(c.words, reqs[i].page) == Busy
    }

    /** Request i has just taken its victim out of the replacer; before that the state was c and reqs. */
    ghost predicate AtEvicting(c: Cache, reqs: seq<Request>, i: nat)
      reads `cache, `requests, `holder, `paid, `first
    {
      && Inv(c, pools, reqs, holder, paid) && Frugal(first, pools, paid, c) && !Ample(first, pools, paid)
      && i < |reqs| == |requests| && reqs[i].phase.Initing?
      && var m := requests[i].frame;
         && Available(c, pools, pools.ofPage(reqs[i].page), m) && c.mem[m].kept.InReplacer?
         && cache == Victimized(c, i, m) && requests == reqs[i := reqs[i].(phase := Evicting, frame := m)]
    }

    /** Phase Begin; the result says whether the call goes on. */
    method BeginPhase(i: nat) returns (goOn: bool)
      requires Ok() && i < |requests| && requests[i].phase.Begin?
      modifies `cache, `requests, `holder
      ensures Ok() && Advances(old(cache), old(requests), cache, requests, i)
      ensures goOn ==> requests[i].phase.Initing? || requests[i].phase.End?
      ensures !goOn ==> requests[i].phase.End? || Blocked(old(cache), old(requests), i)
      ensures var page := old(requests[i].page);
              match Word(old(cache).words, page)
              case Busy => cache == old(cache) && requests == old(requests)
              case Empty => cache == old(cache).(words := old(cache).words[page := Busy]) && requests[i].phase.Initing?
              case Frame(m) => m < |old(cache).mem| && cache == Pinned(old(cache), m) && requests[i].phase.End? && requests[i].frame == m
      ensures goOn <==> Word(old(cache).words, old(requests[i].page)) == Empty || Finishes(old(cache), old(requests[i]))
    {
      var page := requests[i].page;
      var word := Word(cache.words, page);
      if word.Busy? {
        return false;
      }
      if word.Empty? {
        LockKeeps(cache, pools, requests, holder, paid, i);
        FrugalOn(first, pools, paid, cache, cache.(words := cache.words[page := Busy]));
        cache := cache.(words := cache.words[page := Busy]);
        requests := requests[i := requests[i].(phase := Initing)];
        holder := holder[page := i];
        return true;
      }
      var m := word.id;
      PinKeeps(cache, pools, requests, holder, paid, i, m);
      FrugalOn(first, pools, paid, cache, Pinned(cache, m));
      goOn := cache.mem[m].pins == 0;
      cache := Pinned(cache, m);
      requests := requests[i := requests[i].(phase := End, frame := m)];
    }

    /** Phase Initing: a free frame, or else a victim. */
    method InitingPhase(i: nat) returns (r: Outcome<bool>)
      requires Ok() && i < |requests| && requests[i].phase.Initing?
      modifies `cache, `requests
      ensures r.Aborted? ==> !Roomy(pools, paid)
      ensures r.Done? && r.value ==> AtEvicting(old(cache), old(requests), i)
      ensures r.Done? && !r.value ==>
                && Ok() && Advances(old(cache), old(requests), cache, requests, i) && requests[i].phase.Loading?
                && requests[i].frame < |old(cache).mem| && old(cache).mem[requests[i].frame].kept.InFreeList?
                && cache == Taken(old(cache), i, requests[i].frame)
      ensures r.Done? && r.value ==> forall k | 0 <= k < |old(cache).mem| && pools.ofFrame[k] == pools.ofPage(old(requests[i].page)) ::
                !old(cache).mem[k].kept.InFreeList?
    {
      var q := pools.ofPage(requests[i].page);
      var polled, m := Poll(q);
      if polled {
        assert MemOk(cache, pools, m);
        TakeKeeps(cache, pools, requests, holder, paid, i, m);
        FrugalOn(first, pools, paid, cache, Taken(cache, i, m));
        cache := cache.(mem := cache.mem[m := cache.mem[m].(kept := InHand(i))]);
        requests := requests[i := requests[i].(phase := Loading, frame := m)];
        return Done(false);
      }
      var found;
      found, m := Victim(q);
      if !found {
        NoFrame(q, i);
        return Aborted;
      }
      NoneFree(first, cache, pools, requests, holder, paid, i);
      requests := requests[i := requests[i].(phase := Evicting, frame := m)];
      cache := Victimized(cache, i, m);
      return Done(true);
    }

    /** Neither Poll nor Victim has a frame of the pool. */
    lemma NoFrame(q: nat, i: nat)
      requires Ok() && i < |requests| && requests[i].phase.Initing? && q == pools.ofPage(requests[i].page)
      requires forall k | 0 <= k < |cache.mem| :: pools.ofFrame[k] == q ==> !cache.mem[k].kept.InFreeList?
      requires forall k | 0 <= k < |cache.mem| :: Available(cache, pools, q, k) ==> !cache.mem[k].kept.InReplacer?
      ensures !Roomy(pools, paid)
    {
      NothingAvailable(cache, pools, requests, holder, paid, i);
    }

    /** Phase Evicting: a dirty victim is written back, then its mapping is deleted. */
    method EvictingPhase(i: nat, ghost c: Cache, ghost reqs: seq<Request>)
      requires AtEvicting(c, reqs, i)
      modifies `cache, `requests
      ensures Ok() && Advances(c, reqs, cache, requests, i) && requests[i].phase.Loading?
      ensures requests[i].frame == old(requests[i].frame) < |c.mem| && cache == Taken(c, i, requests[i].frame)
    {
      var m := requests[i].frame;
      TakeKeeps(c, pools, reqs, holder, paid, i, m);
      FrugalOn(first, pools, paid, c, Taken(c, i, m));
      if cache.mem[m].dirty {
        cache := cache.(disk := cache.disk[cache.mem[m].name := cache.mem[m].bytes]);
      }
      cache := cache.(words := cache.words[cache.mem[m].name := Empty]);
      requests := requests[i := requests[i].(phase := Loading)];
      assert cache == Taken(c, i, m) && requests == reqs[i := reqs[i].(phase := Loading, frame := m)];
    }

    /** Phase Loading: one read of the page. */
    method LoadingPhase(i: nat)
      requires Ok() && i < |requests| && requests[i].phase.Loading?
      modifies `cache, `requests
      ensures Ok() && Advances(old(cache), old(requests), cache, requests, i) && requests[i].phase.LoadingFinish?
      ensures var p, m := requests[i].page, requests[i].frame;
              && m == old(requests[i].frame) < |old(cache).mem| && p in old(cache).disk
              && cache == old(cache).(mem := old(cache).mem[m := old(cache).mem[m].(bytes := old(cache).disk[p])],
                                      loads := old(cache).loads + multiset{p})
    {
      LoadKeeps(cache, pools, requests, holder, paid, i);
      var p, m := requests[i].page, requests[i].frame;
      FrugalOn(first, pools, paid, cache, cache.(mem := cache.mem[m := cache.mem[m].(bytes := cache.disk[p])], loads := cache.loads + multiset{p}));
      cache := cache.(mem := cache.mem[m := cache.mem[m].(bytes := cache.disk[p])], loads := cache.loads + multiset{p});
      requests := requests[i := requests[i].(phase := LoadingFinish)];
    }

    /** Phase LoadingFinish: the frame's entry, then the replacer, then the mapping. */
    method FinishPhase(i: nat)
      requires Ok() && i < |requests| && requests[i].phase.LoadingFinish?
      modifies `cache, `requests
      ensures Ok() && Advances(old(cache), old(requests), cache, requests, i) && requests[i].phase.End?
      ensures var p, m := requests[i].page, requests[i].frame;
              && m == old(requests[i].frame) < |old(cache).mem|
              && cache == old(cache).(mem := old(cache).mem[m := Mem(p, 1, false, old(cache).mem[m].bytes, InReplacer)],
                                      words := old(cache).words[p := Frame(m)])
    {
      FinishKeeps(cache, pools, requests, holder, paid, i);
      var p, m := requests[i].page, requests[i].frame;
      FrugalOn(first, pools, paid, cache,
               cache.(mem := cache.mem[m := Mem(p, 1, false, cache.mem[m].bytes, InReplacer)], words := cache.words[p := Frame(m)]));
      cache := cache.(mem := cache.mem[m := Mem(p, 1, false, cache.mem[m].bytes, InReplacer)],
                      words := cache.words[p := Frame(m)]);
      requests := requests[i := requests[i].(phase := End)];
    }

    /** The request is between phases, or it has just taken a victim. */
    ghost predicate Between(c: Cache, reqs: seq<Request>, i: nat)
      reads `cache, `requests, `holder, `paid, `first
    {
      i < |requests| &&
      if requests[i].phase.Evicting? then AtEvicting(c, reqs, i) else Ok() && cache == c && requests == reqs
    }

    /** One phase before LoadingFinish; the result says whether the call goes on. */
    method EarlyPhase(i: nat, ghost c: Cache, ghost reqs: seq<Request>) returns (r: Outcome<bool>)
      requires Between(c, reqs, i) && !requests[i].phase.LoadingFinish? && !requests[i].phase.End?
      modifies `cache, `requests, `holder
      ensures r.Aborted? ==> !Roomy(pools, paid)
      ensures r.Done? ==> i < |requests| && (Rank(old(requests[i].phase)) < Rank(requests[i].phase) || (!r.value && Blocked(c, reqs, i)))
      ensures r.Done? && !requests[i].phase.Evicting? ==> Ok() && Advances(c, reqs, cache, requests, i)
      ensures r.Done? && requests[i].phase.Evicting? ==> r.value && AtEvicting(c, reqs, i)
      ensures r.Done? ==> OnTheWay(requests[i].phase, r.value, PhaseAfter(old(requests[i].phase), Word(old(cache).words, old(requests[i].page))))
      ensures r.Done? ==> (r.value && requests[i].phase.End? <==> Finishes(old(cache), old(requests[i])))
    {
      var phase := requests[i].phase;
      var goOn := false;
      if phase.Begin? {
        goOn := BeginPhase(i);
      } else if phase.Initing? {
        goOn :- InitingPhase(i);
      } else if phase.Evicting? {
        EvictingPhase(i, c, reqs);
      } else {
        LoadingPhase(i);
      }
      return Done(goOn);
    }

    /** Advances request i as far as it goes without waiting. */
    method FetchPageSync2(i: nat) returns (r: Outcome<bool>)
      requires Ok() && i < |requests|
      modifies `cache, `requests, `holder
      ensures r.Aborted? ==> !Roomy(pools, paid)
      ensures r.Done? ==> Ok() && Advances(old(cache), old(requests), cache, requests, i)
      ensures r.Done? && r.value ==> requests[i].phase.End?
      ensures r.Done? && old(requests[i].phase.LoadingFinish? || requests[i].phase.End?) ==> r.value
      ensures r.Done? ==> r.value || Rank(old(requests[i].phase)) < Rank(requests[i].phase) || Blocked(old(cache), old(requests), i)
      ensures r.Done? ==> requests[i].phase == PhaseAfter(old(requests[i].phase), Word(old(cache).words, old(requests[i].page)))
      ensures r.Done? ==> (r.value <==> Finishes(old(cache), old(requests[i])))
    {
      assert ReqOk(cache, pools, holder, paid, requests[i], i);
      ghost var end := PhaseAfter(requests[i].phase, Word(cache.words, requests[i].page));
      ghost var start := Rank(requests[i].phase);
      ghost var c, reqs := cache, requests;
      while true
        invariant Between(c, reqs, i) && start <= Rank(requests[i].phase)
        invariant Advances(old(cache), old(requests), c, reqs, i)
        invariant start == Rank(requests[i].phase) ==> cache == old(cache) && requests == old(requests)
        invariant start < Rank(requests[i].phase) ==> PhaseAfter(requests[i].phase, Busy) == end
        invariant start < Rank(requests[i].phase) ==> (requests[i].phase.End? <==> Finishes(old(cache), old(requests[i])))
        invariant start < Rank(requests[i].phase) ==> !requests[i].phase.LoadingFinish?
        decreases 6 - Rank(requests[i].phase)
      {
        ghost var c0, reqs0 := c, reqs;
        if requests[i].phase.LoadingFinish? || requests[i].phase.End? {
          if requests[i].phase.LoadingFinish? {
            FinishPhase(i);
            AdvancesTrans(old(cache), old(requests), c0, reqs0, cache, requests, i);
          }
          return Done(true);
        }
        var goOn :- EarlyPhase(i, c, reqs);
        if !requests[i].phase.Evicting? {
          AdvancesTrans(old(cache), old(requests), c0, reqs0, cache, requests, i);
          c, reqs := cache, requests;
        }
        if !goOn {
          return Done(false);
        }
      }
    }
  
    ghost predicate Slots(batch: seq<BatchRequest>, made: nat)
      reads `cache, `requests, `waiting, `results, `base, `direct
    {
      SlotsOk(cache, requests, waiting, batch, results, made) && AccountsOk(cache, requests, results, base, direct)
    }

    /** A finished request's page goes into its block. */
    method InsertPage(i: nat, ghost batch: seq<BatchRequest>, ghost made: nat)
      requires Ok() && Slots(batch, made) && i < |requests| && !requests[i].inserted && requests[i].phase.End?
      modifies `requests, `results
      ensures Ok() && Slots(batch, made)
      ensures requests == old(requests)[i := old(requests)[i].(inserted := true)] && |results| == |old(results)|
    {
      assert ReqOk(cache, pools, holder, paid, requests[i], i);
      InsertKeepsSlots(cache, requests, i, waiting, batch, results, made);
      InsertKeepsAccounts(cache, requests, i, results, base, direct);
      InsertedKeeps(cache, pools, requests, holder, paid, i);
      results := Filled(results, requests[i]);
      requests := requests[i := requests[i].(inserted := true)];
    }

    /** A call of FetchPageSync2 as the batch sees it. */
    method Drive(i: nat, ghost batch: seq<BatchRequest>, ghost made: nat) returns (r: Outcome<bool>)
      requires Ok() && Slots(batch, made) && i < |requests|
      modifies `cache, `requests, `holder
      ensures r.Aborted? ==> !Roomy(pools, paid)
      ensures r.Done? ==> Ok() && Slots(batch, made) && Advances(old(cache), old(requests), cache, requests, i)
      ensures r.Done? && r.value ==> requests[i].phase.End?
      ensures r.Done? && old(requests[i].phase.LoadingFinish? || requests[i].phase.End?) ==> r.value
      ensures r.Done? ==> r.value || Rank(old(requests[i].phase)) < Rank(requests[i].phase) || Blocked(old(cache), old(requests), i)
      ensures r.Done? ==> requests[i].phase == PhaseAfter(old(requests[i].phase), Word(old(cache).words, old(requests[i].page)))
    {
      assert ReqOk(cache, pools, holder, paid, requests[i], i);
      var done :- FetchPageSync2(i);
      AdvanceKeepsSlots(old(cache), old(requests), cache, requests, i, waiting, batch, results, made);
      AdvanceKeepsAccounts(old(cache), old(requests), cache, requests, i, results, base, direct);
      return Done(done);
    }

    /** One page of a request: pinned at once, or given to a request of its own. */
    method AddPage(batch: seq<BatchRequest>, b: nat, j: nat) returns (r: Outcome<()>)
      requires b < |batch| && |results| == b + 1 && j < PageCount(batch[b]) && PageAt(batch[b], j) in cache.disk
      requires Ok() && Slots(batch, j) && NoneIn(requests) && Wanted(batch) <= paid
      modifies `cache, `requests, `holder, `waiting, `results, `direct
      ensures r.Aborted? ==> !Roomy(pools, paid)
      ensures r.Done? ==> Ok() && Slots(batch, j + 1) && |results| == b + 1 && NoneIn(requests)
      ensures r.Done? ==> SameBytes(old(cache), cache) && PinsKept(old(cache), cache)
      ensures r.Done? ==> var w := Word(old(cache).words, PageAt(batch[b], j));
                if w.Frame? then requests == old(requests)
                else |requests| == |old(requests)| + 1 && requests[|old(requests)|].phase == PhaseAfter(Phase.Begin, w)
    {
      assert PageAt(batch[b], j) in Wanted(batch);
      var word := Word(cache.words, PageAt(batch[b], j));
      if word.Frame? {
        PinPage(batch, b, j, word.id);
      } else {
        RequestPage(batch, b, j);
        var done :- Drive(|requests| - 1, batch, j + 1);
      }
      return Done(());
    }

    method PinPage(batch: seq<BatchRequest>, b: nat, j: nat, m: nat)
      requires b < |batch| && |results| == b + 1 && j < PageCount(batch[b])
      requires Ok() && Slots(batch, j) && PageAt(batch[b], j) in paid
      requires Word(cache.words, PageAt(batch[b], j)) == Frame(m)
      modifies `cache, `results, `direct
      ensures Ok() && Slots(batch, j + 1) && |results| == b + 1
      ensures SameBytes(old(cache), cache) && PinsKept(old(cache), cache)
    {
      ghost var page := PageAt(batch[b], j);
      DirectPinKeeps(cache, pools, requests, holder, paid, page, m);
      FrugalOn(first, pools, paid, cache, Pinned(cache, m));
      assert WordOk(cache, requests, holder, page);
      DirectKeepsSlots(cache, requests, waiting, batch, results, j, m);
      var ptr := PagePtr(m, OffAt(batch[b], j));
      ghost var results' := results[b := results[b][j := Some(ptr)]];
      DirectKeepsAccounts(cache, requests, results, base, direct, b, j, ptr, results');
      cache := Pinned(cache, m);
      results := results[b := results[b][j := Some(ptr)]];
      direct := direct + multiset{m};
    }

    method RequestPage(batch: seq<BatchRequest>, b: nat, j: nat)
      requires b < |batch| && |results| == b + 1 && j < PageCount(batch[b]) && PageAt(batch[b], j) in cache.disk
      requires Ok() && Slots(batch, j) && PageAt(batch[b], j) in paid
      modifies `requests, `waiting
      ensures Ok() && Slots(batch, j + 1)
      ensures |requests| == |old(requests)| + 1 && (NoneIn(old(requests)) ==> NoneIn(requests))
      ensures requests[|old(requests)|].phase.Begin? && requests[|old(requests)|].page == PageAt(batch[b], j)
    {
      var page := PageAt(batch[b], j);
      var r := Request(page, OffAt(batch[b], j), j, b, Phase.Begin, 0, false);
      AddKeeps(cache, pools, requests, holder, paid, r);
      NewRequestKeepsSlots(cache, requests, waiting, batch, results, j, r);
      GrowKeepsAccounts(cache, requests, results, base, direct, [r], []);
      assert results + [] == results;
      waiting := waiting[(b, j) := |requests|];
      requests := requests + [r];
    }

    /** No page's bytes and no pinned frame have changed since c. */
    ghost predicate Kept(c: Cache)
      reads `cache
    {
      SameBytes(c, cache) && PinsKept(c, cache)
    }

    method NewBlock(batch: seq<BatchRequest>, b: nat)
      requires b < |batch| && |results| == b && Slots(batch, if b == 0 then 0 else |results[b - 1]|)
      modifies `results
      ensures |results| == b + 1 && Slots(batch, 0)
    {
      var n := PageCount(batch[b]);
      NewBlockKeepsSlots(cache, requests, waiting, batch, results, if b == 0 then 0 else |results[b - 1]|);
      GrowKeepsAccounts(cache, requests, results, base, direct, [], [seq(n, _ => None)]);
      assert requests + [] == requests;
      results := results + [seq(n, _ => None)];
    }

    /** One request: its block, empty, then page by page. */
    method AddBlock(batch: seq<BatchRequest>, b: nat, ghost c: Cache) returns (r: Outcome<()>)
      requires b < |batch| && |results| == b && InFile(batch, c) && Kept(c) && NoneIn(requests)
      requires Ok() && Slots(batch, if b == 0 then 0 else |results[b - 1]|) && Wanted(batch) <= paid
      modifies `cache, `requests, `holder, `waiting, `results, `direct
      ensures r.Aborted? ==> !Roomy(pools, paid)
      ensures r.Done? ==> |results| == b + 1 && Kept(c) && NoneIn(requests) && Ok() && Slots(batch, |results[b]|)
    {
      var n := PageCount(batch[b]);
      NewBlock(batch, b);
      for j := 0 to n
        invariant |results| == b + 1 && Kept(c) && NoneIn(requests)
        invariant Ok() && Slots(batch, j)
      {
        ghost var c0 := cache;
        var _ :- AddPage(batch, b, j);
        KeptTrans(c, c0, cache);
      }
      return Done(());
    }

    /** A pass over the requests that are not in their blocks yet. */
    method Round(ghost batch: seq<BatchRequest>, ghost made: nat, ghost c: Cache, count: nat) returns (r: Outcome<nat>)
      requires Ok() && Slots(batch, made) && Kept(c) && count == Sum(requests, Inserted()) < |requests|
      modifies `cache, `requests, `holder, `results
      ensures r.Aborted? ==> !Roomy(pools, paid)
      ensures r.Done? ==> Ok() && Slots(batch, made) && Kept(c) && |requests| == |old(requests)| && r.value == Sum(requests, Inserted())
      ensures r.Done? ==> |results| == |old(results)| && Sum(requests, ToGo()) < Sum(old(requests), ToGo())
    {
      ghost var c0, reqs0 := cache, requests;
      var n := count;
      for i := 0 to |requests|
        invariant Ok() && Slots(batch, made) && Kept(c) && |requests| == |reqs0| && n == Sum(requests, Inserted())
        invariant |results| == |old(results)|
        invariant Sum(requests, ToGo()) < Sum(reqs0, ToGo())
                  || (cache == c0 && requests == reqs0 && forall j | 0 <= j < i :: Stuck(c0, reqs0, j))
      {
        if !requests[i].inserted {
          var gain :- Turn(i, batch, made, c);
          if gain {
            n := n + 1;
          }
        }
      }
      if Sum(requests, ToGo()) >= Sum(reqs0, ToGo()) {
        NotAllStuck(c0, pools, reqs0, holder, paid);
      }
      return Done(n);
    }

    /** One request's turn in a pass; one whose load has been started is finished by a single call. */
    method Turn(i: nat, ghost batch: seq<BatchRequest>, ghost made: nat, ghost c: Cache) returns (r: Outcome<bool>)
      requires Ok() && Slots(batch, made) && Kept(c) && i < |requests| && !requests[i].inserted
      modifies `cache, `requests, `holder, `results
      ensures r.Aborted? ==> !Roomy(pools, paid)
      ensures r.Done? ==> Ok() && Slots(batch, made) && Kept(c) && |requests| == |old(requests)| && |results| == |old(results)|
      ensures r.Done? ==> Sum(requests, Inserted()) == Sum(old(requests), Inserted()) + (if r.value then 1 else 0)
      ensures r.Done? ==> (Sum(requests, ToGo()) < Sum(old(requests), ToGo())
                           || (cache == old(cache) && requests == old(requests) && Stuck(cache, requests, i)))
    {
      ghost var c0, reqs0 := cache, requests;
      var gain :- Drive(i, batch, made);
      KeptTrans(c, c0, cache);
      SumUpdate(reqs0, i, requests[i], ToGo());
      SumUpdate(reqs0, i, requests[i], Inserted());
      assert requests == reqs0[i := requests[i]];
      if gain {
        ghost var reqs1 := requests;
        InsertPage(i, batch, made);
        SumUpdate(reqs1, i, requests[i], ToGo());
        SumUpdate(reqs1, i, requests[i], Inserted());
      }
      return Done(gain);
    }

    /**
      The batch.  It is served exactly when there are enough frames; otherwise some request finds the
      replacer without a victim.  When it is served, every page of every request is in its slot,
      once, in a pinned frame that holds the page's bytes; no page is read twice.  Where there are
      as many free frames as absent pages, no resident page is evicted.
     */
    method GetBlockBatch(batch: seq<BatchRequest>) returns (r: Outcome<()>)
      requires results == [] && requests == [] && waiting == map[] && cache.loads == multiset{}
      requires Consistent(cache, pools) && InFile(batch, cache)
      modifies this
      ensures r.Done? <==> Enough(old(cache), pools, batch)
      ensures r.Done? ==> |results| == |batch| && Kept(old(cache))
      ensures r.Done? ==> forall b, j | 0 <= b < |batch| && 0 <= j < PageCount(batch[b]) ::
                            Delivered(old(cache), cache, batch, results, b, j)
      ensures r.Done? ==> forall b | 0 <= b < |batch| :: |results[b]| == PageCount(batch[b])
      ensures r.Done? ==> forall p :: cache.loads[p] <= 1
      ensures r.Done? ==> |cache.mem| == |old(cache).mem| &&
                          forall m | 0 <= m < |cache.mem| ::
                            cache.mem[m].pins == old(cache).mem[m].pins + Sum(results, ShowsIn(m))
      ensures r.Done? && Ample(old(cache), pools, Wanted(batch)) ==> SameMapped(old(cache), cache)
    {
      ghost var c := cache;
      OpenAccounts(batch);
      var _ :- AddBlocks(batch, c);
      ghost var made := if |batch| == 0 then 0 else |results[|batch| - 1]|;
      var _ :- DriveAll(batch, made, c);
      SumZero(requests, Inserted());
      var _ :- Rounds(batch, made, c);
      Served(c, batch, made);
      return Done(());
    }

    /** What holds when every request is inserted. */
    lemma Served(c: Cache, batch: seq<BatchRequest>, made: nat)
      requires Ok() && Slots(batch, made) && Kept(c) && Consistent(c, pools)
      requires paid == Wanted(batch) + PinnedPages(c) && base == PinCounts(c)
      requires |results| == |batch| && (batch != [] ==> made == |results[|batch| - 1]|)
      requires forall i | 0 <= i < |requests| :: requests[i].inserted
      ensures forall b, j | 0 <= b < |batch| && 0 <= j < PageCount(batch[b]) :: Delivered(c, cache, batch, results, b, j)
      ensures forall p :: cache.loads[p] <= 1
      ensures |cache.mem| == |c.mem| && forall m | 0 <= m < |cache.mem| :: cache.mem[m].pins == c.mem[m].pins + Sum(results, ShowsIn(m))
      ensures Enough(c, pools, batch)
    {
      AllDelivered(c, cache, pools, requests, holder, paid, waiting, batch, results, made);
      forall m | 0 <= m < |cache.mem| ensures cache.mem[m].pins == c.mem[m].pins + Sum(results, ShowsIn(m)) {
        SlotsOwnThePins(cache, pools, requests, holder, paid, results, base, direct, m);
      }
      ServedHadRoom(c, cache, pools, requests, holder, batch, results);
    }

    /** The bookkeeping of a new batch. */
    ghost method OpenAccounts(batch: seq<BatchRequest>)
      requires results == [] && requests == [] && cache.loads == multiset{} && Consistent(cache, pools)
      modifies `holder, `paid, `first, `base, `direct
      ensures Ok() && Slots(batch, 0) && paid == Wanted(batch) + PinnedPages(cache) && first == cache
      ensures base == PinCounts(cache) && (Ample(cache, pools, paid) <==> Ample(cache, pools, Wanted(batch)))
    {
      holder, paid, first := map[], Wanted(batch) + PinnedPages(cache), cache;
      base, direct := PinCounts(cache), multiset{};
      PinnedAreNotAbsent(cache, pools, batch);
      StartOk(cache, pools, paid);
      NoAccountsYet(cache);
    }

    /** All requests, one after the other. */
    method AddBlocks(batch: seq<BatchRequest>, ghost c: Cache) returns (r: Outcome<()>)
      requires results == [] && InFile(batch, c) && Kept(c) && NoneIn(requests)
      requires Ok() && Slots(batch, 0) && Wanted(batch) <= paid
      modifies `cache, `requests, `holder, `waiting, `results, `direct
      ensures r.Aborted? ==> !Roomy(pools, paid)
      ensures r.Done? ==> |results| == |batch| && Kept(c) && NoneIn(requests)
      ensures r.Done? ==> Ok() && Slots(batch, if |batch| == 0 then 0 else |results[|batch| - 1]|)
    {
      for b := 0 to |batch|
        invariant |results| == b && Kept(c) && NoneIn(requests)
        invariant Ok() && Slots(batch, if b == 0 then 0 else |results[b - 1]|)
      {
        var _ :- AddBlock(batch, b, c);
      }
      return Done(());
    }

    /** One call for every request before the rounds. */
    method DriveAll(ghost batch: seq<BatchRequest>, ghost made: nat, ghost c: Cache) returns (r: Outcome<()>)
      requires Ok() && Slots(batch, made) && Kept(c) && NoneIn(requests)
      modifies `cache, `requests, `holder
      ensures r.Aborted? ==> !Roomy(pools, paid)
      ensures r.Done? ==> Ok() && Slots(batch, made) && Kept(c) && NoneIn(requests)
      ensures r.Done? ==> |requests| == |old(requests)| && forall i | 0 <= i < |requests| :: Called(old(requests[i]), requests[i])
    {
      var n := |requests|;
      for i := 0 to n
        invariant Ok() && Slots(batch, made) && Kept(c) && NoneIn(requests) && |requests| == n
        invariant forall j | 0 <= j < i :: Called(old(requests[j]), requests[j])
        invariant forall j | i <= j < n :: requests[j] == old(requests[j])
      {
        ghost var c0 := cache;
        var done :- Drive(i, batch, made);
        KeptTrans(c, c0, cache);
      }
      return Done(());
    }

    /** Passes until every request is in its block. */
    method Rounds(ghost batch: seq<BatchRequest>, ghost made: nat, ghost c: Cache) returns (r: Outcome<()>)
      requires Ok() && Slots(batch, made) && Kept(c) && Sum(requests, Inserted()) == 0
      modifies `cache, `requests, `holder, `results
      ensures r.Aborted? ==> !Roomy(pools, paid)
      ensures r.Done? ==> Ok() && Slots(batch, made) && Kept(c) && |results| == |old(results)|
      ensures r.Done? ==> forall i | 0 <= i < |requests| :: requests[i].inserted
    {
      var count := 0;
      while count != |requests|
        invariant Ok() && Slots(batch, made) && Kept(c) && count == Sum(requests, Inserted()) && |results| == |old(results)|
        decreases Sum(requests, ToGo())
      {
        InsertedBound(requests);
        count :- Round(batch, made, c, count);
      }
      InsertedBound(requests);
      return Done(());
    }
  }

  /** A pinned page is resident. */
  lemma PinnedAreNotAbsent(c: Cache, pools: Pools, batch: seq<BatchRequest>)
    requires Consistent(c, pools)
    ensures Ample(c, pools, Wanted(batch) + PinnedPages(c)) <==> Ample(c, pools, Wanted(batch))
  {
    forall q ensures AbsentOf(c, pools, Wanted(batch) + PinnedPages(c), q) == AbsentOf(c, pools, Wanted(batch), q) {
      forall p | p in PinnedPages(c) ensures Word(c.words, p).Frame? {
        var m :| 0 <= m < |c.mem| && c.mem[m].pins > 0 && c.mem[m].name == p;
        assert MemOk(c, pools, m);
      }
    }
  }

  /** Asking for the same pages again takes no more frames. */
  lemma RepeatsNeedNoFrame(c: Cache, pools: Pools, batch: seq<BatchRequest>, again: seq<BatchRequest>)
    requires forall r | r in again :: r in batch
    ensures Enough(c, pools, batch + again) <==> Enough(c, pools, batch)
  {
    forall p | p in Wanted(batch + again) ensures p in Wanted(batch) {
      var b, j :| 0 <= b < |batch + again| && 0 <= j < PageCount((batch + again)[b]) && p == PageAt((batch + again)[b], j);
      assert b >= |batch| ==> (batch + again)[b] == again[b - |batch|];
      assert (batch + again)[b] in batch;
      var k :| 0 <= k < |batch| && batch[k] == (batch + again)[b];
      assert PageAt(batch[k], j) in Wanted(batch);
    }
    forall p | p in Wanted(batch) ensures p in Wanted(batch + again) {
      var b, j :| 0 <= b < |batch| && 0 <= j < PageCount(batch[b]) && p == PageAt(batch[b], j);
      assert (batch + again)[b] == batch[b];
    }
    assert Wanted(batch + again) == Wanted(batch);
  }

  lemma StartOk(c: Cache, pools: Pools, paid: set<PageId>)
    requires Consistent(c, pools) && PinnedPages(c) <= paid && c.loads == multiset{}
    ensures Inv(c, pools, [], map[], paid)
  {
    forall m | 0 <= m < |c.mem| ensures UseOk(c, [], paid, m) {
      assert MemOk(c, pools, m);
      assert c.mem[m].pins > 0 ==> c.mem[m].name in PinnedPages(c);
    }
  }

  /** A batch that was served had frames enough: its pages, and those pinned before, are all in frames now. */
  lemma ServedHadRoom(before: Cache, c: Cache, pools: Pools, reqs: seq<Request>, holder: map<PageId, nat>,
                      batch: seq<BatchRequest>, results: Results)
    requires Consistent(before, pools) && PinsKept(before, c)
    requires Inv(c, pools, reqs, holder, Wanted(batch) + PinnedPages(before))
    requires forall b, j | 0 <= b < |batch| && 0 <= j < PageCount(batch[b]) :: Delivered(before, c, batch, results, b, j)
    ensures Enough(before, pools, batch)
  {
    forall p | p in Wanted(batch) + PinnedPages(before) ensures exists m :: Resident(c, p, m) {
      if p in Wanted(batch) {
        var b, j :| 0 <= b < |batch| && 0 <= j < PageCount(batch[b]) && p == PageAt(batch[b], j);
        assert Delivered(before, c, batch, results, b, j);
        assert Resident(c, p, results[b][j].value.frame);
      } else {
        var m :| 0 <= m < |before.mem| && before.mem[m].pins > 0 && before.mem[m].name == p;
        assert MemOk(before, pools, m) && Resident(before, p, m);
        assert Resident(c, p, m);
      }
    }
    AllServed(c, pools, reqs, holder, Wanted(batch) + PinnedPages(before));
  }

  ghost predicate InFile(batch: seq<BatchRequest>, c: Cache) {
    forall b, j {:trigger PageAt(batch[b], j)} | 0 <= b < |batch| && 0 <= j < PageCount(batch[b]) ::
      PageAt(batch[b], j) in c.disk
  }

  /** Slot j of block b shows its page's bytes, in a pinned frame. */
  ghost predicate Delivered(before: Cache, c: Cache, batch: seq<BatchRequest>, results: Results, b: nat, j: nat)
    requires b < |batch|
  {
    && b < |results| && j < |results[b]| && results[b][j].Some?
    && var ptr, p := results[b][j].value, PageAt(batch[b], j);
       && ptr.off == OffAt(batch[b], j) && Resident(c, p, ptr.frame)
       && p in before.disk && c.mem[ptr.frame].bytes == Logical(before, p)
  }

  lemma KeptTrans(c: Cache, c1: Cache, c2: Cache)
    requires SameBytes(c, c1) && PinsKept(c, c1) && SameBytes(c1, c2) && PinsKept(c1, c2)
    ensures SameBytes(c, c2) && PinsKept(c, c2)
  {
  }

  /** What a call does to a request's phase: it moves on, unless it was finished or its page is being loaded. */
  predicate Called(before: Request, after: Request) {
    after.page == before.page && (before.phase.End? || after.phase.Begin? || Rank(before.phase) < Rank(after.phase))
  }

  /** Counts a request that is inserted. */
  function Inserted(): Request -> nat {
    (r: Request) => if r.inserted then 1 else 0
  }

  /** The calls a request needs at most. */
  function ToGo(): Request -> nat {
    (r: Request) => if r.inserted then 0 else 6 - Rank(r.phase)
  }

  lemma {:induction false} InsertedBound(reqs: seq<Request>)
    ensures Sum(reqs, Inserted()) <= |reqs|
    ensures Sum(reqs, Inserted()) == |reqs| <==> forall i | 0 <= i < |reqs| :: reqs[i].inserted
  {
    if reqs != [] { InsertedBound(reqs[..|reqs| - 1]); }
  }

  ghost predicate NoneIn(reqs: seq<Request>) {
    forall i | 0 <= i < |reqs| :: !reqs[i].inserted
  }

  /** When every request is inserted, every slot is filled with its page. */
  lemma AllDelivered(before: Cache, c: Cache, pools: Pools, reqs: seq<Request>, holder: map<PageId, nat>,
                     paid: set<PageId>, waiting: map<(nat, nat), nat>, batch: seq<BatchRequest>, results: Results,
                     made: nat)
    requires Inv(c, pools, reqs, holder, paid) && SlotsOk(c, reqs, waiting, batch, results, made)
    requires |results| == |batch| && (batch != [] ==> made == |results[|batch| - 1]|)
    requires SameBytes(before, c) && forall i | 0 <= i < |reqs| :: reqs[i].inserted
    ensures forall b, j | 0 <= b < |batch| && 0 <= j < PageCount(batch[b]) :: Delivered(before, c, batch, results, b, j)
    ensures forall p :: c.loads[p] <= 1
  {
    forall b, j | 0 <= b < |batch| && 0 <= j < PageCount(batch[b]) ensures Delivered(before, c, batch, results, b, j) {
      assert SlotOk(c, reqs, waiting, batch, results, b, j);
      var m := results[b][j].value.frame;
      assert MemOk(c, pools, m);
    }
    forall p ensures c.loads[p] <= 1 { assert LoadOk(c, reqs, holder, p); }
  }

  /** Request j waits for another one that is loading the same page. */
  ghost predicate Stuck(c: Cache, reqs: seq<Request>, j: nat)
    requires j < |reqs|
  {
    reqs[j].inserted || (reqs[j].phase.Begin? && Word(c.words, reqs[j].page) == Busy)
  }

  /** Not every unfinished request can be waiting: the one that is loading is not. */
  lemma NotAllStuck(c: Cache, pools: Pools, reqs: seq<Request>, holder: map<PageId, nat>, paid: set<PageId>)
    requires Inv(c, pools, reqs, holder, paid) && Sum(reqs, Inserted()) < |reqs|
    ensures exists j :: 0 <= j < |reqs| && !Stuck(c, reqs, j)
  {
    InsertedBound(reqs);
    var i :| 0 <= i < |reqs| && !reqs[i].inserted;
    if Stuck(c, reqs, i) {
      var p := reqs[i].page;
      assert WordOk(c, reqs, holder, p);
      var h := holder[p];
      assert ReqOk(c, pools, holder, paid, reqs[h], h);
      assert !Stuck(c, reqs, h);
    }
  }

  /** A new block, all of whose slots are still empty. */
  lemma NewBlockKeepsSlots(c: Cache, reqs: seq<Request>, waiting: map<(nat, nat), nat>, batch: seq<BatchRequest>,
                           results: Results, made: nat)
    requires SlotsOk(c, reqs, waiting, batch, results, made) && |results| < |batch|
    requires results != [] ==> made == |results[|results| - 1]|
    ensures SlotsOk(c, reqs, waiting, batch, results + [seq(PageCount(batch[|results|]), _ => None)], 0)
  {
    var results' := results + [seq(PageCount(batch[|results|]), _ => None)];
    forall b, j | 0 <= b < |results'| && 0 <= j < |results'[b]| && b < |results'| - 1
      ensures SlotOk(c, reqs, waiting, batch, results', b, j)
    {
      assert SlotOk(c, reqs, waiting, batch, results, b, j);
    }
    forall k | 0 <= k < |reqs| ensures RequestOk(reqs, waiting, batch, results', k) && reqs[k].block < |results| {
      assert RequestOk(reqs, waiting, batch, results, k);
    }
  }

  /** The next slot is filled at once. */
  lemma DirectKeepsSlots(c: Cache, reqs: seq<Request>, waiting: map<(nat, nat), nat>, batch: seq<BatchRequest>,
                         results: Results, j: nat, m: nat)
    requires SlotsOk(c, reqs, waiting, batch, results, j) && results != [] && j < |results[|results| - 1]| && m < |c.mem|
    requires var p := PageAt(batch[|results| - 1], j);
             c.mem[m].kept.InReplacer? && c.mem[m].name == p
    ensures var b := |results| - 1;
            var c' := Pinned(c, m);
            var results' := results[b := results[b][j := Some(PagePtr(m, OffAt(batch[b], j)))]];
            SlotsOk(c', reqs, waiting, batch, results', j + 1)
  {
    var b := |results| - 1;
    var c' := Pinned(c, m);
    var results' := results[b := results[b][j := Some(PagePtr(m, OffAt(batch[b], j)))]];
    forall x, y | 0 <= x < |results'| && 0 <= y < |results'[x]| && (x < b || y < j + 1)
      ensures SlotOk(c', reqs, waiting, batch, results', x, y)
    {
      assert (x < b || y < j) ==> SlotOk(c, reqs, waiting, batch, results, x, y);
    }
    forall k | 0 <= k < |reqs| ensures RequestOk(reqs, waiting, batch, results', k) {
      assert RequestOk(reqs, waiting, batch, results, k);
    }
  }

  /** The next slot gets a request. */
  lemma NewRequestKeepsSlots(c: Cache, reqs: seq<Request>, waiting: map<(nat, nat), nat>, batch: seq<BatchRequest>,
                             results: Results, j: nat, r: Request)
    requires SlotsOk(c, reqs, waiting, batch, results, j) && results != [] && j < |results[|results| - 1]|
    requires var b := |results| - 1;
             r.block == b && r.slot == j && !r.inserted && r.page == PageAt(batch[b], j) && r.off == OffAt(batch[b], j)
    ensures SlotsOk(c, reqs + [r], waiting[(r.block, r.slot) := |reqs|], batch, results, j + 1)
  {
    var b := |results| - 1;
    var reqs', waiting' := reqs + [r], waiting[(r.block, r.slot) := |reqs|];
    forall x, y | 0 <= x < |results| && 0 <= y < |results[x]| && (x < b || y < j + 1)
      ensures SlotOk(c, reqs', waiting', batch, results, x, y)
    {
      assert (x < b || y < j) ==> SlotOk(c, reqs, waiting, batch, results, x, y);
    }
    forall k | 0 <= k < |reqs'| ensures RequestOk(reqs', waiting', batch, results, k) {
      if k < |reqs| { assert RequestOk(reqs, waiting, batch, results, k); }
    }
  }
}
