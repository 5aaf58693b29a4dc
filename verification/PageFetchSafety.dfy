/** Safety of the page-fetch protocol over every run from the state BufferPool::init leaves. */
module PageFetchSafety {
  import opened Collections
  import opened PageFetch
  import opened PageFetchInv
  import opened PageFetchSteps
  import opened PageFetchThreads

  /** The bookkeeping names only threads that exist. */
  ghost predicate Within(g: Pool, n: nat) {
    && (forall p | p in g.owner :: g.owner[p].who < n)
    && (forall m | 0 <= m < |g.place| && !g.place[m].Free? && !g.place[m].Listed? :: g.place[m].who < n)
    && (forall t | t in g.debts :: t < n)
    && (forall m, t | 0 <= m < |g.strays| && t in g.strays[m] :: t < n)
    && (g.latch.Some? ==> g.latch.value < n)
  }

  ghost predicate StateInv(s: State) {
    && PoolInv(s.pool) && Within(s.pool, |s.threads|)
    && forall t {:trigger ThreadInv(s.pool, t, s.threads[t])} | 0 <= t < |s.threads| :: ThreadInv(s.pool, t, s.threads[t])
  }

  lemma ClientKeeps(g: Pool, e: Event)
    requires PoolInv(g)
    ensures PoolInv(Client(g, e)) && Leaves(g, Client(g, e), -1)
  {
    ClientLeaves(g, e);
    if !e.Run? && PinInRange(g, e.k) {
      match e
      case Write(k, bytes) => KeepWrite(g, k, bytes);
      case MarkDirty(k) => KeepMarkDirty(g, k);
      case Release(k) => if !g.pins[k].wrote { KeepRelease(g, k); }
    }
  }

  lemma RunLeaves(s: State, e: Event)
    requires StateInv(s) && e.Run? && e.t < |s.threads|
    ensures Leaves(s.pool, Apply(s, e).pool, e.t)
  {
    assert ThreadInv(s.pool, e.t, s.threads[e.t]);
    StepKeeps(s.pool, e.t, s.threads[e.t], e.pick);
  }

  lemma WithinKeeps(g: Pool, r: Pool, t: int, n: nat)
    requires Shaped(g) && Shaped(r) && Within(g, n) && Leaves(g, r, t) && t < n
    ensures Within(r, n)
  {
    forall p | p in r.owner ensures r.owner[p].who < n { assert LeavesPage(g, r, t, p); }
    forall m | 0 <= m < |r.place| ensures !r.place[m].Free? && !r.place[m].Listed? ==> r.place[m].who < n {
      assert LeavesFrame(g, r, t, m);
      if !r.place[m].Free? && !r.place[m].Listed? { assert HeldBy(r.place[m], r.place[m].who); }
    }
    forall m, u | 0 <= m < |r.strays| && u in r.strays[m] ensures u < n { assert LeavesFrame(g, r, t, m); }
    forall u | u in r.debts ensures u < n { assert u != t ==> LeavesThread(g, r, u); }
    if r.latch.Some? { assert r.latch.value != t ==> LeavesThread(g, r, r.latch.value); }
  }

  lemma ApplyKeeps(s: State, e: Event)
    requires StateInv(s)
    ensures StateInv(Apply(s, e))
  {
    var r := Apply(s, e);
    var t: int := if e.Run? && e.t < |s.threads| then e.t else -1;
    if t >= 0 {
      assert ThreadInv(s.pool, t, s.threads[t]);
      StepKeeps(s.pool, t, s.threads[t], e.pick);
    } else {
      ClientKeeps(s.pool, e);
    }
    WithinKeeps(s.pool, r.pool, t, |s.threads|);
    forall u | 0 <= u < |r.threads| ensures ThreadInv(r.pool, u, r.threads[u]) {
      if u != t {
        assert ThreadInv(s.pool, u, s.threads[u]);
        OthersKeep(s.pool, r.pool, t, u, s.threads[u]);
      }
    }
  }

  lemma InitialInv(s: State)
    requires Initial(s)
    ensures StateInv(s)
  {
    var g := s.pool;
    forall m | 0 <= m < |g.ptes| ensures CountOk(g, m) {
      assert PinsOn(g, m) == {} && DebtsOn(g, m) == {};
    }
    forall m | 0 <= m < |g.ptes| ensures PlaceOk(g, m) {
      assert g.free[m] == m;
    }
  }

  /** Whatever the schedule, there is a run with it. */
  lemma {:induction false} EveryScheduleRuns(s: State, events: seq<Event>) returns (run: seq<State>)
    requires Initial(s)
    ensures IsRun(run, events) && run[0] == s
  {
    if events == [] {
      run := [s];
    } else {
      var n := |events| - 1;
      var before := EveryScheduleRuns(s, events[..n]);
      RunKeeps(before, events[..n], n);
      run := before + [Apply(before[n], events[n])];
      forall i | 0 <= i < |events| ensures Takes(run, events, i) {
        if i < n { assert Takes(before, events[..n], i); }
      }
    }
  }

  lemma {:induction false} RunKeeps(run: seq<State>, events: seq<Event>, i: nat)
    requires IsRun(run, events) && i < |run|
    ensures StateInv(run[i]) && |run[i].threads| == |run[0].threads|
  {
    if i == 0 {
      InitialInv(run[0]);
    } else {
      RunKeeps(run, events, i - 1);
      assert Takes(run, events, i - 1);
      ApplyKeeps(run[i - 1], events[i - 1]);
    }
  }

  // ---- What holds in every state of every run ----

  /**
    Pin safety.  The frame of a live pin names the pin's page, carries that page's current content,
    and is neither locked nor lockable, so no eviction can take it.
   */
  lemma PinSafety(run: seq<State>, events: seq<Event>, i: nat, k: nat)
    requires IsRun(run, events) && i < |run| && k in run[i].pool.pins
    ensures var g := run[i].pool; var pin := g.pins[k];
            && pin.frame < |g.ptes| && pin.page in g.mapping
            && g.ptes[pin.frame].page == pin.page
            && !g.ptes[pin.frame].busy && !Lockable(g.ptes[pin.frame])
            && pin.frame < |g.frames| && pin.page in g.content && g.frames[pin.frame] == g.content[pin.page]
  {
    RunKeeps(run, events, i);
    var g := run[i].pool;
    var m := g.pins[k].frame;
    assert PinOk(g, k) && CountOk(g, m) && PlaceOk(g, m) && k in PinsOn(g, m);
  }

  /** While a pin lives, its frame is not given to another page and only writes change its bytes. */
  lemma PinnedFrameIsStable(run: seq<State>, events: seq<Event>, i: nat, k: nat)
    requires IsRun(run, events) && i < |events| && k in run[i].pool.pins && k in run[i + 1].pool.pins
    ensures var g, r, e := run[i].pool, run[i + 1].pool, events[i]; var m := g.pins[k].frame;
            && r.pins[k].frame == m && r.pins[k].page == g.pins[k].page
            && m < |g.ptes| == |r.ptes| && r.ptes[m].page == g.ptes[m].page
            && m < |g.frames| == |r.frames|
            && (r.frames[m] != g.frames[m] ==> e.Write? && e.k in g.pins && g.pins[e.k].frame == m)
  {
    var s, r, e := run[i], run[i + 1], events[i];
    RunKeeps(run, events, i);
    RunKeeps(run, events, i + 1);
    assert Takes(run, events, i);
    PinLeft(s, e, k);
    assert PinOk(s.pool, k) && PinOk(r.pool, k);
  }

  lemma PinLeft(s: State, e: Event, k: nat)
    requires StateInv(s) && k in s.pool.pins && k in Apply(s, e).pool.pins
    ensures var g, r := s.pool, Apply(s, e).pool; var m := g.pins[k].frame;
            && r.pins[k].frame == m && r.pins[k].page == g.pins[k].page && m < |g.frames| == |r.frames|
            && (r.frames[m] != g.frames[m] ==> e.Write? && e.k in g.pins && g.pins[e.k].frame == m)
  {
    assert PinOk(s.pool, k);
    if e.Run? && e.t < |s.threads| {
      RunLeaves(s, e);
      assert LeavesPin(s.pool, Apply(s, e).pool, k) && LeavesFrame(s.pool, Apply(s, e).pool, e.t, s.pool.pins[k].frame);
    }
  }

  /**
    A locked PTE has no holder: its count is made of strays alone, at most one for each thread.
    Zeroing it in UnLock, or overwriting it at load, therefore loses no pin and no owed decrement.
   */
  lemma BusyFrameHasNoHolder(run: seq<State>, events: seq<Event>, i: nat, m: nat)
    requires IsRun(run, events) && i < |run| && m < |run[i].pool.ptes| && run[i].pool.ptes[m].busy
    ensures var s := run[i];
            && PinsOn(s.pool, m) == {}
            && (forall t | 0 <= t < |s.threads| && s.threads[t].PinUndo? :: s.threads[t].m != m)
            && m < |s.pool.strays| && s.pool.ptes[m].refCount == |s.pool.strays[m]| <= |s.threads|
  {
    RunKeeps(run, events, i);
    var s := run[i];
    assert CountOk(s.pool, m);
    BelowCount(s.pool.strays[m], |s.threads|);
    forall t | 0 <= t < |s.threads| && s.threads[t].PinUndo? ensures s.threads[t].m != m {
      assert ThreadInv(s.pool, t, s.threads[t]);
      assert s.threads[t].m == m ==> t in DebtsOn(s.pool, m);
    }
  }

  /** The count of a PTE never exceeds its live pins by more than one for each thread. */
  lemma CountIsBounded(run: seq<State>, events: seq<Event>, i: nat, m: nat)
    requires IsRun(run, events) && i < |run| && m < |run[i].pool.ptes|
    ensures var s := run[i];
            |PinsOn(s.pool, m)| <= s.pool.ptes[m].refCount <= |PinsOn(s.pool, m)| + |s.threads|
  {
    RunKeeps(run, events, i);
    var s := run[i];
    assert CountOk(s.pool, m);
    BelowCount(s.pool.strays[m], |s.threads|);
    BelowCount(DebtsOn(s.pool, m), |s.threads|);
  }

  /** A page mapped to a frame is the page that frame's unlocked PTE names. */
  lemma MappingMatchesPte(run: seq<State>, events: seq<Event>, i: nat, p: PageId)
    requires IsRun(run, events) && i < |run| && p in run[i].pool.mapping && run[i].pool.mapping[p].Frame?
    ensures var g := run[i].pool; var m := g.mapping[p].id;
            && m < |g.ptes| && g.ptes[m].page == p && g.ptes[m].initialized && !g.ptes[m].busy
            && m in g.list && m < |g.frames| && p in g.content && g.frames[m] == g.content[p]
  {
    RunKeeps(run, events, i);
    var g := run[i].pool;
    assert PageOk(g, p) && PlaceOk(g, g.mapping[p].id);
  }

  /** No two pages share a frame. */
  lemma FramesAreNotShared(run: seq<State>, events: seq<Event>, i: nat, p: PageId, q: PageId)
    requires IsRun(run, events) && i < |run| && p in run[i].pool.mapping && q in run[i].pool.mapping
    requires var g := run[i].pool; g.mapping[p].Frame? && g.mapping[p] == g.mapping[q]
    ensures p == q
  {
    MappingMatchesPte(run, events, i, p);
    MappingMatchesPte(run, events, i, q);
  }

  /**
    Every assertion the fetch path wraps around an effect holds: CreateMapping and DeleteMapping
    find a BUSY word, UnLock finds a busy PTE of the right page.  And a mapping locked by Victim is
    never EMPTY.  (Victim itself may still give up.)
   */
  lemma AssertionsHold(run: seq<State>, events: seq<Event>, i: nat, t: nat)
    requires IsRun(run, events) && i < |run| && t < |run[0].threads|
    ensures |run[i].threads| == |run[0].threads|
    ensures !run[i].threads[t].Failed? && !run[i].threads[t].VicEmpty?
  {
    RunKeeps(run, events, i);
    assert ThreadInv(run[i].pool, t, run[i].threads[t]);
  }

  /** A BUSY mapping is held by exactly one thread, and any other mapping by none. */
  lemma BusyHasOneHolder(run: seq<State>, events: seq<Event>, i: nat, p: PageId)
    requires IsRun(run, events) && i < |run| && p in run[i].pool.mapping
    ensures var s := run[i];
            && (s.pool.mapping[p] == Busy <==> exists t :: 0 <= t < |s.threads| && Holds(s.pool, s.threads[t], p))
            && forall t, u | 0 <= t < u < |s.threads| :: !(Holds(s.pool, s.threads[t], p) && Holds(s.pool, s.threads[u], p))
  {
    RunKeeps(run, events, i);
    var s := run[i];
    assert PageOk(s.pool, p);
    forall t | 0 <= t < |s.threads| && Holds(s.pool, s.threads[t], p)
      ensures p in s.pool.owner && s.pool.owner[p].who == t
    {
      assert ThreadInv(s.pool, t, s.threads[t]);
    }
    if s.pool.mapping[p] == Busy {
      var t := s.pool.owner[p].who;
      assert ThreadInv(s.pool, t, s.threads[t]);
      assert Holds(s.pool, s.threads[t], p);
    }
  }

  /** The threads that have frame m between Poll or Victim and the replacer's Insert. */
  ghost function Hands(s: State, m: nat): set<nat> {
    set t | 0 <= t < |s.threads| && HasFrame(s.threads[t], m)
  }

  /** Every frame is in exactly one of the free list, the replacer list and one thread's hands. */
  lemma FramesAreConserved(run: seq<State>, events: seq<Event>, i: nat, m: nat)
    requires IsRun(run, events) && i < |run| && m < |run[i].pool.ptes|
    ensures var s := run[i];
            && Distinct(s.pool.free) && Distinct(s.pool.list)
            && (if m in s.pool.free then 1 else 0) + (if m in s.pool.list then 1 else 0) + |Hands(s, m)| == 1
  {
    RunKeeps(run, events, i);
    var s := run[i];
    assert PlaceOk(s.pool, m);
    forall t | t in Hands(s, m) ensures HeldBy(s.pool.place[m], t) {
      assert ThreadInv(s.pool, t, s.threads[t]);
    }
    if s.pool.place[m].Free? || s.pool.place[m].Listed? {
      assert Hands(s, m) == {};
    } else {
      var t := s.pool.place[m].who;
      assert ThreadInv(s.pool, t, s.threads[t]) && HeldBy(s.pool.place[m], t);
      assert Hands(s, m) == {t};
    }
  }

  /**
    No lost update, in one state: a page that is not resident is on disk as last written, and a
    listed frame that differs from disk is dirty or its writer still holds the pin.
   */
  lemma NothingUnannounced(run: seq<State>, events: seq<Event>, i: nat, p: PageId, m: nat)
    requires IsRun(run, events) && i < |run| && p in run[i].pool.mapping && m < |run[i].pool.ptes|
    ensures var g := run[i].pool;
            && p in g.disk && p in g.content && m < |g.frames|
            && (g.mapping[p] == Empty ==> g.disk[p] == g.content[p])
            && (m in g.list && g.ptes[m].page == p && g.frames[m] != g.disk[p] ==>
                  g.ptes[m].dirty || exists k :: WroteTo(g, k, m))
  {
    RunKeeps(run, events, i);
    var g := run[i].pool;
    assert PageOk(g, p) && PlaceOk(g, m);
  }

  /** Event e writes through a pin on page p. */
  predicate WritesTo(s: State, e: Event, p: PageId) {
    e.Write? && e.k in s.pool.pins && s.pool.pins[e.k].page == p
  }

  /** The content of a page stays until it is written. */
  lemma {:induction false} ContentStays(run: seq<State>, events: seq<Event>, i: nat, j: nat, p: PageId)
    requires IsRun(run, events) && i <= j < |run| && p in run[i].pool.content
    requires forall l | i <= l < j :: !WritesTo(run[l], events[l], p)
    ensures p in run[j].pool.content && run[j].pool.content[p] == run[i].pool.content[p]
    decreases j - i
  {
    if i < j {
      ContentStays(run, events, i, j - 1, p);
      RunKeeps(run, events, j - 1);
      assert Takes(run, events, j - 1);
      ContentOnlyByWrites(run[j - 1], events[j - 1], p);
    }
  }

  lemma ContentOnlyByWrites(s: State, e: Event, p: PageId)
    requires StateInv(s) && p in s.pool.content && !WritesTo(s, e, p)
    ensures p in Apply(s, e).pool.content && Apply(s, e).pool.content[p] == s.pool.content[p]
  {
    if e.Run? && e.t < |s.threads| { RunLeaves(s, e); }
    assert p in s.pool.content.Keys;
  }

  /**
    No lost update, over runs: after a write through pin k, and however many fetches, evictions and
    reloads follow, any live pin on that page finds the bytes written, until the page is written again.
   */
  lemma ReadsSeeLastWrite(run: seq<State>, events: seq<Event>, i: nat, j: nat, k2: nat)
    requires IsRun(run, events) && i < j < |run| && events[i].Write? && events[i].k in run[i].pool.pins
    requires var p := run[i].pool.pins[events[i].k].page;
             && (forall l | i < l < j :: !WritesTo(run[l], events[l], p))
             && k2 in run[j].pool.pins && run[j].pool.pins[k2].page == p
    ensures var g := run[j].pool;
            g.pins[k2].frame < |g.frames| && g.frames[g.pins[k2].frame] == events[i].bytes
  {
    var p := run[i].pool.pins[events[i].k].page;
    PinSafety(run, events, i, events[i].k);
    assert Takes(run, events, i);
    assert p in run[i + 1].pool.content && run[i + 1].pool.content[p] == events[i].bytes;
    ContentStays(run, events, i + 1, j, p);
    PinSafety(run, events, j, k2);
  }
}
