/**
  A fetch that nobody disturbs, with SIEVE itself as its replacer: the scan looks at the frames SIEVE
  looks at, in that order and within its retries, and finds one whenever there is one.
 */
module PageFetchSieve {
  import opened Collections
  import opened ListArray
  import opened Sieve
  import opened PageFetch
  import opened PageFetchInv
  import opened PageFetchAlone

  /** The scheduler's picks while the scan looks at frame f and cannot take it. */
  function Look(g: Pool, f: nat): seq<Pick>
    requires f < |g.ptes|
  {
    var pick := Pick(NO_PAGE, f, false);
    if g.ptes[f].refCount != 0 then [pick, pick] else [pick, pick, pick, pick]
  }

  function LookAll(g: Pool, frames: seq<nat>): seq<Pick>
    requires forall i | 0 <= i < |frames| :: frames[i] < |g.ptes|
  {
    if frames == [] then [] else Look(g, frames[0]) + LookAll(g, frames[1..])
  }

  /** A frame is listed, but its count or its page's mapping says it is in use. */
  predicate InUse(g: Pool, f: nat)
    requires Shaped(g)
  {
    f in g.list && f < |g.ptes| && g.ptes[f].page in g.mapping && (g.ptes[f].refCount != 0 || g.mapping[g.ptes[f].page] == Busy)
  }

  lemma OneLook(g: Pool, t: nat, pc: Pc, pick: Pick, next: Pc, rest: seq<Pick>)
    requires Shaped(g) && Step(g, t, pc, pick) == (g, next)
    ensures Alone(g, t, pc, [pick] + rest) == Alone(g, t, next, rest)
  {
    assert ([pick] + rest)[1..] == rest;
  }

  lemma TwoLooks(g: Pool, t: nat, p: PageId, f: nat)
    requires Shaped(g) && InUse(g, f) && p in g.mapping && g.ptes[f].refCount != 0
    ensures Alone(g, t, Victim(p, Next), Look(g, f)) == (g, Victim(p, Next))
  {
    var pick := Pick(NO_PAGE, f, false);
    assert Look(g, f) == [pick] + ([pick] + []);
    OneLook(g, t, Victim(p, Next), pick, Victim(p, Check(f)), [pick] + []);
    OneLook(g, t, Victim(p, Check(f)), pick, Victim(p, Next), []);
  }

  lemma FourLooks(g: Pool, t: nat, p: PageId, f: nat)
    requires Shaped(g) && InUse(g, f) && p in g.mapping && g.ptes[f].refCount == 0
    ensures Alone(g, t, Victim(p, Next), Look(g, f)) == (g, Victim(p, Next))
  {
    var pick := Pick(NO_PAGE, f, false);
    assert Look(g, f) == [pick] + ([pick] + ([pick] + ([pick] + [])));
    OneLook(g, t, Victim(p, Next), pick, Victim(p, Check(f)), [pick] + ([pick] + ([pick] + [])));
    OneLook(g, t, Victim(p, Check(f)), pick, Victim(p, Read(f)), [pick] + ([pick] + []));
    OneLook(g, t, Victim(p, Read(f)), pick, Victim(p, LockMap(f, g.ptes[f].page)), [pick] + []);
    OneLook(g, t, Victim(p, LockMap(f, g.ptes[f].page)), pick, Victim(p, Next), []);
  }

  /** Looking at frames in use leaves no trace. */
  lemma {:induction false} LooksLeaveNoTrace(g: Pool, t: nat, p: PageId, frames: seq<nat>)
    requires Shaped(g) && p in g.mapping && forall i | 0 <= i < |frames| :: frames[i] < |g.ptes| && InUse(g, frames[i])
    ensures Alone(g, t, Victim(p, Next), LookAll(g, frames)) == (g, Victim(p, Next))
  {
    if frames != [] {
      assert InUse(g, frames[0]) && forall i | 0 <= i < |frames[1..]| :: frames[1..][i] == frames[i + 1];
      if g.ptes[frames[0]].refCount != 0 { TwoLooks(g, t, p, frames[0]); } else { FourLooks(g, t, p, frames[0]); }
      LooksLeaveNoTrace(g, t, p, frames[1..]);
      AloneThen(g, t, Victim(p, Next), Look(g, frames[0]), LookAll(g, frames[1..]));
    }
  }

  // ---- The whole fetch ----

  /** The replacer lists what the pool says it lists. */
  ghost predicate InStep(r: SieveReplacer, g: Pool)
    reads r, r.list, r.list.nodes
  {
    r.Valid() && r.list.items == g.list && r.list.capacity == |g.ptes|
  }

  /** The frames with no reference whose page's mapping can be locked. */
  function Evictables(g: Pool): set<nat>
    requires Shaped(g)
  {
    set m | m in g.list && Evictable(g, m)
  }

  /** While t searches, exactly the frames that were in use before still are. */
  lemma StillInUse(g: Pool, t: nat, p: PageId, f: nat)
    requires PoolInv(g) && p in g.mapping && f in g.list && f !in Evictables(g)
    ensures InUse(Searching(g, t, p), f)
  {
    assert PlaceOk(g, f);
  }

  /** Thread t looks at the frames `passed`, all in use, and then takes m. */
  ghost predicate LooksThenTakes(g: Pool, t: nat, p: PageId, passed: seq<nat>, m: nat, r: Pool)
    requires Shaped(g) && forall i | 0 <= i < |passed| :: passed[i] < |g.ptes|
  {
    var pick := Pick(NO_PAGE, m, false);
    exists a: nat, b: nat :: Alone(g, t, PinFind(p), Always(pick, a) + LookAll(g, passed) + Always(pick, b)) == (r, Idle)
  }

  lemma SameLooks(g: Pool, t: nat, p: PageId, passed: seq<nat>)
    requires Shaped(g) && p in g.mapping && forall i | 0 <= i < |passed| :: passed[i] < |g.ptes|
    ensures LookAll(Searching(g, t, p), passed) == LookAll(g, passed)
  {
    if passed != [] { SameLooks(g, t, p, passed[1..]); }
  }

  lemma SearchThenReplace(g: Pool, t: nat, p: PageId, passed: seq<nat>, m: nat)
    requires PoolInv(g) && Replaces(g, p, m)
    requires forall i | 0 <= i < |passed| :: passed[i] in g.list && passed[i] !in Evictables(g)
    ensures forall i | 0 <= i < |passed| :: passed[i] < |g.ptes|
    ensures LooksThenTakes(g, t, p, passed, m, Replaced(g, p, m))
  {
    var pick, h := Pick(NO_PAGE, m, false), Searching(g, t, p);
    forall i | 0 <= i < |passed| ensures passed[i] < |h.ptes| && InUse(h, passed[i]) { StillInUse(g, t, p, passed[i]); }
    SearchAlone(g, t, p, m);
    LooksLeaveNoTrace(h, t, p, passed);
    SameLooks(g, t, p, passed);
    FromSearch(g, t, p, m);
    var a: nat :| InSteps(g, t, PinFind(p), m, a, h, Victim(p, Next));
    var b: nat :| InSteps(h, t, Victim(p, Next), m, b, Replaced(g, p, m), Idle);
    AloneThen(g, t, PinFind(p), Always(pick, a), LookAll(g, passed));
    AloneThen(g, t, PinFind(p), Always(pick, a) + LookAll(g, passed), Always(pick, b));
  }

  lemma FromSearch(g: Pool, t: nat, p: PageId, m: nat)
    requires Replaces(g, p, m)
    ensures Gets(Searching(g, t, p), t, Victim(p, Next), m, Replaced(g, p, m), Idle)
  {
    var h := Searching(g, t, p);
    TakeAlone(h, t, p, m);
    FromVictimAlone(g, Taken(h, t, m), t, p, m);
    Chain(h, t, Victim(p, Next), m, Taken(h, t, m), Carry(p, m, Evict), Replaced(g, p, m), Idle);
  }

  /** Frame f's counter is v now, and every other one is as it was. */
  ghost predicate OnlyCounter(was: seq<ListNode>, now: seq<ListNode>, f: nat, v: nat) {
    |now| == |was| && f < |now| && now[f].val == v && forall i | 0 <= i < |now| && i != f :: now[i].val == was[i].val
  }

  /** Frames that are not in the order keep their counters. */
  ghost predicate OthersKeepCounters(order: seq<nat>, was: seq<ListNode>, now: seq<ListNode>) {
    |now| == |was| && forall i | 0 <= i < |now| && i !in order :: now[i].val == was[i].val
  }

  /**
    Frame m is SIEVE's choice among the frames that can be evicted, the hand ends at its newer
    neighbour, and the counters are what SIEVE's scan leaves.
   */
  ghost predicate SieveTook(g: Pool, order: seq<nat>, was: seq<ListNode>, now: seq<ListNode>, hand: nat, m: nat)
    requires Shaped(g)
  {
    && m in g.list && hand == HandAfter(g.list, |g.ptes|, m) && OthersKeepCounters(order, was, now)
    && exists k: nat :: Chosen(order, was, Evictables(g), k) && m == order[k] && CountersAfter(order, was, now, Evictables(g), k)
  }

  /** SIEVE found nothing: the list and the hand are as before, and the listed frames' counters are cleared. */
  ghost predicate SieveGaveUp(r: SieveReplacer, g: Pool, order: seq<nat>, was: seq<ListNode>, hand: nat)
    reads r, r.list, r.list.nodes
  {
    InStep(r, g) && r.pointer == hand && AllCleared(r.Order(), r.list.nodes[..]) && OthersKeepCounters(order, was, r.list.nodes[..])
  }

  /** Victim on the pool's own counts and mappings. */
  method Choose(g: Pool, replacer: SieveReplacer) returns (ok: bool, m: nat, ghost passed: seq<nat>)
    requires Shaped(g) && InStep(replacer, g)
    modifies replacer`pointer, replacer.list`items, replacer.list.nodes
    ensures ok <==> exists f | f in g.list :: Evictable(g, f)
    ensures ok ==> m in Evictables(g) && replacer.Valid() && replacer.list.items == Without(g.list, m)
    ensures Passed(g.list, Evictables(g), passed) && |passed| <= 2 * |g.ptes|
    ensures ok ==> SieveTook(g, old(replacer.Order()), old(replacer.list.nodes[..]), replacer.list.nodes[..], replacer.pointer, m)
    ensures !ok ==> SieveGaveUp(replacer, g, old(replacer.Order()), old(replacer.list.nodes[..]), old(replacer.pointer))
  {
    ghost var k;
    ok, m, k, passed := replacer.Victim(Evictables(g));
    assert ok <==> exists j :: 0 <= j < |g.list| && g.list[j] in Evictables(g);
  }

  /** The scan's retries are enough, so that Victim gives up only where there is nothing to evict. */
  method VictimFor(g: Pool, t: nat, p: PageId, replacer: SieveReplacer) returns (ok: bool, m: nat, ghost passed: seq<nat>)
    requires PoolInv(g) && InStep(replacer, g) && p in g.mapping && g.mapping[p] == Empty && g.latch == None && g.free == []
    modifies replacer`pointer, replacer.list`items, replacer.list.nodes
    ensures ok <==> CanFetch(g, p)
    ensures ok ==> Replaces(g, p, m) && replacer.Valid() && replacer.list.items == Without(g.list, m)
    ensures (forall i | 0 <= i < |passed| :: passed[i] < |g.ptes|) && |passed| <= 2 * |g.ptes|
    ensures ok ==> LooksThenTakes(g, t, p, passed, m, Replaced(g, p, m))
    ensures ok ==> SieveTook(g, old(replacer.Order()), old(replacer.list.nodes[..]), replacer.list.nodes[..], replacer.pointer, m)
    ensures !ok ==> SieveGaveUp(replacer, g, old(replacer.Order()), old(replacer.list.nodes[..]), old(replacer.pointer))
  {
    ok, m, passed := Choose(g, replacer);
    PassedInRange(g, passed);
    if ok {
      ChosenReplaces(g, p, m);
      SearchThenReplace(g, t, p, passed, m);
    }
  }

  lemma PassedInRange(g: Pool, passed: seq<nat>)
    requires PoolInv(g) && Passed(g.list, Evictables(g), passed)
    ensures forall i | 0 <= i < |passed| :: passed[i] < |g.ptes|
  {
    forall i | 0 <= i < |passed| ensures passed[i] < |g.ptes| { assert passed[i] in g.list; }
  }

  lemma ChosenReplaces(g: Pool, p: PageId, m: nat)
    requires PoolInv(g) && p in g.mapping && g.mapping[p] == Empty && g.latch == None && g.free == [] && m in Evictables(g)
    ensures Replaces(g, p, m)
  {
    EvictableIsMapped(g, m);
    assert PageOk(g, p);
  }

  lemma {:induction false} RemoveIsWithout(items: seq<nat>, m: nat)
    requires Distinct(items) && m in items
    ensures Remove(items, m) == Without(items, m)
  {
    var p := Position(items, m);
    if items[0] != m {
      assert items[1..][p - 1] == m;
      RemoveIsWithout(items[1..], m);
      assert items[Position(items[1..], m) + 1] == m;
      assert items[..p] == [items[0]] + items[1..][..p - 1];
    }
  }

  /** The replacer after m was taken and listed again for another page. */
  lemma ListedAgain(g: Pool, p: PageId, m: nat, capacity: nat)
    requires Replaces(g, p, m) && ItemsOk(g.list, capacity)
    ensures m !in Without(g.list, m) && Replaced(g, p, m).list == [m] + Without(g.list, m)
    ensures |Replaced(g, p, m).ptes| == |g.ptes|
  {
    RemoveIsWithout(g.list, m);
    WithoutOk(g.list, capacity, m);
  }

  method FetchByVictim(g: Pool, t: nat, p: PageId, replacer: SieveReplacer) returns (ok: bool, ghost m: nat, ghost passed: seq<nat>)
    requires PoolInv(g) && InStep(replacer, g) && p in g.mapping && g.mapping[p] == Empty && g.latch == None && g.free == []
    modifies replacer`pointer, replacer.list`items, replacer.list.nodes
    ensures ok <==> CanFetch(g, p)
    ensures (forall i | 0 <= i < |passed| :: passed[i] < |g.ptes|) && |passed| <= 2 * |g.ptes|
    ensures ok ==> Replaces(g, p, m) && InStep(replacer, Replaced(g, p, m)) && LooksThenTakes(g, t, p, passed, m, Replaced(g, p, m))
    ensures Told(replacer, g, p, ok, m, old(replacer.Order()), old(replacer.list.nodes[..]), old(replacer.pointer))
  {
    assert ItemsOk(g.list, |g.ptes|);
    var v;
    ok, v, passed := VictimFor(g, t, p, replacer);
    m := v;
    if ok {
      ListVictim(g, p, v, replacer, old(replacer.Order()), old(replacer.list.nodes[..]));
    }
  }

  /** The victim is listed again, for its new page. */
  method ListVictim(g: Pool, p: PageId, m: nat, replacer: SieveReplacer, ghost order: seq<nat>, ghost was: seq<ListNode>)
    requires Replaces(g, p, m) && ItemsOk(g.list, |g.ptes|)
    requires replacer.Valid() && replacer.list.items == Without(g.list, m) && replacer.list.capacity == |g.ptes|
    requires SieveTook(g, order, was, replacer.list.nodes[..], replacer.pointer, m)
    modifies replacer.list`items, replacer.list.nodes
    ensures InStep(replacer, Replaced(g, p, m)) && replacer.list.nodes[m].val == 0
    ensures SieveTook(g, order, was, replacer.list.nodes[..], replacer.pointer, m)
  {
    ListedAgain(g, p, m, |g.ptes|);
    ghost var now := replacer.list.nodes[..];
    replacer.Insert(m);
    StillTook(g, order, was, now, replacer.list.nodes[..], replacer.pointer, m);
  }

  /** Listing the victim again with counter 0 leaves the counters as the scan did. */
  lemma StillTook(g: Pool, order: seq<nat>, was: seq<ListNode>, now: seq<ListNode>, end: seq<ListNode>, hand: nat, m: nat)
    requires Shaped(g) && SieveTook(g, order, was, now, hand, m) && OnlyCounter(now, end, m, 0)
    ensures SieveTook(g, order, was, end, hand, m)
  {
    var k: nat :| Chosen(order, was, Evictables(g), k) && m == order[k] && CountersAfter(order, was, now, Evictables(g), k);
    assert CounterAfter(order, was, Evictables(g), k, k) == 0;
    assert CountersAfter(order, was, end, Evictables(g), k);
  }

  /** What a fetch that needs no victim does to the list. */
  lemma ListAfter(g: Pool, p: PageId)
    requires Ready(g, p, 0) && (g.mapping[p] == Empty ==> g.free != [])
    ensures Fetched(g, p, 0).list == if g.mapping[p] == Empty then [g.free[0]] + g.list else g.list
    ensures |Fetched(g, p, 0).ptes| == |g.ptes|
  {
  }

  lemma EndsWithoutVictim(g: Pool, t: nat, p: PageId)
    requires PoolInv(g) && Ready(g, p, 0)
    ensures LooksThenTakes(g, t, p, [], 0, Fetched(g, p, 0))
  {
    FetchAlone(g, t, p, 0);
    EndsUndistracted(g, t, p, 0, Fetched(g, p, 0));
  }

  /** What a fetch of p leaves in the replacer, besides the list: counters and hand. */
  ghost predicate Told(r: SieveReplacer, g: Pool, p: PageId, ok: bool, m: nat, order: seq<nat>, was: seq<ListNode>, hand: nat)
    requires Shaped(g) && p in g.mapping
    reads r, r.list, r.list.nodes
  {
    var now := r.list.nodes[..];
    if g.mapping[p].Frame? then ok && OnlyCounter(was, now, g.mapping[p].id, 1) && r.pointer == hand
    else if g.free != [] then ok && OnlyCounter(was, now, g.free[0], 0) && r.pointer == hand
    else if ok then SieveTook(g, order, was, now, r.pointer, m) && OnlyCounter(now, now, m, 0)
    else SieveGaveUp(r, g, order, was, hand)
  }

  /**
    FetchPageSync by thread t alone, with the replacer's own choice of victim.  It fails only when
    the fetch could not have ended under any choice; otherwise the pool ends as `Fetched` says and
    the replacer lists what the pool lists.  A hit sets the frame's visited counter and nothing else;
    a frame that was loaded starts with counter 0, and one that was evicted for it was SIEVE's choice.
   */
  method FetchPageSync(g: Pool, t: nat, p: PageId, replacer: SieveReplacer) returns (ok: bool, ghost m: nat, ghost passed: seq<nat>)
    requires PoolInv(g) && InStep(replacer, g) && p in g.mapping && g.mapping[p] != Busy && g.latch == None
    modifies replacer`pointer, replacer.list`items, replacer.list.nodes
    ensures ok <==> CanFetch(g, p)
    ensures (forall i | 0 <= i < |passed| :: passed[i] < |g.ptes|) && |passed| <= 2 * |g.ptes|
    ensures ok ==> Ready(g, p, m) && InStep(replacer, Fetched(g, p, m)) && LooksThenTakes(g, t, p, passed, m, Fetched(g, p, m))
    ensures Told(replacer, g, p, ok, m, old(replacer.Order()), old(replacer.list.nodes[..]), old(replacer.pointer))
  {
    m, passed := 0, [];
    if g.mapping[p] == Empty && g.free == [] {
      ok, m, passed := FetchByVictim(g, t, p, replacer);
    } else {
      NoVictimNeeded(g, t, p);
      Touch(g, p, replacer);
      ok := true;
    }
  }

  /** What the replacer gets to know of a fetch that needs no victim. */
  method Touch(g: Pool, p: PageId, replacer: SieveReplacer)
    requires Ready(g, p, 0) && InStep(replacer, g)
    requires g.mapping[p] == Empty ==> g.free != [] && g.free[0] !in g.list
    modifies replacer.list`items, replacer.list.nodes
    ensures InStep(replacer, Fetched(g, p, 0))
    ensures Told(replacer, g, p, true, 0, [], old(replacer.list.nodes[..]), old(replacer.pointer))
  {
    ListAfter(g, p);
    if g.mapping[p].Frame? {
      replacer.Promote(g.mapping[p].id);
    } else {
      replacer.Insert(g.free[0]);
    }
  }

  lemma NoVictimNeeded(g: Pool, t: nat, p: PageId)
    requires PoolInv(g) && p in g.mapping && g.mapping[p] != Busy && g.latch == None
    requires g.mapping[p] == Empty ==> g.free != []
    ensures Ready(g, p, 0) && LooksThenTakes(g, t, p, [], 0, Fetched(g, p, 0)) && CanFetch(g, p)
    ensures g.mapping[p] == Empty ==> g.free[0] !in g.list
  {
    assert PageOk(g, p);
    if g.mapping[p] == Empty { FreeIsReady(g, p); }
    EndsWithoutVictim(g, t, p);
  }

  lemma FreeIsReady(g: Pool, p: PageId)
    requires PoolInv(g) && p in g.mapping && g.mapping[p] == Empty && g.latch == None && g.free != []
    ensures g.free[0] < |g.ptes| && g.free[0] !in g.list && Ready(g, p, 0)
  {
    assert g.free[0] in g.free && PlaceOk(g, g.free[0]);
  }

  lemma EndsUndistracted(g: Pool, t: nat, p: PageId, m: nat, r: Pool)
    requires Shaped(g) && Gets(g, t, PinFind(p), m, r, Idle)
    ensures LooksThenTakes(g, t, p, [], m, r)
  {
    var pick := Pick(NO_PAGE, m, false);
    var a: nat :| InSteps(g, t, PinFind(p), m, a, r, Idle);
    assert Always(pick, a) + LookAll(g, []) + Always(pick, 0) == Always(pick, a);
  }
}
