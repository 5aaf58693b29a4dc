/**
  The per-thread direct cache of pinned pages and the block handles that use it, on one thread:
  who owns which pin.  `pins` are the references this thread holds on each frame.
 */
module DirectCache {
  import opened PageFetch

  datatype Node = Node(pte: Option<nat>, count: nat)

  /** One page of a block: the frame and whether the cache owns its pin. */
  datatype Ref = Ref(frame: nat, mark: bool)

  const COUNT_LIMIT: nat := 0x1_0000

  ghost predicate SlotIs(hash: PageId -> nat, names: seq<PageId>, node: Node, live: multiset<Ref>, i: nat) {
    match node.pte
    case None => node.count == 0
    case Some(f) => f < |names| && hash(names[f]) == i && node.count == live[Ref(f, true)] % COUNT_LIMIT
  }

  ghost predicate Slotted(hash: PageId -> nat, names: seq<PageId>, cache: seq<Node>, f: nat)
    requires f < |names| && hash(names[f]) < |cache|
  {
    cache[hash(names[f])].pte == Some(f)
  }

  ghost predicate FrameIs(hash: PageId -> nat, names: seq<PageId>, cache: seq<Node>, pins: nat, live: multiset<Ref>,
                          loose: multiset<nat>, f: nat)
    requires f < |names| && hash(names[f]) < |cache|
  {
    && pins == (if Slotted(hash, names, cache, f) then 1 else 0) + live[Ref(f, false)] + loose[f]
    && (live[Ref(f, true)] > 0 ==> Slotted(hash, names, cache, f))
  }

  /** A slot counts only marked block pages of its own frame. */
  lemma SlotKeeps(hash: PageId -> nat, names: seq<PageId>, node: Node, live: multiset<Ref>, live': multiset<Ref>, i: nat, r: Ref)
    requires SlotIs(hash, names, node, live, i) && node.pte != Some(r.frame)
    requires live' == live + multiset{r} || live' == live - multiset{r}
    ensures SlotIs(hash, names, node, live', i)
  {
  }

  /** An empty slot takes loose frame f: the pin of f is the slot's now, and all other frames keep theirs. */
  lemma FillKeepsFrame(hash: PageId -> nat, names: seq<PageId>, cache: seq<Node>, pins: nat, live: multiset<Ref>,
                       loose: multiset<nat>, f: nat, g: nat)
    requires f < |names| && g < |names| && hash(names[f]) < |cache| && hash(names[g]) < |cache|
    requires cache[hash(names[f])].pte.None? && f in loose && FrameIs(hash, names, cache, pins, live, loose, g)
    ensures FrameIs(hash, names, cache[hash(names[f]) := Node(Some(f), 1)], pins, live + multiset{Ref(f, true)}, loose - multiset{f}, g)
  {
  }

  /** A marked block page of f goes: no frame's pins change. */
  lemma EraseKeepsFrame(hash: PageId -> nat, names: seq<PageId>, cache: seq<Node>, cache': seq<Node>, pins: nat,
                        live: multiset<Ref>, loose: multiset<nat>, f: nat, g: nat)
    requires g < |names| && hash(names[g]) < |cache| == |cache'|
    requires FrameIs(hash, names, cache, pins, live, loose, g) && cache'[hash(names[g])].pte == cache[hash(names[g])].pte
    ensures FrameIs(hash, names, cache', pins, live - multiset{Ref(f, true)}, loose, g)
  {
  }

  class DirectCache {
    const capacity: nat
    const hash: PageId -> nat
    var cache: seq<Node>
    var pins: seq<nat>
    var names: seq<PageId>
    /** All block pages there are, and the pins that a fetch has taken and not handed on yet. */
    ghost var live: multiset<Ref>
    ghost var loose: multiset<nat>

    ghost predicate Shape()
      reads this
    {
      && |cache| == capacity && |pins| == |names| && (forall p: PageId :: hash(p) < capacity)
      && (forall r | r in live :: r.frame < |pins|) && (forall f | f in loose :: f < |pins|)
    }

    ghost predicate InSlot(f: nat)
      requires Shape() && f < |pins|
      reads this
    {
      Slotted(hash, names, cache, f)
    }

    /** A filled slot is the one its page hashes to, and counts that page's marked block pages in 16 bits. */
    ghost predicate SlotOk(i: nat)
      requires Shape() && i < capacity
      reads this
    {
      SlotIs(hash, names, cache[i], live, i)
    }

    /** A frame's pins are the slot's, the unmarked block pages' and the loose ones. */
    ghost predicate FrameOk(f: nat)
      requires Shape() && f < |pins|
      reads this
    {
      FrameIs(hash, names, cache, pins[f], live, loose, f)
    }

    ghost predicate Valid()
      reads this
    {
      && Shape()
      && (forall i {:trigger SlotOk(i)} | 0 <= i < capacity :: SlotOk(i))
      && (forall f {:trigger FrameOk(f)} | 0 <= f < |pins| :: FrameOk(f))
    }

    constructor (capacity: nat, hash: PageId -> nat, names: seq<PageId>)
      requires forall p: PageId :: hash(p) < capacity
      ensures Valid() && live == multiset{} && loose == multiset{}
      ensures this.capacity == capacity && this.hash == hash && this.names == names
      ensures forall i | 0 <= i < capacity :: cache[i] == Node(None, 0)
      ensures |pins| == |names| && forall f | 0 <= f < |pins| :: pins[f] == 0
    {
      this.capacity, this.hash, this.names := capacity, hash, names;
      cache := seq(capacity, _ => Node(None, 0));
      pins := seq(|names|, _ => 0);
      live, loose := multiset{}, multiset{};
    }

    /** A hit: the page's frame, which the slot keeps pinned; the new block page is marked. */
    method Find(page: PageId) returns (r: Option<nat>)
      requires Valid()
      modifies this`cache, this`live
      ensures Valid()
      ensures (r.Some? <==> old(Hit(page))) && (r.None? ==> cache == old(cache))
      ensures r.Some? ==> r.value < |pins| && names[r.value] == page && pins[r.value] >= 1
      ensures live == if r.Some? then old(live) + multiset{Ref(r.value, true)} else old(live)
    {
      var index := hash(page);
      var node := cache[index];
      assert SlotOk(index);
      if node.pte.Some? && names[node.pte.value] == page {
        r := node.pte;
        assert FrameOk(r.value);
        cache := cache[index := node.(count := (node.count + 1) % COUNT_LIMIT)];
        live := live + multiset{Ref(r.value, true)};
        forall i | 0 <= i < capacity ensures SlotOk(i) { assert old(SlotOk(i)); }
        forall f | 0 <= f < |pins| ensures FrameOk(f) { assert old(FrameOk(f)); }
      } else {
        r := None;
      }
    }

    /** FetchPageSync: the pool gives a frame named by the page, with one more pin of this thread. */
    method Fetch(page: PageId, f: nat)
      requires Valid() && f < |pins| && (names[f] == page || pins[f] == 0)
      modifies this`pins, this`names, this`loose
      ensures Valid() && names == old(names)[f := page] && loose == old(loose) + multiset{f}
      ensures pins == old(pins)[f := old(pins)[f] + 1]
      ensures InSlot(f) ==> old(InSlot(f) && names[f] == page)
    {
      assert FrameOk(f) && SlotOk(hash(page));
      pins := pins[f := pins[f] + 1];
      names := names[f := page];
      loose := loose + multiset{f};
      forall i | 0 <= i < capacity ensures SlotOk(i) { assert old(SlotOk(i)); }
      forall g | 0 <= g < |pins| ensures FrameOk(g) { assert old(FrameOk(g)); }
    }
  
    /** The slot looks unused although marked block pages rely on it: their number is a multiple of 2^16. */
    ghost predicate Wrapped(i: nat)
      requires Shape() && i < capacity
      reads this
    {
      cache[i].pte.Some? && cache[i].count == 0 && live[Ref(cache[i].pte.value, true)] > 0
    }

    /**
      Offers a freshly fetched frame to its page's slot.  The slot takes it, with the pin, when it
      is empty or its count is 0; otherwise the new block page keeps the pin.  The accounts stay in
      order exactly when the slot's counter had not wrapped around to 0.
     */
    method Insert(page: PageId, f: nat) returns (mark: bool)
      requires Valid() && f in loose && names[f] == page && !InSlot(f)
      modifies this`cache, this`pins, this`live, this`loose
      ensures Shape() && (Valid() <==> !old(Wrapped(hash(page))))
      ensures loose == old(loose) - multiset{f}
      ensures live == old(live) + multiset{Ref(f, mark)}
      ensures mark <==> old(cache[hash(page)].pte.None? || cache[hash(page)].count == 0)
      ensures if mark then SlotTaken(old(cache), old(pins), hash(page), f) else cache == old(cache) && pins == old(pins)
    {
      var index := hash(page);
      var node := cache[index];
      assert SlotOk(index) && FrameOk(f);
      mark := node.pte.None? || node.count == 0;
      if mark {
        TakeSlot(index, page, f);
      } else {
        live := live + multiset{Ref(f, false)};
        loose := loose - multiset{f};
        forall i | 0 <= i < capacity ensures SlotOk(i) { assert old(SlotOk(i)); }
        forall g | 0 <= g < |pins| ensures FrameOk(g) { assert old(FrameOk(g)); }
      }
    }

    /** The slot has f, once, and has given back the pin of the frame it had before. */
    ghost predicate SlotTaken(cache0: seq<Node>, pins0: seq<nat>, index: nat, f: nat)
      reads this
    {
      && index < |cache0| && cache == cache0[index := Node(Some(f), 1)]
      && match cache0[index].pte {
           case None => pins == pins0
           case Some(g) => g < |pins0| && pins0[g] >= 1 && pins == pins0[g := pins0[g] - 1]
         }
    }

    /** Marked block pages of frame g whose slot has let go of its pin. */
    ghost predicate Lost(g: nat)
      reads this
    {
      Shape() && g < |pins| && live[Ref(g, true)] > 0 && !InSlot(g)
    }

    method TakeSlot(index: nat, page: PageId, f: nat)
      requires Valid() && f in loose && names[f] == page && !InSlot(f) && index == hash(page)
      requires cache[index].pte.None? || cache[index].count == 0
      modifies this`cache, this`pins, this`live, this`loose
      ensures Shape() && (Valid() <==> !old(Wrapped(index)))
      ensures loose == old(loose) - multiset{f} && live == old(live) + multiset{Ref(f, true)}
      ensures SlotTaken(old(cache), old(pins), index, f)
    {
      ghost var g := cache[index].pte;
      assert SlotOk(index) && FrameOk(f) && g != Some(f);
      if cache[index].pte.Some? {
        EmptySlot(index, cache[index].pte.value);
      }
      assert old(Wrapped(index)) ==> Lost(g.value);
      FillSlot(index, f);
      if old(Wrapped(index)) {
        assert Lost(g.value) && !FrameOk(g.value);
      }
    }

    method FillSlot(index: nat, f: nat)
      requires Shape() && index < capacity && f in loose && hash(names[f]) == index && cache[index] == Node(None, 0)
      requires live[Ref(f, true)] == 0
      modifies this`cache, this`live, this`loose
      ensures Shape() && (old(Valid()) ==> Valid())
      ensures loose == old(loose) - multiset{f} && live == old(live) + multiset{Ref(f, true)}
      ensures cache == old(cache)[index := Node(Some(f), 1)]
    {
      cache := cache[index := Node(Some(f), 1)];
      live := live + multiset{Ref(f, true)};
      loose := loose - multiset{f};
      if old(Valid()) {
        forall i | 0 <= i < capacity ensures SlotOk(i) {
          assert old(SlotOk(i));
          if i != index { SlotKeeps(hash, names, cache[i], old(live), live, i, Ref(f, true)); }
        }
        forall g | 0 <= g < |pins| ensures FrameOk(g) {
          assert old(FrameOk(g));
          FillKeepsFrame(hash, names, old(cache), pins[g], old(live), old(loose), f, g);
        }
      }
    }

    /** A marked block page goes; its slot still holds its frame. */
    method Erase(page: PageId, ghost f: nat)
      requires Valid() && live[Ref(f, true)] > 0 && names[f] == page
      modifies this`cache, this`live
      ensures Valid() && live == old(live) - multiset{Ref(f, true)}
    {
      assert Ref(f, true) in live;
      var index := hash(page);
      assert FrameOk(f) && SlotOk(index);
      if cache[index].pte.Some? {
        cache := cache[index := cache[index].(count := (cache[index].count + COUNT_LIMIT - 1) % COUNT_LIMIT)];
      }
      live := live - multiset{Ref(f, true)};
      forall i | 0 <= i < capacity ensures SlotOk(i) {
        assert old(SlotOk(i));
        if i != index { SlotKeeps(hash, names, cache[i], old(live), live, i, Ref(f, true)); }
      }
      forall g | 0 <= g < |pins| ensures FrameOk(g) {
        assert old(FrameOk(g));
        EraseKeepsFrame(hash, names, old(cache), cache, pins[g], old(live), loose, f, g);
      }
    }

    /** An unmarked block page goes and gives its pin back. */
    method DecRefCount(f: nat)
      requires Valid() && live[Ref(f, false)] > 0
      modifies this`pins, this`live
      ensures Valid() && live == old(live) - multiset{Ref(f, false)}
      ensures old(pins[f]) >= 1 && pins == old(pins)[f := old(pins[f]) - 1]
    {
      assert Ref(f, false) in live;
      assert FrameOk(f);
      pins := pins[f := pins[f] - 1];
      live := live - multiset{Ref(f, false)};
      forall i | 0 <= i < capacity ensures SlotOk(i) { assert old(SlotOk(i)); }
      forall g | 0 <= g < |pins| ensures FrameOk(g) { assert old(FrameOk(g)); }
    }

    /** Every block page's frame is pinned by this thread, so the pool does not reuse it. */
    lemma LivePagesArePinned(r: Ref)
      requires Valid() && r in live
      ensures r.frame < |pins| && pins[r.frame] >= 1
    {
      assert FrameOk(r.frame);
    }

    /** With fewer than 2^16 marked block pages of its frame, a slot's counter has not wrapped. */
    lemma NotWrapped(i: nat)
      requires Valid() && i < capacity && forall f | 0 <= f < |pins| :: live[Ref(f, true)] < COUNT_LIMIT
      ensures !Wrapped(i)
    {
      assert SlotOk(i);
    }

    ghost predicate Hit(page: PageId)
      requires Shape()
      reads this
    {
      exists f :: 0 <= f < |pins| && InSlot(f) && names[f] == page
    }

    /** No frame of a block page has got another name. */
    twostate predicate NamesKept()
      reads this
    {
      |names| == |old(names)| &&
      forall r | r in old(live) && r.frame < |names| :: names[r.frame] == old(names)[r.frame]
    }

    /**
      A miss: a frame is fetched for the page and offered to the cache.  It is the frame the page is
      in, or else one that nobody has pinned; false when there is neither.
      The accounts stay in order exactly when the page's own slot had not wrapped around.
     */
    method Load(page: PageId) returns (ok: bool, r: Ref)
      requires Valid() && loose == multiset{} && !Hit(page)
      modifies this
      ensures ok ==> Shape() && loose == multiset{} && live == old(live) + multiset{r} && NamesKept()
      ensures ok ==> r.frame < |names| && names[r.frame] == page
      ensures ok ==> (Valid() <==> !old(Wrapped(hash(page))))
      ensures (ok <==> !old(NoFrameFor(page))) && (!ok ==> Valid() && live == old(live) && NoFrameFor(page))
      ensures ok ==> r.frame < |old(names)| && names == old(names)[r.frame := page]
      ensures ok && (exists f :: 0 <= f < |old(names)| && old(names)[f] == page) ==> names == old(names)
    {
      if NoFrameFor(page) {
        return false, Ref(0, false);
      }
      var f := FrameFor(page);
      forall x | x in live ensures x.frame == f ==> names[f] == page {
        LivePagesArePinned(x);
      }
      Fetch(page, f);
      var mark := Insert(page, f);
      ok, r := true, Ref(f, mark);
    }

    /** The page is in no frame, and this thread has pinned them all. */
    predicate NoFrameFor(page: PageId)
      reads this
    {
      forall f | 0 <= f < |pins| && f < |names| :: names[f] != page && pins[f] != 0
    }

    /** The frame the pool gives for a page. */
    method FrameFor(page: PageId) returns (f: nat)
      requires Shape() && !NoFrameFor(page)
      ensures f < |pins| && (names[f] == page || pins[f] == 0)
      ensures (exists g :: 0 <= g < |names| && names[g] == page) ==> names[f] == page
    {
      if g: nat :| g < |names| && names[g] == page {
        f := g;
      } else {
        f :| f < |pins| && pins[f] == 0;
      }
    }

    /** One page of a block: from the cache, or else from the pool. */
    method Get(page: PageId) returns (ok: bool, r: Ref)
      requires Valid() && loose == multiset{}
      modifies this
      ensures ok ==> Shape() && loose == multiset{} && live == old(live) + multiset{r} && NamesKept()
      ensures ok ==> r.frame < |names| && names[r.frame] == page
      ensures ok ==> (Valid() <==> old(Hit(page)) || !old(Wrapped(hash(page))))
      ensures (ok <==> old(Hit(page)) || !old(NoFrameFor(page))) && (!ok ==> Valid() && live == old(live) && NoFrameFor(page))
    {
      var hit := Find(page);
      if hit.Some? {
        return true, Ref(hit.value, true);
      }
      ok, r := Load(page);
    }

    /** With no marked block page left, Clean empties every slot and gives back exactly the slots' pins. */
    method Clean()
      requires Valid() && forall r | r in live :: !r.mark
      modifies this`cache, this`pins
      ensures Valid() && forall i | 0 <= i < capacity :: cache[i] == Node(None, 0)
      ensures forall f | 0 <= f < |pins| :: pins[f] == live[Ref(f, false)] + loose[f]
    {
      for i := 0 to capacity
        invariant Valid() && forall j | 0 <= j < i :: cache[j] == Node(None, 0)
      {
        assert SlotOk(i);
        if cache[i].pte.Some? {
          assert cache[i].count == 0;
          EmptySlot(i, cache[i].pte.value);
        }
      }
      forall f | 0 <= f < |pins| ensures pins[f] == live[Ref(f, false)] + loose[f] {
        assert FrameOk(f);
      }
    }

    /** The slot gives up its frame and the frame's pin. */
    method EmptySlot(i: nat, f: nat)
      requires Valid() && i < capacity && cache[i].pte == Some(f) && f < |pins|
      modifies this`cache, this`pins
      ensures Shape() && cache == old(cache)[i := Node(None, 0)]
      ensures if live[Ref(f, true)] == 0 then Valid() else Lost(f)
      ensures old(pins[f]) >= 1 && pins == old(pins)[f := old(pins[f]) - 1]
    {
      assert SlotOk(i) && FrameOk(f);
      pins := pins[f := pins[f] - 1];
      cache := cache[i := Node(None, 0)];
      if live[Ref(f, true)] == 0 {
        forall j | 0 <= j < capacity ensures SlotOk(j) { assert old(SlotOk(j)); }
        forall g | 0 <= g < |pins| ensures FrameOk(g) { assert old(FrameOk(g)); }
      }
    }
  }

  /** A cache of one slot, which has frame 0 with page a and k block pages that rely on it. */
  ghost predicate Holding(c: DirectCache, a: PageId, b: PageId, k: nat)
    reads c
  {
    && c.Valid() && c.capacity == 1 && c.names == [a, b] && c.pins == [1, 0] && c.loose == multiset{}
    && c.cache == [Node(Some(0), k % COUNT_LIMIT)] && c.live[Ref(0, true)] == k
  }

  method NewSlot(a: PageId, b: PageId) returns (c: DirectCache)
    ensures fresh(c) && c.Valid() && c.capacity == 1 && c.names == [a, b] && c.pins == [0, 0]
    ensures c.cache == [Node(None, 0)] && c.live == multiset{} && c.loose == multiset{}
  {
    c := new DirectCache(1, _ => 0, [a, b]);
  }

  method HoldFirst(a: PageId, b: PageId) returns (c: DirectCache)
    requires a != b
    ensures fresh(c) && Holding(c, a, b, 1)
  {
    c := NewSlot(a, b);
    c.Fetch(a, 0);
    var mark := c.Insert(a, 0);
  }

  method HoldMore(c: DirectCache, a: PageId, b: PageId, k: nat)
    requires Holding(c, a, b, k) && a != b
    modifies c
    ensures Holding(c, a, b, k + 1)
  {
    assert c.SlotOk(0) && c.InSlot(0);
    var hit := c.Find(a);
    assert c.FrameOk(0) && c.SlotOk(0);
  }

  /** With 2^16 of them the counter is 0 again, and page b takes the slot. */
  method Overtake(c: DirectCache, a: PageId, b: PageId)
    requires Holding(c, a, b, COUNT_LIMIT) && a != b
    modifies c
    ensures c.Shape() && c.loose == multiset{} && !c.Valid()
    ensures c.names == [a, b] && c.pins == [0, 1] && c.live[Ref(0, true)] == COUNT_LIMIT
  {
    assert c.SlotOk(0);
    c.Fetch(b, 1);
    var mark := c.Insert(b, 1);
  }

  /**
    The counter can wrap around: page a is fetched once and found 65535 times, all by block pages
    that stay, and then page b is fetched for the same slot.  The slot gives up the pin all block
    pages of a rely on, and the pool may reuse their frame.
   */
  method WrapAround(a: PageId, b: PageId) returns (c: DirectCache)
    requires a != b
    ensures c.Shape() && c.loose == multiset{} && !c.Valid()
    ensures c.names == [a, b] && c.pins == [0, 1] && c.live[Ref(0, true)] == COUNT_LIMIT
  {
    c := HoldFirst(a, b);
    for k := 1 to COUNT_LIMIT
      invariant Holding(c, a, b, k) && fresh(c)
    {
      HoldMore(c, a, b, k);
    }
    Overtake(c, a, b);
  }

  /** Of the pages `all` those in `left` are still to be given back. */
  ghost predicate Remaining(before: multiset<Ref>, now: multiset<Ref>, all: multiset<Ref>, left: multiset<Ref>) {
    all <= before && left <= now && now == before - all + left
  }

  lemma OneLess(before: multiset<Ref>, now: multiset<Ref>, all: multiset<Ref>, left: multiset<Ref>, r: Ref)
    requires Remaining(before, now, all, left + multiset{r})
    ensures now[r] > 0 && Remaining(before, now - multiset{r}, all, left)
  {
  }

  lemma Shorter(s: seq<Ref>, k: nat)
    requires k < |s|
    ensures multiset(s[..k + 1]) == multiset(s[..k]) + multiset{s[k]}
  {
    assert s[..k + 1] == s[..k] + [s[k]];
  }

  /** A block handle: the pages it holds, as the arrays datas_, ptes_ and marks_ list them. */
  class BufferBlock {
    var size: nat
    var pageNum: nat
    var pages: seq<Ref>

    /** Filled in completely, or holding nothing. */
    ghost predicate Ok()
      reads this
    {
      if size == 0 then pageNum == 0 else pageNum == |pages|
    }

    ghost function Owned(): multiset<Ref>
      reads this
    {
      if size == 0 then multiset{} else multiset(pages)
    }

    constructor (size: nat, pageNum: nat)
      ensures this.size == size && this.pageNum == pageNum == |pages|
    {
      this.size, this.pageNum := size, pageNum;
      pages := seq(pageNum, _ => Ref(0, false));
    }

    /** A page goes to its place; the block is complete when every place has got its page. */
    method InsertPage(idx: nat, page: Ref)
      requires idx < pageNum == |pages|
      modifies this`pages
      ensures pages == old(pages)[idx := page]
    {
      pages := pages[idx := page];
    }

    /** `free`: every page is given back, to the cache if it is marked. */
    method Free(cache: DirectCache)
      requires cache.Valid() && Ok() && Owned() <= cache.live
      modifies this, cache`cache, cache`pins, cache`live
      ensures cache.Valid() && cache.live == old(cache.live) - old(Owned())
      ensures size == 0 && pageNum == 0
    {
      if size != 0 {
        ReleasePages(cache);
      }
      size := 0;
      pageNum := 0;
    }

    method ReleasePages(cache: DirectCache)
      requires cache.Valid() && pageNum == |pages| && multiset(pages) <= cache.live
      modifies this`pageNum, cache`cache, cache`pins, cache`live
      ensures cache.Valid() && cache.live == old(cache.live) - multiset(pages)
    {
      ghost var live := cache.live;
      assert pages[..pageNum] == pages;
      while pageNum != 0
        invariant cache.Valid() && pageNum <= |pages|
        invariant Remaining(live, cache.live, multiset(pages), multiset(pages[..pageNum]))
      {
        ReleaseLast(cache, live);
      }
    }

    method ReleaseLast(cache: DirectCache, ghost before: multiset<Ref>)
      requires cache.Valid() && 0 < pageNum <= |pages|
      requires Remaining(before, cache.live, multiset(pages), multiset(pages[..pageNum]))
      modifies this`pageNum, cache`cache, cache`pins, cache`live
      ensures cache.Valid() && pageNum == old(pageNum) - 1
      ensures Remaining(before, cache.live, multiset(pages), multiset(pages[..pageNum]))
    {
      pageNum := pageNum - 1;
      Shorter(pages, pageNum);
      OneLess(before, cache.live, multiset(pages), multiset(pages[..pageNum]), pages[pageNum]);
      GiveBack(pages[pageNum], cache);
    }

    static method GiveBack(page: Ref, cache: DirectCache)
      requires cache.Valid() && cache.live[page] > 0
      modifies cache`cache, cache`pins, cache`live
      ensures cache.Valid() && cache.live == old(cache.live) - multiset{page}
    {
      assert page in cache.live;
      if !page.mark {
        cache.DecRefCount(page.frame);
      } else {
        cache.Erase(cache.names[page.frame], page.frame);
      }
    }

    /** `Move`, which every copy and assignment is: the source loses its pages, also to itself. */
    static method Move(src: BufferBlock, dst: BufferBlock, cache: DirectCache)
      requires cache.Valid() && src.Ok() && dst.Ok()
      requires dst.Owned() + (if src == dst then multiset{} else src.Owned()) <= cache.live
      modifies src, dst, cache`cache, cache`pins, cache`live
      ensures cache.Valid() && src.Ok() && dst.Ok()
      ensures cache.live == old(cache.live) - old(dst.Owned())
      ensures src.Owned() == multiset{} && src.size == 0
      ensures src != dst ==> dst.Owned() == old(src.Owned())
      ensures src != dst ==> dst.size == old(src.size) && dst.pageNum == old(src.pageNum) && dst.pages == old(src.pages)
    {
      dst.Free(cache);
      dst.pages := src.pages;
      dst.pageNum := src.pageNum;
      dst.size := src.size;
      src.size := 0;
      src.pageNum := 0;
    }
  }

  ghost function Union(s: seq<multiset<Ref>>): multiset<Ref> {
    if s == [] then multiset{} else Union(s[..|s| - 1]) + s[|s| - 1]
  }

  lemma {:induction false} UnionUpdate(s: seq<multiset<Ref>>, i: nat, m: multiset<Ref>)
    requires i < |s|
    ensures s[i] <= Union(s) && Union(s[i := m]) == Union(s) - s[i] + m
  {
    var n := |s| - 1;
    if i < n {
      UnionUpdate(s[..n], i, m);
      assert s[i := m][..n] == s[..n][i := m];
    } else {
      assert s[i := m][..n] == s[..n];
    }
  }

  ghost function Assigned(s: seq<multiset<Ref>>, i: nat, j: nat): seq<multiset<Ref>>
    requires i < |s| && j < |s|
  {
    if i == j then s[i := multiset{}] else s[i := s[j]][j := multiset{}]
  }

  lemma AssignedElsewhere(s: seq<multiset<Ref>>, i: nat, j: nat)
    requires i < |s| && j < |s|
    ensures |Assigned(s, i, j)| == |s| && forall l | 0 <= l < |s| && l != i && l != j :: Assigned(s, i, j)[l] == s[l]
  {
  }

  lemma UnionMoved(s: seq<multiset<Ref>>, i: nat, j: nat)
    requires i < |s| && j < |s| && i != j
    ensures s[i] + s[j] <= Union(s)
  {
    UnionUpdate(s, i, multiset{});
    UnionUpdate(s[i := multiset{}], j, multiset{});
  }

  lemma UnionAssigned(s: seq<multiset<Ref>>, i: nat, j: nat)
    requires i < |s| && j < |s|
    ensures s[i] + (if i == j then multiset{} else s[j]) <= Union(s) && Union(Assigned(s, i, j)) == Union(s) - s[i]
  {
    if i == j {
      UnionUpdate(s, i, multiset{});
    } else {
      UnionMoved(s, i, j);
      UnionUpdate(s, i, s[j]);
      UnionUpdate(s[i := s[j]], j, multiset{});
    }
  }

  lemma UnionAppend(s: seq<multiset<Ref>>, m: multiset<Ref>)
    ensures Union(s + [m]) == Union(s) + m
  {
    assert (s + [m])[..|s|] == s;
  }

  /** A thread: its cache and all the handles it has. */
  class Thread {
    const cache: DirectCache
    var blocks: seq<BufferBlock>
    ghost var owned: seq<multiset<Ref>>

    ghost predicate BlockOk(i: nat)
      requires i < |blocks| == |owned|
      reads this, blocks
    {
      blocks[i].Ok() && blocks[i].Owned() == owned[i]
    }

    ghost predicate Valid()
      reads this, cache, blocks
    {
      && cache.Valid() && |owned| == |blocks|
      && (forall i, j | 0 <= i < j < |blocks| :: blocks[i] != blocks[j])
      && (forall i {:trigger BlockOk(i)} | 0 <= i < |blocks| :: BlockOk(i))
      && cache.live == Union(owned) && cache.loose == multiset{}
    }

    constructor (capacity: nat, hash: PageId -> nat, names: seq<PageId>)
      requires forall p: PageId :: hash(p) < capacity
      ensures Valid() && blocks == [] && fresh(cache) && cache.names == names
    {
      cache := new DirectCache(capacity, hash, names);
      blocks := [];
      owned := [];
    }

    /** Handle i now owns what `now` says, and the other handles what they did. */
    ghost predicate Changed(before: seq<multiset<Ref>>, i: nat, now: multiset<Ref>)
      reads this
    {
      i < |before| && owned == before[i := now]
    }

    /** A handle goes out of scope: its pages are given back and no others. */
    method Destroy(i: nat)
      requires Valid() && i < |blocks|
      modifies blocks[i], this`owned, cache`cache, cache`pins, cache`live
      ensures Valid() && Changed(old(owned), i, multiset{}) && blocks[i].size == 0
    {
      var b := blocks[i];
      assert BlockOk(i);
      UnionUpdate(owned, i, multiset{});
      b.Free(cache);
      owned := owned[i := multiset{}];
      forall l | 0 <= l < |blocks| ensures BlockOk(l) { assert old(BlockOk(l)); }
    }

    /** blocks[i] = blocks[j]: the target's pages are given back and it takes over the source's. */
    method Assign(i: nat, j: nat)
      requires Valid() && i < |blocks| && j < |blocks|
      modifies blocks[i], blocks[j], this`owned, cache`cache, cache`pins, cache`live
      ensures Valid() && owned == Assigned(old(owned), i, j) && blocks[j].size == 0
      ensures i != j ==> blocks[i].size == old(blocks[j].size) && blocks[i].pages == old(blocks[j].pages)
    {
      UnionAssigned(owned, i, j);
      AssignedElsewhere(owned, i, j);
      assert BlockOk(i) && BlockOk(j);
      MoveBlock(i, j);
      forall l | 0 <= l < |blocks| ensures BlockOk(l) {
        if l != i && l != j { assert old(BlockOk(l)); }
      }
    }

    method MoveBlock(i: nat, j: nat)
      requires cache.Valid() && i < |blocks| == |owned| && j < |blocks| && BlockOk(i) && BlockOk(j)
      requires i != j ==> blocks[i] != blocks[j]
      requires owned[i] + (if i == j then multiset{} else owned[j]) <= cache.live
      modifies blocks[i], blocks[j], this`owned, cache`cache, cache`pins, cache`live
      ensures cache.Valid() && cache.live == old(cache.live) - old(owned[i])
      ensures owned == Assigned(old(owned), i, j) && BlockOk(i) && BlockOk(j) && blocks[j].size == 0
      ensures i != j ==> blocks[i].size == old(blocks[j].size) && blocks[i].pages == old(blocks[j].pages)
    {
      BufferBlock.Move(blocks[j], blocks[i], cache);
      owned := Assigned(owned, i, j);
    }

    /** Block b has the pages asked for, each in a frame that carries its name. */
    ghost predicate Shows(b: BufferBlock, pages: seq<PageId>)
      reads this, cache, b
    {
      ShowsTo(b, pages, |pages|)
    }

    ghost predicate ShowsTo(b: BufferBlock, pages: seq<PageId>, n: nat)
      reads this, cache, b
    {
      && |b.pages| == |pages| && n <= |pages|
      && forall k | 0 <= k < n :: b.pages[k].frame < |cache.names| && cache.names[b.pages[k].frame] == pages[k]
    }

    /** No frame's marked block pages reach 2^16 before the n pages still to come are in. */
    ghost predicate Countable(n: nat)
      reads this, cache
    {
      forall f | 0 <= f < |cache.pins| :: cache.live[Ref(f, true)] + n <= COUNT_LIMIT
    }

    /**
      GetBlockWithDirectCacheSync: each page is looked up in the cache, and fetched and offered to
      the cache if it is not there.  The result is false where the code would wait for a frame.
     */
    method GetBlock(size: nat, pages: seq<PageId>) returns (ok: bool)
      requires Valid() && size > 0 && Countable(|pages|)
      modifies this`blocks, this`owned, cache
      ensures ok ==> Valid() && |blocks| == |old(blocks)| + 1 && blocks[..|old(blocks)|] == old(blocks)
      ensures ok ==> fresh(blocks[|old(blocks)|]) && owned[..|old(owned)|] == old(owned)
      ensures ok ==> Shows(blocks[|old(blocks)|], pages) && blocks[|old(blocks)|].size == size
      ensures !ok ==> exists k :: 0 <= k < |pages| && cache.NoFrameFor(pages[k])
    {
      var b;
      ok, b := FillBlock(size, pages);
      if ok {
        UnionAppend(owned, multiset(b.pages));
        blocks := blocks + [b];
        owned := owned + [multiset(b.pages)];
        forall l | 0 <= l < |blocks| ensures BlockOk(l) { assert l == |old(blocks)| || old(BlockOk(l)); }
      }
    }

    method FillBlock(size: nat, pages: seq<PageId>) returns (ok: bool, b: BufferBlock)
      requires cache.Valid() && cache.loose == multiset{} && size > 0 && Countable(|pages|)
      modifies cache
      ensures fresh(b)
      ensures ok ==> cache.Valid() && cache.loose == multiset{} && b.Ok() && b.size == size
      ensures ok ==> Shows(b, pages) && cache.live == old(cache.live) + multiset(b.pages)
      ensures !ok ==> exists k :: 0 <= k < |pages| && cache.NoFrameFor(pages[k])
    {
      b := new BufferBlock(size, |pages|);
      ok := AddPages(b, pages);
    }

    method AddPages(b: BufferBlock, pages: seq<PageId>) returns (ok: bool)
      requires b.pageNum == |pages| && Filling(b, pages, 0)
      modifies b`pages, cache
      ensures ok ==> Filling(b, pages, |pages|) && cache.live == old(cache.live) + multiset(b.pages)
      ensures !ok ==> exists k :: 0 <= k < |pages| && cache.NoFrameFor(pages[k])
    {
      for k := 0 to |pages|
        invariant Filling(b, pages, k) && b.pageNum == |pages|
        invariant cache.live == old(cache.live) + multiset(b.pages[..k])
      {
        ok := AddPage(b, pages, k, old(cache.live));
        if !ok {
          return;
        }
      }
      assert b.pages[..|pages|] == b.pages;
      ok := true;
    }

    ghost predicate Filling(b: BufferBlock, pages: seq<PageId>, k: nat)
      reads this, cache, b
    {
      && cache.Valid() && cache.loose == multiset{} && ShowsTo(b, pages, k)
      && (forall j | 0 <= j < k :: b.pages[j] in cache.live) && Countable(|pages| - k)
    }

    method AddPage(b: BufferBlock, pages: seq<PageId>, k: nat, ghost before: multiset<Ref>) returns (ok: bool)
      requires k < |pages| == b.pageNum && Filling(b, pages, k) && cache.live == before + multiset(b.pages[..k])
      modifies b`pages, cache
      ensures ok ==> Filling(b, pages, k + 1)
      ensures ok ==> cache.live == before + multiset(b.pages[..k + 1])
      ensures !ok ==> cache.NoFrameFor(pages[k])
    {
      cache.NotWrapped(cache.hash(pages[k]));
      var page;
      ok, page := cache.Get(pages[k]);
      if ok {
        ghost var first := b.pages[..k];
        b.InsertPage(k, page);
        assert b.pages[..k] == first;
        Shorter(b.pages, k);
      }
    }

    /** A thread that has dropped all its handles leaves no pin behind when its cache is cleaned. */
    method Finish()
      requires Valid() && forall i | 0 <= i < |owned| :: owned[i] == multiset{}
      modifies cache`cache, cache`pins
      ensures Valid() && forall f | 0 <= f < |cache.pins| :: cache.pins[f] == 0
    {
      UnionOfNothing(owned);
      assert cache.live == multiset{};
      cache.Clean();
      assert cache.live == Union(owned);
    }
  }

  lemma {:induction false} UnionOfNothing(s: seq<multiset<Ref>>)
    requires forall i | 0 <= i < |s| :: s[i] == multiset{}
    ensures Union(s) == multiset{}
  {
    if s != [] { UnionOfNothing(s[..|s| - 1]); }
  }
}
