/** What any events do to pins that are there, to the pins that come, and to the dirty bits of pinned frames. */
module PageFetchPins {
  import opened PageFetch
  import opened PageFetchInv
  import opened PageFetchThreads
  import opened PageFetchSafety
  import opened PageFetchProgress

  /** The event writes to a page of file fd. */
  predicate WritesFile(s: State, e: Event, fd: nat) {
    e.Write? && e.k in s.pool.pins && s.pool.pins[e.k].page.fd == fd
  }

  /** None of the events does. */
  predicate Spares(s: State, events: seq<Event>, fd: nat)
    requires Shaped(s.pool)
    decreases |events|
  {
    events == [] || (!WritesFile(s, events[0], fd) && Spares(Apply(s, events[0]), events[1..], fd))
  }

  /** A thread's operation grants at most one pin, under the next number and not written through. */
  predicate Grants(g: Pool, r: Pool) {
    || (r.pins == g.pins && r.nextPin == g.nextPin)
    || (g.nextPin in r.pins && r.pins == g.pins[g.nextPin := r.pins[g.nextPin]] && !r.pins[g.nextPin].wrote && r.nextPin == g.nextPin + 1)
  }

  lemma ScanGrants(g: Pool, t: nat, p: PageId, at: Scan, pick: Pick)
    requires Shaped(g) && ScanInRange(g, at)
    ensures Grants(g, VictimStep(g, t, p, at, pick).0)
  {
  }

  lemma CarryGrants(g: Pool, t: nat, p: PageId, m: nat, at: Stage)
    requires Shaped(g) && InRange(g, Carry(p, m, at))
    ensures Grants(g, CarryStep(g, t, p, m, at).0)
  {
  }

  lemma CountGrants(g: Pool, t: nat, pc: Pc, pick: Pick)
    requires Shaped(g) && (pc.PinAdd? || pc.PinUndo? || pc.LockPte? || pc.UnlockPte?)
    ensures Grants(g, Step(g, t, pc, pick).0)
  {
  }

  lemma StepGrants(g: Pool, t: nat, pc: Pc, pick: Pick)
    requires Shaped(g)
    ensures Grants(g, Step(g, t, pc, pick).0)
  {
    if InRange(g, pc) {
      if pc.Victim? { ScanGrants(g, t, pc.p, pc.scan, pick); }
      else if pc.Carry? { CarryGrants(g, t, pc.p, pc.m, pc.todo); }
      else if pc.PinAdd? || pc.PinUndo? || pc.LockPte? || pc.UnlockPte? { CountGrants(g, t, pc, pick); }
    }
  }

  /**
    Pins are granted under new numbers and not yet written through; an old pin may go, and stays on
    its frame and page while it is there.  Pins on pages of file fd are not written through.
   */
  ghost predicate PinsCome(g: Pool, r: Pool, fd: nat) {
    && g.nextPin <= r.nextPin
    && (forall k | k in r.pins && k < g.nextPin ::
          && k in g.pins && r.pins[k].frame == g.pins[k].frame && r.pins[k].page == g.pins[k].page
          && (r.pins[k].page.fd == fd && r.pins[k].wrote ==> g.pins[k].wrote))
    && (forall k | k in r.pins && g.nextPin <= k :: k < r.nextPin && (r.pins[k].page.fd == fd ==> !r.pins[k].wrote))
  }

  /** A dirty frame stays dirty as long as a pin on it lives. */
  ghost predicate DirtyStays(g: Pool, r: Pool) {
    |r.ptes| == |g.ptes| && forall k | k in g.pins && k in r.pins && g.pins[k].frame < |g.ptes| ::
      g.ptes[g.pins[k].frame].dirty ==> r.ptes[g.pins[k].frame].dirty
  }

  lemma PinsComeTrans(g: Pool, h: Pool, r: Pool, fd: nat)
    requires PinsCome(g, h, fd) && PinsCome(h, r, fd)
    ensures PinsCome(g, r, fd)
  {
  }

  /** A pin that was written through and is gone is no exception. */
  lemma WroteAndGone(g: Pool, h: Pool, r: Pool, k: nat, fd: nat)
    requires k in g.pins && h.pins == g.pins[k := g.pins[k].(wrote := true)] && h.nextPin == g.nextPin
    requires PinsCome(h, r, fd) && k !in r.pins
    ensures PinsCome(g, r, fd)
  {
  }

  lemma PinsComeOnce(s: State, e: Event, fd: nat)
    requires StateInv(s) && !WritesFile(s, e, fd)
    ensures PinsCome(s.pool, Apply(s, e).pool, fd)
  {
    forall k | k in s.pool.pins ensures k < s.pool.nextPin { assert PinOk(s.pool, k); }
    if e.Run? && e.t < |s.threads| { StepGrants(s.pool, e.t, s.threads[e.t], e.pick); }
  }

  /** Only the PTE of a blank frame is overwritten. */
  predicate DirtyKept(g: Pool, r: Pool)
    requires Shaped(g)
  {
    |r.ptes| == |g.ptes| && forall m | 0 <= m < |g.ptes| :: g.ptes[m].dirty && !g.place[m].Blank? ==> r.ptes[m].dirty
  }

  lemma ScanKeepsDirty(g: Pool, t: nat, p: PageId, at: Scan, pick: Pick)
    requires Shaped(g) && ScanInRange(g, at)
    ensures DirtyKept(g, VictimStep(g, t, p, at, pick).0)
  {
  }

  lemma CarryKeepsDirty(g: Pool, t: nat, p: PageId, m: nat, at: Stage)
    requires Shaped(g) && InRange(g, Carry(p, m, at)) && AtStage(g, t, p, m, at)
    ensures DirtyKept(g, CarryStep(g, t, p, m, at).0)
  {
  }

  lemma CountKeepsDirty(g: Pool, t: nat, pc: Pc, pick: Pick)
    requires Shaped(g) && (pc.PinAdd? || pc.PinUndo? || pc.LockPte? || pc.UnlockPte?)
    ensures DirtyKept(g, Step(g, t, pc, pick).0)
  {
  }

  lemma StepKeepsDirty(g: Pool, t: nat, pc: Pc, pick: Pick)
    requires Shaped(g) && ThreadInv(g, t, pc)
    ensures DirtyKept(g, Step(g, t, pc, pick).0)
  {
    if InRange(g, pc) {
      if pc.Victim? { ScanKeepsDirty(g, t, pc.p, pc.scan, pick); }
      else if pc.Carry? { CarryKeepsDirty(g, t, pc.p, pc.m, pc.todo); }
      else if pc.PinAdd? || pc.PinUndo? || pc.LockPte? || pc.UnlockPte? { CountKeepsDirty(g, t, pc, pick); }
    }
  }

  lemma DirtyStaysOnce(s: State, e: Event)
    requires StateInv(s)
    ensures DirtyStays(s.pool, Apply(s, e).pool)
  {
    forall k | k in s.pool.pins ensures s.pool.pins[k].frame < |s.pool.place| && !s.pool.place[s.pool.pins[k].frame].Blank? { assert PinOk(s.pool, k); }
    if e.Run? && e.t < |s.threads| {
      assert ThreadInv(s.pool, e.t, s.threads[e.t]);
      StepKeepsDirty(s.pool, e.t, s.threads[e.t], e.pick);
    }
  }

  lemma {:induction false} PinsComeAndGo(s: State, events: seq<Event>, fd: nat)
    requires StateInv(s) && Spares(s, events, fd)
    ensures StateInv(After(s, events)) && PinsCome(s.pool, After(s, events).pool, fd) && DirtyStays(s.pool, After(s, events).pool)
    decreases |events|
  {
    forall k | k in s.pool.pins ensures k < s.pool.nextPin { assert PinOk(s.pool, k); }
    if events != [] {
      var r := Apply(s, events[0]);
      ApplyKeeps(s, events[0]);
      PinsComeOnce(s, events[0], fd);
      DirtyStaysOnce(s, events[0]);
      PinsComeAndGo(r, events[1..], fd);
    }
  }

  lemma SurvivesOnce(s: State, e: Event, k: nat)
    requires StateInv(s) && k in s.pool.pins && e != Release(k)
    ensures k in Apply(s, e).pool.pins
  {
    assert PinOk(s.pool, k);
    if e.Run? && e.t < |s.threads| { StepGrants(s.pool, e.t, s.threads[e.t], e.pick); }
  }

  /** A pin lives until it is released. */
  lemma {:induction false} Survives(s: State, events: seq<Event>, k: nat)
    requires StateInv(s) && k in s.pool.pins && Release(k) !in events
    ensures k in After(s, events).pool.pins
    decreases |events|
  {
    if events != [] {
      SurvivesOnce(s, events[0], k);
      ApplyKeeps(s, events[0]);
      Survives(Apply(s, events[0]), events[1..], k);
    }
  }
}
