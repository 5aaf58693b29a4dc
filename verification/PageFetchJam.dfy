/**
  The exact condition for deadlock freedom: with fewer frames than threads and than pages, the
  threads can take all frames into their hands while one of them, in Victim with the replacer's
  latch, has nothing to choose from.
 */
module PageFetchJam {
  import opened Collections
  import opened PageFetch
  import opened PageFetchInv
  import opened PageFetchSafety
  import opened PageFetchProgress

  /** Thread t looks for a victim in an empty list, and with its latch keeps the others from listing one. */
  predicate Jammed(s: State, t: nat) {
    && t < |s.threads| && s.threads[t].Victim? && (s.threads[t].scan.Next? || s.threads[t].scan.GaveUp?)
    && s.pool.list == [] && s.pool.latch == Some(t)
  }

  lemma ScanLeavesEmpty(g: Pool, t: nat, p: PageId, at: Scan, pick: Pick)
    requires Shaped(g) && g.list == [] && ScanInRange(g, at)
    ensures VictimStep(g, t, p, at, pick).0.list == []
  {
  }

  lemma ListStaysEmpty(g: Pool, t: nat, pc: Pc, pick: Pick)
    requires Shaped(g) && g.list == [] && g.latch != None
    ensures Step(g, t, pc, pick).0.list == []
  {
    if InRange(g, pc) && pc.Victim? { ScanLeavesEmpty(g, t, pc.p, pc.scan, pick); }
  }

  lemma JammedKeeps(s: State, t: nat, e: Event)
    requires StateInv(s) && Jammed(s, t)
    ensures Jammed(Apply(s, e), t)
  {
    if e.Run? && e.t < |s.threads| {
      ListStaysEmpty(s.pool, e.t, s.threads[e.t], e.pick);
      if e.t != t {
        RunLeaves(s, e);
        assert LeavesThread(s.pool, Apply(s, e).pool, t);
      }
    }
  }

  /** There is no way out. */
  lemma {:induction false} JammedForEver(s: State, t: nat, events: seq<Event>)
    requires StateInv(s) && Jammed(s, t)
    ensures Jammed(After(s, events), t) && !Quiet(After(s, events))
    decreases |events|
  {
    if events != [] {
      ApplyKeeps(s, events[0]);
      JammedKeeps(s, t, events[0]);
      JammedForEver(Apply(s, events[0]), t, events[1..]);
    }
  }

  // ---- The way in ----

  /** Threads below k each have a frame in hand; the other frames, threads and pages are untouched. */
  ghost predicate Filling(s: State, pages: seq<PageId>, k: nat) {
    && Shaped(s.pool) && k <= |s.threads| && s.pool.list == [] && s.pool.latch == None
    && k + |s.pool.free| == |s.pool.ptes| && (forall i | 0 <= i < |s.pool.free| :: s.pool.free[i] < |s.pool.ptes|)
    && (forall t | 0 <= t < k :: s.threads[t].Carry?) && (forall t | k <= t < |s.threads| :: s.threads[t] == Idle)
    && (forall i | k <= i < |pages| :: pages[i] in s.pool.mapping && s.pool.mapping[pages[i]] == Empty)
  }

  lemma OneMore(s: State, events: seq<Event>, e: Event)
    requires Shaped(s.pool)
    ensures After(s, events + [e]) == Apply(After(s, events), e)
  {
    AfterThen(s, events, [e]);
    assert [e][1..] == [];
  }

  /** An idle thread fetches p and locks its mapping. */
  lemma Enter(s: State, t: nat, p: PageId) returns (more: seq<Event>)
    requires Shaped(s.pool) && t < |s.threads| && s.threads[t] == Idle && p in s.pool.mapping && s.pool.mapping[p] == Empty
    ensures After(s, more) == State(s.threads[t := Init(p)], TakeMapping(s.pool, p, Lock(t, Absent)))
  {
    var e := Run(t, Pick(p, 0, false));
    var s1 := s.(threads := s.threads[t := PinFind(p)]);
    var s2 := s.(threads := s.threads[t := Begin(p)]);
    var s3 := State(s.threads[t := Init(p)], TakeMapping(s.pool, p, Lock(t, Absent)));
    assert s1.threads[t := Begin(p)] == s2.threads && s2.threads[t := Init(p)] == s3.threads;
    assert Apply(s, e) == s1 && Apply(s1, e) == s2 && Apply(s2, e) == s3;
    OneMore(s, [], e);
    OneMore(s, [] + [e], e);
    OneMore(s, [] + [e] + [e], e);
    more := [] + [e] + [e] + [e];
  }

  lemma TakeFree(s: State, t: nat, p: PageId)
    requires Shaped(s.pool) && t < |s.threads| && s.threads[t] == Init(p) && p in s.pool.mapping
    requires s.pool.free != [] && s.pool.free[0] < |s.pool.ptes|
    ensures var m := s.pool.free[0];
            Apply(s, Run(t, Pick(p, 0, false)))
            == State(s.threads[t := Carry(p, m, Load)], s.pool.(free := s.pool.free[1..], place := s.pool.place[m := Blank(t)]))
  {
  }

  lemma FillOne(s: State, pages: seq<PageId>, k: nat) returns (more: seq<Event>)
    requires Filling(s, pages, k) && k < |s.threads| && k < |pages| && s.pool.free != []
    requires forall i, j | 0 <= i < j < |pages| :: pages[i] != pages[j]
    ensures Filling(After(s, more), pages, k + 1)
    ensures var r := After(s, more); |r.threads| == |s.threads| && |r.pool.ptes| == |s.pool.ptes|
  {
    more := Enter(s, k, pages[k]);
    var e := Run(k, Pick(pages[k], 0, false));
    OneMore(s, more, e);
    TakeFree(After(s, more), k, pages[k]);
    more := more + [e];
  }

  /** The events by which k threads take a frame each. */
  lemma {:induction false} Fill(s: State, pages: seq<PageId>, k: nat) returns (events: seq<Event>)
    requires Initial(s) && k <= |s.threads| && k <= |s.pool.ptes| && |pages| > |s.pool.ptes|
    requires (forall i | 0 <= i < |pages| :: pages[i] in s.pool.mapping) && forall i, j | 0 <= i < j < |pages| :: pages[i] != pages[j]
    ensures Filling(After(s, events), pages, k)
    ensures var r := After(s, events); |r.threads| == |s.threads| && |r.pool.ptes| == |s.pool.ptes|
  {
    events := [];
    if k > 0 {
      events := Fill(s, pages, k - 1);
      var more := FillOne(After(s, events), pages, k - 1);
      AfterThen(s, events, more);
      events := events + more;
    }
  }

  lemma SearchNothing(s: State, t: nat, p: PageId)
    requires Shaped(s.pool) && t < |s.threads| && s.threads[t] == Init(p) && p in s.pool.mapping && s.pool.free == [] && s.pool.latch == None
    ensures var e := Run(t, Pick(p, 0, false));
            Apply(Apply(s, e), e) == State(s.threads[t := Victim(p, Next)], s.pool.(latch := Some(t)))
  {
    var e := Run(t, Pick(p, 0, false));
    assert Apply(s, e) == s.(threads := s.threads[t := VicEnter(p)]);
    assert s.threads[t := VicEnter(p)][t := Victim(p, Next)] == s.threads[t := Victim(p, Next)];
  }

  /** And one more thread finds nothing left. */
  lemma JamOne(s: State, pages: seq<PageId>, k: nat) returns (more: seq<Event>)
    requires Filling(s, pages, k) && k < |s.threads| && k < |pages| && s.pool.free == []
    ensures Jammed(After(s, more), k) && NobodyGaveUp(After(s, more))
  {
    var p := pages[k];
    more := Enter(s, k, p);
    var e := Run(k, Pick(p, 0, false));
    OneMore(s, more, e);
    OneMore(s, more + [e], e);
    SearchNothing(After(s, more), k, p);
    more := more + [e] + [e];
  }

  lemma {:induction false} AfterKeeps(s: State, events: seq<Event>)
    requires StateInv(s) && FreeGone(s)
    ensures var r := After(s, events);
            StateInv(r) && FreeGone(r) && (EnoughFrames(s) ==> EnoughFrames(r))
    decreases |events|
  {
    if events != [] {
      ApplyKeeps(s, events[0]);
      FreeGoneKeeps(s, events[0]);
      SizesKeep(s, events[0]);
      AfterKeeps(Apply(s, events[0]), events[1..]);
    }
  }

  /** Whatever happens, as long as nobody gives up, the pool can still come to rest. */
  ghost predicate NeverJams(s: State)
    requires Shaped(s.pool)
  {
    forall events :: NobodyGaveUp(After(s, events)) ==> CanRest(After(s, events))
  }

  /**
    Deadlock freedom, exactly: from every state a run can reach in which no Victim has given up, all
    fetches can still end and all pins be released, if and only if the pool has as many frames as
    there are threads or as there are pages.
   */
  lemma NeverJamsIffEnough(s: State)
    requires Initial(s)
    ensures NeverJams(s) <==> EnoughFrames(s)
  {
    InitialInv(s);
    if EnoughFrames(s) {
      forall events | NobodyGaveUp(After(s, events)) ensures CanRest(After(s, events)) {
        AfterKeeps(s, events);
        var more := ComesToRest(After(s, events));
      }
    } else {
      var n := |s.pool.ptes|;
      assert |s.pool.mapping.Keys| == |s.pool.mapping|;
      var pages := Enumerate(s.pool.mapping.Keys, n + 1);
      var events := Fill(s, pages, n);
      var more := JamOne(After(s, events), pages, n);
      AfterThen(s, events, more);
      AfterKeeps(s, events + more);
      forall rest ensures !Quiet(After(After(s, events + more), rest)) {
        JammedForEver(After(s, events + more), n, rest);
      }
    }
  }
}
