/**
  The 64-bit word behind a page-table entry.  Pin and unpin add and subtract 1 on the whole word,
  and the dirty bit is set and cleared by masks; these are updates of single fields as long as the
  reference count does not carry into the file handle next to it.
 */
module PackedPte {
  import opened PageFetch
  import opened PageFetchInv
  import opened PageFetchSafety

  const REF := 0x1_0000           // ref_count : 16
  const FD := 0x2000              // fd_cur : 13
  const WORD := 0x1_0000_0000_0000_0000

  datatype Fields = Fields(refCount: nat, fd: nat, initialized: bool, dirty: bool, busy: bool, fpage: nat)

  predicate Fits(f: Fields) {
    f.refCount < REF && f.fd < FD && f.fpage < 0x1_0000_0000
  }

  function Bit(b: bool): nat {
    if b then 1 else 0
  }

  /** The bit-field layout, lowest bits first. */
  function Pack(f: Fields): nat {
    f.refCount + f.fd * 0x1_0000 + Bit(f.initialized) * 0x2000_0000 + Bit(f.dirty) * 0x4000_0000 + Bit(f.busy) * 0x8000_0000
    + f.fpage * 0x1_0000_0000
  }

  function Unpack(w: nat): Fields {
    Fields(w % 0x1_0000, w / 0x1_0000 % 0x2000, w / 0x2000_0000 % 2 == 1, w / 0x4000_0000 % 2 == 1, w / 0x8000_0000 % 2 == 1,
           w / 0x1_0000_0000)
  }

  function FetchAdd(w: nat): nat {
    (w + 1) % WORD
  }

  function FetchSub(w: nat): nat {
    (w - 1) % WORD
  }

  /** fetch_or(1 << 30) */
  function SetBit30(w: nat): nat {
    if w / 0x4000_0000 % 2 == 1 then w else w + 0x4000_0000
  }

  /** fetch_and(~(1 << 30)) */
  function ClearBit30(w: nat): nat {
    if w / 0x4000_0000 % 2 == 1 then w - 0x4000_0000 else w
  }

  lemma Split(q: nat, r: nat, d: nat)
    requires r < d
    ensures (r + q * d) / d == q && (r + q * d) % d == r
  {
    var a: int, z: int := (r + q * d) / d, (r + q * d) % d;
    assert (a - q) * d == r - z;
    assert a - q >= 1 ==> (a - q) * d >= d;
    assert q - a >= 1 ==> (q - a) * d >= d;
  }

  /** Packing is a bijection between field tuples that fit and 64-bit words. */
  lemma UnpackPack(f: Fields)
    requires Fits(f)
    ensures Pack(f) < WORD && Unpack(Pack(f)) == f
  {
    var i, d, b := Bit(f.initialized), Bit(f.dirty), Bit(f.busy);
    var w31 := b + f.fpage * 2;
    var w30 := d + w31 * 2;
    var w29 := i + w30 * 2;
    var w16 := f.fd + w29 * 0x2000;
    var lo29 := f.refCount + f.fd * 0x1_0000;
    var lo30 := lo29 + i * 0x2000_0000;
    var lo31 := lo30 + d * 0x4000_0000;
    assert Pack(f) == f.refCount + w16 * 0x1_0000 == lo29 + w29 * 0x2000_0000 == lo30 + w30 * 0x4000_0000
                   == lo31 + w31 * 0x8000_0000 == lo31 + b * 0x8000_0000 + f.fpage * 0x1_0000_0000;
    Split(w16, f.refCount, 0x1_0000);
    Split(w29, f.fd, 0x2000);
    Split(w29, lo29, 0x2000_0000);
    Split(w30, i, 2);
    Split(w30, lo30, 0x4000_0000);
    Split(w31, d, 2);
    Split(w31, lo31, 0x8000_0000);
    Split(f.fpage, b, 2);
    Split(f.fpage, lo31 + b * 0x8000_0000, 0x1_0000_0000);
  }

  lemma PackUnpack(w: nat)
    requires w < WORD
    ensures Fits(Unpack(w)) && Pack(Unpack(w)) == w
  {
    var w16 := w / 0x1_0000;
    var w29 := w16 / 0x2000;
    var w30 := w29 / 2;
    var w31 := w30 / 2;
    assert w == Unpack(w).refCount + w16 * 0x1_0000 && w16 == w16 % 0x2000 + w29 * 0x2000;
    assert w29 == w29 % 2 + w30 * 2 && w30 == w30 % 2 + w31 * 2 && w31 == w31 % 2 + (w31 / 2) * 2;
    var f := Fields(w % 0x1_0000, w16 % 0x2000, w29 % 2 == 1, w30 % 2 == 1, w31 % 2 == 1, w31 / 2);
    assert Pack(f) == w && Fits(f);
    UnpackPack(f);
  }

  /** Adding 1 to the word adds 1 to the count and touches nothing else, exactly below the carry. */
  lemma FetchAddIsIncrement(f: Fields)
    requires Fits(f)
    ensures Unpack(FetchAdd(Pack(f))) == f.(refCount := f.refCount + 1) <==> f.refCount + 1 < REF
  {
    if f.refCount + 1 < REF {
      AddBelowCarry(f);
    } else {
      CountBelowCarry(FetchAdd(Pack(f)));
    }
  }

  lemma AddBelowCarry(f: Fields)
    requires Fits(f) && f.refCount + 1 < REF
    ensures Unpack(FetchAdd(Pack(f))) == f.(refCount := f.refCount + 1)
  {
    var f1 := f.(refCount := f.refCount + 1);
    UnpackPack(f1);
    PackNext(f);
    NoCarry(Pack(f));
  }

  lemma PackNext(f: Fields)
    requires Fits(f) && f.refCount + 1 < REF
    ensures Pack(f.(refCount := f.refCount + 1)) == Pack(f) + 1
  {
  }

  lemma NoCarry(w: nat)
    requires w + 1 < WORD
    ensures FetchAdd(w) == w + 1
  {
  }

  lemma CountBelowCarry(w: nat)
    ensures Unpack(w).refCount < REF
  {
  }

  /** Subtracting 1 from the word takes 1 off the count and touches nothing else, exactly above 0. */
  lemma FetchSubIsDecrement(f: Fields)
    requires Fits(f)
    ensures f.refCount > 0 ==> Unpack(FetchSub(Pack(f))) == f.(refCount := f.refCount - 1)
    ensures f.refCount == 0 ==> Unpack(FetchSub(Pack(f))).refCount == REF - 1
  {
    if f.refCount > 0 {
      var f1 := f.(refCount := f.refCount - 1);
      UnpackPack(f1);
      OneLess(f);
    } else {
      UnpackPack(f);
      BorrowAtZero(Pack(f));
    }
  }

  lemma OneLess(f: Fields)
    requires Fits(f) && f.refCount > 0
    ensures FetchSub(Pack(f)) == Pack(f.(refCount := f.refCount - 1))
  {
    UnpackPack(f);
    assert Pack(f) == Pack(f.(refCount := f.refCount - 1)) + 1;
    SubMod(Pack(f));
  }

  lemma SubMod(w: nat)
    requires 1 <= w < WORD
    ensures FetchSub(w) == w - 1
  {
  }

  lemma BorrowAtZero(w: nat)
    requires w < WORD && w % REF == 0
    ensures FetchSub(w) % REF == REF - 1
  {
    var q := w / REF;
    if q == 0 {
      Split(0x1_0000_0000_0000 - 1, REF - 1, REF);
    } else {
      assert FetchSub(w) == REF - 1 + (q - 1) * REF;
      Split(q - 1, REF - 1, REF);
    }
  }

  lemma DirtyWeighsBit30(f: Fields)
    ensures Pack(f.(dirty := true)) == Pack(f.(dirty := false)) + 0x4000_0000
  {
  }

  lemma DirtyIsBit30(f: Fields)
    requires Fits(f)
    ensures Pack(f) / 0x4000_0000 % 2 == 1 <==> f.dirty
  {
    UnpackPack(f);
    assert Unpack(Pack(f)).dirty == (Pack(f) / 0x4000_0000 % 2 == 1);
  }

  /** The masks on bit 30 are updates of the dirty field. */
  lemma MasksSetDirty(f: Fields)
    requires Fits(f)
    ensures Unpack(SetBit30(Pack(f))) == f.(dirty := true)
    ensures Unpack(ClearBit30(Pack(f))) == f.(dirty := false)
  {
    var on, off := f.(dirty := true), f.(dirty := false);
    DirtyIsBit30(f);
    DirtyWeighsBit30(f);
    assert f == if f.dirty then on else off;
    MasksAsWords(Pack(f), Pack(on), Pack(off), f.dirty);
    UnpackPack(on);
    UnpackPack(off);
  }

  lemma MasksAsWords(w: nat, on: nat, off: nat, dirty: bool)
    requires (w / 0x4000_0000 % 2 == 1 <==> dirty) && on == off + 0x4000_0000 && w == if dirty then on else off
    ensures SetBit30(w) == on && ClearBit30(w) == off
  {
  }

  /** A PTE of the protocol as the fields of its word. */
  function OfPte(e: Pte): Fields
    requires e.refCount >= 0
  {
    Fields(e.refCount, e.page.fd, e.initialized, e.dirty, e.busy, e.page.fpage)
  }

  /** Every registered page fits the word: handles below 2^13, page numbers below 2^32. */
  predicate Registrable(g: Pool) {
    forall p | p in g.mapping :: p.fd < FD && p.fpage < 0x1_0000_0000
  }

  /** The operations on the word change the fields as the protocol's steps do. */
  ghost predicate WordFollows(e: Pte)
    requires e.refCount >= 0
  {
    && Unpack(FetchAdd(Pack(OfPte(e)))) == OfPte(e.(refCount := e.refCount + 1))
    && Unpack(SetBit30(Pack(OfPte(e)))) == OfPte(e.(dirty := true))
    && (e.refCount > 0 ==> Unpack(FetchSub(Pack(OfPte(e)))) == OfPte(e.(refCount := e.refCount - 1)))
  }

  /**
    In every reachable state, as long as live pins plus threads stay below 2^16, each PTE fits its
    word and the word operations of Pin, DecRefCount and SetDirty are the field updates that the
    protocol makes: no count carries into fd_cur, and no decrement borrows from it.
   */
  lemma WordsFollowTheProtocol(run: seq<State>, events: seq<Event>, i: nat, m: nat)
    requires IsRun(run, events) && i < |run| && m < |run[i].pool.ptes| && Registrable(run[i].pool)
    requires |PinsOn(run[i].pool, m)| + |run[i].threads| + 1 < REF
    ensures var g := run[i].pool; var e := g.ptes[m];
            && e.refCount >= 0 && Fits(OfPte(e)) && WordFollows(e)
            && (PinsOn(g, m) != {} || (exists t :: t in g.debts && g.debts[t] == m) ==> e.refCount > 0)
  {
    EntryFits(run, events, i, m);
    WordOperations(run[i].pool.ptes[m]);
  }

  lemma EntryFits(run: seq<State>, events: seq<Event>, i: nat, m: nat)
    requires IsRun(run, events) && i < |run| && m < |run[i].pool.ptes| && Registrable(run[i].pool)
    requires |PinsOn(run[i].pool, m)| + |run[i].threads| + 1 < REF
    ensures var g := run[i].pool; var e := g.ptes[m];
            && 0 <= e.refCount < REF - 1 && Fits(OfPte(e))
            && (PinsOn(g, m) != {} || (exists t :: t in g.debts && g.debts[t] == m) ==> e.refCount > 0)
  {
    RunKeeps(run, events, i);
    CountIsBounded(run, events, i, m);
    var g := run[i].pool;
    assert CountOk(g, m);
    if exists t :: t in g.debts && g.debts[t] == m {
      var t :| t in g.debts && g.debts[t] == m;
      assert t in DebtsOn(g, m);
    }
  }

  lemma WordOperations(e: Pte)
    requires e.refCount >= 0 && Fits(OfPte(e)) && e.refCount + 1 < REF
    ensures WordFollows(e)
  {
    FetchAddIsIncrement(OfPte(e));
    FetchSubIsDecrement(OfPte(e));
    MasksSetDirty(OfPte(e));
  }
}
