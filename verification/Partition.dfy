/** Round-robin partitioning of a file's pages over the pools, and the size of each pool's table. */
module Partition {
  import opened Bits
  import opened Layout
  import opened Paging
  import opened PageFetch

  /** RoundRobinPartitioner over Pow2(log) pools. */
  function GetPartitionId(log: nat, fpageId: nat): nat {
    Low(fpageId, log)
  }

  function GetFPageIdInPartition(log: nat, fpageId: nat): nat {
    Shr(fpageId, log)
  }

  function GetFPageIdGlobal(log: nat, partitionId: nat, inPartition: nat): nat {
    partitionId + inPartition * Pow2(log)
  }

  /** Page ids and (partition, id inside) pairs correspond one to one. */
  lemma PartitionIsBijection(log: nat, fpageId: nat, partitionId: nat, inPartition: nat)
    requires partitionId < Pow2(log)
    ensures GetPartitionId(log, fpageId) < Pow2(log)
    ensures fpageId == GetFPageIdGlobal(log, partitionId, inPartition) <==>
            GetPartitionId(log, fpageId) == partitionId && GetFPageIdInPartition(log, fpageId) == inPartition
  {
    LowAndShr(fpageId, log);
    LowAndShrUnique(partitionId, inPartition, log);
  }

  lemma CeilBounds(a: nat, b: nat)
    requires b >= 1
    ensures a <= Ceil(a, b) * b < a + b
  {
    assert a == a / b * b + a % b;
    if a % b != 0 { assert (a / b + 1) * b == a / b * b + b; }
  }

  lemma CeilIs(a: nat, b: nat, q: nat)
    requires b >= 1 && a <= q * b < a + b
    ensures Ceil(a, b) == q
  {
    CeilBounds(a, b);
    var c := Ceil(a, b);
    MulMono(c + 1, q, b);
    MulMono(q + 1, c, b);
  }

  lemma TwiceUp(a: nat, b: nat, c: nat, e: nat, q: nat)
    requires b >= 1 && c >= 1 && a <= e * b < a + b && e <= q * c < e + c
    ensures a <= q * (b * c) < a + b * c
  {
    var qc := q * c;
    MulMono(e, qc, b);
    MulMono(qc, e + c - 1, b);
    assert (e + c - 1) * b == e * b + c * b - b;
    assert qc * b == q * (b * c) by {
      MulAssoc(q, c, b);
    }
  }

  lemma MulAssoc(x: nat, y: nat, z: nat)
    ensures x * y * z == x * (z * y) && z * y == y * z
  {
  }

  /** Rounding up twice is rounding up once. */
  lemma CeilOfCeil(a: nat, b: nat, c: nat)
    requires b >= 1 && c >= 1
    ensures b * c >= 1 && Ceil(Ceil(a, b), c) == Ceil(a, b * c)
  {
    var e := Ceil(a, b);
    CeilBounds(a, b);
    CeilBounds(e, c);
    TwiceUp(a, b, c, e, Ceil(e, c));
    MulMono(1, b, c);
    CeilIs(a, b * c, Ceil(e, c));
  }

  /** The table sizes of the pools, computed per pool in bytes, are those for whole pages. */
  lemma PoolSize(bytes: nat, n: nat)
    requires n >= 1
    ensures Ceil(Ceil(bytes, n), PAGE) == Ceil(Ceil(bytes, PAGE), n)
  {
    CeilOfCeil(bytes, n, PAGE);
    CeilOfCeil(bytes, PAGE, n);
    assert n * PAGE == PAGE * n;
  }

  /** Every page of the file has an entry in its pool's table. */
  lemma PageHasEntry(bytes: nat, log: nat, p: nat)
    requires p < Ceil(bytes, PAGE)
    ensures GetPartitionId(log, p) < Pow2(log)
    ensures GetFPageIdInPartition(log, p) < Ceil(Ceil(bytes, Pow2(log)), PAGE)
  {
    LowAndShr(p, log);
    PoolSize(bytes, Pow2(log));
    var pages, n, high := Ceil(bytes, PAGE), Pow2(log), Shr(p, log);
    CeilBounds(pages, n);
    MulMono(Ceil(pages, n), high, n);
  }

  function Max(a: nat, b: nat): nat {
    if a < b then b else a
  }

  /** One pool's table for a file. */
  class PageMapping {
    var mappings: array<MapWord>
    var size: nat

    ghost predicate Valid()
      reads this
    {
      mappings.Length == size
    }

    constructor (size: nat)
      ensures Valid() && this.size == size && fresh(mappings)
      ensures forall i | 0 <= i < size :: mappings[i] == Empty
    {
      this.size := size;
      mappings := new MapWord[size](_ => Empty);
    }

    /** The table grows with empty entries; it never shrinks or loses one. */
    method Resize(newSize: nat)
      requires Valid()
      modifies this
      ensures Valid() && size == if newSize <= old(size) then old(size) else newSize
      ensures mappings[..] == old(mappings[..]) + seq(size - old(size), _ => Empty)
      ensures mappings == old(mappings) || fresh(mappings)
    {
      if newSize <= size {
        return;
      }
      var newMapping := new MapWord[newSize];
      for i := 0 to newSize
        invariant unchanged(this) && unchanged(mappings)
        invariant forall j | 0 <= j < i :: newMapping[j] == if j < size then mappings[j] else Empty
      {
        if i < size {
          newMapping[i] := mappings[i];
        } else {
          newMapping[i] := Empty;
        }
      }
      mappings := newMapping;
      size := newSize;
    }
  }

  /** The tables of one file in all pools. */
  class BufferPoolManager {
    const log: nat
    const pools: seq<PageMapping>

    ghost predicate Valid()
      reads this, pools
    {
      && |pools| == Pow2(log)
      && (forall i | 0 <= i < |pools| :: pools[i].Valid())
      && (forall i, j | 0 <= i < j < |pools| :: pools[i] != pools[j])
    }

    /** Every page of the resized file then has its entry, and no entry is lost. */
    method Resize(newSizeInByte: nat)
      requires Valid()
      modifies pools
      ensures Valid()
      ensures forall p: nat | p < Ceil(newSizeInByte, PAGE) ::
                GetPartitionId(log, p) < |pools| && GetFPageIdInPartition(log, p) < pools[GetPartitionId(log, p)].size
      ensures forall i | 0 <= i < |pools| :: old(pools[i].mappings[..]) <= pools[i].mappings[..]
      ensures forall i | 0 <= i < |pools| :: pools[i].size == Max(old(pools[i].size), Ceil(Ceil(newSizeInByte, Pow2(log)), PAGE))
    {
      for i := 0 to |pools|
        invariant Valid()
        invariant forall j | 0 <= j < i :: pools[j].size == Max(old(pools[j].size), Ceil(Ceil(newSizeInByte, Pow2(log)), PAGE))
        invariant forall j | i <= j < |pools| :: pools[j].size == old(pools[j].size)
        invariant forall j | 0 <= j < |pools| :: old(pools[j].mappings[..]) <= pools[j].mappings[..]
        invariant forall j | 0 <= j < |pools| :: pools[j].mappings == old(pools[j].mappings) || fresh(pools[j].mappings)
      {
        pools[i].Resize(Ceil(Ceil(newSizeInByte, Pow2(log)), PAGE));
      }
      forall p: nat | p < Ceil(newSizeInByte, PAGE)
        ensures GetPartitionId(log, p) < |pools| && GetFPageIdInPartition(log, p) < pools[GetPartitionId(log, p)].size
      {
        PageHasEntry(newSizeInByte, log, p);
      }
    }
  }
}
