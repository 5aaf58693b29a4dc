/**
  Extendible hashing: a directory of 2^globalDepth slots over shared buckets.  A bucket that
  overflows is split on one more bit of the hash, and the directory doubles when the bucket's depth
  passes the directory's.
 */
module ExtendibleHash {
  import opened Bits
  import opened Collections

  class Bucket {
    var localDepth: nat
    var kmap: map<int, int>

    constructor (depth: nat)
      ensures localDepth == depth && kmap == map[]
    {
      localDepth := depth;
      kmap := map[];
    }
  }

  /** Each slot's bucket is shared with exactly the slots that agree on its low localDepth bits. */
  ghost predicate Shared(dir: seq<Bucket>, depth: map<Bucket, nat>, i: nat, j: nat)
    requires i < |dir| && j < |dir| && dir[i] in depth
  {
    dir[i] == dir[j] <==> Low(i, depth[dir[i]]) == Low(j, depth[dir[i]])
  }

  ghost predicate DirOk(dir: seq<Bucket>, depth: map<Bucket, nat>, gd: nat) {
    && |dir| == Pow2(gd)
    && (forall i | 0 <= i < |dir| :: dir[i] in depth && depth[dir[i]] <= gd)
    && (forall i, j {:trigger Shared(dir, depth, i, j)} | 0 <= i < |dir| && 0 <= j < |dir| :: Shared(dir, depth, i, j))
  }

  lemma DoubleKeeps(dir: seq<Bucket>, depth: map<Bucket, nat>, gd: nat)
    requires DirOk(dir, depth, gd)
    ensures DirOk(dir + dir, depth, gd + 1)
  {
    var n := |dir|;
    forall i, j | 0 <= i < 2 * n && 0 <= j < 2 * n ensures Shared(dir + dir, depth, i, j) {
      var a, b := if i < n then i else i - n, if j < n then j else j - n;
      assert Shared(dir, depth, a, b);
      LowShift(a, depth[dir[a]], gd);
      LowShift(b, depth[dir[a]], gd);
    }
  }

  /** Doubling the directory keeps which bucket serves a hash. */
  lemma DoubleServes(dir: seq<Bucket>, gd: nat, h: nat)
    requires |dir| == Pow2(gd)
    ensures Low(h, gd + 1) < |dir + dir| && Low(h, gd) < |dir| && (dir + dir)[Low(h, gd + 1)] == dir[Low(h, gd)]
  {
    LowBound(h, gd);
    LowBound(h, gd + 1);
    TopBit(h, gd);
  }

  /** The slots of bucket `cur` whose bit d is set go over to a new bucket. */
  ghost function Redirected(dir: seq<Bucket>, cur: Bucket, new_: Bucket, d: nat): seq<Bucket> {
    seq(|dir|, i requires 0 <= i < |dir| => if dir[i] == cur && Bit(i, d) then new_ else dir[i])
  }

  lemma SplitKeeps(dir: seq<Bucket>, depth: map<Bucket, nat>, gd: nat, cur: Bucket, new_: Bucket)
    requires DirOk(dir, depth, gd) && cur in dir && new_ !in dir && depth[cur] < gd
    ensures var d := depth[cur];
            DirOk(Redirected(dir, cur, new_, d), depth[cur := d + 1][new_ := d + 1], gd)
  {
    var d := depth[cur];
    var dir', depth' := Redirected(dir, cur, new_, d), depth[cur := d + 1][new_ := d + 1];
    forall i, j | 0 <= i < |dir| && 0 <= j < |dir| ensures Shared(dir', depth', i, j) {
      assert Shared(dir, depth, i, j);
      LowStep(i, j, d);
    }
  }

  /** The hash table's keys as the slots see them: what slot i's bucket holds under k. */
  ghost predicate EntryOk(dir: seq<Bucket>, depth: map<Bucket, nat>, kmap: map<Bucket, map<int, int>>,
                          contents: map<int, int>, hash: int -> nat, i: nat, k: int)
    requires i < |dir| && dir[i] in depth && dir[i] in kmap
  {
    k in kmap[dir[i]] ==>
      k in contents && contents[k] == kmap[dir[i]][k] && Low(hash(k), depth[dir[i]]) == Low(i, depth[dir[i]])
  }

  /** Key k is in the bucket its hash selects. */
  ghost predicate InPlace(dir: seq<Bucket>, gd: nat, kmap: map<Bucket, map<int, int>>, hash: int -> nat, k: int)
  {
    Low(hash(k), gd) < |dir| && dir[Low(hash(k), gd)] in kmap && k in kmap[dir[Low(hash(k), gd)]]
  }

  ghost predicate KeysOk(dir: seq<Bucket>, depth: map<Bucket, nat>, gd: nat, kmap: map<Bucket, map<int, int>>,
                         contents: map<int, int>, hash: int -> nat)
    requires forall i | 0 <= i < |dir| :: dir[i] in depth && dir[i] in kmap
  {
    && (forall i, k {:trigger EntryOk(dir, depth, kmap, contents, hash, i, k)} | 0 <= i < |dir| ::
          EntryOk(dir, depth, kmap, contents, hash, i, k))
    && (forall k {:trigger InPlace(dir, gd, kmap, hash, k)} | k in contents :: InPlace(dir, gd, kmap, hash, k))
  }

  ghost predicate TableOk(dir: seq<Bucket>, depth: map<Bucket, nat>, gd: nat, kmap: map<Bucket, map<int, int>>,
                          contents: map<int, int>, hash: int -> nat)
  {
    DirOk(dir, depth, gd) && (forall i | 0 <= i < |dir| :: dir[i] in kmap) && KeysOk(dir, depth, gd, kmap, contents, hash)
  }

  lemma DoubleKeepsKeys(dir: seq<Bucket>, depth: map<Bucket, nat>, gd: nat, kmap: map<Bucket, map<int, int>>,
                        contents: map<int, int>, hash: int -> nat)
    requires TableOk(dir, depth, gd, kmap, contents, hash)
    ensures TableOk(dir + dir, depth, gd + 1, kmap, contents, hash)
  {
    DoubleKeeps(dir, depth, gd);
    var n := |dir|;
    forall i, k | 0 <= i < 2 * n ensures EntryOk(dir + dir, depth, kmap, contents, hash, i, k) {
      var a := if i < n then i else i - n;
      assert EntryOk(dir, depth, kmap, contents, hash, a, k);
      LowShift(a, depth[dir[a]], gd);
    }
    forall k | k in contents ensures InPlace(dir + dir, gd + 1, kmap, hash, k) {
      DoubleServes(dir, gd, hash(k));
      assert InPlace(dir, gd, kmap, hash, k);
    }
  }

  /** The keys of a bucket whose hash bit d is b. */
  ghost function Half(m: map<int, int>, hash: int -> nat, d: nat, b: bool): map<int, int> {
    map k | k in m && Bit(hash(k), d) == b :: m[k]
  }

  /** What the old and the new bucket hold while the keys in todo have not been looked at yet. */
  ghost function Staying(m: map<int, int>, hash: int -> nat, d: nat, todo: set<int>): map<int, int> {
    map k | k in m && (k in todo || !Bit(hash(k), d)) :: m[k]
  }

  ghost function Gone(m: map<int, int>, hash: int -> nat, d: nat, todo: set<int>): map<int, int> {
    map k | k in m && k !in todo && Bit(hash(k), d) :: m[k]
  }

  lemma GoneStep(m: map<int, int>, hash: int -> nat, d: nat, todo: set<int>, k: int)
    requires k in todo && todo <= m.Keys
    ensures k in Staying(m, hash, d, todo) && Staying(m, hash, d, todo)[k] == m[k]
    ensures Staying(m, hash, d, todo - {k}) ==
            if Bit(hash(k), d) then Staying(m, hash, d, todo) - {k} else Staying(m, hash, d, todo)
    ensures Gone(m, hash, d, todo - {k}) ==
            if Bit(hash(k), d) then Gone(m, hash, d, todo)[k := m[k]] else Gone(m, hash, d, todo)
  {
  }

  lemma NonEmpty(s: set<int>)
    requires s != {}
    ensures exists k :: k in s
  {
    if forall k :: k !in s {
      Nothing(s);
    }
  }

  lemma Nothing(s: set<int>)
    requires forall k :: k !in s
    ensures s == {}
  {
    assert forall k :: k in s <==> k in {};
  }

  lemma HalfSize(m: map<int, int>, hash: int -> nat, d: nat, b: bool)
    ensures |Half(m, hash, d, b)| <= |m|
  {
    SubsetSize(Half(m, hash, d, b).Keys, m.Keys);
  }

  lemma SplitKeepsKeys(dir: seq<Bucket>, depth: map<Bucket, nat>, gd: nat, kmap: map<Bucket, map<int, int>>,
                       contents: map<int, int>, hash: int -> nat, cur: Bucket, new_: Bucket,
                       dir': seq<Bucket>, depth': map<Bucket, nat>, kmap': map<Bucket, map<int, int>>)
    requires TableOk(dir, depth, gd, kmap, contents, hash) && cur in dir && new_ !in dir && depth[cur] < gd
    requires var d := depth[cur];
             && dir' == Redirected(dir, cur, new_, d) && depth' == depth[cur := d + 1][new_ := d + 1]
             && kmap' == kmap[cur := Half(kmap[cur], hash, d, false)][new_ := Half(kmap[cur], hash, d, true)]
    ensures TableOk(dir', depth', gd, kmap', contents, hash)
  {
    SplitKeeps(dir, depth, gd, cur, new_);
    var d := depth[cur];
    forall i, k | 0 <= i < |dir| ensures EntryOk(dir', depth', kmap', contents, hash, i, k) {
      assert EntryOk(dir, depth, kmap, contents, hash, i, k);
      LowStep(hash(k), i, d);
    }
    forall k | k in contents ensures InPlace(dir', gd, kmap', hash, k) {
      assert InPlace(dir, gd, kmap, hash, k);
      BitOfLow(hash(k), d, gd);
    }
  }

  ghost function Members(dir: seq<Bucket>): set<Bucket> {
    set b | b in dir
  }

  /** Of two slots of a bucket that differ in the next hash bit, one stays and one goes over. */
  lemma BothHalvesServe(dir: seq<Bucket>, depth: map<Bucket, nat>, gd: nat, cur: Bucket, new_: Bucket)
    requires DirOk(dir, depth, gd) && cur in dir && new_ !in dir && depth[cur] < gd
    ensures var dir' := Redirected(dir, cur, new_, depth[cur]); cur in dir' && new_ in dir'
  {
    var d := depth[cur];
    var dir' := Redirected(dir, cur, new_, d);
    var i :| 0 <= i < |dir| && dir[i] == cur;
    ToggleOnly(i, d, gd);
    var j := Toggle(i, d);
    assert Shared(dir, depth, i, j);
    assert dir'[i] in dir' && dir'[j] in dir';
  }

  /** A split adds exactly one bucket: both halves of the slots are non-empty. */
  lemma SplitAddsOne(dir: seq<Bucket>, depth: map<Bucket, nat>, gd: nat, cur: Bucket, new_: Bucket)
    requires DirOk(dir, depth, gd) && cur in dir && new_ !in dir && depth[cur] < gd
    ensures |Members(Redirected(dir, cur, new_, depth[cur]))| == |Members(dir)| + 1
  {
    var dir' := Redirected(dir, cur, new_, depth[cur]);
    BothHalvesServe(dir, depth, gd, cur, new_);
    forall b | b in dir && b != cur ensures b in dir' {
      var l :| 0 <= l < |dir| && dir[l] == b;
      assert dir'[l] == b;
    }
    assert Members(dir') == Members(dir) + {new_};
  }

  /** The slots whose low depth bits agree with k's hash are exactly those of k's bucket. */
  lemma HomeBucket(dir: seq<Bucket>, depth: map<Bucket, nat>, gd: nat, h: nat, i: nat)
    requires DirOk(dir, depth, gd) && i < |dir|
    ensures Low(h, gd) < |dir|
    ensures dir[i] == dir[Low(h, gd)] <==> Low(h, depth[dir[i]]) == Low(i, depth[dir[i]])
  {
    LowBound(h, gd);
    LowLow(h, depth[dir[i]], gd);
    assert Shared(dir, depth, i, Low(h, gd));
  }

  lemma PutKeepsKeys(dir: seq<Bucket>, depth: map<Bucket, nat>, gd: nat, kmap: map<Bucket, map<int, int>>,
                     contents: map<int, int>, hash: int -> nat, key: int, value: int,
                     kmap': map<Bucket, map<int, int>>, contents': map<int, int>)
    requires TableOk(dir, depth, gd, kmap, contents, hash) && Low(hash(key), gd) < |dir|
    requires var cur := dir[Low(hash(key), gd)];
             kmap' == kmap[cur := kmap[cur][key := value]] && contents' == contents[key := value]
    ensures TableOk(dir, depth, gd, kmap', contents', hash)
  {
    forall i, k | 0 <= i < |dir| ensures EntryOk(dir, depth, kmap', contents', hash, i, k) {
      assert EntryOk(dir, depth, kmap, contents, hash, i, k);
      HomeBucket(dir, depth, gd, hash(key), i);
    }
    forall k | k in contents' ensures InPlace(dir, gd, kmap', hash, k) {
      assert k in contents ==> InPlace(dir, gd, kmap, hash, k);
    }
  }

  lemma RemoveKeepsKeys(dir: seq<Bucket>, depth: map<Bucket, nat>, gd: nat, kmap: map<Bucket, map<int, int>>,
                        contents: map<int, int>, hash: int -> nat, key: int,
                        kmap': map<Bucket, map<int, int>>, contents': map<int, int>)
    requires TableOk(dir, depth, gd, kmap, contents, hash) && Low(hash(key), gd) < |dir|
    requires var cur := dir[Low(hash(key), gd)];
             kmap' == kmap[cur := kmap[cur] - {key}] && contents' == contents - {key}
    ensures TableOk(dir, depth, gd, kmap', contents', hash)
  {
    forall i, k | 0 <= i < |dir| ensures EntryOk(dir, depth, kmap', contents', hash, i, k) {
      assert EntryOk(dir, depth, kmap, contents, hash, i, k);
      HomeBucket(dir, depth, gd, hash(key), i);
    }
    forall k | k in contents' ensures InPlace(dir, gd, kmap', hash, k) {
      assert InPlace(dir, gd, kmap, hash, k);
    }
  }

  /** The keys that agree with `key` on `bits` hash bits. */
  ghost function Colliding(contents: map<int, int>, hash: int -> nat, key: int, bits: nat): set<int> {
    set k | k in contents && Low(hash(k), bits) == Low(hash(key), bits)
  }

  /** A bucket holds exactly the keys that agree on its depth's bits. */
  lemma BucketHoldsColliding(dir: seq<Bucket>, depth: map<Bucket, nat>, gd: nat, kmap: map<Bucket, map<int, int>>,
                             contents: map<int, int>, hash: int -> nat, key: int)
    requires TableOk(dir, depth, gd, kmap, contents, hash) && Low(hash(key), gd) < |dir|
    ensures var cur := dir[Low(hash(key), gd)];
            kmap[cur].Keys == Colliding(contents, hash, key, depth[cur])
  {
    var i := Low(hash(key), gd);
    var cur := dir[i];
    LowLow(hash(key), depth[cur], gd);
    forall k ensures k in kmap[cur] <==> k in Colliding(contents, hash, key, depth[cur]) {
      assert EntryOk(dir, depth, kmap, contents, hash, i, k);
      assert k in contents ==> InPlace(dir, gd, kmap, hash, k);
      HomeBucket(dir, depth, gd, hash(k), i);
    }
  }

  lemma FewerCollide(contents: map<int, int>, hash: int -> nat, key: int, d: nat, e: nat)
    requires d <= e
    ensures |Colliding(contents, hash, key, e)| <= |Colliding(contents, hash, key, d)|
  {
    forall k | k in Colliding(contents, hash, key, e) ensures k in Colliding(contents, hash, key, d) {
      LowMono(hash(k), hash(key), d, e);
    }
    SubsetSize(Colliding(contents, hash, key, e), Colliding(contents, hash, key, d));
  }

  /** A key that does not fit: as many keys as a bucket holds, all with the new key's hash. */
  lemma SameHashDoesNotFit(contents: map<int, int>, hash: int -> nat, key: int, size: nat, bits: nat)
    requires |contents| == size && key !in contents && forall k | k in contents :: hash(k) == hash(key)
    ensures |Colliding(contents, hash, key, bits)| >= size
  {
    forall k | k in contents ensures k in Colliding(contents, hash, key, bits) { }
    SubsetSize(contents.Keys, Colliding(contents, hash, key, bits));
    assert |contents| == |contents.Keys|;
  }

  class ExtendibleHash {
    const hash: int -> nat
    const bucketSize: nat
    var globalDepth: nat
    var bucketNum: nat
    var buckets: seq<Bucket>
    /** The map the table stands for, and what each bucket holds. */
    ghost var contents: map<int, int>
    ghost var depth: map<Bucket, nat>
    ghost var kmap: map<Bucket, map<int, int>>

    /** A bucket of depth d that holds what the specification says. */
    ghost predicate Mirrored(b: Bucket, d: nat)
      requires b in kmap
      reads this, b
    {
      b.localDepth == d && b.kmap == kmap[b] && |b.kmap| <= bucketSize
    }

    ghost predicate Valid()
      reads this, buckets
    {
      && TableOk(buckets, depth, globalDepth, kmap, contents, hash)
      && (forall i | 0 <= i < |buckets| :: Mirrored(buckets[i], depth[buckets[i]]))
      && bucketNum == |Members(buckets)|
    }

    constructor (hash: int -> nat, size: nat)
      ensures Valid() && contents == map[] && globalDepth == 0 && bucketNum == 1
      ensures this.hash == hash && bucketSize == size && fresh(buckets)
    {
      this.hash := hash;
      bucketSize := size;
      globalDepth := 0;
      bucketNum := 1;
      contents := map[];
      var b := new Bucket(0);
      buckets := [b];
      depth := map[b := 0];
      kmap := map[b := map[]];
      new;
      assert Members(buckets) == {b};
    }

    /** `cur` is the bucket getIdx leads to. */
    ghost predicate Serves(cur: Bucket, key: int)
      reads this
    {
      Low(hash(key), globalDepth) < |buckets| && cur == buckets[Low(hash(key), globalDepth)]
    }

    function GetIdx(key: int): (idx: nat)
      requires Valid()
      reads this, buckets
      ensures idx < |buckets| && Serves(buckets[idx], key)
    {
      LowBound(hash(key), globalDepth);
      Low(hash(key), globalDepth)
    }

    method Find(key: int) returns (found: bool, value: int)
      requires Valid()
      ensures found <==> key in contents
      ensures found ==> value == contents[key]
    {
      var idx := GetIdx(key);
      BucketDecides(buckets[idx], key);
      found := key in buckets[idx].kmap;
      value := if found then buckets[idx].kmap[key] else 0;
    }

    lemma BucketDecides(cur: Bucket, key: int)
      requires Valid() && Serves(cur, key)
      ensures key in cur.kmap <==> key in contents
      ensures key in cur.kmap ==> cur.kmap[key] == contents[key]
    {
      assert EntryOk(buckets, depth, kmap, contents, hash, Low(hash(key), globalDepth), key);
      assert key in contents ==> InPlace(buckets, globalDepth, kmap, hash, key);
    }

    method Remove(key: int) returns (removed: bool)
      requires Valid()
      modifies this`contents, this`kmap, buckets
      ensures Valid() && contents == old(contents) - {key}
      ensures removed <==> key in old(contents)
    {
      var idx := GetIdx(key);
      var cur := buckets[idx];
      BucketDecides(cur, key);
      if key !in cur.kmap {
        return false;
      }
      ghost var kmap', contents' := kmap[cur := kmap[cur] - {key}], contents - {key};
      RemoveKeepsKeys(buckets, depth, globalDepth, kmap, contents, hash, key, kmap', contents');
      SubsetSize((cur.kmap - {key}).Keys, cur.kmap.Keys);
      cur.kmap := cur.kmap - {key};
      kmap, contents := kmap', contents';
      removed := true;
    }

    /** The key is present, or some number of hash bits separates it from all but a few keys. */
    ghost predicate Fits(key: int)
      reads this
    {
      key in contents || exists bits: nat :: |Colliding(contents, hash, key, bits)| < bucketSize
    }

    /** The depth is no more than needed to separate the key. */
    ghost predicate DepthWithin(before: map<int, int>, key: int, gd: nat)
      reads this
    {
      forall bits: nat | |Colliding(before, hash, key, bits)| < bucketSize :: globalDepth <= gd || globalDepth <= bits
    }

    /** The exit test of Insert's loop holds only when the key fits. */
    lemma NoRoomUnlessFits(cur: Bucket, key: int)
      requires Valid() && Serves(cur, key)
      requires key in cur.kmap || |cur.kmap| < bucketSize
      ensures Fits(key)
    {
      BucketDecides(cur, key);
      BucketHoldsColliding(buckets, depth, globalDepth, kmap, contents, hash, key);
      assert |cur.kmap| == |cur.kmap.Keys|;
    }

    method Insert(key: int, value: int)
      requires Valid() && Fits(key)
      modifies this, buckets
      ensures Valid() && contents == old(contents)[key := value]
      ensures forall i | 0 <= i < |buckets| :: buckets[i] in old(buckets) || fresh(buckets[i])
      ensures DepthWithin(old(contents), key, old(globalDepth))
    {
      var idx := GetIdx(key);
      var cur := buckets[idx];
      ghost var enough: nat :|
        key in contents || |Colliding(contents, hash, key, enough)| < bucketSize;
      while true
        invariant Valid() && contents == old(contents) && Serves(cur, key) && cur in buckets
        invariant forall i | 0 <= i < |buckets| :: buckets[i] in old(buckets) || fresh(buckets[i])
        invariant DepthWithin(old(contents), key, old(globalDepth))
        decreases enough - cur.localDepth
      {
        if key in cur.kmap || |cur.kmap| < bucketSize {
          Put(cur, key, value);
          break;
        }
        MustSplit(cur, key);
        Split(cur, key);
        idx := GetIdx(key);
        cur := buckets[idx];
      }
    }

    /**
      The first `turns` turns of Insert's loop.  For a key that does not fit the loop does not leave,
      however many turns it takes; for any other key one turn more than the hash bits that separate
      it is enough.
     */
    method InsertTurns(key: int, value: int, turns: nat) returns (done: bool)
      requires Valid()
      modifies this, buckets
      ensures Valid() && contents == if done then old(contents)[key := value] else old(contents)
      ensures !old(Fits(key)) ==> !done
      ensures key in old(contents) && turns > 0 ==> done
      ensures forall bits: nat | bits < turns && |Colliding(old(contents), hash, key, bits)| < bucketSize :: done
    {
      for t := 0 to turns
        invariant Valid() && contents == old(contents) && (t > 0 ==> key !in contents)
        invariant forall i | 0 <= i < |buckets| :: buckets[i] in old(buckets) || fresh(buckets[i])
        invariant forall b | Serves(b, key) :: b.localDepth >= t
        invariant forall bits: nat | |Colliding(contents, hash, key, bits)| < bucketSize :: bits >= t
      {
        var idx := GetIdx(key);
        var cur := buckets[idx];
        if key in cur.kmap || |cur.kmap| < bucketSize {
          NoRoomUnlessFits(cur, key);
          Put(cur, key, value);
          return true;
        }
        MustSplit(cur, key);
        Split(cur, key);
      }
      done := false;
    }

    method Put(cur: Bucket, key: int, value: int)
      requires Valid() && Serves(cur, key)
      requires key in cur.kmap || |cur.kmap| < bucketSize
      modifies this`contents, this`kmap, cur`kmap
      ensures Valid() && contents == old(contents)[key := value]
    {
      cur.kmap := cur.kmap[key := value];
      kmap := kmap[cur := cur.kmap];
      contents := contents[key := value];
      PutKeepsKeys(buckets, depth, globalDepth, old(kmap), old(contents), hash, key, value, kmap, contents);
    }

    /** A full bucket without the key has not separated enough bits yet. */
    lemma MustSplit(cur: Bucket, key: int)
      requires Valid() && Serves(cur, key)
      requires key !in cur.kmap && |cur.kmap| >= bucketSize
      ensures key !in contents
      ensures forall bits: nat | |Colliding(contents, hash, key, bits)| < bucketSize :: cur.localDepth < bits
    {
      BucketDecides(cur, key);
      BucketHoldsColliding(buckets, depth, globalDepth, kmap, contents, hash, key);
      assert |cur.kmap| == |cur.kmap.Keys|;
      forall bits: nat | |Colliding(contents, hash, key, bits)| < bucketSize ensures cur.localDepth < bits {
        if bits <= cur.localDepth { FewerCollide(contents, hash, key, bits, cur.localDepth); }
      }
    }

    /** The rest of the insertion loop's body: splits a full bucket on its next hash bit. */
    method Split(cur: Bucket, key: int)
      requires Valid() && Serves(cur, key) && cur in buckets
      modifies this, cur
      ensures Valid() && contents == old(contents) && bucketNum == old(bucketNum) + 1
      ensures globalDepth == if old(cur.localDepth) == old(globalDepth) then old(globalDepth) + 1 else old(globalDepth)
      ensures forall b | Serves(b, key) :: b.localDepth == old(cur.localDepth) + 1
      ensures forall i | 0 <= i < |buckets| :: buckets[i] in old(buckets) || fresh(buckets[i])
    {
      Deepen(cur, key);
      Distribute(cur, key);
    }

    method Deepen(cur: Bucket, key: int)
      requires Valid() && Serves(cur, key) && cur in buckets
      modifies this`buckets, this`globalDepth, cur`localDepth
      ensures AboutToSplit(cur) && Serves(cur, key) && cur.localDepth == old(cur.localDepth) + 1
      ensures globalDepth == if old(cur.localDepth) == old(globalDepth) then old(globalDepth) + 1 else old(globalDepth)
      ensures forall i | 0 <= i < |buckets| :: buckets[i] in old(buckets)
    {
      cur.localDepth := cur.localDepth + 1;
      if cur.localDepth > globalDepth {
        DoubleDirectory(cur, key);
      }
    }

    /** Every hash is served by the same bucket afterwards. */
    method DoubleDirectory(cur: Bucket, key: int)
      requires Deepened(cur) && Serves(cur, key)
      modifies this`buckets, this`globalDepth
      ensures Deepened(cur) && Serves(cur, key) && globalDepth == old(globalDepth) + 1
      ensures forall i | 0 <= i < |buckets| :: buckets[i] in old(buckets)
    {
      DoubleServes(buckets, globalDepth, hash(key));
      DoubleKeepsKeys(buckets, depth, globalDepth, kmap, contents, hash);
      ghost var dir := buckets;
      Double();
      assert Members(buckets) == Members(dir);
      forall i | 0 <= i < |buckets|
        ensures buckets[i] in dir && Mirrored(buckets[i], depth[buckets[i]] + (if buckets[i] == cur then 1 else 0))
      {
        assert buckets[i] == if i < |dir| then dir[i] else dir[i - |dir|];
      }
    }

    /** Everything is in order but that `cur` already has its new depth. */
    ghost predicate Deepened(cur: Bucket)
      reads this, buckets
    {
      && TableOk(buckets, depth, globalDepth, kmap, contents, hash)
      && (forall i | 0 <= i < |buckets| ::
            Mirrored(buckets[i], depth[buckets[i]] + (if buckets[i] == cur then 1 else 0)))
      && bucketNum == |Members(buckets)| && cur in buckets
    }

    ghost predicate AboutToSplit(cur: Bucket)
      reads this, buckets
    {
      Deepened(cur) && depth[cur] < globalDepth
    }

    /** The keys and slots of `cur` with its new hash bit set go to a new bucket. */
    method Distribute(cur: Bucket, key: int)
      requires AboutToSplit(cur) && Serves(cur, key)
      modifies this`bucketNum, this`buckets, this`depth, this`kmap, cur`kmap
      ensures Valid() && bucketNum == old(bucketNum) + 1
      ensures forall b | Serves(b, key) :: b.localDepth == old(cur.localDepth)
      ensures forall i | 0 <= i < |buckets| :: buckets[i] in old(buckets) || fresh(buckets[i])
    {
      var d := cur.localDepth - 1;
      bucketNum := bucketNum + 1;
      var new_ := new Bucket(cur.localDepth);
      ghost var m, dir', depth' := cur.kmap, Redirected(buckets, cur, new_, d), depth[cur := d + 1][new_ := d + 1];
      ghost var kmap' := kmap[cur := Half(m, hash, d, false)][new_ := Half(m, hash, d, true)];
      SplitKeepsKeys(buckets, depth, globalDepth, kmap, contents, hash, cur, new_, dir', depth', kmap');
      SplitAddsOne(buckets, depth, globalDepth, cur, new_);
      HalfSize(m, hash, d, false);
      HalfSize(m, hash, d, true);
      ghost var dir := buckets;
      Rewire(cur, new_, d);
      forall i | 0 <= i < |buckets| ensures Mirrored(buckets[i], depth[buckets[i]]) {
        assert buckets[i] == if dir[i] == cur && Bit(i, d) then new_ else dir[i];
      }
    }

    method Rewire(cur: Bucket, new_: Bucket, d: nat)
      requires cur != new_ && new_ !in buckets && new_.kmap == map[]
      modifies this`buckets, this`depth, this`kmap, cur`kmap, new_`kmap
      ensures cur.kmap == Half(old(cur.kmap), hash, d, false) && new_.kmap == Half(old(cur.kmap), hash, d, true)
      ensures buckets == Redirected(old(buckets), cur, new_, d)
      ensures depth == old(depth)[cur := d + 1][new_ := d + 1]
      ensures kmap == old(kmap)[cur := cur.kmap][new_ := new_.kmap]
    {
      MoveHalf(cur, new_, d);
      Redirect(cur, new_, d);
      depth := depth[cur := d + 1][new_ := d + 1];
      kmap := kmap[cur := cur.kmap][new_ := new_.kmap];
    }

    method Double()
      modifies this`buckets, this`globalDepth
      ensures buckets == old(buckets) + old(buckets) && globalDepth == old(globalDepth) + 1
    {
      var length := |buckets|;
      for i := 0 to length
        invariant buckets == old(buckets) + old(buckets)[..i] && globalDepth == old(globalDepth)
      {
        buckets := buckets + [buckets[i]];
      }
      globalDepth := globalDepth + 1;
    }

    /** Moves the keys with hash bit d set to the new bucket. */
    method MoveHalf(cur: Bucket, new_: Bucket, d: nat)
      requires cur != new_ && new_.kmap == map[]
      modifies cur`kmap, new_`kmap
      ensures cur.kmap == Half(old(cur.kmap), hash, d, false) && new_.kmap == Half(old(cur.kmap), hash, d, true)
    {
      ghost var m := cur.kmap;
      var todo := cur.kmap.Keys;
      while todo != {}
        invariant todo <= m.Keys && cur.kmap == Staying(m, hash, d, todo) && new_.kmap == Gone(m, hash, d, todo)
        decreases |todo|
      {
        NonEmpty(todo);
        var k :| k in todo;
        GoneStep(m, hash, d, todo, k);
        if Bit(hash(k), d) {
          new_.kmap := new_.kmap[k := cur.kmap[k]];
          cur.kmap := cur.kmap - {k};
        }
        todo := todo - {k};
      }
    }

    method Redirect(cur: Bucket, new_: Bucket, d: nat)
      requires new_ !in buckets
      modifies this`buckets
      ensures buckets == Redirected(old(buckets), cur, new_, d)
    {
      for i := 0 to |buckets|
        invariant |buckets| == |old(buckets)|
        invariant buckets[..i] == Redirected(old(buckets), cur, new_, d)[..i]
        invariant forall j | i <= j < |buckets| :: buckets[j] == old(buckets)[j]
      {
        if buckets[i] == cur && Bit(i, d) {
          buckets := buckets[i := new_];
        }
      }
    }
  }
}
