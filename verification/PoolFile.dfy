/**
  Byte ranges of a file read and written through the pool: each page is fetched, used through its
  pin and released, while the other threads go on fetching, evicting and loading.
 */
module PoolFile {
  import opened Paging
  import opened PageFetch
  import opened PageFetchInv
  import opened PageFetchSafety
  import opened PageFetchProgress
  import opened PageFetchPins

  /** Whatever else happens, the pages of the file keep their content. */
  lemma {:induction false} SparedStays(s: State, events: seq<Event>, fd: nat)
    requires StateInv(s) && Spares(s, events, fd)
    ensures var r := After(s, events);
            StateInv(r) && r.pool.content.Keys == s.pool.content.Keys
            && forall p | p in s.pool.content && p.fd == fd :: r.pool.content[p] == s.pool.content[p]
    decreases |events|
  {
    if events != [] {
      var e := events[0];
      ApplyKeeps(s, e);
      SizesKeep(s, e);
      forall p | p in s.pool.content && p.fd == fd ensures Apply(s, e).pool.content[p] == s.pool.content[p] {
        ContentOnlyByWrites(s, e, p);
      }
      SparedStays(Apply(s, e), events[1..], fd);
    }
  }

  /** A live pin gives access to its page's content. */
  lemma PinShows(s: State, k: nat)
    requires StateInv(s) && k in s.pool.pins
    ensures PinInRange(s.pool, k) && var pin := s.pool.pins[k]; s.pool.frames[pin.frame] == s.pool.content[pin.page]
  {
    assert PinOk(s.pool, k) && CountOk(s.pool, s.pool.pins[k].frame) && PlaceOk(s.pool, s.pool.pins[k].frame);
  }

  /** The content of the file's first n pages is there, each a page long. */
  ghost predicate HasPages(content: map<PageId, Bytes>, fd: nat, n: nat) {
    forall q: nat | q < n :: PageId(fd, q) in content && |content[PageId(fd, q)]| == PAGE
  }

  ghost function PagesOf(content: map<PageId, Bytes>, fd: nat, n: nat): (r: seq<seq<byte>>)
    requires HasPages(content, fd, n)
    ensures |r| == n && PagesOk(r) && forall q | 0 <= q < n :: r[q] == content[PageId(fd, q)]
  {
    seq(n, q requires 0 <= q < n => content[PageId(fd, q)])
  }

  /** Pin k on page p was granted since state s, and is live in r. */
  predicate Granted(s: State, r: State, p: PageId, k: nat) {
    k in r.pool.pins && k >= s.pool.nextPin && r.pool.pins[k].page == p
  }

  /** In the course of the events a pin on the page is granted, and nobody writes to the file. */
  ghost predicate Fetches(s: State, events: seq<Event>, fd: nat, page: nat)
    requires Shaped(s.pool)
  {
    Spares(s, events, fd) && exists k: nat :: Granted(s, After(s, events), PageId(fd, page), k)
  }

  ghost predicate Dirty(g: Pool, m: nat) {
    m < |g.ptes| && g.ptes[m].dirty
  }

  ghost predicate SameDirty(g: Pool, r: Pool) {
    |r.ptes| == |g.ptes| && forall m | 0 <= m < |g.ptes| :: r.ptes[m].dirty == g.ptes[m].dirty
  }

  /** The pins ks were granted between g and r, one after the other, and are not live any more. */
  ghost predicate GivenBack(g: Pool, r: Pool, ks: seq<nat>) {
    && g.nextPin <= r.nextPin
    && (forall j | 0 <= j < |ks| :: g.nextPin <= ks[j] < r.nextPin && ks[j] !in r.pins)
    && (forall i, j | 0 <= i < j < |ks| :: ks[i] < ks[j])
  }

  lemma GivenBackMore(first: Pool, g: Pool, r: Pool, ks: seq<nat>, k: nat, fd: nat)
    requires GivenBack(first, g, ks) && PinsCome(g, r, fd) && g.nextPin <= k < r.nextPin && k !in r.pins
    ensures GivenBack(first, r, ks + [k])
  {
  }

  /** Where the loops over the pages of a byte range stand after `count` pages. */
  predicate Stands(offset: nat, size: nat, page: nat, pageOffset: nat, left: nat, at: nat, count: nat) {
    && at + left == size && (left > 0 ==> page * PAGE + pageOffset == offset + at) && pageOffset < PAGE
    && page == offset / PAGE + count && (if at == 0 then count == 0 else (offset + at - 1) / PAGE == page - 1)
  }

  lemma StandsInside(offset: nat, size: nat, page: nat, pageOffset: nat, left: nat, at: nat, count: nat, numPages: nat)
    requires Stands(offset, size, page, pageOffset, left, at, count) && left > 0 && offset + size <= PAGE * numPages
    ensures page < numPages
  {
  }

  lemma StandsNext(offset: nat, size: nat, page: nat, pageOffset: nat, left: nat, at: nat, count: nat)
    requires Stands(offset, size, page, pageOffset, left, at, count) && left > 0
    ensures var n := ObjectSize(pageOffset, left);
            0 < n <= left && pageOffset + n <= PAGE && Stands(offset, size, page + 1, 0, left - n, at + n, count + 1)
  {
    var n := ObjectSize(pageOffset, left);
    assert offset + at + n - 1 == page * PAGE + (pageOffset + n - 1);
  }

  lemma TurnFits(offset: nat, size: nat, page: nat, pageOffset: nat, left: nat, at: nat, count: nat, numPages: nat)
    requires Stands(offset, size, page, pageOffset, left, at, count) && left > 0 && offset + size <= PAGE * numPages
    ensures page < numPages && page * PAGE + pageOffset == offset + at
    ensures var n := ObjectSize(pageOffset, left);
            0 < n <= left && pageOffset + n <= PAGE && Stands(offset, size, page + 1, 0, left - n, at + n, count + 1)
  {
    StandsInside(offset, size, page, pageOffset, left, at, count, numPages);
    StandsNext(offset, size, page, pageOffset, left, at, count);
  }

  lemma PagesTouched(offset: nat, size: nat, page: nat, pageOffset: nat, left: nat, at: nat, count: nat)
    requires Stands(offset, size, page, pageOffset, left, at, count) && left == 0
    ensures count == NumPage(offset % PAGE, size)
  {
    if size > 0 { NumPageIsOverlap(offset, size); }
  }

  /** What all threads do until the page is fetched, and after it was written and marked dirty. */
  datatype Others = Others(fetching: seq<Event>, writing: seq<Event>, marking: seq<Event>)

  /** A file of the pool.  Results are false when the others wrote to it or did not grant the pin. */
  class File {
    const fd: nat
    const numPages: nat
    var s: State

    constructor (fd: nat, numPages: nat, s: State)
      requires StateInv(s) && HasPages(s.pool.content, fd, numPages)
      ensures Valid() && this.fd == fd && this.numPages == numPages && this.s == s
    {
      this.fd, this.numPages, this.s := fd, numPages, s;
    }

    ghost predicate Valid()
      reads this
    {
      StateInv(s) && HasPages(s.pool.content, fd, numPages)
    }

    /** The pages as last written. */
    ghost function Pages(): (r: seq<seq<byte>>)
      requires Valid()
      reads this
      ensures |r| == numPages && PagesOk(r)
    {
      PagesOf(s.pool.content, fd, numPages)
    }

    /** All threads go on; false, and nothing happens, when one of them would write to the file. */
    method Wait(events: seq<Event>) returns (ok: bool)
      requires Valid()
      modifies this
      ensures Valid() && Pages() == old(Pages()) && (ok <==> Spares(old(s), events, fd))
      ensures s == if ok then After(old(s), events) else old(s)
    {
      ok := Spares(s, events, fd);
      if ok {
        SparedStays(s, events, fd);
        assert forall q: nat | q < numPages :: PageId(fd, q).fd == fd;
        s := After(s, events);
      }
    }

    /** FetchPageSync, granted in the course of the events. */
    method FetchPage(page: nat, events: seq<Event>) returns (ok: bool, k: nat)
      requires Valid() && page < numPages
      modifies this
      ensures Valid() && Pages() == old(Pages()) && (ok <==> Fetches(old(s), events, fd, page))
      ensures ok ==> s == After(old(s), events) && Granted(old(s), s, PageId(fd, page), k) && PinInRange(s.pool, k)
      ensures ok ==> s.pool.frames[s.pool.pins[k].frame] == Pages()[page] && PinsCome(old(s).pool, s.pool, fd)
    {
      ghost var before := s;
      var first := s.pool.nextPin;
      k := 0;
      ok := Wait(events);
      if ok {
        PinsComeAndGo(before, events, fd);
        if l: nat :| l in s.pool.pins && l >= first && s.pool.pins[l].page == PageId(fd, page) {
          PinShows(s, l);
          assert Granted(before, s, PageId(fd, page), l);
          k := l;
        } else {
          ok := false;
        }
      }
    }

    /** DecRefCount by the holder of pin k, who has told of all bytes written. */
    method Release(k: nat)
      requires Valid() && (k in s.pool.pins ==> !s.pool.pins[k].wrote)
      modifies this
      ensures Valid() && Pages() == old(Pages()) && s == Apply(old(s), Event.Release(k))
      ensures k !in s.pool.pins && PinsCome(old(s).pool, s.pool, fd) && SameDirty(old(s).pool, s.pool)
    {
      if k in s.pool.pins { PinShows(s, k); }
      ApplyKeeps(s, Event.Release(k));
      PinsComeOnce(s, Event.Release(k), fd);
      s := Apply(s, Event.Release(k));
    }

    /**
      DecRefCount(true) by the holder of pin k: the dirty bit, then the count.  The pin is gone then,
      and the frame it was on is dirty.
     */
    method MarkAndRelease(k: nat, marking: seq<Event>) returns (ok: bool)
      requires Valid() && k < s.pool.nextPin && (k in s.pool.pins ==> s.pool.pins[k].page.fd == fd)
      modifies this
      ensures Valid() && Pages() == old(Pages()) && (ok <==> Spares(Apply(old(s), MarkDirty(k)), marking, fd))
      ensures ok ==> k !in s.pool.pins && PinsCome(old(s).pool, s.pool, fd)
      ensures ok && k in old(s).pool.pins && Event.Release(k) !in marking ==> Dirty(s.pool, old(s).pool.pins[k].frame)
    {
      ghost var before := s;
      Mark(k);
      ghost var marked := s;
      ok := Wait(marking);
      if ok {
        PinsComeAndGo(marked, marking, fd);
        if k in marked.pool.pins && Event.Release(k) !in marking { Survives(marked, marking, k); }
        PinsComeTrans(before.pool, marked.pool, s.pool, fd);
        ghost var waited := s;
        Release(k);
        PinsComeTrans(before.pool, waited.pool, s.pool, fd);
      }
    }

    /** The dirty bit, by the holder of pin k. */
    method Mark(k: nat)
      requires Valid()
      modifies this
      ensures Valid() && Pages() == old(Pages()) && s == Apply(old(s), MarkDirty(k)) && PinsCome(old(s).pool, s.pool, fd)
      ensures s.pool.nextPin == old(s).pool.nextPin && (k in s.pool.pins <==> k in old(s).pool.pins)
      ensures k in s.pool.pins ==> !s.pool.pins[k].wrote && Dirty(s.pool, s.pool.pins[k].frame) && s.pool.pins[k].frame < |s.pool.ptes|
    {
      if k in s.pool.pins { PinShows(s, k); }
      ApplyKeeps(s, MarkDirty(k));
      PinsComeOnce(s, MarkDirty(k), fd);
      s := Apply(s, MarkDirty(k));
    }

    /** The holder of pin k writes the page and gives the pin back with DecRefCount(true). */
    method WritePage(page: nat, k: nat, bytes: seq<byte>, others: Others) returns (ok: bool)
      requires Valid() && page < numPages && PinInRange(s.pool, k) && s.pool.pins[k].page == PageId(fd, page) && |bytes| == PAGE
      modifies this
      ensures ok ==> Valid() && Pages() == old(Pages())[page := bytes]
      ensures ok ==> k !in s.pool.pins && PinsCome(old(s).pool, s.pool, fd)
      ensures ok && Event.Release(k) !in others.writing + others.marking ==> Dirty(s.pool, old(s).pool.pins[k].frame)
    {
      ghost var before := s;
      PinShows(s, k);
      assert PinOk(s.pool, k);
      ApplyKeeps(s, Event.Write(k, bytes));
      s := Apply(s, Event.Write(k, bytes));
      assert Pages() == old(Pages())[page := bytes];
      ghost var written := s;
      ok := Wait(others.writing);
      if ok {
        ghost var waited := s;
        PinsComeAndGo(written, others.writing, fd);
        if Event.Release(k) !in others.writing { Survives(written, others.writing, k); }
        ok := MarkAndRelease(k, others.marking);
        if ok {
          PinsComeTrans(written.pool, waited.pool, s.pool, fd);
          WroteAndGone(before.pool, written.pool, s.pool, k, fd);
        }
      }
    }

    /** One turn of GetBlock's loop: a page is fetched, its bytes are copied, and its pin is given back. */
    method ReadPage(page: nat, buf: array<byte>, at: nat, pageOffset: nat, size: nat, others: Others)
      returns (ok: bool, n: nat, ghost k: nat)
      requires Valid() && page < numPages && pageOffset < PAGE && at + size <= buf.Length
      modifies this, buf
      ensures Valid() && Pages() == old(Pages()) && (ok <==> Fetches(old(s), others.fetching, fd, page))
      ensures ok ==> n == ObjectSize(pageOffset, size) && n <= size
      ensures ok ==> forall l | 0 <= l < buf.Length ::
                       buf[l] == if at <= l < at + n then Pages()[page][pageOffset + l - at] else old(buf[l])
      ensures ok ==> && Granted(old(s), After(old(s), others.fetching), PageId(fd, page), k) && k !in s.pool.pins
                     && s == Apply(After(old(s), others.fetching), Event.Release(k))
                     && PinsCome(old(s).pool, s.pool, fd) && k < s.pool.nextPin
    {
      ghost var before := s;
      var l;
      ok, l := FetchPage(page, others.fetching);
      n, k := 0, l;
      if ok {
        ghost var fetched := s;
        n := GetObject(s.pool.frames[s.pool.pins[l].frame], buf, at, pageOffset, size);
        Release(l);
        PinsComeTrans(before.pool, fetched.pool, s.pool, fd);
      }
    }

    /** One turn of SetBlock's loop: a page is fetched, written and given back. */
    method UpdatePage(page: nat, buf: seq<byte>, at: nat, pageOffset: nat, size: nat, others: Others) returns (ok: bool, ghost k: nat)
      requires Valid() && page < numPages && pageOffset < PAGE && at + size <= |buf|
      modifies this
      ensures ok ==> Valid() && Pages() == old(Pages())[page := SetObject(buf, at, old(Pages())[page], pageOffset, size)]
      ensures ok ==> Granted(old(s), After(old(s), others.fetching), PageId(fd, page), k) && k !in s.pool.pins
      ensures ok ==> PinsCome(old(s).pool, s.pool, fd) && k < s.pool.nextPin
      ensures ok && Event.Release(k) !in others.writing + others.marking ==>
                Dirty(s.pool, After(old(s), others.fetching).pool.pins[k].frame)
    {
      ghost var before := s;
      var l;
      ok, l := FetchPage(page, others.fetching);
      k := l;
      if ok {
        ghost var fetched := s;
        var bytes := SetObject(buf, at, s.pool.frames[s.pool.pins[l].frame], pageOffset, size);
        ok := WritePage(page, l, bytes, others);
        if ok { PinsComeTrans(before.pool, fetched.pool, s.pool, fd); }
      }
    }

    /**
      GetBlock(char*, ...): exactly the requested bytes as last written, in order.  `ks` are the pins
      it was granted, one a page; none of them is left.
     */
    method GetBlock(buf: array<byte>, fileOffset: nat, blockSize: nat, others: nat -> Others) returns (ok: bool, ghost ks: seq<nat>)
      requires Valid() && blockSize <= buf.Length && fileOffset + blockSize <= PAGE * numPages
      modifies this, buf
      ensures Valid() && Pages() == old(Pages()) && |Flat(Pages())| == PAGE * numPages
      ensures ok ==> buf[..blockSize] == Flat(Pages())[fileOffset..fileOffset + blockSize]
      ensures ok ==> buf[blockSize..] == old(buf[blockSize..])
      ensures ok ==> |ks| == NumPage(fileOffset % PAGE, blockSize) && GivenBack(old(s).pool, s.pool, ks)
    {
      var fpageId: nat, fpageOffset: nat, left: nat, at: nat := fileOffset / PAGE, fileOffset % PAGE, blockSize, 0;
      ghost var pages, first := Pages(), s.pool;
      ks := [];
      FlatSize(pages);
      while left > 0
        invariant Reading(pages, first, buf[..], fileOffset, blockSize, fpageId, fpageOffset, left, at, ks)
        invariant buf[blockSize..] == old(buf[blockSize..])
        decreases left
      {
        var n;
        ok, n, ks := ReadTurn(pages, first, buf, fileOffset, blockSize, fpageId, fpageOffset, left, at, ks, others(fpageId));
        if !ok {
          return;
        }
        left := left - n;
        at := at + n;
        fpageId := fpageId + 1;
        fpageOffset := 0;
      }
      CopiedIsSlice(buf[..], blockSize, pages, fileOffset);
      assert buf[..][..blockSize] == buf[..blockSize];
      PagesTouched(fileOffset, blockSize, fpageId, fpageOffset, left, at, |ks|);
      ok := true;
    }

    /** GetBlock before a turn of its loop: `at` bytes are copied, and the pins ks are given back. */
    ghost predicate Reading(pages: seq<seq<byte>>, first: Pool, buf: seq<byte>, offset: nat, size: nat,
                            page: nat, pageOffset: nat, left: nat, at: nat, ks: seq<nat>)
      reads this
    {
      && Stands(offset, size, page, pageOffset, left, at, |ks|) && offset + size <= PAGE * numPages && size <= |buf|
      && Valid() && Pages() == pages && GivenBack(first, s.pool, ks) && Copied(buf, at, pages, offset)
    }

    method ReadTurn(ghost pages: seq<seq<byte>>, ghost first: Pool, buf: array<byte>, ghost offset: nat, ghost size: nat,
                    page: nat, pageOffset: nat, left: nat, at: nat, ghost ks: seq<nat>, others: Others)
      returns (ok: bool, n: nat, ghost ks': seq<nat>)
      requires Reading(pages, first, buf[..], offset, size, page, pageOffset, left, at, ks) && left > 0
      modifies this, buf
      ensures Valid() && Pages() == old(Pages())
      ensures ok ==> n == ObjectSize(pageOffset, left) && 0 < n <= left
      ensures ok ==> Reading(pages, first, buf[..], offset, size, page + 1, 0, left - n, at + n, ks')
      ensures ok ==> buf[size..] == old(buf[size..])
    {
      TurnFits(offset, size, page, pageOffset, left, at, |ks|, numPages);
      ghost var was, g := buf[..], s.pool;
      ghost var k;
      ok, n, k := ReadPage(page, buf, at, pageOffset, left, others);
      ks' := ks + [k];
      if ok {
        CopiedOn(was, buf[..], pages, at, offset, page, pageOffset, n);
        GivenBackMore(first, g, s.pool, ks, k, fd);
      }
    }

    method GetObject(src: seq<byte>, buf: array<byte>, at: nat, pageOffset: nat, size: nat) returns (n: nat)
      requires |src| == PAGE && pageOffset < PAGE && at + size <= buf.Length
      modifies buf
      ensures n == ObjectSize(pageOffset, size) && n <= size
      ensures forall k | 0 <= k < buf.Length ::
                buf[k] == if at <= k < at + n then src[pageOffset + k - at] else old(buf[k])
    {
      n := ObjectSize(pageOffset, size);
      for i := 0 to n
        invariant forall k | 0 <= k < buf.Length ::
                    buf[k] == if at <= k < at + i then src[pageOffset + k - at] else old(buf[k])
      {
        buf[at + i] := src[pageOffset + i];
      }
    }

    /**
      SetBlock(const char*, ...): the bytes go exactly to their range and nothing else changes.  `ks`
      are the pins it was granted, one a page; none of them is left.
     */
    method SetBlock(buf: seq<byte>, fileOffset: nat, blockSize: nat, others: nat -> Others) returns (ok: bool, ghost ks: seq<nat>)
      requires Valid() && blockSize <= |buf| && fileOffset + blockSize <= PAGE * numPages
      modifies this
      ensures ok ==> Valid() && |Flat(old(Pages()))| == PAGE * numPages
      ensures ok ==> Flat(Pages()) == Flat(old(Pages()))[..fileOffset] + buf[..blockSize] + Flat(old(Pages()))[fileOffset + blockSize..]
      ensures ok ==> |ks| == NumPage(fileOffset % PAGE, blockSize) && GivenBack(old(s).pool, s.pool, ks)
    {
      var fpageId: nat, fpageOffset: nat, left: nat, at: nat := fileOffset / PAGE, fileOffset % PAGE, blockSize, 0;
      ghost var pages, first := Pages(), s.pool;
      ks := [];
      while left > 0
        invariant Writing(pages, first, buf, fileOffset, blockSize, fpageId, fpageOffset, left, at, ks)
        decreases left
      {
        var n;
        ok, n, ks := WriteTurn(pages, first, buf, fileOffset, blockSize, fpageId, fpageOffset, left, at, ks, others(fpageId));
        if !ok {
          return;
        }
        left := left - n;
        at := at + n;
        fpageId := fpageId + 1;
        fpageOffset := 0;
      }
      SplicedIsSplice(pages, Pages(), buf, blockSize, fileOffset);
      PagesTouched(fileOffset, blockSize, fpageId, fpageOffset, left, at, |ks|);
      ok := true;
    }

    /** SetBlock before a turn of its loop: `at` bytes are written, and the pins ks are given back. */
    ghost predicate Writing(pages: seq<seq<byte>>, first: Pool, buf: seq<byte>, offset: nat, size: nat,
                            page: nat, pageOffset: nat, left: nat, at: nat, ks: seq<nat>)
      reads this
    {
      && Stands(offset, size, page, pageOffset, left, at, |ks|) && offset + size <= PAGE * numPages && size <= |buf|
      && Valid() && Spliced(pages, Pages(), buf, at, offset) && GivenBack(first, s.pool, ks)
    }

    method WriteTurn(ghost pages: seq<seq<byte>>, ghost first: Pool, buf: seq<byte>, ghost offset: nat, ghost size: nat,
                     page: nat, pageOffset: nat, left: nat, at: nat, ghost ks: seq<nat>, others: Others)
      returns (ok: bool, n: nat, ghost ks': seq<nat>)
      requires Writing(pages, first, buf, offset, size, page, pageOffset, left, at, ks) && left > 0
      modifies this
      ensures ok ==> n == ObjectSize(pageOffset, left) && 0 < n <= left
      ensures ok ==> Writing(pages, first, buf, offset, size, page + 1, 0, left - n, at + n, ks')
    {
      TurnFits(offset, size, page, pageOffset, left, at, |ks|, numPages);
      ghost var before, g := Pages(), s.pool;
      n := ObjectSize(pageOffset, left);
      ghost var k;
      ok, k := UpdatePage(page, buf, at, pageOffset, left, others);
      ks' := ks + [k];
      if ok {
        SplicedPage(pages, before, Pages(), buf, at, offset, page, pageOffset, left);
        GivenBackMore(first, g, s.pool, ks, k, fd);
      }
    }

    /**
      What SetBlock wrote, GetBlock reads back, whatever fetches, evictions and reloads come before,
      between and in the course of the two; bytes outside the range written read as before.
     */
    method ReadAfterWrite(data: seq<byte>, fileOffset: nat, writing: nat -> Others, between: seq<Event>,
                          buf: array<byte>, offset: nat, reading: nat -> Others) returns (ok: bool)
      requires Valid() && fileOffset + |data| <= PAGE * numPages && offset + buf.Length <= PAGE * numPages
      modifies this, buf
      ensures ok ==> Valid() && |Flat(old(Pages()))| == PAGE * numPages
      ensures ok ==> forall k | 0 <= k < buf.Length ::
                       buf[k] == if fileOffset <= offset + k < fileOffset + |data|
                                 then data[offset + k - fileOffset] else Flat(old(Pages()))[offset + k]
    {
      ok := Write(data, fileOffset, writing, between);
      if ok {
        ok := Read(buf, offset, reading);
        if ok {
          ReadBack(Flat(old(Pages())), data, fileOffset, buf[..], offset);
        }
      }
    }

    method Write(data: seq<byte>, fileOffset: nat, writing: nat -> Others, between: seq<Event>) returns (ok: bool)
      requires Valid() && fileOffset + |data| <= PAGE * numPages
      modifies this
      ensures ok ==> Valid() && |Flat(old(Pages()))| == PAGE * numPages
      ensures ok ==> Flat(Pages()) == Flat(old(Pages()))[..fileOffset] + data + Flat(old(Pages()))[fileOffset + |data|..]
    {
      ghost var ks;
      ok, ks := SetBlock(data, fileOffset, |data|, writing);
      if ok {
        assert data[..|data|] == data;
        ok := Wait(between);
      }
    }

    method Read(buf: array<byte>, offset: nat, reading: nat -> Others) returns (ok: bool)
      requires Valid() && offset + buf.Length <= PAGE * numPages
      modifies this, buf
      ensures ok ==> Valid() && Pages() == old(Pages()) && |Flat(Pages())| == PAGE * numPages
      ensures ok ==> buf[..] == Flat(Pages())[offset..offset + buf.Length]
    {
      ghost var ks;
      ok, ks := GetBlock(buf, offset, buf.Length, reading);
      assert buf[..buf.Length] == buf[..];
    }
  }

  lemma SplicedPage(was: seq<seq<byte>>, before: seq<seq<byte>>, pages: seq<seq<byte>>, buf: seq<byte>,
                    at: nat, offset: nat, p: nat, pageOffset: nat, left: nat)
    requires Spliced(was, before, buf, at, offset) && p < |before| && pageOffset < PAGE && at + left <= |buf|
    requires p * PAGE + pageOffset == offset + at
    requires PagesOk(before) && pages == before[p := SetObject(buf, at, before[p], pageOffset, left)]
    ensures Spliced(was, pages, buf, at + ObjectSize(pageOffset, left), offset)
  {
    var n := ObjectSize(pageOffset, left);
    SplicedMore(was, before, pages, buf, at, offset, p, pageOffset, n, at + n);
  }

  /** What a slice shows of a sequence into which data were spliced. */
  lemma ReadBack(flat: seq<byte>, data: seq<byte>, at: nat, buf: seq<byte>, offset: nat)
    requires at + |data| <= |flat| && offset + |buf| <= |flat|
    requires buf == (flat[..at] + data + flat[at + |data|..])[offset..offset + |buf|]
    ensures forall k | 0 <= k < |buf| :: buf[k] == if at <= offset + k < at + |data| then data[offset + k - at] else flat[offset + k]
  {
  }

  /** n more bytes of buf hold what page p has from pageOffset on. */
  lemma CopiedOn(was: seq<byte>, buf: seq<byte>, pages: seq<seq<byte>>, at: nat, offset: nat, p: nat, pageOffset: nat, n: nat)
    requires Copied(was, at, pages, offset) && p < |pages| && p * PAGE + pageOffset == offset + at && pageOffset + n <= PAGE
    requires |buf| == |was| && at + n <= |buf|
    requires forall k | 0 <= k < |buf| :: buf[k] == if at <= k < at + n then pages[p][pageOffset + k - at] else was[k]
    ensures Copied(buf, at + n, pages, offset)
  {
    forall k | 0 <= k < at + n ensures buf[k] == pages[(offset + k) / PAGE][(offset + k) % PAGE] {
      assert k >= at ==> offset + k == p * PAGE + (pageOffset + k - at);
    }
  }
}
