/** Byte ranges of a file that is read and written a page at a time. */
module Paging {
  const PAGE: nat := 4096

  type byte = bv8

  ghost predicate PagesOk(pages: seq<seq<byte>>) {
    forall p | 0 <= p < |pages| :: |pages[p]| == PAGE
  }

  /** The file as one array of bytes. */
  ghost function Flat(pages: seq<seq<byte>>): seq<byte> {
    if pages == [] then [] else Flat(pages[..|pages| - 1]) + pages[|pages| - 1]
  }

  lemma {:induction false} FlatSize(pages: seq<seq<byte>>)
    requires PagesOk(pages)
    ensures |Flat(pages)| == PAGE * |pages|
  {
    if pages != [] { FlatSize(pages[..|pages| - 1]); }
  }

  lemma {:induction false} FlatAt(pages: seq<seq<byte>>, k: nat)
    requires PagesOk(pages) && k < PAGE * |pages|
    ensures |Flat(pages)| == PAGE * |pages| && Flat(pages)[k] == pages[k / PAGE][k % PAGE]
  {
    FlatSize(pages);
    var front := pages[..|pages| - 1];
    FlatSize(front);
    if k < PAGE * |front| { FlatAt(front, k); }
  }

  /** How many bytes one page gives: what GetObject and SetObject compute. */
  function ObjectSize(pageOffset: nat, size: nat): nat
    requires pageOffset < PAGE
  {
    if size + pageOffset > PAGE then PAGE - pageOffset else size
  }

  /** `buf[..n]` holds the n bytes of the file from offset on. */
  ghost predicate Copied(buf: seq<byte>, n: nat, pages: seq<seq<byte>>, offset: nat) {
    && n <= |buf| && PagesOk(pages) && offset + n <= PAGE * |pages|
    && forall k | 0 <= k < n :: buf[k] == pages[(offset + k) / PAGE][(offset + k) % PAGE]
  }

  lemma CopiedIsSlice(buf: seq<byte>, n: nat, pages: seq<seq<byte>>, offset: nat)
    requires Copied(buf, n, pages, offset)
    ensures |Flat(pages)| == PAGE * |pages| && buf[..n] == Flat(pages)[offset..offset + n]
  {
    FlatSize(pages);
    forall k | 0 <= k < n ensures buf[k] == Flat(pages)[offset + k] {
      FlatAt(pages, offset + k);
    }
  }

  /** The page after SetObject: the next bytes of buf, as many as fit. */
  function SetObject(buf: seq<byte>, at: nat, dst: seq<byte>, pageOffset: nat, size: nat): (r: seq<byte>)
    requires |dst| == PAGE && pageOffset < PAGE && at + size <= |buf|
    ensures |r| == PAGE
    ensures var n := ObjectSize(pageOffset, size);
            forall i | 0 <= i < PAGE :: r[i] == if pageOffset <= i < pageOffset + n then buf[at + i - pageOffset] else dst[i]
  {
    var n := ObjectSize(pageOffset, size);
    dst[..pageOffset] + buf[at..at + n] + dst[pageOffset + n..]
  }

  /** The byte of the file at k after the first n bytes of buf were put at offset. */
  ghost predicate SplicedAt(was: seq<seq<byte>>, pages: seq<seq<byte>>, buf: seq<byte>, n: nat, offset: nat, k: nat)
    requires PagesOk(was) && PagesOk(pages) && |was| == |pages| && k < PAGE * |pages| && n <= |buf|
  {
    pages[k / PAGE][k % PAGE] == if offset <= k < offset + n then buf[k - offset] else was[k / PAGE][k % PAGE]
  }

  ghost predicate Spliced(was: seq<seq<byte>>, pages: seq<seq<byte>>, buf: seq<byte>, n: nat, offset: nat) {
    && PagesOk(was) && PagesOk(pages) && |was| == |pages| && n <= |buf|
    && forall k {:trigger SplicedAt(was, pages, buf, n, offset, k)} | 0 <= k < PAGE * |pages| ::
         SplicedAt(was, pages, buf, n, offset, k)
  }

  lemma SplicedMore(was: seq<seq<byte>>, before: seq<seq<byte>>, pages: seq<seq<byte>>, buf: seq<byte>,
                    at: nat, offset: nat, p: nat, pageOffset: nat, n: nat, end: nat)
    requires Spliced(was, before, buf, at, offset) && end == at + n <= |buf| && p < |before| && pageOffset + n <= PAGE
    requires p * PAGE + pageOffset == offset + at
    requires PagesOk(pages) && |pages| == |before| && forall q | 0 <= q < |pages| && q != p :: pages[q] == before[q]
    requires forall i | 0 <= i < PAGE ::
               pages[p][i] == if pageOffset <= i < pageOffset + n then buf[at + i - pageOffset] else before[p][i]
    ensures Spliced(was, pages, buf, end, offset)
  {
    forall k | 0 <= k < PAGE * |pages| ensures SplicedAt(was, pages, buf, end, offset, k) {
      assert SplicedAt(was, before, buf, at, offset, k);
      assert k == k / PAGE * PAGE + k % PAGE;
    }
  }

  lemma SplicedIsSplice(was: seq<seq<byte>>, pages: seq<seq<byte>>, buf: seq<byte>, n: nat, offset: nat)
    requires Spliced(was, pages, buf, n, offset) && offset + n <= PAGE * |pages|
    ensures |Flat(was)| == PAGE * |was| && Flat(pages) == Flat(was)[..offset] + buf[..n] + Flat(was)[offset + n..]
  {
    FlatSize(was);
    FlatSize(pages);
    var r := Flat(was)[..offset] + buf[..n] + Flat(was)[offset + n..];
    forall k | 0 <= k < PAGE * |pages| ensures Flat(pages)[k] == r[k] {
      FlatAt(pages, k);
      FlatAt(was, k);
      assert SplicedAt(was, pages, buf, n, offset, k);
    }
  }

  /** What datas_[i] of a block points at: a byte of the frame that holds a file page. */
  datatype PageRef = PageRef(page: nat, off: nat)

  datatype Block = Block(size: nat, pages: seq<PageRef>)

  function Ceil(val: nat, modVal: nat): nat
    requires modVal > 0
  {
    val / modVal + if val % modVal == 0 then 0 else 1
  }

  function NumPage(fpageOffset: nat, blockSize: nat): nat
    requires fpageOffset < PAGE
  {
    if fpageOffset == 0 || blockSize <= PAGE - fpageOffset then Ceil(blockSize, PAGE)
    else Ceil(blockSize - (PAGE - fpageOffset), PAGE) + 1
  }

  /** The page count is the number of pages the byte range overlaps. */
  lemma NumPageIsOverlap(offset: nat, size: nat)
    requires size > 0
    ensures NumPage(offset % PAGE, size) == (offset + size - 1) / PAGE - offset / PAGE + 1
  {
  }

  ghost function BlockOf(offset: nat, size: nat): Block {
    Block(size, seq(NumPage(offset % PAGE, size), j requires j >= 0 => PageRef(offset / PAGE + j, if j == 0 then offset % PAGE else 0)))
  }

  method GetBlockSync(fileOffset: nat, blockSize: nat) returns (ret: Block)
    ensures ret == BlockOf(fileOffset, blockSize)
  {
    if blockSize == 0 {
      return Block(0, []);
    }
    var fpageOffset, fpageId := fileOffset % PAGE, fileOffset / PAGE;
    var numPage := NumPage(fpageOffset, blockSize);
    if numPage == 1 {
      return Block(blockSize, [PageRef(fpageId, fpageOffset)]);
    }
    var pages := [];
    var pageId := 0;
    while pageId < numPage
      invariant pageId <= numPage && |pages| == pageId && fpageId == fileOffset / PAGE + pageId
      invariant fpageOffset == if pageId == 0 then fileOffset % PAGE else 0
      invariant forall j | 0 <= j < pageId ::
                  pages[j] == PageRef(fileOffset / PAGE + j, if j == 0 then fileOffset % PAGE else 0)
    {
      pages := pages + [PageRef(fpageId, fpageOffset)];
      pageId := pageId + 1;
      fpageOffset := 0;
      fpageId := fpageId + 1;
    }
    ret := Block(blockSize, pages);
  }

  lemma CopiedMore(ret: seq<byte>, file: seq<seq<byte>>, offset: nat, page: nat, off: nat, n: nat)
    requires Copied(ret, |ret|, file, offset) && page < |file| && off + n <= PAGE && page * PAGE + off == offset + |ret|
    ensures Copied(ret + file[page][off..off + n], |ret| + n, file, offset)
  {
    var r := ret + file[page][off..off + n];
    forall k | 0 <= k < |r| ensures r[k] == file[(offset + k) / PAGE][(offset + k) % PAGE] {
      if k >= |ret| {
        assert offset + k == page * PAGE + (off + k - |ret|);
      }
    }
  }

  /** BufferBlock::Copy: the slices of the block's pages make up the requested bytes. */
  method Copy(b: Block, file: seq<seq<byte>>, ghost offset: nat) returns (ret: seq<byte>)
    requires PagesOk(file) && b == BlockOf(offset, b.size) && offset + b.size <= PAGE * |file|
    ensures |Flat(file)| == PAGE * |file| && ret == Flat(file)[offset..offset + b.size]
  {
    ret := [];
    if |b.pages| < 2 {
      if b.size > 0 {
        ret := file[b.pages[0].page][b.pages[0].off..b.pages[0].off + b.size];
        CopiedMore([], file, offset, b.pages[0].page, b.pages[0].off, b.size);
        assert [] + ret == ret;
      }
    } else {
      ret := CopySlices(b, file, offset);
    }
    CopiedIsSlice(ret, b.size, file, offset);
    assert ret[..b.size] == ret;
  }

  method CopySlices(b: Block, file: seq<seq<byte>>, ghost offset: nat) returns (ret: seq<byte>)
    requires PagesOk(file) && b == BlockOf(offset, b.size) && offset + b.size <= PAGE * |file| && |b.pages| >= 2
    ensures |ret| == b.size && Copied(ret, |ret|, file, offset)
  {
    ret := [];
    var sizeOld: nat := b.size;
    for i := 0 to |b.pages|
      invariant |ret| + sizeOld == b.size && Copied(ret, |ret|, file, offset)
      invariant sizeOld > 0 ==> offset + |ret| == if i == 0 then offset else (offset / PAGE + i) * PAGE
    {
      var locInPage := PAGE - b.pages[i].off % PAGE;
      var sliceLen := if locInPage < sizeOld then locInPage else sizeOld;
      if sliceLen > 0 {
        CopiedMore(ret, file, offset, b.pages[i].page, b.pages[i].off, sliceLen);
        ret := ret + file[b.pages[i].page][b.pages[i].off..b.pages[i].off + sliceLen];
      }
      sizeOld := sizeOld - sliceLen;
    }
    NumPageIsOverlap(offset, b.size);
  }
}
