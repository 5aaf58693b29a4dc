/** Objects of one size in a file, padded so that none crosses a page, and where a block decodes to. */
module Layout {
  import opened Paging

  lemma MulMono(a: int, b: int, c: nat)
    ensures a <= b ==> a * c <= b * c
  {
  }

  function Times(a: nat, b: nat): nat {
    a * b
  }

  function Quot(a: nat, b: nat): nat
    requires b > 0
  {
    a / b
  }

  function Rem(a: nat, b: nat): (r: nat)
    requires b > 0
    ensures r < b
  {
    a % b
  }

  /** Division is the quotient that fits. */
  lemma DivIs(a: nat, b: nat, q: nat)
    requires b > 0 && q * b <= a < q * b + b
    ensures a / b == q && a % b == a - q * b
  {
    var d := a / b;
    assert a == d * b + a % b;
    MulMono(d + 1, q, b);
    MulMono(q + 1, d, b);
  }

  /** mmap_array after open: the item size and how many items a page takes. */
  function ObjNumPerPage(itemSize: nat): (m: nat)
    requires 1 <= itemSize <= PAGE
    ensures m >= 1 && m * itemSize <= PAGE < m * itemSize + itemSize
  {
    var m := PAGE / itemSize;
    assert PAGE == m * itemSize + PAGE % itemSize;
    if m == 0 then 1 else m
  }

  /** Where item idx starts in the file. */
  function Address(itemSize: nat, idx: nat): nat
    requires 1 <= itemSize <= PAGE
  {
    Quot(idx, ObjNumPerPage(itemSize)) * PAGE + Times(Rem(idx, ObjNumPerPage(itemSize)), itemSize)
  }

  /** No item crosses a page. */
  lemma ItemInPage(itemSize: nat, idx: nat)
    requires 1 <= itemSize <= PAGE
    ensures var m := ObjNumPerPage(itemSize);
            && idx % m * itemSize + itemSize <= PAGE
            && Address(itemSize, idx) / PAGE == idx / m
            && Address(itemSize, idx) % PAGE == idx % m * itemSize
  {
    var m := ObjNumPerPage(itemSize);
    MulMono(idx % m + 1, m, itemSize);
  }

  /** The bytes n items take from the start of a page: the size `resize` gives the file. */
  function FileSize(itemSize: nat, n: nat): nat
    requires 1 <= itemSize <= PAGE
  {
    var m := ObjNumPerPage(itemSize);
    Times(Rem(n, m), itemSize) + Quot(n, m) * PAGE
  }

  /** How many items `open` finds in a file of that size. */
  function ItemCount(itemSize: nat, fileSize: nat): nat
    requires 1 <= itemSize <= PAGE
  {
    Times(fileSize / PAGE, ObjNumPerPage(itemSize)) + Quot(fileSize % PAGE, itemSize)
  }

  /** open after resize finds as many items as were asked for. */
  lemma OpenAfterResize(itemSize: nat, n: nat)
    requires 1 <= itemSize <= PAGE
    ensures ItemCount(itemSize, FileSize(itemSize, n)) == n
  {
    var m := ObjNumPerPage(itemSize);
    ItemInPage(itemSize, n);
    var r := Times(n % m, itemSize);
    PageAndRest(n / m, r);
    DivIs(r, itemSize, n % m);
    assert n == n / m * m + n % m;
  }

  lemma PageAndRest(pages: nat, r: nat)
    requires r < PAGE
    ensures (r + pages * PAGE) / PAGE == pages && (r + pages * PAGE) % PAGE == r
  {
  }

  /** Each item of a resized file lies inside the file. */
  lemma ItemInFile(itemSize: nat, n: nat, k: nat)
    requires 1 <= itemSize <= PAGE && k < n
    ensures Address(itemSize, k) + itemSize <= FileSize(itemSize, n)
  {
    var m := ObjNumPerPage(itemSize);
    ItemInPage(itemSize, k);
    DivMono(k, n, m);
    if k / m == n / m {
      assert k == k / m * m + k % m && n == n / m * m + n % m;
      MulMono(k % m + 1, n % m, itemSize);
    } else {
      MulMono(k / m + 1, n / m, PAGE);
    }
  }

  lemma DivMono(a: nat, b: nat, m: nat)
    requires a <= b && m >= 1
    ensures a / m <= b / m
  {
    assert a == a / m * m + a % m && b == b / m * m + b % m;
    MulMono(b / m + 1, a / m, m);
  }

  /** The number of bytes `get(idx, len)` asks GetBlockSync for, from the item's address on. */
  function GetSize(itemSize: nat, idx: nat, len: nat): nat
    requires 1 <= itemSize <= PAGE
  {
    var rest := PAGE - Address(itemSize, idx) % PAGE;
    if rest > len * itemSize then itemSize * len
    else
      LeftOver(rest, itemSize, len);
      rest + FileSize(itemSize, len - rest / itemSize)
  }

  lemma LeftOver(rest: nat, itemSize: nat, len: nat)
    requires itemSize >= 1 && rest <= len * itemSize
    ensures rest / itemSize <= len
  {
    assert rest == rest / itemSize * itemSize + rest % itemSize;
    MulMono(len + 1, rest / itemSize, itemSize);
  }

  /** Decode: the address of the k-th item of a block. */
  function Decode(b: Block, itemSize: nat, k: nat): PageRef
    requires 1 <= itemSize <= PAGE && b.pages != [] && b.pages[0].off < PAGE
    requires |b.pages| >= 2 ==> DecodePage(b, itemSize, k) < |b.pages|
  {
    if |b.pages| < 2 then PageRef(b.pages[0].page, b.pages[0].off + k * itemSize)
    else if k == 0 then b.pages[0]
    else
      var objNumCurPage := (PAGE - b.pages[0].off % PAGE) / itemSize;
      if objNumCurPage > k then PageRef(b.pages[0].page, b.pages[0].off + k * itemSize)
      else
        var i := k - objNumCurPage;
        var p := b.pages[i / ObjNumPerPage(itemSize) + 1];
        PageRef(p.page, p.off + i % ObjNumPerPage(itemSize) * itemSize)
  }

  /** The page of the block that Decode looks at. */
  function DecodePage(b: Block, itemSize: nat, k: nat): nat
    requires 1 <= itemSize <= PAGE && b.pages != [] && b.pages[0].off < PAGE
  {
    var objNumCurPage := (PAGE - b.pages[0].off % PAGE) / itemSize;
    if |b.pages| < 2 || objNumCurPage > k then 0 else (k - objNumCurPage) / ObjNumPerPage(itemSize) + 1
  }

  /** How many items fit between item idx and the end of its page. */
  lemma RestOfPage(itemSize: nat, idx: nat)
    requires 1 <= itemSize <= PAGE
    ensures var m := ObjNumPerPage(itemSize);
            var rest := PAGE - Address(itemSize, idx) % PAGE;
            && rest == PAGE - idx % m * itemSize && rest >= itemSize
            && rest / itemSize == m - idx % m && (m - idx % m) * itemSize <= rest
  {
    var m := ObjNumPerPage(itemSize);
    ItemInPage(itemSize, idx);
    var r := idx % m;
    assert (m - r) * itemSize == m * itemSize - r * itemSize;
    DivIs(PAGE - r * itemSize, itemSize, m - r);
  }

  /** Adding k items to item idx, when they go past its page. */
  lemma Beyond(m: nat, idx: nat, k: nat)
    requires m >= 1 && k >= m - idx % m
    ensures var i := k - (m - idx % m);
            (idx + k) / m == idx / m + 1 + i / m && (idx + k) % m == i % m
  {
    var i := k - (m - idx % m);
    assert idx == idx / m * m + idx % m && i == i / m * m + i % m;
    assert (idx / m + 1 + i / m) * m == idx / m * m + m + i / m * m;
    DivIs(idx + k, m, idx / m + 1 + i / m);
  }

  lemma Within(m: nat, idx: nat, k: nat)
    requires m >= 1 && k < m - idx % m
    ensures (idx + k) / m == idx / m && (idx + k) % m == idx % m + k
  {
    assert idx == idx / m * m + idx % m;
    DivIs(idx + k, m, idx / m);
  }

  /** What get(idx, len) returns. */
  ghost function GetBlockOf(itemSize: nat, idx: nat, len: nat): Block
    requires 1 <= itemSize <= PAGE
  {
    BlockOf(Address(itemSize, idx), GetSize(itemSize, idx, len))
  }

  lemma CeilOfFileSize(itemSize: nat, n: nat)
    requires 1 <= itemSize <= PAGE && n >= 1
    ensures FileSize(itemSize, n) > 0 && Ceil(FileSize(itemSize, n), PAGE) == Ceil(n, ObjNumPerPage(itemSize))
  {
    var m := ObjNumPerPage(itemSize);
    ItemInPage(itemSize, n);
    assert n == n / m * m + n % m;
    MulMono(1, n % m, itemSize);
    var f := FileSize(itemSize, n);
    assert f / PAGE == n / m && f % PAGE == n % m * itemSize;
  }

  lemma MorePages(off: nat, size: nat)
    requires off < PAGE && size > 0
    ensures NumPage(off, PAGE - off + size) == 1 + Ceil(size, PAGE)
  {
  }

  /** The number of pages of the block get(idx, len) returns. */
  lemma PagesOfGet(itemSize: nat, idx: nat, len: nat)
    requires 1 <= itemSize <= PAGE && len >= 1
    ensures var m, b := ObjNumPerPage(itemSize), GetBlockOf(itemSize, idx, len);
            var first := m - idx % m;
            |b.pages| == if len <= first then 1 else 1 + Ceil(len - first, m)
  {
    var m := ObjNumPerPage(itemSize);
    var first, off := m - idx % m, Address(itemSize, idx) % PAGE;
    var rest := PAGE - off;
    RestOfPage(itemSize, idx);
    if rest > len * itemSize {
      FewerThan(rest, itemSize, len);
      MulMono(1, len, itemSize);
      OnePage(off, itemSize * len);
    } else {
      LeftOver(rest, itemSize, len);
      if len == first {
        OnePage(off, rest);
      } else {
        CeilOfFileSize(itemSize, len - first);
        MorePages(off, FileSize(itemSize, len - first));
      }
    }
  }

  /**
    The bytes get(idx, len) asks for: just the items' own as long as they fit behind item idx on its
    page; otherwise up to the end of the last item, or of its page if it is the last one there.
   */
  lemma SizeOfGet(itemSize: nat, idx: nat, len: nat)
    requires 1 <= itemSize <= PAGE
    ensures var m, last := ObjNumPerPage(itemSize), idx + len - 1;
            if len <= m - idx % m then GetSize(itemSize, idx, len) == len * itemSize
            else Address(itemSize, idx) + GetSize(itemSize, idx, len)
                 == if last % m == m - 1 then (last / m + 1) * PAGE else Address(itemSize, last) + itemSize
  {
    var first := ObjNumPerPage(itemSize) - idx % ObjNumPerPage(itemSize);
    if len <= first { SizeOnFirstPage(itemSize, idx, len); } else { SizeBeyond(itemSize, idx, len); }
  }

  lemma SizeOnFirstPage(itemSize: nat, idx: nat, len: nat)
    requires 1 <= itemSize <= PAGE && len <= ObjNumPerPage(itemSize) - idx % ObjNumPerPage(itemSize)
    ensures GetSize(itemSize, idx, len) == len * itemSize
  {
    var first := ObjNumPerPage(itemSize) - idx % ObjNumPerPage(itemSize);
    var rest := PAGE - Address(itemSize, idx) % PAGE;
    RestOfPage(itemSize, idx);
    MulMono(len, first, itemSize);
    if rest <= len * itemSize {
      MulMono(len + 1, first, itemSize);
      assert len == first && rest == len * itemSize;
      LeftOver(rest, itemSize, len);
    }
  }

  lemma SizeBeyond(itemSize: nat, idx: nat, len: nat)
    requires 1 <= itemSize <= PAGE && len > ObjNumPerPage(itemSize) - idx % ObjNumPerPage(itemSize)
    ensures var m, last := ObjNumPerPage(itemSize), idx + len - 1;
            Address(itemSize, idx) + GetSize(itemSize, idx, len)
            == if last % m == m - 1 then (last / m + 1) * PAGE else Address(itemSize, last) + itemSize
  {
    var m := ObjNumPerPage(itemSize);
    var first := m - idx % m;
    var n, rest := len - first, PAGE - Address(itemSize, idx) % PAGE;
    RestOfPage(itemSize, idx);
    ItemInPage(itemSize, idx);
    RestIsShort(itemSize, idx, len);
    assert GetSize(itemSize, idx, len) == rest + FileSize(itemSize, n);
    Beyond(m, idx, len - 1);
    OneBefore(n, m);
    EndOfItems(itemSize, idx / m + 1, n);
  }

  /** When the items go past the page, the rest of it is no more than they take. */
  lemma RestIsShort(itemSize: nat, idx: nat, len: nat)
    requires 1 <= itemSize <= PAGE && len > ObjNumPerPage(itemSize) - idx % ObjNumPerPage(itemSize)
    ensures PAGE - Address(itemSize, idx) % PAGE <= len * itemSize
  {
    var m := ObjNumPerPage(itemSize);
    ItemInPage(itemSize, idx);
    MulMono(m + 1 - idx % m, len, itemSize);
    assert (m + 1 - idx % m) * itemSize == m * itemSize + itemSize - idx % m * itemSize;
  }

  lemma OneBefore(n: nat, m: nat)
    requires n >= 1 && m >= 1
    ensures if n % m == 0 then (n - 1) / m == n / m - 1 && (n - 1) % m == m - 1
            else (n - 1) / m == n / m && (n - 1) % m == n % m - 1
  {
    assert n == n / m * m + n % m;
    if n % m == 0 {
      assert (n / m - 1) * m == n / m * m - m;
      DivIs(n - 1, m, n / m - 1);
    } else {
      DivIs(n - 1, m, n / m);
    }
  }

  /** Where n items end that start on page p. */
  lemma EndOfItems(itemSize: nat, p: nat, n: nat)
    requires 1 <= itemSize <= PAGE && n >= 1
    ensures var m := ObjNumPerPage(itemSize);
            p * PAGE + FileSize(itemSize, n)
            == if n % m == 0 then (p + n / m) * PAGE else (p + n / m) * PAGE + Times(n % m - 1, itemSize) + itemSize
  {
    var m := ObjNumPerPage(itemSize);
    if n % m != 0 { assert (n % m - 1) * itemSize == n % m * itemSize - itemSize; }
  }

  lemma FewerThan(rest: nat, itemSize: nat, len: nat)
    requires itemSize >= 1 && rest > len * itemSize
    ensures len <= rest / itemSize
  {
    assert rest == rest / itemSize * itemSize + rest % itemSize;
    MulMono(rest / itemSize + 1, len, itemSize);
  }

  lemma OnePage(off: nat, size: nat)
    requires off < PAGE && 1 <= size <= PAGE - off
    ensures NumPage(off, size) == 1
  {
  }

  /**
    Decoding item k of get(idx, len) gives the address of item idx + k, on a page the block has, and
    the whole item lies in that page.
   */
  lemma DecodeFindsItem(itemSize: nat, idx: nat, len: nat, k: nat)
    requires 1 <= itemSize <= PAGE && k < len
    ensures var b := GetBlockOf(itemSize, idx, len);
            && b.pages != [] && b.pages[0].off < PAGE && DecodePage(b, itemSize, k) < |b.pages|
            && var p := Decode(b, itemSize, k);
               p.page * PAGE + p.off == Address(itemSize, idx + k) && p.off + itemSize <= PAGE
  {
    var m, b := ObjNumPerPage(itemSize), GetBlockOf(itemSize, idx, len);
    var first := m - idx % m;
    PagesOfGet(itemSize, idx, len);
    RestOfPage(itemSize, idx);
    ItemInPage(itemSize, idx);
    ItemInPage(itemSize, idx + k);
    if k < first {
      Within(m, idx, k);
      assert (idx % m + k) * itemSize == idx % m * itemSize + k * itemSize;
    } else {
      Beyond(m, idx, k);
      LastPage(m, k - first, len - first);
    }
  }

  lemma LastPage(m: nat, i: nat, n: nat)
    requires m >= 1 && i < n
    ensures i / m < Ceil(n, m)
  {
    assert i == i / m * m + i % m && n == n / m * m + n % m;
    MulMono(n / m + 1, i / m, m);
  }
}
