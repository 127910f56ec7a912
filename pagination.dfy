/**
 * The greedy paginator behind the preview and the PDF: the input's hanzi,
 * one block each, packed in order onto pages of the 756 pt content height,
 * the last page padded with blank blocks, empty pages dropped.
 */
module Pagination {
  import opened Text
  import opened Dims
  import opened Settings

  /** What a page reads of `charInfoMap[char]`; "" stands for a missing or empty field. */
  datatype Info = Info(pinyin: string, pinyinAll: string)

  /**
   * One block of a page. A character block's key is `char-<ch>-<index>`, with
   * `index` its position among the input's hanzi; a blank block's key is
   * `empty-<page>-<slot>`.
   */
  datatype Block =
    | CharBlock(ch: CodeUnit, pinyin: string, pinyinAll: string, index: nat)
    | EmptyBlock(page: nat, slot: nat)
  {
    /** `block.pinyin`: a blank block carries the empty string. */
    function Pinyin(): string {
      if CharBlock? then pinyin else ""
    }

    /** `block.pinyinAll || block.pinyin`: the text of the header band. */
    function HeaderText(): string {
      if CharBlock? && pinyinAll != "" then pinyinAll else Pinyin()
    }
  }

  type Page = seq<Block>

  /**
   * The height of one block: note space, header band when shown, the grid
   * rows and the 0.5 pt border above and below. One value for the whole call.
   */
  function BlockHeight(s: Settings): (h: nat)
    ensures h >= Pt
    ensures h == Pt * s.topSpacing + (if s.showHeaderInfo then 15 * Pt else 0) + 1150 * s.rowsPerChar + Pt
  {
    Pt * s.topSpacing + (if s.showHeaderInfo then HeaderHeight else 0) + BoxHeight * s.rowsPerChar + BorderWidth * 2
  }

  /** The block for the hanzi `c` at position `k` of the filtered input. */
  function CharBlockFor(info: map<CodeUnit, Info>, c: CodeUnit, k: nat): (b: Block)
    ensures b.CharBlock? && b.ch == c && b.index == k
  {
    var i := if c in info then info[c] else Info("", "");
    CharBlock(c, i.pinyin, if i.pinyinAll != "" then i.pinyinAll else i.pinyin, k)
  }

  /** The character blocks of `h`, in order. */
  function CharBlocks(info: map<CodeUnit, Info>, h: JsString): (r: seq<Block>)
    ensures |r| == |h|
    ensures forall k :: 0 <= k < |h| ==> r[k] == CharBlockFor(info, h[k], k)
  {
    seq(|h|, k requires 0 <= k < |h| => CharBlockFor(info, h[k], k))
  }

  /** `count` blank blocks for page `page`, slots 0 to count - 1. */
  function Padding(page: nat, count: nat): (r: seq<Block>)
    ensures |r| == count
    ensures forall k :: 0 <= k < count ==> r[k] == EmptyBlock(page, k)
  {
    seq(count, k requires 0 <= k < count => EmptyBlock(page, k))
  }

  /** All blocks of the pages, in page order. */
  function Flatten(pages: seq<Page>): seq<Block>
  {
    if pages == [] then [] else Flatten(pages[..|pages| - 1]) + pages[|pages| - 1]
  }

  /** How many blocks fit on a page: at least one, since a block always starts a fresh page. */
  function PerPage(bh: nat): (k: nat)
    requires bh > 0
    ensures k >= 1
  {
    if bh <= ContentHeight then ContentHeight / bh else 1
  }

  /** The height of `n` stacked blocks of height `h`, as the running page height adds it up. */
  function Stack(n: nat, h: nat): nat
  {
    if n == 0 then 0 else Stack(n - 1, h) + h
  }

  lemma {:induction false} StackIsProduct(n: nat, h: nat)
    ensures Stack(n, h) == n * h
  {
    if n > 0 {
      StackIsProduct(n - 1, h);
      MulSucc(n - 1, h);
    }
  }

  /**
   * What the paginator returns for `text`: every page holds PerPage blocks;
   * read page after page they are the hanzi of the text in order, one block
   * each, followed by blank blocks keyed to the last page; there are as many
   * pages as the hanzi need, and one all-blank page for no hanzi (none when a
   * block is higher than a page).
   */
  ghost predicate Paginates(text: JsString, info: map<CodeUnit, Info>, s: Settings, pages: seq<Page>)
  {
    Layout(Hanzi(text), info, BlockHeight(s), pages)
  }

  /** `Paginates` for the hanzi `h` and blocks of height `bh`. */
  ghost predicate Layout(h: JsString, info: map<CodeUnit, Info>, bh: nat, pages: seq<Page>)
    requires bh > 0
  {
    var per := PerPage(bh);
    && |pages| == (if |h| > 0 then (|h| + per - 1) / per else if bh <= ContentHeight then 1 else 0)
    && (forall p :: 0 <= p < |pages| ==> |pages[p]| == per)
    && |h| <= |Flatten(pages)|
    && Flatten(pages) == CharBlocks(info, h) + Padding(if pages == [] then 0 else |pages| - 1, |Flatten(pages)| - |h|)
  }

  /** `pages.filter(page => page.length > 0)` */
  function DropEmptyPages(pages: seq<Page>): (r: seq<Page>)
    ensures forall p :: 0 <= p < |r| ==> r[p] != []
    ensures (forall p :: 0 <= p < |pages| ==> pages[p] != []) ==> r == pages
    ensures pages == [[]] ==> r == []
  {
    if pages == [] then []
    else
      var init, last := pages[..|pages| - 1], pages[|pages| - 1];
      DropEmptyPages(init) + (if last != [] then [last] else [])
  }

  /**
   * The walk over the hanzi: a new page is opened only when the current page
   * is non-empty and the next block would make it overflow, so every page but
   * the last is full and the last holds one to PerPage blocks.
   */
  method PackHanzi(charArray: JsString, info: map<CodeUnit, Info>, blockHeight: nat) returns (pages: seq<Page>)
    requires blockHeight > 0
    ensures |pages| >= 1
    ensures Packed(charArray, info, blockHeight, |charArray|, pages, Stack(|pages[|pages| - 1]|, blockHeight))
  {
    var maxPageHeight := ContentHeight;
    pages := [[]];
    var currentPageHeight := 0;
    var charIndex := 0;
    while charIndex < |charArray|
      invariant Packed(charArray, info, blockHeight, charIndex, pages, currentPageHeight)
    {
      var ch := charArray[charIndex];
      ghost var before, height := pages, currentPageHeight;
      var breaks := currentPageHeight + blockHeight > maxPageHeight && currentPageHeight > 0;
      if breaks {
        pages := pages + [[]];
        currentPageHeight := 0;
      }
      var block := CharBlockFor(info, ch, charIndex);
      pages := pages[|pages| - 1 := pages[|pages| - 1] + [block]];
      currentPageHeight := currentPageHeight + blockHeight;
      PackStep(charArray, info, blockHeight, charIndex, before, height, breaks, pages, currentPageHeight);
      charIndex := charIndex + 1;
    }
  }

  /** The state of the walk after `i` hanzi, with `cur` the running height of the current page. */
  ghost predicate Packed(charArray: JsString, info: map<CodeUnit, Info>, bh: nat, i: nat, pages: seq<Page>, cur: nat)
    requires bh > 0
  {
    var per := PerPage(bh);
    && i <= |charArray|
    && |pages| >= 1
    && (i == 0 ==> pages == [[]] && cur == 0)
    && (i > 0 ==> 1 <= |pages[|pages| - 1]| <= per && i == Stack(|pages| - 1, per) + |pages[|pages| - 1]|)
    && (forall p :: 0 <= p < |pages| - 1 ==> |pages[p]| == per)
    && cur == Stack(|pages[|pages| - 1]|, bh)
    && Flatten(pages) == CharBlocks(info, charArray[..i])
  }

  /** One step of the walk keeps its state consistent. */
  lemma PackStep(charArray: JsString, info: map<CodeUnit, Info>, bh: nat, i: nat, pages: seq<Page>, cur: nat,
                  breaks: bool, next: seq<Page>, nextCur: nat)
    requires bh > 0 && i < |charArray|
    requires Packed(charArray, info, bh, i, pages, cur)
    requires breaks == (cur + bh > ContentHeight && cur > 0)
    requires var p1 := if breaks then pages + [[]] else pages;
      next == p1[|p1| - 1 := p1[|p1| - 1] + [CharBlockFor(info, charArray[i], i)]]
    requires nextCur == (if breaks then 0 else cur) + bh
    ensures Packed(charArray, info, bh, i + 1, next, nextCur)
  {
    var block := CharBlockFor(info, charArray[i], i);
    CharBlocksSnoc(info, charArray[..i], charArray[i]);
    assert charArray[..i + 1] == charArray[..i] + [charArray[i]];
    if breaks {
      var p1 := pages + [[]];
      assert |p1| - 1 == |pages| && p1[|pages|] + [block] == [block];
      assert p1[|pages| := [block]] == pages + [[block]];
      PackOnNewPage(charArray, info, bh, i, pages, cur, next);
    } else {
      PackOnSamePage(charArray, info, bh, i, pages, cur, next);
    }
  }

  /** The step that opens a new page: the previous page was full. */
  lemma PackOnNewPage(charArray: JsString, info: map<CodeUnit, Info>, bh: nat, i: nat, pages: seq<Page>, cur: nat,
                      next: seq<Page>)
    requires bh > 0 && i < |charArray|
    requires Packed(charArray, info, bh, i, pages, cur)
    requires cur + bh > ContentHeight && cur > 0
    requires next == pages + [[CharBlockFor(info, charArray[i], i)]]
    requires CharBlocks(info, charArray[..i + 1]) == CharBlocks(info, charArray[..i]) + [CharBlockFor(info, charArray[i], i)]
    ensures Packed(charArray, info, bh, i + 1, next, bh)
  {
    FullIff(|pages[|pages| - 1]|, bh);
    FlattenSnoc(pages, [CharBlockFor(info, charArray[i], i)]);
  }

  /** The step that stays on the current page: the block still fits, or the page is empty. */
  lemma PackOnSamePage(charArray: JsString, info: map<CodeUnit, Info>, bh: nat, i: nat, pages: seq<Page>, cur: nat,
                       next: seq<Page>)
    requires bh > 0 && i < |charArray|
    requires Packed(charArray, info, bh, i, pages, cur)
    requires !(cur + bh > ContentHeight && cur > 0)
    requires next == pages[|pages| - 1 := pages[|pages| - 1] + [CharBlockFor(info, charArray[i], i)]]
    requires CharBlocks(info, charArray[..i + 1]) == CharBlocks(info, charArray[..i]) + [CharBlockFor(info, charArray[i], i)]
    ensures Packed(charArray, info, bh, i + 1, next, cur + bh)
  {
    if i > 0 {
      FullIff(|pages[|pages| - 1]|, bh);
    }
    AppendToLast(pages, [CharBlockFor(info, charArray[i], i)]);
  }

  /**
   * The `paginatedBlocks` memo: walk the hanzi, open a new page when the
   * current one is non-empty and the next block would overflow it, pad the
   * last page, drop empty pages.
   */
  method Paginate(text: JsString, info: map<CodeUnit, Info>, s: Settings) returns (pages: seq<Page>)
    ensures Paginates(text, info, s, pages)
  {
    var charArray := Hanzi(text);
    var blockHeight := BlockHeight(s);
    pages := PackHanzi(charArray, info, blockHeight);
    ghost var packed := pages;
    ghost var added;
    pages, added := PadLastPage(pages, |charArray|, blockHeight);
    PaddedLayout(charArray, info, blockHeight, packed, added, pages);
    pages := FillEmptyFirstPage(pages, |charArray|, blockHeight);
    pages := DropEmptyPages(pages);
  }

  /** The walk followed by the padding of the last page gives, once empty pages are dropped, the layout `Paginates` describes. */
  lemma PaddedLayout(h: JsString, info: map<CodeUnit, Info>, bh: nat, packed: seq<Page>, added: nat, padded: seq<Page>)
    requires bh > 0 && |packed| >= 1
    requires Packed(h, info, bh, |h|, packed, Stack(|packed[|packed| - 1]|, bh))
    requires padded == packed[|packed| - 1 := packed[|packed| - 1] + Padding(|packed| - 1, added)]
    requires |h| > 0 || bh <= ContentHeight ==> |padded[|packed| - 1]| == PerPage(bh)
    requires |h| == 0 && bh > ContentHeight ==> padded == [[]]
    ensures |h| == 0 && bh > ContentHeight ==> padded == [[]]
    ensures |h| > 0 || bh <= ContentHeight ==> forall p :: 0 <= p < |padded| ==> padded[p] != []
    ensures Layout(h, info, bh, DropEmptyPages(padded))
  {
    if |h| == 0 && bh > ContentHeight {
      assert DropEmptyPages(padded) == [];
    } else {
      PaddedLayoutFull(h, info, bh, packed, added, padded);
    }
  }

  /** The case where the last page is brought to `PerPage(bh)` blocks. */
  lemma PaddedLayoutFull(h: JsString, info: map<CodeUnit, Info>, bh: nat, packed: seq<Page>, added: nat, padded: seq<Page>)
    requires bh > 0 && |packed| >= 1
    requires Packed(h, info, bh, |h|, packed, Stack(|packed[|packed| - 1]|, bh))
    requires padded == packed[|packed| - 1 := packed[|packed| - 1] + Padding(|packed| - 1, added)]
    requires |h| > 0 || bh <= ContentHeight
    requires |padded[|packed| - 1]| == PerPage(bh)
    ensures forall p :: 0 <= p < |padded| ==> |padded[p]| == PerPage(bh)
    ensures Layout(h, info, bh, padded)
  {
    var per, m := PerPage(bh), |packed|;
    assert h[..|h|] == h;
    assert Flatten(packed) == CharBlocks(info, h);
    if |h| > 0 {
      PageCount(|h|, per, m, |packed[m - 1]|);
    }
    assert |padded| == (if |h| > 0 then (|h| + per - 1) / per else 1);
    assert forall p :: 0 <= p < |padded| ==> |padded[p]| == per;
    AppendToLast(packed, Padding(m - 1, added));
    assert Flatten(padded) == CharBlocks(info, h) + Padding(m - 1, added);
  }

  /**
   * The padding of the last page: as many blank blocks as the height left on
   * it allows, none when its one block already overflows. For no hanzi the
   * page is empty and gets ContentHeight / blockHeight of them.
   */
  method PadLastPage(pages: seq<Page>, charCount: nat, blockHeight: nat) returns (padded: seq<Page>, ghost added: nat)
    requires blockHeight > 0 && |pages| >= 1
    requires charCount == 0 ==> pages == [[]]
    requires charCount > 0 ==> 1 <= |pages[|pages| - 1]| <= PerPage(blockHeight)
    ensures padded == pages[|pages| - 1 := pages[|pages| - 1] + Padding(|pages| - 1, added)]
    ensures charCount > 0 || blockHeight <= ContentHeight ==> |padded[|pages| - 1]| == PerPage(blockHeight)
    ensures charCount == 0 && blockHeight > ContentHeight ==> padded == [[]]
  {
    padded := pages;
    added := 0;
    var maxPageHeight := ContentHeight;
    var lastPageIndex := |pages| - 1;
    if |pages[lastPageIndex]| > 0 || charCount == 0 {
      var lastPage := pages[lastPageIndex];
      var currentHeight := |lastPage| * blockHeight;
      var remainingHeight := maxPageHeight - currentHeight;
      var emptyBlocksToFill := remainingHeight / blockHeight;
      PaddingFills(|lastPage|, blockHeight, charCount == 0);
      var i := 0;
      while i < emptyBlocksToFill
        invariant 0 <= i <= if emptyBlocksToFill > 0 then emptyBlocksToFill else 0
        invariant lastPage == pages[lastPageIndex] + Padding(lastPageIndex, i)
      {
        lastPage := lastPage + [EmptyBlock(lastPageIndex, i)];
        i := i + 1;
      }
      added := i;
      padded := pages[lastPageIndex := lastPage];
    }
  }

  /**
   * The second fill, for an input without hanzi whose only page is still
   * empty: it adds ContentHeight / blockHeight blanks, a count the first fill
   * already tried, so it never adds any.
   */
  method FillEmptyFirstPage(pages: seq<Page>, charCount: nat, blockHeight: nat) returns (filled: seq<Page>)
    requires blockHeight > 0
    requires charCount == 0 && blockHeight > ContentHeight ==> pages == [[]]
    requires charCount > 0 || blockHeight <= ContentHeight ==> forall p :: 0 <= p < |pages| ==> pages[p] != []
    ensures filled == pages
  {
    filled := pages;
    if |pages| == 1 && |pages[0]| == 0 && charCount == 0 {
      var blocksToFill := ContentHeight / blockHeight;
      var firstPage := pages[0];
      var i := 0;
      while i < blocksToFill
        invariant 0 <= i <= blocksToFill
        invariant firstPage == pages[0] + Padding(0, i)
      {
        firstPage := firstPage + [EmptyBlock(0, i)];
        i := i + 1;
      }
      filled := [firstPage];
    }
  }

  /** Appending one page to the list appends its blocks to the flattening. */
  lemma FlattenSnoc(pages: seq<Page>, page: Page)
    ensures Flatten(pages + [page]) == Flatten(pages) + page
  {
    assert (pages + [page])[..|pages|] == pages;
  }

  /** One more hanzi gives one more character block, at the end. */
  lemma CharBlocksSnoc(info: map<CodeUnit, Info>, h: JsString, c: CodeUnit)
    ensures CharBlocks(info, h + [c]) == CharBlocks(info, h) + [CharBlockFor(info, c, |h|)]
  {
  }

  /** Appending blocks to the last page appends them to the flattening. */
  lemma AppendToLast(pages: seq<Page>, blocks: seq<Block>)
    requires |pages| >= 1
    ensures Flatten(pages[|pages| - 1 := pages[|pages| - 1] + blocks]) == Flatten(pages) + blocks
  {
    var last := |pages| - 1;
    FlattenSnoc(pages[..last], pages[last] + blocks);
    FlattenSnoc(pages[..last], pages[last]);
    assert pages[..last] + [pages[last]] == pages;
    assert pages[last := pages[last] + blocks] == pages[..last] + [pages[last] + blocks];
  }

  /** `m * b <= c` exactly when `m <= c / b`. */
  lemma MulLeIff(m: nat, b: nat, c: nat)
    requires b > 0
    ensures m * b <= c <==> m <= c / b
  {
    var q, r := c / b, c % b;
    assert c == q * b + r && 0 <= r < b;
    if m <= q {
      assert m * b <= q * b by { MulMono(m, q, b); }
    } else {
      assert (q + 1) * b <= m * b by { MulMono(q + 1, m, b); }
    }
  }

  lemma MulSub(a: nat, l: nat, b: nat)
    requires l <= a
    ensures (a - l) * b == a * b - l * b
  {
    assert (a - l) * b + l * b == ((a - l) + l) * b;
  }

  lemma MulSucc(l: nat, b: nat)
    ensures (l + 1) * b == l * b + b
  {
  }

  lemma MulMono(x: nat, y: nat, b: nat)
    requires x <= y
    ensures x * b <= y * b
  {
  }

  /** A page holding `l` blocks refuses the next one exactly when it is full. */
  lemma FullIff(l: nat, bh: nat)
    requires bh > 0 && 1 <= l <= PerPage(bh)
    ensures (Stack(l, bh) + bh > ContentHeight) <==> l == PerPage(bh)
  {
    StackIsProduct(l, bh);
    if bh <= ContentHeight {
      MulLeIff(l + 1, bh, ContentHeight);
      MulSucc(l, bh);
    }
  }

  /** The padding brings a last page of `l` blocks up to PerPage blocks (or up to what fits, when empty). */
  lemma PaddingFills(l: nat, bh: nat, noHanzi: bool)
    requires bh > 0
    requires noHanzi ==> l == 0
    requires !noHanzi ==> 1 <= l <= PerPage(bh)
    ensures var e := (ContentHeight - l * bh) / bh;
      && (!noHanzi ==> l + (if e > 0 then e else 0) == PerPage(bh))
      && (noHanzi ==> e == ContentHeight / bh && (bh <= ContentHeight <==> e >= 1))
  {
    if bh <= ContentHeight {
      BlanksWhenFits(l, bh);
      MulLeIff(1, bh, ContentHeight);
    } else {
      BlanksWhenTooHigh(l, bh);
    }
  }

  /** When a block fits a page, `l` blocks leave room for `ContentHeight / bh - l` more. */
  lemma BlanksWhenFits(l: nat, bh: nat)
    requires 0 < bh <= ContentHeight && l <= ContentHeight / bh
    ensures (ContentHeight - l * bh) / bh == ContentHeight / bh - l
  {
    var per, r := ContentHeight / bh, ContentHeight % bh;
    assert ContentHeight == per * bh + r;
    MulSub(per, l, bh);
    DivOfMulPlus(per - l, bh, r);
  }

  /** When a block is higher than a page, an empty page leaves room for none, and one block for fewer than none. */
  lemma BlanksWhenTooHigh(l: nat, bh: nat)
    requires bh > ContentHeight && l <= 1
    ensures l == 0 ==> (ContentHeight - l * bh) / bh == 0 && ContentHeight / bh == 0
    ensures l == 1 ==> (ContentHeight - l * bh) / bh <= 0
  {
    var a := ContentHeight - l * bh;
    var d, m := a / bh, a % bh;
    assert a == d * bh + m && 0 <= m < bh;
    if d >= 1 {
      MulMono(1, d, bh);
    }
  }

  /** `(q * b + r) / b == q` for a remainder `0 <= r < b`. */
  lemma DivOfMulPlus(q: nat, b: nat, r: nat)
    requires b > 0 && r < b
    ensures (q * b + r) / b == q
  {
    var d, m := (q * b + r) / b, (q * b + r) % b;
    assert d * b + m == q * b + r && 0 <= m < b;
    if d < q {
      assert (d + 1) * b == d * b + b;
      MulMono(d + 1, q, b);
    } else if d > q {
      assert (q + 1) * b == q * b + b;
      MulMono(q + 1, d, b);
    }
  }

  /** `m` pages of which all but the last hold `per` blocks and the last 1 to `per` blocks hold ceil(n / per) blocks. */
  lemma PageCount(n: nat, per: nat, m: nat, l: nat)
    requires per >= 1 && m >= 1 && 1 <= l <= per
    requires n == Stack(m - 1, per) + l
    ensures m == (n + per - 1) / per
  {
    StackIsProduct(m - 1, per);
    MulSucc(m - 1, per);
    assert n + per - 1 == m * per + (l - 1);
    DivOfMulPlus(m, per, l - 1);
  }

  // ---------------------------------------------------------------------
  // What the paginator promises, derived from Paginates
  // ---------------------------------------------------------------------

  /** The hanzi carried by a list of blocks, in order. */
  function CharsOf(blocks: seq<Block>): JsString
  {
    if blocks == [] then []
    else
      var last := blocks[|blocks| - 1];
      CharsOf(blocks[..|blocks| - 1]) + (if last.CharBlock? then [last.ch] else [])
  }

  /**
   * Reading the character blocks page after page gives exactly the input's
   * hanzi in input order, one block each, keyed by their position: nothing
   * dropped, reordered or duplicated.
   */
  lemma HanziKeptInOrder(text: JsString, info: map<CodeUnit, Info>, s: Settings, pages: seq<Page>)
    requires Paginates(text, info, s, pages)
    ensures CharsOf(Flatten(pages)) == Hanzi(text)
    ensures forall k :: 0 <= k < |Hanzi(text)| ==>
      Flatten(pages)[k].CharBlock? && Flatten(pages)[k].ch == Hanzi(text)[k] && Flatten(pages)[k].index == k
  {
    LayoutKeepsChars(Hanzi(text), info, BlockHeight(s), pages);
    LayoutCharPositions(Hanzi(text), info, BlockHeight(s), pages);
  }

  lemma LayoutKeepsChars(h: JsString, info: map<CodeUnit, Info>, bh: nat, pages: seq<Page>)
    requires bh > 0 && Layout(h, info, bh, pages)
    ensures CharsOf(Flatten(pages)) == h
  {
    var pad := |Flatten(pages)| - |h|;
    CharsOfPadding(CharBlocks(info, h), if pages == [] then 0 else |pages| - 1, pad);
    CharsOfCharBlocks(info, h);
  }

  lemma LayoutCharPositions(h: JsString, info: map<CodeUnit, Info>, bh: nat, pages: seq<Page>)
    requires bh > 0 && Layout(h, info, bh, pages)
    ensures forall k :: 0 <= k < |h| ==>
      Flatten(pages)[k].CharBlock? && Flatten(pages)[k].ch == h[k] && Flatten(pages)[k].index == k
  {
    var flat, chars := Flatten(pages), CharBlocks(info, h);
    forall k | 0 <= k < |h|
      ensures flat[k] == CharBlockFor(info, h[k], k)
    {
      assert flat[k] == chars[k];
    }
  }

  lemma {:induction false} CharsOfPadding(blocks: seq<Block>, page: nat, count: nat)
    ensures CharsOf(blocks + Padding(page, count)) == CharsOf(blocks)
  {
    if count == 0 {
      assert blocks + Padding(page, 0) == blocks;
    } else {
      CharsOfPadding(blocks, page, count - 1);
      assert (blocks + Padding(page, count))[..|blocks| + count - 1] == blocks + Padding(page, count - 1);
    }
  }

  lemma {:induction false} CharsOfCharBlocks(info: map<CodeUnit, Info>, h: JsString)
    ensures CharsOf(CharBlocks(info, h)) == h
  {
    if h != [] {
      var init := h[..|h| - 1];
      CharsOfCharBlocks(info, init);
      CharBlocksSnoc(info, init, h[|h| - 1]);
      assert init + [h[|h| - 1]] == h;
      assert CharBlocks(info, h)[..|h| - 1] == CharBlocks(info, init);
    }
  }

  /** No returned page is empty. */
  lemma NoEmptyPage(text: JsString, info: map<CodeUnit, Info>, s: Settings, pages: seq<Page>)
    requires Paginates(text, info, s, pages)
    ensures forall p :: 0 <= p < |pages| ==> pages[p] != []
  {
  }

  /** Every page fits the content height, unless it holds a single block that alone is higher. */
  lemma PagesFitOrSingle(text: JsString, info: map<CodeUnit, Info>, s: Settings, pages: seq<Page>)
    requires Paginates(text, info, s, pages)
    ensures forall p :: 0 <= p < |pages| ==> |pages[p]| == 1 || |pages[p]| * BlockHeight(s) <= ContentHeight
  {
    var bh := BlockHeight(s);
    if bh <= ContentHeight {
      MulLeIff(PerPage(bh), bh, ContentHeight);
    }
  }

  /**
   * A page is closed only when the next block would overflow it: every page
   * but the last holds only character blocks, and one more block would not fit.
   */
  lemma BreaksOnlyOnOverflow(text: JsString, info: map<CodeUnit, Info>, s: Settings, pages: seq<Page>)
    requires Paginates(text, info, s, pages)
    ensures forall p :: 0 <= p < |pages| - 1 ==> (|pages[p]| + 1) * BlockHeight(s) > ContentHeight
    ensures forall p, j :: 0 <= p < |pages| - 1 && 0 <= j < |pages[p]| ==> pages[p][j].CharBlock?
  {
    var bh := BlockHeight(s);
    if bh <= ContentHeight {
      MulLeIff(PerPage(bh) + 1, bh, ContentHeight);
    }
    LayoutFullPagesHoldChars(Hanzi(text), info, bh, pages);
  }

  /** In a layout, the pages before the last hold only character blocks. */
  lemma LayoutFullPagesHoldChars(h: JsString, info: map<CodeUnit, Info>, bh: nat, pages: seq<Page>)
    requires bh > 0 && Layout(h, info, bh, pages)
    ensures forall p, j :: 0 <= p < |pages| - 1 && 0 <= j < |pages[p]| ==> pages[p][j].CharBlock?
  {
    var per := PerPage(bh);
    if |pages| > 1 {
      CeilBound(|h|, per);
      StackIsProduct(|pages| - 1, per);
      forall p, j | 0 <= p < |pages| - 1 && 0 <= j < |pages[p]|
        ensures pages[p][j].CharBlock?
      {
        FlattenAt(pages, per, p, j);
        StackBelow(p, |pages| - 1, per, j);
      }
    }
  }

  /**
   * The last page of a non-empty input: its character blocks come first and
   * are followed by blank blocks, floor((756 pt - k * blockHeight) / blockHeight)
   * of them for k character blocks (none when that is negative), which brings
   * the page to max(1, floor(756 pt / blockHeight)) blocks.
   */
  lemma LastPagePadding(text: JsString, info: map<CodeUnit, Info>, s: Settings, pages: seq<Page>)
    requires Paginates(text, info, s, pages)
    requires Hanzi(text) != []
    ensures |pages| >= 1
    ensures var last, bh := pages[|pages| - 1], BlockHeight(s);
      var k := |CharsOf(last)|;
      && 1 <= k <= |last|
      && (forall j :: 0 <= j < k ==> last[j].CharBlock?)
      && last[k..] == Padding(|pages| - 1, |last| - k)
      && |last| - k == BlanksAfter(k, bh)
      && |last| == PerPage(bh)
  {
    var bh := BlockHeight(s);
    var chars, pad := LastPageLayout(Hanzi(text), info, bh, pages);
    LastPageFromLayout(pages[|pages| - 1], chars, |pages| - 1, pad, bh);
  }

  /** The last page is the hanzi left over after the full pages, then `pad` blank blocks. */
  lemma LastPageLayout(h: JsString, info: map<CodeUnit, Info>, bh: nat, pages: seq<Page>)
      returns (chars: seq<Block>, pad: nat)
    requires bh > 0 && Layout(h, info, bh, pages)
    requires h != []
    ensures |pages| >= 1
    ensures pages[|pages| - 1] == chars + Padding(|pages| - 1, pad)
    ensures forall j :: 0 <= j < |chars| ==> chars[j].CharBlock?
    ensures 1 <= |chars| <= PerPage(bh) && |pages[|pages| - 1]| == PerPage(bh)
  {
    var per := PerPage(bh);
    var m := |pages|;
    LastPageCount(h, info, bh, pages);
    var before := Stack(m - 1, per);
    var all := CharBlocks(info, h);
    pad := |Flatten(pages)| - |h|;
    LastPageIsTail(pages, per, all, Padding(m - 1, pad));
    chars := all[before..];
    AllCharBlocks(info, h, before);
  }

  /** The pages before the last one hold fewer blocks than there are hanzi, and at most `per` fewer. */
  lemma LastPageCount(h: JsString, info: map<CodeUnit, Info>, bh: nat, pages: seq<Page>)
    requires bh > 0 && Layout(h, info, bh, pages)
    requires h != []
    ensures var per := PerPage(bh);
      |pages| >= 1 && Stack(|pages| - 1, per) < |h| && |h| - Stack(|pages| - 1, per) <= per
  {
    LastPageShare(|h|, PerPage(bh), |pages|);
  }

  /** Character blocks from any position on are character blocks. */
  lemma AllCharBlocks(info: map<CodeUnit, Info>, h: JsString, from: nat)
    requires from <= |h|
    ensures forall j :: 0 <= j < |h| - from ==> CharBlocks(info, h)[from..][j].CharBlock?
  {
  }

  /**
   * How many blank blocks the source adds after `k` character blocks on the
   * last page: the remaining height divided by the block height, if positive.
   */
  function BlanksAfter(k: nat, bh: nat): nat
    requires bh > 0
  {
    var e := (ContentHeight - k * bh) / bh;
    if e > 0 then e else 0
  }

  lemma LastPageFromLayout(last: Page, chars: seq<Block>, page: nat, pad: nat, bh: nat)
    requires bh > 0
    requires last == chars + Padding(page, pad)
    requires forall j :: 0 <= j < |chars| ==> chars[j].CharBlock?
    requires 1 <= |chars| <= PerPage(bh) && |last| == PerPage(bh)
    ensures var k := |CharsOf(last)|;
      && k == |chars|
      && 1 <= k <= |last|
      && (forall j :: 0 <= j < k ==> last[j].CharBlock?)
      && last[k..] == Padding(page, |last| - k)
      && |last| - k == BlanksAfter(k, bh)
  {
    CharsOfPadding(chars, page, pad);
    CharsOfAllChars(chars);
    PaddingFills(|chars|, bh, false);
  }

  /** `m = ceil(n / per)` pages leave between 1 and `per` hanzi for the last one. */
  lemma LastPageShare(n: nat, per: nat, m: nat)
    requires n > 0 && per >= 1 && m == (n + per - 1) / per
    ensures m >= 1 && Stack(m - 1, per) < n && n - Stack(m - 1, per) <= per
  {
    CeilBound(n, per);
    StackIsProduct(m - 1, per);
    MulSucc(m - 1, per);
  }

  /** The last page is what follows the full pages in the flattening, when the full pages hold only `chars`. */
  lemma LastPageIsTail(pages: seq<Page>, per: nat, chars: seq<Block>, pad: seq<Block>)
    requires |pages| >= 1
    requires forall p :: 0 <= p < |pages| ==> |pages[p]| == per
    requires Flatten(pages) == chars + pad
    requires Stack(|pages| - 1, per) <= |chars|
    ensures pages[|pages| - 1] == chars[Stack(|pages| - 1, per)..] + pad
  {
    var before := Stack(|pages| - 1, per);
    FlattenAllPer(pages[..|pages| - 1], per);
    assert Flatten(pages) == Flatten(pages[..|pages| - 1]) + pages[|pages| - 1];
    assert pages[|pages| - 1] == Flatten(pages)[before..];
    assert (chars + pad)[before..] == chars[before..] + pad;
  }

  /** With no hanzi there is one page of floor(756 pt / blockHeight) blank blocks, or none when a block is higher than a page. */
  lemma EmptyInputPage(text: JsString, info: map<CodeUnit, Info>, s: Settings, pages: seq<Page>)
    requires Paginates(text, info, s, pages)
    requires Hanzi(text) == []
    ensures BlockHeight(s) <= ContentHeight ==> |pages| == 1 && pages[0] == Padding(0, ContentHeight / BlockHeight(s))
    ensures BlockHeight(s) > ContentHeight ==> pages == []
  {
    if BlockHeight(s) <= ContentHeight {
      assert pages == [] + [pages[0]];
      FlattenSnoc([], pages[0]);
      assert Flatten(pages) == pages[0];
    }
  }

  /** Paginates fixes the pages completely: the paginator's output is determined by its inputs. */
  lemma PaginationIsUnique(text: JsString, info: map<CodeUnit, Info>, s: Settings, pages: seq<Page>, other: seq<Page>)
    requires Paginates(text, info, s, pages) && Paginates(text, info, s, other)
    ensures pages == other
  {
    var per := PerPage(BlockHeight(s));
    FlattenAllPer(pages, per);
    FlattenAllPer(other, per);
    SameShapeSameFlatten(pages, other, per);
  }

  // ---------------------------------------------------------------------
  // Helpers on page lists whose pages all hold `per` blocks
  // ---------------------------------------------------------------------

  lemma {:induction false} FlattenAllPer(pages: seq<Page>, per: nat)
    requires forall p :: 0 <= p < |pages| ==> |pages[p]| == per
    ensures |Flatten(pages)| == Stack(|pages|, per)
  {
    if pages != [] {
      FlattenAllPer(pages[..|pages| - 1], per);
    }
  }

  /** Block `j` of page `p` sits at position Stack(p, per) + j of the flattening. */
  lemma {:induction false} FlattenAt(pages: seq<Page>, per: nat, p: nat, j: nat)
    requires forall q :: 0 <= q < |pages| ==> |pages[q]| == per
    requires p < |pages| && j < per
    ensures Stack(p, per) + j < |Flatten(pages)|
    ensures Flatten(pages)[Stack(p, per) + j] == pages[p][j]
  {
    var init := pages[..|pages| - 1];
    FlattenAllPer(init, per);
    FlattenAllPer(pages, per);
    if p < |pages| - 1 {
      FlattenAt(init, per, p, j);
      StackBelow(p, |pages| - 1, per, j);
    }
  }

  lemma {:induction false} StackBelow(p: nat, m: nat, per: nat, j: nat)
    requires p < m && j < per
    ensures Stack(p, per) + j < Stack(m, per)
  {
    if p < m - 1 {
      StackBelow(p, m - 1, per, j);
    }
  }

  /** ceil(n / per) pages leave fewer than n slots before the last page. */
  lemma CeilBound(n: nat, per: nat)
    requires n > 0 && per >= 1
    ensures var m := (n + per - 1) / per;
      m >= 1 && (m - 1) * per < n <= m * per
  {
    var m := (n + per - 1) / per;
    var r := (n + per - 1) % per;
    assert m * per + r == n + per - 1;
    assert m >= 1;
    MulSucc(m - 1, per);
  }

  lemma {:induction false} CharsOfAllChars(blocks: seq<Block>)
    ensures (forall j :: 0 <= j < |blocks| ==> blocks[j].CharBlock?) ==> |CharsOf(blocks)| == |blocks|
    ensures |CharsOf(blocks)| <= |blocks|
  {
    if blocks != [] {
      CharsOfAllChars(blocks[..|blocks| - 1]);
    }
  }

  lemma {:induction false} SameShapeSameFlatten(a: seq<Page>, b: seq<Page>, per: nat)
    requires |a| == |b|
    requires forall p :: 0 <= p < |a| ==> |a[p]| == per && |b[p]| == per
    requires Flatten(a) == Flatten(b)
    ensures a == b
  {
    if a != [] {
      var ia, ib := a[..|a| - 1], b[..|b| - 1];
      FlattenAllPer(ia, per);
      FlattenAllPer(ib, per);
      assert Flatten(ia) == Flatten(a)[..|Flatten(ia)|];
      assert Flatten(ib) == Flatten(b)[..|Flatten(ib)|];
      SameShapeSameFlatten(ia, ib, per);
      assert a[|a| - 1] == Flatten(a)[|Flatten(ia)|..];
      assert b[|b| - 1] == Flatten(b)[|Flatten(ib)|..];
      assert a == ia + [a[|a| - 1]];
      assert b == ib + [b[|b| - 1]];
    }
  }
}
