/**
 * The PDF export, as the list of drawing commands it issues. The document
 * is US letter in points; every coordinate here is in 1/22 pt from the top
 * left corner of the page. Styling calls (colours, line widths, dashes,
 * font sizes of the header) are not recorded.
 */
module Export {
  import opened Wrappers
  import opened Text
  import opened Dims
  import opened Settings
  import opened Pagination
  import opened GridBox
  import opened Cells

  datatype Font = KaiTi | InterTight | Helvetica

  /** Which fonts were registered with the document. */
  datatype Fonts = Fonts(kaiti: bool, pinyin: bool)

  datatype Cmd =
    | AddPage
    | Rect(x: int, y: int, w: int, h: int)
    | Guide(seg: Segment)
    | Text(text: string, x: int, y: int, font: Font)
    | Glyph(ch: CodeUnit, x: int, y: int, size: nat, opacity: int, font: Font)

  /** `Math.floor(min(bh * 0.9, bw * 0.9))`: the glyph size in points. */
  const GlyphSize: nat := (9 * BoxHeight / 10) / Pt

  /** How far the drawing cursor moves down per block: note space, header band, grid rows. */
  function Advance(s: Settings): nat
  {
    Pt * s.topSpacing + (if s.showHeaderInfo then HeaderHeight else 0) + BoxHeight * s.rowsPerChar
  }

  /** The cursor advance leaves out the 1 pt of border that the block height counts. */
  lemma AdvanceOmitsBorder(s: Settings)
    ensures Advance(s) + Pt == BlockHeight(s)
    ensures GlyphSize == 47
  {
  }

  // ---------------------------------------------------------------------
  // The commands of a page, from the innermost loop out
  // ---------------------------------------------------------------------

  /** The header line: the block's `pinyinAll || pinyin`, left aligned, when the header is shown and the text is non-empty. */
  function HeaderCmds(block: Block, headerTop: int, s: Settings, fonts: Fonts): seq<Cmd>
  {
    if s.showHeaderInfo && block.HeaderText() != "" then
      [Text(block.HeaderText(), Margin + 2 * Pt, headerTop + HeaderHeight / 2 + 3 * Pt,
            if fonts.pinyin then InterTight else Helvetica)]
    else []
  }

  /** The dashed guide lines of the box with top left corner (x, y), as the PDF draws them. */
  function BoxGuides(gridType: string, x: int, y: int): seq<Cmd>
  {
    var bw, bh := BoxWidth, BoxHeight;
    (if gridType == MiZiGe || gridType == TianZiGe then
       [Guide(Segment(x + bw / 2, y, x + bw / 2, y + bh)), Guide(Segment(x, y + bh / 2, x + bw, y + bh / 2))]
     else [])
    + (if gridType == MiZiGe then
         [Guide(Segment(x, y, x + bw, y + bh)), Guide(Segment(x, y + bh, x + bw, y))]
       else [])
  }

  /** The glyph of a cell, centred in the box. */
  function GlyphCmds(g: Option<Overlay>, x: int, y: int, fonts: Fonts): seq<Cmd>
  {
    match g
    case None => []
    case Some(o) => [Glyph(o.ch, x + BoxWidth / 2, y + BoxHeight / 2, GlyphSize, o.opacity,
                           if fonts.kaiti then KaiTi else Helvetica)]
  }

  function CellCmds(block: Block, r: nat, c: nat, x: int, y: int, s: Settings, fonts: Fonts): seq<Cmd>
  {
    [Rect(x, y, BoxWidth, BoxHeight)] + BoxGuides(s.gridType, x, y) + GlyphCmds(PdfGlyph(block, r, c, s), x, y, fonts)
  }

  /** The first `n` cells of row `r`, whose top is `y`. */
  function RowCmds(block: Block, r: nat, y: int, s: Settings, fonts: Fonts, n: nat): seq<Cmd>
  {
    if n == 0 then []
    else RowCmds(block, r, y, s, fonts, n - 1) + CellCmds(block, r, n - 1, Margin + (n - 1) * BoxWidth, y, s, fonts)
  }

  /** The first `n` rows of a block whose grid starts at `gridTop`. */
  function RowsCmds(block: Block, gridTop: int, s: Settings, fonts: Fonts, n: nat): seq<Cmd>
  {
    if n == 0 then []
    else RowsCmds(block, gridTop, s, fonts, n - 1) + RowCmds(block, n - 1, gridTop + BoxHeight * (n - 1), s, fonts, GridsPerRow)
  }

  /** A block whose note space starts at `y0`. */
  function BlockCmds(block: Block, y0: int, s: Settings, fonts: Fonts): seq<Cmd>
  {
    var headerTop := y0 + Pt * s.topSpacing;
    var gridTop := headerTop + (if s.showHeaderInfo then HeaderHeight else 0);
    HeaderCmds(block, headerTop, s, fonts) + RowsCmds(block, gridTop, s, fonts, s.rowsPerChar)
  }

  /** The first `n` blocks of a page, stacked from the top margin down. */
  function PageCmds(page: Page, s: Settings, fonts: Fonts, n: nat): seq<Cmd>
    requires n <= |page|
  {
    if n == 0 then []
    else PageCmds(page, s, fonts, n - 1) + BlockCmds(page[n - 1], Margin + Stack(n - 1, Advance(s)), s, fonts)
  }

  /** The whole document: each page's commands, a page break before every page but the first. */
  function PagesCmds(pages: seq<Page>, s: Settings, fonts: Fonts): seq<Cmd>
  {
    if pages == [] then []
    else
      var init, last := pages[..|pages| - 1], pages[|pages| - 1];
      PagesCmds(init, s, fonts) + (if init == [] then [] else [AddPage]) + PageCmds(last, s, fonts, |last|)
  }

  // ---------------------------------------------------------------------
  // The drawing loops
  // ---------------------------------------------------------------------

  method DrawRow(block: Block, r: nat, cursorY: int, s: Settings, fonts: Fonts) returns (cmds: seq<Cmd>)
    ensures cmds == RowCmds(block, r, cursorY, s, fonts, GridsPerRow)
  {
    cmds := [];
    var colX := Margin;
    var c := 0;
    while c < GridsPerRow
      invariant c <= GridsPerRow
      invariant colX == Margin + c * BoxWidth
      invariant cmds == RowCmds(block, r, cursorY, s, fonts, c)
    {
      ghost var before := cmds;
      cmds := cmds + [Rect(colX, cursorY, BoxWidth, BoxHeight)];
      cmds := cmds + BoxGuides(s.gridType, colX, cursorY);
      cmds := cmds + GlyphCmds(PdfGlyph(block, r, c, s), colX, cursorY, fonts);
      assert cmds == before + CellCmds(block, r, c, colX, cursorY, s, fonts);
      RowCmdsSnoc(block, r, cursorY, s, fonts, c);
      colX := colX + BoxWidth;
      c := c + 1;
    }
  }

  lemma RowCmdsSnoc(block: Block, r: nat, y: int, s: Settings, fonts: Fonts, c: nat)
    ensures RowCmds(block, r, y, s, fonts, c + 1)
      == RowCmds(block, r, y, s, fonts, c) + CellCmds(block, r, c, Margin + c * BoxWidth, y, s, fonts)
  {
  }

  /** Draws one block from `y0` and returns where the cursor ends up. */
  method DrawBlock(block: Block, y0: int, s: Settings, fonts: Fonts) returns (cmds: seq<Cmd>, cursorY: int)
    ensures cmds == BlockCmds(block, y0, s, fonts)
    ensures cursorY == y0 + Advance(s)
  {
    cursorY := y0 + Pt * s.topSpacing;
    cmds := [];
    if s.showHeaderInfo {
      var headerTop := cursorY;
      var pinyinToShow := block.HeaderText();
      if pinyinToShow != "" {
        var font := if fonts.pinyin then InterTight else Helvetica;
        cmds := cmds + [Text(pinyinToShow, Margin + 2 * Pt, headerTop + HeaderHeight / 2 + 3 * Pt, font)];
      }
      cursorY := cursorY + HeaderHeight;
    }
    var rows;
    rows, cursorY := DrawRows(block, cursorY, s, fonts);
    cmds := cmds + rows;
  }

  /** The grid rows of a block, from `gridTop` down, one box height each. */
  method DrawRows(block: Block, gridTop: int, s: Settings, fonts: Fonts) returns (cmds: seq<Cmd>, cursorY: int)
    ensures cmds == RowsCmds(block, gridTop, s, fonts, s.rowsPerChar)
    ensures cursorY == gridTop + BoxHeight * s.rowsPerChar
  {
    cmds := [];
    cursorY := gridTop;
    var r := 0;
    while r < s.rowsPerChar
      invariant r <= s.rowsPerChar
      invariant cursorY == gridTop + BoxHeight * r
      invariant cmds == RowsCmds(block, gridTop, s, fonts, r)
    {
      var row := DrawRow(block, r, cursorY, s, fonts);
      cmds := cmds + row;
      RowsCmdsSnoc(block, gridTop, s, fonts, r);
      cursorY := cursorY + BoxHeight;
      r := r + 1;
    }
  }

  lemma RowsCmdsSnoc(block: Block, gridTop: int, s: Settings, fonts: Fonts, r: nat)
    ensures RowsCmds(block, gridTop, s, fonts, r + 1)
      == RowsCmds(block, gridTop, s, fonts, r) + RowCmds(block, r, gridTop + BoxHeight * r, s, fonts, GridsPerRow)
  {
  }

  method DrawPage(page: Page, s: Settings, fonts: Fonts) returns (cmds: seq<Cmd>)
    ensures cmds == PageCmds(page, s, fonts, |page|)
  {
    cmds := [];
    var cursorY := Margin;
    var bi := 0;
    while bi < |page|
      invariant bi <= |page|
      invariant cursorY == Margin + Stack(bi, Advance(s))
      invariant cmds == PageCmds(page, s, fonts, bi)
    {
      var blockCmds;
      blockCmds, cursorY := DrawBlock(page[bi], cursorY, s, fonts);
      cmds := cmds + blockCmds;
      bi := bi + 1;
    }
  }

  method DrawPages(pages: seq<Page>, s: Settings, fonts: Fonts) returns (cmds: seq<Cmd>)
    ensures cmds == PagesCmds(pages, s, fonts)
  {
    cmds := [];
    var pageIndex := 0;
    while pageIndex < |pages|
      invariant pageIndex <= |pages|
      invariant cmds == PagesCmds(pages[..pageIndex], s, fonts)
    {
      assert pages[..pageIndex + 1][..pageIndex] == pages[..pageIndex];
      if pageIndex > 0 {
        cmds := cmds + [AddPage];
      }
      var pageCmds := DrawPage(pages[pageIndex], s, fonts);
      cmds := cmds + pageCmds;
      pageIndex := pageIndex + 1;
    }
    assert pages[..pageIndex] == pages;
  }

  // ---------------------------------------------------------------------
  // Fonts
  // ---------------------------------------------------------------------

  /** ECMAScript white space and line terminators, which `trim` removes. */
  predicate IsJsSpace(c: char) {
    c == '\t' || c == '\n' || c == '\U{000B}' || c == '\U{000C}' || c == '\r' || c == ' '
    || c == '\U{00A0}' || c == '\U{1680}' || ('\U{2000}' <= c <= '\U{200A}')
    || c == '\U{2028}' || c == '\U{2029}' || c == '\U{202F}' || c == '\U{205F}'
    || c == '\U{3000}' || c == '\U{FEFF}'
  }

  /** `String(p).trim().length > 0` */
  predicate HasNonSpace(p: string) {
    exists i :: 0 <= i < |p| && !IsJsSpace(p[i])
  }

  /** Some block of some page is a character block. */
  predicate HasAnyHanzi(pages: seq<Page>) {
    exists p, j :: 0 <= p < |pages| && 0 <= j < |pages[p]| && pages[p][j].CharBlock?
  }

  /** Some block's `pinyin` is a non-blank string. */
  predicate HasAnyPinyin(pages: seq<Page>) {
    exists p, j :: 0 <= p < |pages| && 0 <= j < |pages[p]| && HasNonSpace(pages[p][j].Pinyin())
  }

  /** The fonts the export fetches, in order: each only under its own guard. */
  function FontRequests(pages: seq<Page>, s: Settings): (r: seq<Font>)
    ensures KaiTi in r <==> HasAnyHanzi(pages)
    ensures InterTight in r <==> s.showHeaderInfo && HasAnyPinyin(pages)
    ensures Helvetica !in r
  {
    (if HasAnyHanzi(pages) then [KaiTi] else [])
    + (if s.showHeaderInfo && HasAnyPinyin(pages) then [InterTight] else [])
  }

  /**
   * Registration: a font counts as registered when it was requested and its
   * fetch succeeded; the outcome of each fetch is a parameter.
   */
  function RegisteredFonts(pages: seq<Page>, s: Settings, kaitiFetched: bool, pinyinFetched: bool): (f: Fonts)
    ensures f.kaiti <==> KaiTi in FontRequests(pages, s) && kaitiFetched
    ensures f.pinyin <==> InterTight in FontRequests(pages, s) && pinyinFetched
  {
    Fonts(HasAnyHanzi(pages) && kaitiFetched, s.showHeaderInfo && HasAnyPinyin(pages) && pinyinFetched)
  }

  /** The CJK font is fetched exactly when the input has a hanzi. */
  lemma KaitiRequestedIffHanzi(text: JsString, info: map<CodeUnit, Info>, s: Settings, pages: seq<Page>)
    requires Paginates(text, info, s, pages)
    ensures KaiTi in FontRequests(pages, s) <==> Hanzi(text) != []
  {
    var h := Hanzi(text);
    if h != [] {
      HanziKeptInOrder(text, info, s, pages);
      var per := PerPage(BlockHeight(s));
      FlattenAllPer(pages, per);
      assert Flatten(pages)[0].CharBlock?;
      FlattenAt(pages, per, 0, 0);
      assert pages[0][0].CharBlock?;
    } else {
      if HasAnyHanzi(pages) {
        var p, j :| 0 <= p < |pages| && 0 <= j < |pages[p]| && pages[p][j].CharBlock?;
        var per := PerPage(BlockHeight(s));
        FlattenAt(pages, per, p, j);
        assert false;
      }
    }
  }

  /** With an empty pinyin map (the map the sheet ends up with) the pinyin font is never fetched. */
  lemma NoPinyinFontWithoutInfo(text: JsString, s: Settings, pages: seq<Page>)
    requires Paginates(text, map[], s, pages)
    ensures InterTight !in FontRequests(pages, s)
  {
    if HasAnyPinyin(pages) {
      var p, j :| 0 <= p < |pages| && 0 <= j < |pages[p]| && HasNonSpace(pages[p][j].Pinyin());
      var per := PerPage(BlockHeight(s));
      FlattenAt(pages, per, p, j);
      assert false;
    }
  }

  // ---------------------------------------------------------------------
  // Properties of the drawing
  // ---------------------------------------------------------------------

  function PageBreaks(cmds: seq<Cmd>): nat
  {
    if cmds == [] then 0
    else PageBreaks(cmds[..|cmds| - 1]) + (if cmds[|cmds| - 1] == AddPage then 1 else 0)
  }

  /** A document of m pages holds m - 1 page breaks: one before every page but the first. */
  lemma {:induction false} PageBreakCount(pages: seq<Page>, s: Settings, fonts: Fonts)
    requires pages != []
    ensures PageBreaks(PagesCmds(pages, s, fonts)) == |pages| - 1
  {
    var init, last := pages[..|pages| - 1], pages[|pages| - 1];
    var body := PageCmds(last, s, fonts, |last|);
    PageInArea(last, s, fonts, |last|);
    AllInNoBreaks(body, Margin, Margin + Stack(|last|, Advance(s)));
    if init == [] {
      BreaksAppend(PagesCmds(init, s, fonts), body);
    } else {
      PageBreakCount(init, s, fonts);
      BreaksAppend(PagesCmds(init, s, fonts), [AddPage]);
      BreaksAppend(PagesCmds(init, s, fonts) + [AddPage], body);
    }
  }

  lemma {:induction false} BreaksAppend(a: seq<Cmd>, b: seq<Cmd>)
    ensures PageBreaks(a + b) == PageBreaks(a) + PageBreaks(b)
  {
    if b == [] {
      assert a + b == a;
    } else {
      BreaksAppend(a, b[..|b| - 1]);
      assert (a + b)[..|a + b| - 1] == a + b[..|b| - 1];
      assert (a + b)[|a + b| - 1] == b[|b| - 1];
    }
  }

  lemma {:induction false} AllInNoBreaks(cmds: seq<Cmd>, top: int, bottom: int)
    requires AllIn(cmds, top, bottom)
    ensures PageBreaks(cmds) == 0
  {
    if cmds != [] {
      AllInNoBreaks(cmds[..|cmds| - 1], top, bottom);
    }
  }

  /** A drawing command lies inside the content width and between `top` and `bottom`. */
  predicate InArea(c: Cmd, top: int, bottom: int) {
    match c
    case AddPage => false
    case Rect(x, y, w, h) => Margin <= x && x + w <= Margin + ContentWidth && top <= y && y + h <= bottom
    case Guide(g) =>
      Margin <= g.x1 <= Margin + ContentWidth && Margin <= g.x2 <= Margin + ContentWidth
      && top <= g.y1 <= bottom && top <= g.y2 <= bottom
    case Text(_, x, y, _) => Margin <= x <= Margin + ContentWidth && top <= y <= bottom
    case Glyph(_, x, y, _, _, _) => Margin <= x <= Margin + ContentWidth && top <= y <= bottom
  }

  predicate AllIn(cmds: seq<Cmd>, top: int, bottom: int) {
    forall i :: 0 <= i < |cmds| ==> InArea(cmds[i], top, bottom)
  }

  lemma CellInArea(block: Block, r: nat, c: nat, y: int, s: Settings, fonts: Fonts)
    requires c < GridsPerRow
    ensures AllIn(CellCmds(block, r, c, Margin + c * BoxWidth, y, s, fonts), y, y + BoxHeight)
  {
    var x := Margin + c * BoxWidth;
    assert x + BoxWidth <= Margin + ContentWidth;
    var rect := [Rect(x, y, BoxWidth, BoxHeight)];
    var guides, glyph := BoxGuides(s.gridType, x, y), GlyphCmds(PdfGlyph(block, r, c, s), x, y, fonts);
    RectInArea(x, y);
    GuidesInArea(s.gridType, x, y);
    GlyphInArea(PdfGlyph(block, r, c, s), x, y, fonts);
    AllInAppend(rect, guides, y, y + BoxHeight);
    AllInAppend(rect + guides, glyph, y, y + BoxHeight);
  }

  lemma RectInArea(x: int, y: int)
    requires Margin <= x && x + BoxWidth <= Margin + ContentWidth
    ensures AllIn([Rect(x, y, BoxWidth, BoxHeight)], y, y + BoxHeight)
  {
  }

  lemma GuidesInArea(gridType: string, x: int, y: int)
    requires Margin <= x && x + BoxWidth <= Margin + ContentWidth
    ensures AllIn(BoxGuides(gridType, x, y), y, y + BoxHeight)
  {
  }

  lemma GlyphInArea(g: Option<Overlay>, x: int, y: int, fonts: Fonts)
    requires Margin <= x && x + BoxWidth <= Margin + ContentWidth
    ensures AllIn(GlyphCmds(g, x, y, fonts), y, y + BoxHeight)
  {
  }

  lemma {:induction false} RowInArea(block: Block, r: nat, y: int, s: Settings, fonts: Fonts, n: nat)
    requires n <= GridsPerRow
    ensures AllIn(RowCmds(block, r, y, s, fonts, n), y, y + BoxHeight)
  {
    if n > 0 {
      RowInArea(block, r, y, s, fonts, n - 1);
      CellInArea(block, r, n - 1, y, s, fonts);
    }
  }

  lemma {:induction false} RowsInArea(block: Block, gridTop: int, s: Settings, fonts: Fonts, n: nat)
    ensures AllIn(RowsCmds(block, gridTop, s, fonts, n), gridTop, gridTop + BoxHeight * n)
  {
    if n > 0 {
      var y, bottom := gridTop + BoxHeight * (n - 1), gridTop + BoxHeight * n;
      assert y + BoxHeight == bottom;
      var prev, row := RowsCmds(block, gridTop, s, fonts, n - 1), RowCmds(block, n - 1, y, s, fonts, GridsPerRow);
      assert RowsCmds(block, gridTop, s, fonts, n) == prev + row;
      RowsInArea(block, gridTop, s, fonts, n - 1);
      RowInArea(block, n - 1, y, s, fonts, GridsPerRow);
      AllInWiden(prev, gridTop, y, gridTop, bottom);
      AllInWiden(row, y, y + BoxHeight, gridTop, bottom);
      AllInAppend(prev, row, gridTop, bottom);
    }
  }

  lemma Widen(c: Cmd, top: int, bottom: int, top': int, bottom': int)
    requires InArea(c, top, bottom) && top' <= top && bottom <= bottom'
    ensures InArea(c, top', bottom')
  {
  }

  lemma AllInWiden(cmds: seq<Cmd>, top: int, bottom: int, top': int, bottom': int)
    requires AllIn(cmds, top, bottom) && top' <= top && bottom <= bottom'
    ensures AllIn(cmds, top', bottom')
  {
    forall i | 0 <= i < |cmds|
      ensures InArea(cmds[i], top', bottom')
    {
      Widen(cmds[i], top, bottom, top', bottom');
    }
  }

  lemma AllInAppend(a: seq<Cmd>, b: seq<Cmd>, top: int, bottom: int)
    requires AllIn(a, top, bottom) && AllIn(b, top, bottom)
    ensures AllIn(a + b, top, bottom)
  {
    forall i | 0 <= i < |a + b|
      ensures InArea((a + b)[i], top, bottom)
    {
      if i >= |a| {
        assert (a + b)[i] == b[i - |a|];
      }
    }
  }

  lemma BlockInArea(block: Block, y0: int, s: Settings, fonts: Fonts)
    ensures AllIn(BlockCmds(block, y0, s, fonts), y0, y0 + Advance(s))
  {
    var headerTop := y0 + Pt * s.topSpacing;
    var gridTop := headerTop + (if s.showHeaderInfo then HeaderHeight else 0);
    var bottom := y0 + Advance(s);
    assert bottom == gridTop + BoxHeight * s.rowsPerChar;
    RowsInArea(block, gridTop, s, fonts, s.rowsPerChar);
    AllInWiden(RowsCmds(block, gridTop, s, fonts, s.rowsPerChar), gridTop, bottom, y0, bottom);
    AllInAppend(HeaderCmds(block, headerTop, s, fonts), RowsCmds(block, gridTop, s, fonts, s.rowsPerChar), y0, bottom);
  }

  /** The first `n` blocks of a page are drawn between the top margin and `n` cursor advances below it. */
  lemma {:induction false} PageInArea(page: Page, s: Settings, fonts: Fonts, n: nat)
    requires n <= |page|
    ensures AllIn(PageCmds(page, s, fonts, n), Margin, Margin + Stack(n, Advance(s)))
  {
    if n > 0 {
      var y0 := Margin + Stack(n - 1, Advance(s));
      var bottom := Margin + Stack(n, Advance(s));
      PageInArea(page, s, fonts, n - 1);
      BlockInArea(page[n - 1], y0, s, fonts);
      AllInWiden(PageCmds(page, s, fonts, n - 1), Margin, y0, Margin, bottom);
      AllInWiden(BlockCmds(page[n - 1], y0, s, fonts), y0, bottom, Margin, bottom);
      AllInAppend(PageCmds(page, s, fonts, n - 1), BlockCmds(page[n - 1], y0, s, fonts), Margin, bottom);
    }
  }

  /**
   * A page the paginator fitted to the content height is drawn inside the
   * margins, with at least 1 pt per block to spare, since the cursor advance
   * is 1 pt less than the block height the paginator packs by.
   */
  lemma FittedPageStaysInMargins(page: Page, s: Settings, fonts: Fonts)
    requires |page| * BlockHeight(s) <= ContentHeight
    ensures AllIn(PageCmds(page, s, fonts, |page|), Margin, Margin + ContentHeight - |page| * Pt)
  {
    PageInArea(page, s, fonts, |page|);
    AdvanceOmitsBorder(s);
    StackFits(|page|, Advance(s));
    AllInWiden(PageCmds(page, s, fonts, |page|), Margin, Margin + Stack(|page|, Advance(s)), Margin, Margin + ContentHeight - |page| * Pt);
  }

  lemma StackFits(n: nat, a: nat)
    requires n * (a + Pt) <= ContentHeight
    ensures Stack(n, a) <= ContentHeight - n * Pt
  {
    StackIsProduct(n, a);
    assert n * (a + Pt) == n * a + n * Pt;
  }

  /** When a block fits on a page, every page of the paginated sheet is drawn inside the margins. */
  lemma DocumentStaysInMargins(text: JsString, info: map<CodeUnit, Info>, s: Settings, pages: seq<Page>, fonts: Fonts)
    requires Paginates(text, info, s, pages)
    requires BlockHeight(s) <= ContentHeight
    ensures forall p :: 0 <= p < |pages| ==> AllIn(PageCmds(pages[p], s, fonts, |pages[p]|), Margin, Margin + ContentHeight)
  {
    PagesFitOrSingle(text, info, s, pages);
    forall p | 0 <= p < |pages|
      ensures AllIn(PageCmds(pages[p], s, fonts, |pages[p]|), Margin, Margin + ContentHeight)
    {
      FittedPageStaysInMargins(pages[p], s, fonts);
      AllInWiden(PageCmds(pages[p], s, fonts, |pages[p]|), Margin, Margin + ContentHeight - |pages[p]| * Pt, Margin, Margin + ContentHeight);
    }
  }

  /** The same segment, possibly drawn in the opposite direction. */
  predicate SameSegment(a: Segment, b: Segment) {
    a == b || a == Segment(b.x2, b.y2, b.x1, b.y1)
  }

  /** A view-box segment placed on the box with top left corner (x, y). */
  function Place(g: Segment, x: int, y: int): Segment
  {
    Segment(x + g.x1 * BoxWidth / 100, y + g.y1 * BoxHeight / 100, x + g.x2 * BoxWidth / 100, y + g.y2 * BoxHeight / 100)
  }

  /** The PDF draws the preview's guide lines, in the same order, scaled onto the box. */
  lemma GuidesMatchPreview(gridType: string, x: int, y: int)
    ensures |BoxGuides(gridType, x, y)| == |GuideLines(gridType)|
    ensures forall i :: 0 <= i < |GuideLines(gridType)| ==>
      BoxGuides(gridType, x, y)[i].Guide? && SameSegment(BoxGuides(gridType, x, y)[i].seg, Place(GuideLines(gridType)[i], x, y))
  {
  }
}
