/**
 * Which glyph each grid cell of a block shows. Cell (r, c) of a block has
 * grid index r * 11 + c: index 0 shows the character solid, indices 1 to
 * traceCount show it at the trace opacity, every other cell and every cell
 * of a blank block shows nothing. The preview and the PDF each compute this
 * schedule; they differ only in how they read the trace opacity setting.
 */
module Cells {
  import opened Wrappers
  import opened Text
  import opened Dims
  import opened Settings
  import opened Pagination
  import opened GridBox

  /** The names every JavaScript object inherits from `Object.prototype`. */
  const InheritedNames: set<string> := {"constructor", "__defineGetter__", "__defineSetter__",
    "hasOwnProperty", "__lookupGetter__", "__lookupSetter__", "isPrototypeOf",
    "propertyIsEnumerable", "toString", "valueOf", "__proto__", "toLocaleString"}

  /**
   * What looking a name up in `{ low: 0.1, medium: 0.25, high: 0.5 }` gives:
   * a level in hundredths, `undefined`, or an inherited member, which is a
   * function or an object and not a number.
   */
  datatype Lookup = Level(hundredths: int) | Missing | Inherited

  /** OPACITY_MAP[traceOpacity]. */
  function OpacityLevel(traceOpacity: string): (l: Lookup)
    ensures traceOpacity == "low" ==> l == Level(10)
    ensures traceOpacity == "medium" ==> l == Level(25)
    ensures traceOpacity == "high" ==> l == Level(50)
    ensures l.Level? ==> 0 < l.hundredths < 100
    ensures l == Inherited <==> traceOpacity in InheritedNames
    ensures l == Missing <==> traceOpacity !in InheritedNames && traceOpacity != "low"
                              && traceOpacity != "medium" && traceOpacity != "high"
  {
    if traceOpacity == "low" then Level(10)
    else if traceOpacity == "medium" then Level(25)
    else if traceOpacity == "high" then Level(50)
    else if traceOpacity in InheritedNames then Inherited
    else Missing
  }

  function GridIndex(r: nat, c: nat): nat
  {
    r * GridsPerRow + c
  }

  /** The `opacity` prop the preview passes for a trace cell: the lookup itself. */
  function PreviewOpacity(l: Lookup): OpacityProp
  {
    match l
    case Level(v) => Number(v)
    case Missing => Undefined
    case Inherited => NotANumber
  }

  /**
   * The props the preview passes to the grid box of cell (r, c): the block's
   * character solid at index 0, at the looked-up trace opacity for indices 1
   * to traceCount, and no character (opacity 0) elsewhere.
   */
  function PreviewProps(block: Block, r: nat, c: nat, s: Settings): (p: Props)
    ensures p.gridType == s.gridType
    ensures p.ch.Some? <==> block.CharBlock? && (GridIndex(r, c) == 0 || GridIndex(r, c) <= s.traceCount)
    ensures p.ch.Some? ==> p.ch.value == block.ch
    ensures p.ch.Some? && GridIndex(r, c) == 0 ==> p.opacity == Number(100)
    ensures p.ch.Some? && GridIndex(r, c) != 0 ==> p.opacity == PreviewOpacity(OpacityLevel(s.traceOpacity))
    ensures p.ch.None? ==> p.opacity == Number(0)
  {
    var i := GridIndex(r, c);
    if block.CharBlock? && i == 0 then Props(Some(block.ch), Number(100), s.gridType)
    else if block.CharBlock? && i <= s.traceCount then Props(Some(block.ch), PreviewOpacity(OpacityLevel(s.traceOpacity)), s.gridType)
    else Props(None, Number(0), s.gridType)
  }

  /**
   * The shade the PDF gives a trace: `map[traceOpacity] ?? 0.25`, drawn gray
   * when below 1. An inherited member is not `undefined`, so `??` keeps it,
   * and `opacity < 1` is false for it: the trace is drawn black.
   */
  function TraceShade(l: Lookup): int
  {
    match l
    case Level(v) => v
    case Missing => 25
    case Inherited => 100
  }

  /** The glyph the PDF draws in cell (r, c). */
  function PdfGlyph(block: Block, r: nat, c: nat, s: Settings): Option<Overlay>
  {
    GlyphAt(block, GridIndex(r, c), s)
  }

  /** The glyph the PDF draws at grid index i of a block. */
  function GlyphAt(block: Block, i: nat, s: Settings): (g: Option<Overlay>)
    ensures g.Some? <==> block.CharBlock? && (i == 0 || i <= s.traceCount)
    ensures g.Some? ==> g.value.ch == block.ch && 0 < g.value.opacity <= 100
    ensures g.Some? && i == 0 ==> g.value.opacity == 100
  {
    if block.CharBlock? && i == 0 then Some(Overlay(block.ch, 100))
    else if block.CharBlock? && i <= s.traceCount then Some(Overlay(block.ch, TraceShade(OpacityLevel(s.traceOpacity))))
    else None
  }

  /**
   * The schedule: a cell shows a glyph exactly when the block is a character
   * block and its index is 0 or at most traceCount; the glyph is the block's
   * character, solid at index 0, and elsewhere at 10, 25 or 50 hundredths for
   * "low", "medium" and "high", at 25 for a name the map lacks, and solid for
   * a name every object inherits.
   */
  lemma GlyphSchedule(block: Block, r: nat, c: nat, s: Settings)
    ensures var g, i := PdfGlyph(block, r, c, s), GridIndex(r, c);
      && (g.Some? <==> block.CharBlock? && (i == 0 || i <= s.traceCount))
      && (g.Some? ==> g.value.ch == block.ch)
      && (g.Some? && i == 0 ==> g.value.opacity == 100)
      && (g.Some? && i != 0 && s.traceOpacity == "low" ==> g.value.opacity == 10)
      && (g.Some? && i != 0 && s.traceOpacity == "medium" ==> g.value.opacity == 25)
      && (g.Some? && i != 0 && s.traceOpacity == "high" ==> g.value.opacity == 50)
      && (g.Some? && i != 0 && OpacityLevel(s.traceOpacity) == Missing ==> g.value.opacity == 25)
      && (g.Some? && i != 0 && s.traceOpacity in InheritedNames ==> g.value.opacity == 100)
  {
  }

  /**
   * Except for a name the map lacks, the preview shows in every cell exactly
   * what the PDF draws.
   */
  lemma PreviewMatchesPdf(block: Block, r: nat, c: nat, s: Settings)
    requires OpacityLevel(s.traceOpacity) != Missing
    ensures Render(PreviewProps(block, r, c, s)).overlay == PdfGlyph(block, r, c, s)
    ensures Render(PreviewProps(block, r, c, s)).lines == GuideLines(s.gridType)
  {
  }

  /**
   * For a name the map lacks the trace cells differ: the preview passes
   * `undefined`, the grid box falls back to full opacity, and the PDF uses 0.25.
   */
  lemma UnknownLevelDiverges(block: Block, r: nat, c: nat, s: Settings)
    requires OpacityLevel(s.traceOpacity) == Missing
    requires block.CharBlock? && 1 <= GridIndex(r, c) <= s.traceCount
    ensures Render(PreviewProps(block, r, c, s)).overlay == Some(Overlay(block.ch, 100))
    ensures PdfGlyph(block, r, c, s) == Some(Overlay(block.ch, 25))
  {
  }

  /** The number of glyph cells among the first `n` grid indices of a block. */
  function GlyphCount(block: Block, s: Settings, n: nat): nat
  {
    if n == 0 then 0
    else GlyphCount(block, s, n - 1) + (if GlyphAt(block, n - 1, s).Some? then 1 else 0)
  }

  /**
   * A character block with n cells shows min(n, traceCount + 1) glyphs (one
   * solid glyph even when traceCount is not positive); a blank block shows none.
   */
  lemma {:induction false} GlyphCountIs(block: Block, s: Settings, n: nat)
    ensures block.EmptyBlock? ==> GlyphCount(block, s, n) == 0
    ensures block.CharBlock? ==>
      var traces := if s.traceCount > 0 then s.traceCount else 0;
      GlyphCount(block, s, n) == if n <= traces + 1 then n else traces + 1
  {
    if n > 0 {
      GlyphCountIs(block, s, n - 1);
    }
  }

  /** The glyph cells among the first `n` cells of row `r`. */
  function RowGlyphs(block: Block, s: Settings, r: nat, n: nat): nat
  {
    if n == 0 then 0
    else RowGlyphs(block, s, r, n - 1) + (if PdfGlyph(block, r, n - 1, s).Some? then 1 else 0)
  }

  /** The glyph cells in the first `rows` rows of a block, counted row by row and cell by cell. */
  function BlockGlyphs(block: Block, s: Settings, rows: nat): nat
  {
    if rows == 0 then 0
    else BlockGlyphs(block, s, rows - 1) + RowGlyphs(block, s, rows - 1, GridsPerRow)
  }

  /** The first n cells of row r are the n grid indices that follow the earlier rows'. */
  lemma {:induction false} RowGlyphsAreIndices(block: Block, s: Settings, r: nat, n: nat)
    requires n <= GridsPerRow
    ensures GlyphCount(block, s, GridIndex(r, 0) + n) == GlyphCount(block, s, GridIndex(r, 0)) + RowGlyphs(block, s, r, n)
  {
    if n > 0 {
      RowGlyphsAreIndices(block, s, r, n - 1);
      assert GridIndex(r, n - 1) == GridIndex(r, 0) + n - 1;
    }
  }

  /** The cells of the first `rows` rows are exactly the grid indices below 11 * rows, each once. */
  lemma {:induction false} BlockGlyphsAreIndices(block: Block, s: Settings, rows: nat)
    ensures BlockGlyphs(block, s, rows) == GlyphCount(block, s, GridsPerRow * rows)
  {
    if rows > 0 {
      BlockGlyphsAreIndices(block, s, rows - 1);
      RowGlyphsAreIndices(block, s, rows - 1, GridsPerRow);
      assert GridIndex(rows - 1, 0) == GridsPerRow * (rows - 1);
      assert GridsPerRow * (rows - 1) + GridsPerRow == GridsPerRow * rows;
    }
  }

  /**
   * A character block of `rows` rows of 11 cells shows min(11 * rows,
   * traceCount + 1) glyphs (one solid glyph even when traceCount is not
   * positive); a blank block shows none.
   */
  lemma GlyphCellsOfBlock(block: Block, s: Settings, rows: nat)
    ensures block.EmptyBlock? ==> BlockGlyphs(block, s, rows) == 0
    ensures block.CharBlock? ==>
      var traces := if s.traceCount > 0 then s.traceCount else 0;
      BlockGlyphs(block, s, rows) == if GridsPerRow * rows <= traces + 1 then GridsPerRow * rows else traces + 1
  {
    BlockGlyphsAreIndices(block, s, rows);
    GlyphCountIs(block, s, GridsPerRow * rows);
  }
}
