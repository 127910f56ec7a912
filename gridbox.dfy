/**
 * One grid box of the preview: an SVG of dashed guide lines in a 100 x 100
 * view box, with the character laid over it when there is one. The output
 * is a function of the three props, and the memo comparator re-renders only
 * when one of them changes.
 */
module GridBox {
  import opened Wrappers
  import opened Text

  /** A line from (x1, y1) to (x2, y2). */
  datatype Segment = Segment(x1: int, y1: int, x2: int, y2: int)

  const TianZiGe := "tian-zi-ge"
  const MiZiGe := "mi-zi-ge"

  /** The guide lines of a box in view-box coordinates, in drawing order. */
  function GuideLines(gridType: string): (lines: seq<Segment>)
    ensures gridType == TianZiGe ==> lines == [Segment(50, 0, 50, 100), Segment(0, 50, 100, 50)]
    ensures gridType == MiZiGe ==> lines == [Segment(50, 0, 50, 100), Segment(0, 50, 100, 50),
                                             Segment(0, 0, 100, 100), Segment(100, 0, 0, 100)]
    ensures gridType != TianZiGe && gridType != MiZiGe ==> lines == []
  {
    var centre := if gridType == TianZiGe || gridType == MiZiGe
      then [Segment(50, 0, 50, 100), Segment(0, 50, 100, 50)] else [];
    var diagonals := if gridType == MiZiGe
      then [Segment(0, 0, 100, 100), Segment(100, 0, 0, 100)] else [];
    centre + diagonals
  }

  /**
   * The `opacity` prop: `undefined`, a number in hundredths, or some other
   * value (a function or an object) that is not a number.
   */
  datatype OpacityProp = Undefined | Number(hundredths: int) | NotANumber

  /** The props: `char` is null or one code unit. */
  datatype Props = Props(ch: Option<CodeUnit>, opacity: OpacityProp, gridType: string)

  /** The character laid over the guide lines, with its opacity in hundredths. */
  datatype Overlay = Overlay(ch: CodeUnit, opacity: int)

  /** What a box renders. */
  datatype Rendered = Rendered(lines: seq<Segment>, overlay: Option<Overlay>, ariaHidden: bool)

  /** The `opacity = 1` default parameter: it replaces `undefined` only. */
  const DefaultOpacity := 100

  /**
   * The opacity the overlay shows. A value that is not a number makes the
   * inline `opacity` style invalid; the browser drops it and the overlay
   * keeps full opacity.
   */
  function ShownOpacity(o: OpacityProp): int
  {
    match o
    case Undefined => DefaultOpacity
    case Number(v) => v
    case NotANumber => 100
  }

  function Render(p: Props): (r: Rendered)
    ensures r.lines == GuideLines(p.gridType)
    ensures r.overlay.Some? <==> p.ch.Some?
    ensures r.overlay.Some? ==> r.overlay.value.ch == p.ch.value
    ensures r.overlay.Some? ==> r.overlay.value.opacity == (if p.opacity.Number? then p.opacity.hundredths else 100)
    ensures r.ariaHidden <==> r.overlay.None?
  {
    var overlay := match p.ch
      case None => None
      case Some(c) => Some(Overlay(c, ShownOpacity(p.opacity)));
    Rendered(GuideLines(p.gridType), overlay, p.ch.None?)
  }

  /** The memo comparator: true means the box is not re-rendered. */
  predicate SameProps(prev: Props, next: Props) {
    prev.ch == next.ch && prev.opacity == next.opacity && prev.gridType == next.gridType
  }

  /** Skipping a re-render is sound: equal props give the same rendering. */
  lemma SkipIsSound(prev: Props, next: Props)
    requires SameProps(prev, next)
    ensures Render(prev) == Render(next)
  {
  }

  /** The comparator skips exactly when nothing the box reads has changed. */
  lemma SkipIffUnchanged(prev: Props, next: Props)
    ensures SameProps(prev, next) <==> prev == next
  {
  }
}
