/**
 * The sheet's fixed dimensions. Every length is in units of 1/22 pt: the grid
 * box height is 575/11 pt and several positions are halves of a box, so 1/22 pt
 * makes all of the layout arithmetic exact integer arithmetic.
 */
module Dims {

  /** Units per point. */
  const Pt: nat := 22

  const Margin: nat := 18 * Pt
  const PageWidth: nat := 612 * Pt    // 8.5 in
  const PageHeight: nat := 792 * Pt   // 11 in
  const ContentWidth: nat := PageWidth - Margin * 2
  const ContentHeight: nat := PageHeight - Margin * 2
  const HeaderHeight: nat := 15 * Pt
  const GridsPerRow: nat := 11
  const BorderWidth: nat := Pt / 2    // 0.5 pt
  const BoxHeight: nat := (ContentWidth - 2 * BorderWidth) / GridsPerRow
  const BoxWidth: nat := ContentWidth / GridsPerRow

  /** The most code units the character input accepts. */
  const MaxCharacters: nat := 50

  /** In points: the content area is 576 x 756 pt, a box is 576/11 pt wide and 575/11 pt high. */
  lemma DimsInPoints()
    ensures ContentWidth == 576 * Pt && ContentHeight == 756 * Pt
    ensures 11 * BoxWidth == 576 * Pt && 11 * BoxHeight == 575 * Pt
    ensures BoxWidth == 1152 && BoxHeight == 1150 && 2 * BorderWidth == Pt
  {
  }
}
