/**
 * Geometry of the background canvas: the 30-pixel cell grid derived from the
 * canvas size, the anchor of the letter-M stencil, the rows of the circuit
 * zone around the projects section, and the column band of the card area.
 */
module GridLayout {
  import opened Canvas

  /** Pixel pitch between grid points. */
  const Gap: int := 30

  function Max(a: int, b: int): int { if a >= b then a else b }
  function Min(a: int, b: int): int { if a <= b then a else b }

  /** ceil(a / b) for a non-negative a. */
  function CeilDiv(a: nat, b: nat): nat
    requires b > 0
  {
    (a + b - 1) / b
  }

  /**
   * Canvas height: the largest of the viewport height and the two document
   * scroll heights (an absent scroll height reads as 0).
   */
  function CanvasHeight(innerHeight: nat, bodyScrollHeight: nat, docScrollHeight: nat): (h: nat)
    ensures h >= innerHeight && h >= bodyScrollHeight && h >= docScrollHeight
    ensures h == innerHeight || h == bodyScrollHeight || h == docScrollHeight
  {
    Max(innerHeight, Max(bodyScrollHeight, docScrollHeight))
  }

  /**
   * Number of grid rows (or columns) for a canvas extent of `size` pixels:
   * the least count that is at least 1 and whose cells cover the extent.
   */
  function CellCount(size: nat): (n: nat)
    ensures n >= 1
    ensures size <= n * Gap
    ensures n == 1 || (n - 1) * Gap < size
  {
    Max(1, CeilDiv(size, Gap))
  }

  /** getCoords(r, c): the pixel centre of cell (r, c). */
  function Center(r: int, c: int): (p: Point)
    ensures (c * Gap) as real < p.x < (c * Gap + Gap) as real
    ensures (r * Gap) as real < p.y < (r * Gap + Gap) as real
  {
    Point((c * Gap + Gap / 2) as real, (r * Gap + Gap / 2) as real)
  }

  lemma CenterInjective(r1: int, c1: int, r2: int, c2: int)
    requires Center(r1, c1) == Center(r2, c2)
    ensures r1 == r2 && c1 == c2
  {
  }

  /** Viewports wider than 768 pixels use the desktop placement. */
  predicate IsDesktop(width: nat) {
    width > 768
  }

  // ---------------------------------------------------------------------
  // The letter-M stencil (11 rows by 15 columns)
  // ---------------------------------------------------------------------

  const MShape: seq<seq<int>> := [
    [1, 1, 1, 1, 0, 0, 0, 0, 0, 0, 0, 1, 1, 1, 1],
    [1, 1, 1, 1, 0, 0, 0, 0, 0, 0, 0, 1, 1, 1, 1],
    [1, 1, 1, 1, 1, 0, 0, 0, 0, 0, 1, 1, 1, 1, 1],
    [1, 1, 1, 1, 1, 1, 0, 0, 0, 1, 1, 1, 1, 1, 1],
    [1, 1, 1, 0, 1, 1, 1, 0, 1, 1, 1, 0, 1, 1, 1],
    [1, 1, 1, 0, 0, 1, 1, 1, 1, 1, 0, 0, 1, 1, 1],
    [1, 1, 1, 0, 0, 0, 1, 1, 1, 0, 0, 0, 1, 1, 1],
    [1, 1, 1, 0, 0, 0, 0, 1, 0, 0, 0, 0, 1, 1, 1],
    [1, 1, 1, 0, 0, 0, 0, 0, 0, 0, 0, 0, 1, 1, 1],
    [1, 1, 1, 0, 0, 0, 0, 0, 0, 0, 0, 0, 1, 1, 1],
    [1, 1, 1, 0, 0, 0, 0, 0, 0, 0, 0, 0, 1, 1, 1]
  ]

  const MHeightRows: int := 11
  const MWidthCols: int := 15

  /** Empty cells kept around the glyph on every side. */
  const StencilPadding: int := 2

  lemma MShapeDimensions()
    ensures |MShape| == MHeightRows
    ensures forall i :: 0 <= i < |MShape| ==> |MShape[i]| == MWidthCols
  {
  }

  /** First grid column of the glyph: centred on 80% of the width (then two
      further left) on desktop, on 50% otherwise. */
  function GlyphStartCol(cols: nat, isDesktop: bool): int {
    if isDesktop then cols * 8 / 10 - MWidthCols / 2 - 2
    else cols * 5 / 10 - MWidthCols / 2
  }

  /** First grid row of the glyph, derived from the viewport height alone. */
  function GlyphStartRow(innerHeight: nat): int {
    innerHeight / (2 * Gap) - MHeightRows / 2 + 2
  }

  /** (mRow, mCol) relative to the glyph lies in the glyph box padded by two cells. */
  predicate InVoidZone(mRow: int, mCol: int) {
    -StencilPadding <= mRow < MHeightRows + StencilPadding &&
    -StencilPadding <= mCol < MWidthCols + StencilPadding
  }

  /** (mRow, mCol) is a 1-entry of the glyph. */
  predicate IsMPixel(mRow: int, mCol: int) {
    0 <= mRow < MHeightRows && 0 <= mCol < MWidthCols && MShape[mRow][mCol] == 1
  }

  lemma MPixelInVoidZone(mRow: int, mCol: int)
    requires IsMPixel(mRow, mCol)
    ensures InVoidZone(mRow, mCol)
  {
  }

  // ---------------------------------------------------------------------
  // The circuit zone around the projects section
  // ---------------------------------------------------------------------

  /** The projects section in document pixels: scrollY + rect.top, and rect.height. */
  datatype Section = Section(top: int, height: nat)

  /**
   * Grid rows of the circuit zone [startRow, endRow] and of the card area
   * [exclStartRow, exclEndRow]; all four are -1 when there is no section.
   */
  datatype Zone = Zone(startRow: int, endRow: int, exclStartRow: int, exclEndRow: int)

  const NoZone: Zone := Zone(-1, -1, -1, -1)

  /** Pixel row y as a grid row, clamped into [0, rows - 1]. */
  function ClampRow(y: int, rows: nat): (r: int)
    requires rows >= 1
    ensures 0 <= r <= rows - 1
    ensures 0 <= y && y < rows * Gap ==> r * Gap <= y < r * Gap + Gap
    ensures y < 0 ==> r == 0
    ensures y >= rows * Gap ==> r == rows - 1
  {
    Max(0, Min(rows - 1, y / Gap))
  }

  function HeaderOffset(isDesktop: bool): int {
    if isDesktop then 100 else 80
  }

  /** Zone and card-area rows for the section (both margins are 50 px). */
  function ZoneFor(s: Section, rows: nat, isDesktop: bool): (z: Zone)
    requires rows >= 1
    ensures 0 <= z.startRow <= z.endRow <= rows - 1
    ensures z.startRow == ClampRow(Max(0, s.top + HeaderOffset(isDesktop) - 50), rows)
    ensures z.endRow == ClampRow(s.top + s.height + 50, rows)
    ensures z.exclStartRow == (s.top + 180 + HeaderOffset(isDesktop)) / Gap
    ensures z.exclEndRow == (s.top + s.height - 100) / Gap
  {
    var headerOffset := HeaderOffset(isDesktop);
    var startY := Max(0, s.top + headerOffset - 50);
    var endY := s.top + s.height + 50;
    assert startY <= endY || startY == 0;
    var startRow := ClampRow(startY, rows);
    var endRow := ClampRow(endY, rows);
    assert startRow <= endRow by { ClampRowMonotone(startY, endY, rows); }
    var cardsTopOffset := 180 + headerOffset;
    var cardsBottomOffset := 100;
    Zone(startRow, endRow,
         (s.top + cardsTopOffset) / Gap,
         (s.top + s.height - cardsBottomOffset) / Gap)
  }

  lemma ClampRowMonotone(y1: int, y2: int, rows: nat)
    requires rows >= 1
    requires y1 <= y2 || y1 == 0
    ensures ClampRow(y1, rows) <= ClampRow(y2, rows)
  {
    if y1 <= y2 {
      assert y1 / Gap <= y2 / Gap;
    }
  }

  /**
   * The zone rows are the grid rows that meet the pixel span from 50 px above
   * the section's content (after the header offset) to 50 px below its end:
   * a row above the zone lies wholly above the span, a row below it wholly
   * below, and a row inside it reaches the span unless it was clamped onto
   * the grid's first or last row.
   */
  lemma ZoneRowsMatchSection(s: Section, rows: nat, isDesktop: bool, i: int)
    requires rows >= 1 && 0 <= i < rows
    ensures var z, startY, endY := ZoneFor(s, rows, isDesktop), Max(0, s.top + HeaderOffset(isDesktop) - 50), s.top + s.height + 50;
      (i < z.startRow ==> i * Gap + Gap <= startY) &&
      (i > z.endRow ==> endY < i * Gap) &&
      (z.startRow <= i ==> i == rows - 1 || startY < i * Gap + Gap) &&
      (i <= z.endRow ==> i == 0 || i * Gap <= endY)
  {
    var startY, endY := Max(0, s.top + HeaderOffset(isDesktop) - 50), s.top + s.height + 50;
    assert (startY / Gap) * Gap <= startY < (startY / Gap) * Gap + Gap;
    assert (endY / Gap) * Gap <= endY < (endY / Gap) * Gap + Gap;
  }

  /** Math.floor(cols * 0.15): first column of the card band. */
  function ExcludeStartCol(cols: nat): (c: nat)
    ensures c * 100 <= cols * 15 < (c + 1) * 100
  {
    cols * 15 / 100
  }

  /** Math.floor(cols * 0.85): last column of the card band. */
  function ExcludeEndCol(cols: nat): (c: nat)
    ensures c * 100 <= cols * 85 < (c + 1) * 100
  {
    cols * 85 / 100
  }

  /** The card band lies inside the grid's columns and is never empty. */
  lemma {:induction false} CardBandInGrid(cols: nat)
    requires cols >= 1
    ensures 0 <= ExcludeStartCol(cols) <= ExcludeEndCol(cols) < cols
  {
    var s, e := ExcludeStartCol(cols), ExcludeEndCol(cols);
    assert s * 100 <= cols * 15;
    assert e * 100 > cols * 85 - 100;
    assert e * 100 <= cols * 85 < cols * 100;
  }
}
