/**
 * The standalone dot-matrix "M" of the hero section: a fixed 0/1 bitmap whose
 * 1-cells become resting particles on a canvas sized to the bitmap plus a
 * 40-pixel margin, each coloured by one random draw from the theme's palette.
 */
module DotBlockM {
  import opened Oracle
  import opened Canvas

  /** The bitmap, 11 rows by 13 columns (1 = particle). */
  const BlockShape: seq<seq<int>> := [
    [1, 1, 1, 0, 0, 0, 0, 0, 0, 0, 1, 1, 1],
    [1, 1, 1, 0, 0, 0, 0, 0, 0, 0, 1, 1, 1],
    [1, 1, 1, 1, 0, 0, 0, 0, 0, 1, 1, 1, 1],
    [1, 1, 1, 1, 1, 0, 0, 0, 1, 1, 1, 1, 1],
    [1, 1, 0, 1, 1, 1, 0, 1, 1, 1, 0, 1, 1],
    [1, 1, 0, 0, 1, 1, 1, 1, 1, 0, 0, 1, 1],
    [1, 1, 0, 0, 0, 1, 1, 1, 0, 0, 0, 1, 1],
    [1, 1, 0, 0, 0, 0, 1, 0, 0, 0, 0, 1, 1],
    [1, 1, 0, 0, 0, 0, 0, 0, 0, 0, 0, 1, 1],
    [1, 1, 0, 0, 0, 0, 0, 0, 0, 0, 0, 1, 1],
    [1, 1, 0, 0, 0, 0, 0, 0, 0, 0, 0, 1, 1]
  ]

  /** Spacing between dots and margin around the bitmap, in pixels. */
  const BlockGap: int := 30
  const BlockPadding: int := 40
  const BlockDotSize: real := 2.5

  type Cell = (int, int)

  /** Every row has the length of the first, and there is a first row. */
  predicate Rectangular(shape: seq<seq<int>>) {
    |shape| > 0 && forall r :: 0 <= r < |shape| ==> |shape[r]| == |shape[0]|
  }

  lemma BlockShapeDimensions()
    ensures Rectangular(BlockShape) && |BlockShape| == 11 && |BlockShape[0]| == 13
  {
  }

  /** cells * gap + padding * 2: the canvas extent for `cells` columns (or rows). */
  function CanvasExtent(cells: nat): nat {
    cells * BlockGap + BlockPadding * 2
  }

  /** The canvas is 470 by 410 pixels: 13 and 11 cells of 30 plus two margins of 40. */
  lemma BlockCanvasSize()
    ensures CanvasExtent(|BlockShape[0]|) == 470 && CanvasExtent(|BlockShape|) == 410
  {
    BlockShapeDimensions();
  }

  /** The centre of bitmap cell (r, c) on the canvas. */
  function DotCenter(r: int, c: int): (p: Point)
    ensures (BlockPadding + c * BlockGap) as real < p.x < (BlockPadding + c * BlockGap + BlockGap) as real
    ensures (BlockPadding + r * BlockGap) as real < p.y < (BlockPadding + r * BlockGap + BlockGap) as real
  {
    Point((BlockPadding + c * BlockGap + BlockGap / 2) as real, (BlockPadding + r * BlockGap + BlockGap / 2) as real)
  }

  /** The 1-cells of row r in columns 0 .. c - 1, left to right. */
  function RowOnes(shape: seq<seq<int>>, r: int, c: int): seq<Cell>
    requires 0 <= r < |shape| && 0 <= c <= |shape[r]|
  {
    if c == 0 then []
    else RowOnes(shape, r, c - 1) + (if shape[r][c - 1] == 1 then [(r, c - 1)] else [])
  }

  /** The 1-cells of rows 0 .. r - 1 in row-major order. */
  function ShapeOnes(shape: seq<seq<int>>, r: int): seq<Cell>
    requires 0 <= r <= |shape|
  {
    if r == 0 then [] else ShapeOnes(shape, r - 1) + RowOnes(shape, r - 1, |shape[r - 1]|)
  }

  /** How a colour draw becomes a colour. */
  type Palette = Draw -> Color

  /** activeColors[Math.floor(Math.random() * activeColors.length)] for the theme. */
  function ThemePalette(theme: string): Palette {
    (d: Draw) => DrawColor(theme, d)
  }

  /** The resting particle of cell (r, c) in the given colour. */
  function Dot(cell: Cell, color: Color): Particle {
    RestingAt(DotCenter(cell.0, cell.1), color, BlockDotSize)
  }

  /** The particles pushed for `cells` in order, the i-th one drawing rng(k0 + i). */
  function Placed(cells: seq<Cell>, pal: Palette, rng: Rng, k0: nat): (ps: seq<Particle>)
    ensures |ps| == |cells|
  {
    if cells == [] then []
    else Placed(cells[..|cells| - 1], pal, rng, k0) + [Dot(cells[|cells| - 1], pal(rng(k0 + |cells| - 1)))]
  }

  /** The i-th particle is the dot of the i-th cell, coloured by draw k0 + i. */
  lemma {:induction false} PlacedAt(cells: seq<Cell>, pal: Palette, rng: Rng, k0: nat, i: int)
    requires 0 <= i < |cells|
    ensures Placed(cells, pal, rng, k0)[i] == Dot(cells[i], pal(rng(k0 + i)))
  {
    if i < |cells| - 1 {
      PlacedAt(cells[..|cells| - 1], pal, rng, k0, i);
    }
  }

  lemma PlacedSnoc(cells: seq<Cell>, cell: Cell, pal: Palette, rng: Rng, k0: nat)
    ensures Placed(cells + [cell], pal, rng, k0) == Placed(cells, pal, rng, k0) + [Dot(cell, pal(rng(k0 + |cells|)))]
  {
    assert (cells + [cell])[..|cells|] == cells;
  }

  /** Placing two lists of cells one after the other places the second from where the first stopped. */
  lemma {:induction false} PlacedAppend(a: seq<Cell>, b: seq<Cell>, pal: Palette, rng: Rng, k0: nat)
    ensures Placed(a + b, pal, rng, k0) == Placed(a, pal, rng, k0) + Placed(b, pal, rng, k0 + |a|)
  {
    if b == [] {
      assert a + b == a;
    } else {
      var b', x := b[..|b| - 1], b[|b| - 1];
      assert b == b' + [x];
      assert a + b == (a + b') + [x];
      PlacedAppend(a, b', pal, rng, k0);
      PlacedSnoc(a + b', x, pal, rng, k0);
      PlacedSnoc(b', x, pal, rng, k0 + |a|);
      assert k0 + |a + b'| == k0 + |a| + |b'|;
    }
  }

  /** Scanning one more row appends its 1-cells. */
  lemma ShapeOnesSnoc(shape: seq<seq<int>>, r: int)
    requires 0 <= r < |shape|
    ensures ShapeOnes(shape, r + 1) == ShapeOnes(shape, r) + RowOnes(shape, r, |shape[r]|)
  {
  }

  /** The particles of the rows above followed by those of row r, drawn from where they stopped, are those of rows 0 .. r. */
  lemma ScanRowAppends(shape: seq<seq<int>>, r: int, pal: Palette, rng: Rng, k0: nat, particles: seq<Particle>, row: seq<Particle>)
    requires 0 <= r < |shape|
    requires particles == Placed(ShapeOnes(shape, r), pal, rng, k0)
    requires row == Placed(RowOnes(shape, r, |shape[r]|), pal, rng, k0 + |particles|)
    ensures particles + row == Placed(ShapeOnes(shape, r + 1), pal, rng, k0)
  {
    PlacedAppend(ShapeOnes(shape, r), RowOnes(shape, r, |shape[r]|), pal, rng, k0);
    ShapeOnesSnoc(shape, r);
  }

  /** One row of the nested forEach: a particle for every 1-cell, left to right. */
  method ScanRow(shape: seq<seq<int>>, r: int, pal: Palette, rng: Rng, k0: nat) returns (row: seq<Particle>, k: nat)
    requires 0 <= r < |shape|
    ensures row == Placed(RowOnes(shape, r, |shape[r]|), pal, rng, k0)
    ensures k == k0 + |row|
  {
    row, k := [], k0;
    ghost var cells: seq<Cell> := [];
    var c := 0;
    while c < |shape[r]|
      invariant 0 <= c <= |shape[r]|
      invariant cells == RowOnes(shape, r, c)
      invariant row == Placed(cells, pal, rng, k0)
      invariant k == k0 + |row|
    {
      if shape[r][c] == 1 {
        PlacedSnoc(cells, (r, c), pal, rng, k0);
        row := row + [Dot((r, c), pal(rng(k)))];
        cells := cells + [(r, c)];
        k := k + 1;
      }
      c := c + 1;
    }
  }

  /**
   * The nested forEach of initParticles: row by row and left to right, a
   * particle for every 1-cell, its colour drawn from the palette as it goes.
   */
  method ScanShape(shape: seq<seq<int>>, pal: Palette, rng: Rng, k0: nat) returns (particles: seq<Particle>, k: nat)
    ensures particles == Placed(ShapeOnes(shape, |shape|), pal, rng, k0)
    ensures k == k0 + |particles|
  {
    particles, k := [], k0;
    var r := 0;
    while r < |shape|
      invariant 0 <= r <= |shape|
      invariant particles == Placed(ShapeOnes(shape, r), pal, rng, k0)
      invariant k == k0 + |particles|
    {
      var row;
      row, k := ScanRow(shape, r, pal, rng, k);
      ScanRowAppends(shape, r, pal, rng, k0, particles, row);
      particles := particles + row;
      r := r + 1;
    }
  }

  /**
   * initParticles: sizes the canvas to the bitmap and scans it with the
   * theme's palette. Math.random is the oracle `rng`, read from draw k0 on.
   */
  method InitParticles(shape: seq<seq<int>>, theme: string, rng: Rng, k0: nat)
    returns (width: nat, height: nat, particles: seq<Particle>, k: nat)
    requires Rectangular(shape)
    ensures width == CanvasExtent(|shape[0]|) && height == CanvasExtent(|shape|)
    ensures particles == Placed(ShapeOnes(shape, |shape|), ThemePalette(theme), rng, k0)
    ensures k == k0 + |particles|
  {
    var cols, rows := |shape[0]|, |shape|;
    width, height := cols * BlockGap + BlockPadding * 2, rows * BlockGap + BlockPadding * 2;
    particles, k := ScanShape(shape, ThemePalette(theme), rng, k0);
  }

  // ---------------------------------------------------------------------
  // The cells that get a particle
  // ---------------------------------------------------------------------

  /** a comes strictly before b in row-major order. */
  predicate CellBefore(a: Cell, b: Cell) {
    a.0 < b.0 || (a.0 == b.0 && a.1 < b.1)
  }

  predicate StrictlyRowMajor(cells: seq<Cell>) {
    forall a, b :: 0 <= a < b < |cells| ==> CellBefore(cells[a], cells[b])
  }

  /** A row lists exactly its 1-cells left of column c, in increasing column order. */
  lemma {:induction false} RowOnesExact(shape: seq<seq<int>>, r: int, c: int)
    requires 0 <= r < |shape| && 0 <= c <= |shape[r]|
    ensures forall q :: q in RowOnes(shape, r, c) <==> q.0 == r && 0 <= q.1 < c && shape[r][q.1] == 1
    ensures StrictlyRowMajor(RowOnes(shape, r, c))
  {
    if c > 0 {
      RowOnesExact(shape, r, c - 1);
      var front := RowOnes(shape, r, c - 1);
      var cells := RowOnes(shape, r, c);
      if shape[r][c - 1] == 1 {
        forall a, b | 0 <= a < b < |cells| ensures CellBefore(cells[a], cells[b]) {
          if b == |front| {
            assert cells[a] == front[a] && cells[a] in front;
          }
        }
      } else {
        assert cells == front;
      }
    }
  }

  /**
   * The particle cells are exactly the 1-cells of the bitmap, each listed
   * once, in row-major order.
   */
  lemma {:induction false} ShapeOnesExact(shape: seq<seq<int>>, r: int)
    requires 0 <= r <= |shape|
    ensures forall q :: q in ShapeOnes(shape, r) <==>
      0 <= q.0 < r && 0 <= q.1 < |shape[q.0]| && shape[q.0][q.1] == 1
    ensures StrictlyRowMajor(ShapeOnes(shape, r))
  {
    if r > 0 {
      ShapeOnesExact(shape, r - 1);
      RowOnesExact(shape, r - 1, |shape[r - 1]|);
      var front := ShapeOnes(shape, r - 1);
      var row := RowOnes(shape, r - 1, |shape[r - 1]|);
      var cells := front + row;
      forall a, b | 0 <= a < b < |cells| ensures CellBefore(cells[a], cells[b]) {
        if a < |front| && b >= |front| {
          assert cells[a] in front && cells[b] == row[b - |front|] && cells[b] in row;
        } else if a >= |front| {
          assert cells[a] == row[a - |front|] && cells[b] == row[b - |front|];
        }
      }
    }
  }

  // ---------------------------------------------------------------------
  // The particles
  // ---------------------------------------------------------------------

  /**
   * The pushed particles: one per 1-cell of the bitmap and none elsewhere,
   * each at rest at its cell's centre with a palette colour and size 2.5,
   * strictly inside the canvas, in row-major order of their positions (so
   * at pairwise distinct positions), and as many as the bitmap has 1-cells.
   */
  lemma {:induction false} BlockParticles(shape: seq<seq<int>>, theme: string, rng: Rng, k0: nat)
    requires Rectangular(shape)
    ensures var cells := ShapeOnes(shape, |shape|);
      var ps := Placed(cells, ThemePalette(theme), rng, k0);
      (forall r, c :: 0 <= r < |shape| && 0 <= c < |shape[r]| ==> (shape[r][c] == 1 <==> (r, c) in cells)) &&
      (forall i :: 0 <= i < |ps| ==>
        ps[i] == RestingAt(DotCenter(cells[i].0, cells[i].1), ps[i].color, BlockDotSize) &&
        ps[i].color in ActiveColors(theme) &&
        0.0 < ps[i].x < CanvasExtent(|shape[0]|) as real &&
        0.0 < ps[i].y < CanvasExtent(|shape|) as real) &&
      (forall a, b :: 0 <= a < b < |ps| ==>
        ps[a].y < ps[b].y || (ps[a].y == ps[b].y && ps[a].x < ps[b].x))
  {
    var cells := ShapeOnes(shape, |shape|);
    var ps := Placed(cells, ThemePalette(theme), rng, k0);
    ShapeOnesExact(shape, |shape|);
    forall i | 0 <= i < |ps|
      ensures 0.0 < ps[i].x < CanvasExtent(|shape[0]|) as real
      ensures 0.0 < ps[i].y < CanvasExtent(|shape|) as real
      ensures ps[i] == RestingAt(DotCenter(cells[i].0, cells[i].1), ps[i].color, BlockDotSize)
      ensures ps[i].color in ActiveColors(theme)
    {
      PlacedAt(cells, ThemePalette(theme), rng, k0, i);
      assert cells[i] in cells;
      var r, c := cells[i].0, cells[i].1;
      assert c + 1 <= |shape[0]| && r + 1 <= |shape|;
      assert BlockPadding + c * BlockGap + BlockGap <= CanvasExtent(|shape[0]|);
      assert BlockPadding + r * BlockGap + BlockGap <= CanvasExtent(|shape|);
    }
    forall a, b | 0 <= a < b < |ps|
      ensures ps[a].y < ps[b].y || (ps[a].y == ps[b].y && ps[a].x < ps[b].x)
    {
      PlacedAt(cells, ThemePalette(theme), rng, k0, a);
      PlacedAt(cells, ThemePalette(theme), rng, k0, b);
      assert CellBefore(cells[a], cells[b]);
      if cells[a].0 < cells[b].0 {
        assert cells[a].0 * BlockGap + BlockGap <= cells[b].0 * BlockGap;
      }
    }
  }
}
