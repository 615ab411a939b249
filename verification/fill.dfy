/**
 * The last pass of the background layout: every grid cell, in row-major
 * order, draws a colour and then gets a glyph dot, a circuit pad, a plain
 * dot or nothing, tested in that order: the padded box of the letter M
 * first, then the circuit zone rows, then everything else.
 */
module Fill {
  import opened Wrappers
  import opened Oracle
  import opened Canvas
  import opened GridLayout
  import opened Occupancy

  /** Colour of the glyph's dots: maize on the dark theme, Michigan blue otherwise. */
  function GlyphColor(theme: string): Color {
    if IsDark(theme) then Maize else MichiganBlue
  }

  /** padColor: the dots left on occupied circuit cells. */
  function PadColor(theme: string): Color {
    if IsDark(theme) then PadWhite else PadBlack
  }

  const DotSize: real := 2.5
  const PadSize: real := 2.0

  /** First grid row and column of the glyph. */
  datatype Anchor = Anchor(row: int, col: int)

  /** Row i lies in the circuit zone, which exists only when a projects section was found. */
  predicate InZoneRows(z: Zone, i: int) {
    z.startRow != -1 && z.startRow <= i <= z.endRow
  }

  /**
   * The particle, if any, of cell (i, j): `occupied` is the mask entry of the
   * cell and `d` the colour draw made for it.
   */
  function CellParticle(i: int, j: int, theme: string, m: Anchor, z: Zone, occupied: bool, d: Draw): (p: Option<Particle>)
    ensures p.Some? ==> p.value == RestingAt(Center(i, j), p.value.color, p.value.size)
  {
    var mRow, mCol := i - m.row, j - m.col;
    if InVoidZone(mRow, mCol) then
      if IsMPixel(mRow, mCol) then Some(RestingAt(Center(i, j), GlyphColor(theme), DotSize)) else None
    else if InZoneRows(z, i) then
      if occupied then Some(RestingAt(Center(i, j), PadColor(theme), PadSize)) else None
    else Some(RestingAt(Center(i, j), DrawColor(theme, d), DotSize))
  }

  /**
   * The three cases of the fill: in the padded glyph box a dot exists iff the
   * stencil has a 1 there; in the zone rows a pad exists iff the cell is
   * occupied; elsewhere there is always a dot in a palette colour.
   */
  lemma CellCases(i: int, j: int, theme: string, m: Anchor, z: Zone, occupied: bool, d: Draw)
    ensures var p := CellParticle(i, j, theme, m, z, occupied, d);
      InVoidZone(i - m.row, j - m.col) ==>
        (p.Some? <==> IsMPixel(i - m.row, j - m.col)) &&
        (p.Some? ==> p.value.color == GlyphColor(theme) && p.value.size == DotSize)
    ensures var p := CellParticle(i, j, theme, m, z, occupied, d);
      !InVoidZone(i - m.row, j - m.col) && InZoneRows(z, i) ==>
        (p.Some? <==> occupied) && (p.Some? ==> p.value.color == PadColor(theme) && p.value.size == PadSize)
    ensures var p := CellParticle(i, j, theme, m, z, occupied, d);
      !InVoidZone(i - m.row, j - m.col) && !InZoneRows(z, i) ==>
        p.Some? && p.value.color in ActiveColors(theme) && p.value.size == DotSize
  {
  }

  /**
   * The mask does not reach into the padded glyph box: walkers may cross it,
   * but what is drawn there depends on the stencil alone.
   */
  lemma GlyphBoxIgnoresMask(i: int, j: int, theme: string, m: Anchor, z: Zone,
                            occ1: bool, d1: Draw, occ2: bool, d2: Draw)
    requires InVoidZone(i - m.row, j - m.col)
    ensures CellParticle(i, j, theme, m, z, occ1, d1) == CellParticle(i, j, theme, m, z, occ2, d2)
  {
  }

  /** The particle pushed for a cell, as a list of length 0 or 1. */
  function Pushed(o: Option<Particle>): (s: seq<Particle>)
    ensures |s| <= 1
    ensures forall x :: x in s <==> o == Some(x)
  {
    if o.Some? then [o.value] else []
  }

  /**
   * A per-cell decision: from the cell's row, column, mask entry and colour
   * draw, the particle it gets, if any.
   */
  type CellRule = (int, int, bool, Draw) -> Option<Particle>

  /** The decision of the background layout, for a given theme, glyph anchor and zone. */
  function LayoutRule(theme: string, m: Anchor, z: Zone): CellRule {
    (i: int, j: int, occupied: bool, d: Draw) => CellParticle(i, j, theme, m, z, occupied, d)
  }

  /** Every particle a rule gives sits at the centre of its own cell. */
  ghost predicate Centred(rule: CellRule) {
    forall i, j, occupied, d :: rule(i, j, occupied, d).Some? ==>
      rule(i, j, occupied, d).value.x == Center(i, j).x && rule(i, j, occupied, d).value.y == Center(i, j).y
  }

  lemma CentredAt(rule: CellRule, i: int, j: int, occupied: bool, d: Draw)
    requires Centred(rule) && rule(i, j, occupied, d).Some?
    ensures rule(i, j, occupied, d).value.x == Center(i, j).x
    ensures rule(i, j, occupied, d).value.y == Center(i, j).y
  {
  }

  lemma LayoutRuleCentred(theme: string, m: Anchor, z: Zone)
    ensures Centred(LayoutRule(theme, m, z))
  {
    forall i, j, occupied, d | LayoutRule(theme, m, z)(i, j, occupied, d).Some?
      ensures LayoutRule(theme, m, z)(i, j, occupied, d).value.x == Center(i, j).x
      ensures LayoutRule(theme, m, z)(i, j, occupied, d).value.y == Center(i, j).y
    {
      var p := CellParticle(i, j, theme, m, z, occupied, d);
      assert p.value == RestingAt(Center(i, j), p.value.color, p.value.size);
    }
  }

  /** The particles of cells (i, 0) .. (i, j - 1); cell (i, j') uses draw rng(base + j'). */
  function FillRow(g: array2<bool>, i: int, j: int, rule: CellRule, rng: Rng, base: nat): seq<Particle>
    reads g
    requires 0 <= i < g.Length0 && 0 <= j <= g.Length1
  {
    if j == 0 then []
    else FillRow(g, i, j - 1, rule, rng, base) + Pushed(rule(i, j - 1, g[i, j - 1], rng(base + j - 1)))
  }

  /** The decision for cell (i, j) of the pass that starts drawing at k0. */
  function CellDecision(g: array2<bool>, rule: CellRule, rng: Rng, k0: nat, i: int, j: int): Option<Particle>
    reads g
    requires 0 <= i < g.Length0 && 0 <= j < g.Length1
  {
    rule(i, j, g[i, j], rng(RowBase(k0, g.Length1, i) + j))
  }

  /** Index of the first draw of row i when row 0 starts at draw k0: k0 + i * cols. */
  function RowBase(k0: nat, cols: nat, i: nat): (base: nat)
    ensures base >= k0
  {
    if i == 0 then k0 else RowBase(k0, cols, i - 1) + cols
  }

  lemma {:induction false} RowBaseIs(k0: nat, cols: nat, i: nat)
    ensures RowBase(k0, cols, i) == k0 + i * cols
  {
    if i > 0 {
      RowBaseIs(k0, cols, i - 1);
      assert (i - 1) * cols + cols == i * cols;
    }
  }

  /** The particles of rows 0 .. i - 1; row r starts at draw RowBase(k0, cols, r). */
  function FillGrid(g: array2<bool>, i: nat, rule: CellRule, rng: Rng, k0: nat): seq<Particle>
    reads g
    requires i <= g.Length0
  {
    if i == 0 then []
    else FillGrid(g, i - 1, rule, rng, k0) + FillRow(g, i - 1, g.Length1, rule, rng, RowBase(k0, g.Length1, i - 1))
  }

  /**
   * The inner loop of the fill pass over row i: columns 0 .. cols - 1, one
   * colour draw per cell starting at draw `base`.
   */
  method FillRowParticles(g: array2<bool>, i: int, rule: CellRule, rng: Rng, base: nat)
    returns (row: seq<Particle>, k: nat)
    requires 0 <= i < g.Length0
    ensures row == FillRow(g, i, g.Length1, rule, rng, base)
    ensures k == base + g.Length1
  {
    row, k := [], base;
    var j := 0;
    while j < g.Length1
      invariant 0 <= j <= g.Length1
      invariant row == FillRow(g, i, j, rule, rng, base)
      invariant k == base + j
    {
      row := row + Pushed(rule(i, j, g[i, j], rng(k)));
      k := k + 1;
      j := j + 1;
    }
  }

  /**
   * The fill pass: visits rows 0 .. rows - 1 and, in each, columns
   * 0 .. cols - 1, making one colour draw per cell and pushing the cell's
   * particle, if any, as `rule` decides it.
   */
  method FillParticles(g: array2<bool>, rule: CellRule, rng: Rng, k0: nat)
    returns (particles: seq<Particle>, k: nat)
    ensures particles == FillGrid(g, g.Length0, rule, rng, k0)
    ensures k == k0 + g.Length0 * g.Length1
  {
    particles, k := [], k0;
    var i := 0;
    while i < g.Length0
      invariant 0 <= i <= g.Length0
      invariant particles == FillGrid(g, i, rule, rng, k0)
      invariant k == RowBase(k0, g.Length1, i)
    {
      var row;
      row, k := FillRowParticles(g, i, rule, rng, k);
      assert FillGrid(g, i + 1, rule, rng, k0) == particles + row;
      particles := particles + row;
      i := i + 1;
    }
    RowBaseIs(k0, g.Length1, g.Length0);
  }

  // ---------------------------------------------------------------------
  // What the pass produces
  // ---------------------------------------------------------------------

  /** Every particle of a row is the decision of one of its cells. */
  lemma {:induction false} FillRowSound(g: array2<bool>, i: int, j: int, rule: CellRule, rng: Rng, base: nat, p: Particle)
    requires 0 <= i < g.Length0 && 0 <= j <= g.Length1
    requires p in FillRow(g, i, j, rule, rng, base)
    ensures exists j' :: 0 <= j' < j && rule(i, j', g[i, j'], rng(base + j')) == Some(p)
  {
    if p in FillRow(g, i, j - 1, rule, rng, base) {
      FillRowSound(g, i, j - 1, rule, rng, base, p);
      var j' :| 0 <= j' < j - 1 && rule(i, j', g[i, j'], rng(base + j')) == Some(p);
      assert 0 <= j' < j;
    } else {
      assert rule(i, j - 1, g[i, j - 1], rng(base + j - 1)) == Some(p);
    }
  }

  /** Every particle a cell of the row decides on is in the row. */
  lemma {:induction false} FillRowComplete(g: array2<bool>, i: int, j: int, rule: CellRule, rng: Rng, base: nat, j': int)
    requires 0 <= i < g.Length0 && 0 <= j' < j <= g.Length1
    requires rule(i, j', g[i, j'], rng(base + j')).Some?
    ensures rule(i, j', g[i, j'], rng(base + j')).value in FillRow(g, i, j, rule, rng, base)
  {
    if j' < j - 1 {
      FillRowComplete(g, i, j - 1, rule, rng, base, j');
    }
  }

  /** p is the decision of some cell in rows 0 .. rows - 1. */
  ghost predicate Decided(g: array2<bool>, rule: CellRule, rng: Rng, k0: nat, rows: nat, p: Particle)
    reads g
    requires rows <= g.Length0
  {
    exists i, j :: 0 <= i < rows && 0 <= j < g.Length1 && CellDecision(g, rule, rng, k0, i, j) == Some(p)
  }

  /** Every particle of the pass is the decision of some visited cell. */
  lemma {:induction false} FillGridSound(g: array2<bool>, rows: nat, rule: CellRule, rng: Rng, k0: nat, p: Particle)
    requires rows <= g.Length0
    requires p in FillGrid(g, rows, rule, rng, k0)
    ensures Decided(g, rule, rng, k0, rows, p)
  {
    var cols := g.Length1;
    var base := RowBase(k0, cols, rows - 1);
    if p in FillGrid(g, rows - 1, rule, rng, k0) {
      FillGridSound(g, rows - 1, rule, rng, k0, p);
      var i, j :| 0 <= i < rows - 1 && 0 <= j < cols && CellDecision(g, rule, rng, k0, i, j) == Some(p);
      assert 0 <= i < rows;
    } else {
      FillRowSound(g, rows - 1, cols, rule, rng, base, p);
      var j :| 0 <= j < cols && rule(rows - 1, j, g[rows - 1, j], rng(base + j)) == Some(p);
      assert CellDecision(g, rule, rng, k0, rows - 1, j) == Some(p);
    }
  }

  /** Every particle a visited cell decides on is emitted by the pass. */
  lemma {:induction false} FillGridComplete(g: array2<bool>, rows: nat, rule: CellRule, rng: Rng, k0: nat, i: int, j: int)
    requires 0 <= i < rows <= g.Length0 && 0 <= j < g.Length1
    requires CellDecision(g, rule, rng, k0, i, j).Some?
    ensures CellDecision(g, rule, rng, k0, i, j).value in FillGrid(g, rows, rule, rng, k0)
  {
    if i < rows - 1 {
      FillGridComplete(g, rows - 1, rule, rng, k0, i, j);
    } else {
      FillRowComplete(g, i, g.Length1, rule, rng, RowBase(k0, g.Length1, i), j);
    }
  }

  /** p comes strictly before q in row-major order of their positions. */
  predicate RowMajorBefore(p: Particle, q: Particle) {
    p.y < q.y || (p.y == q.y && p.x < q.x)
  }

  predicate RowMajor(ps: seq<Particle>) {
    forall a, b :: 0 <= a < b < |ps| ==> RowMajorBefore(ps[a], ps[b])
  }

  /** The particles of a row sit on that row, left of column j, in left-to-right order. */
  lemma {:induction false} FillRowOrdered(g: array2<bool>, i: int, j: int, rule: CellRule, rng: Rng, base: nat)
    requires 0 <= i < g.Length0 && 0 <= j <= g.Length1
    requires Centred(rule)
    ensures RowMajor(FillRow(g, i, j, rule, rng, base))
    ensures forall p :: p in FillRow(g, i, j, rule, rng, base) ==> p.y == Center(i, 0).y && p.x < (j * Gap) as real
  {
    if j > 0 {
      FillRowOrdered(g, i, j - 1, rule, rng, base);
      var front := FillRow(g, i, j - 1, rule, rng, base);
      var last := Pushed(rule(i, j - 1, g[i, j - 1], rng(base + j - 1)));
      var ps := front + last;
      var o := rule(i, j - 1, g[i, j - 1], rng(base + j - 1));
      if o.Some? {
        CentredAt(rule, i, j - 1, g[i, j - 1], rng(base + j - 1));
        assert (j - 1) * Gap + Gap == j * Gap;
        assert Center(i, j - 1).y == Center(i, 0).y;
      }
      forall p: Particle | p in ps ensures p.y == Center(i, 0).y && p.x < (j * Gap) as real {
        if p in front {
          assert p.x < ((j - 1) * Gap) as real;
        }
      }
      forall a, b | 0 <= a < b < |ps| ensures RowMajorBefore(ps[a], ps[b]) {
        if b >= |front| {
          assert ps[a] == front[a] && ps[a] in front;
          assert ps[b] in last && ps[b] == o.value;
        }
      }
    }
  }

  /**
   * The pass emits particles in strictly increasing row-major order of their
   * positions, so no two particles share a cell.
   */
  lemma {:induction false} FillGridOrdered(g: array2<bool>, rows: nat, rule: CellRule, rng: Rng, k0: nat)
    requires rows <= g.Length0
    requires Centred(rule)
    ensures RowMajor(FillGrid(g, rows, rule, rng, k0))
    ensures forall p :: p in FillGrid(g, rows, rule, rng, k0) ==> p.y < (rows * Gap) as real
  {
    if rows > 0 {
      var cols := g.Length1;
      FillGridOrdered(g, rows - 1, rule, rng, k0);
      FillRowOrdered(g, rows - 1, cols, rule, rng, RowBase(k0, cols, rows - 1));
      var front := FillGrid(g, rows - 1, rule, rng, k0);
      var row := FillRow(g, rows - 1, cols, rule, rng, RowBase(k0, cols, rows - 1));
      var ps := front + row;
      forall a, b | 0 <= a < b < |ps| ensures RowMajorBefore(ps[a], ps[b]) {
        if a < |front| && b >= |front| {
          assert ps[a] == front[a] && ps[a] in front;
          assert ps[b] == row[b - |front|] && ps[b] in row;
        } else if a >= |front| {
          assert ps[a] == row[a - |front|] && ps[b] == row[b - |front|];
        }
      }
      forall p | p in ps ensures p.y < (rows * Gap) as real {
        if p in row {
          assert p.y == Center(rows - 1, 0).y;
        }
      }
    }
  }

  lemma {:induction false} FillRowCount(g: array2<bool>, i: int, j: int, rule: CellRule, rng: Rng, base: nat)
    requires 0 <= i < g.Length0 && 0 <= j <= g.Length1
    ensures |FillRow(g, i, j, rule, rng, base)| <= j
  {
    if j > 0 {
      FillRowCount(g, i, j - 1, rule, rng, base);
    }
  }

  /** At most one particle per visited cell. */
  lemma {:induction false} FillGridCount(g: array2<bool>, rows: nat, rule: CellRule, rng: Rng, k0: nat)
    requires rows <= g.Length0
    ensures |FillGrid(g, rows, rule, rng, k0)| <= rows * g.Length1
  {
    if rows > 0 {
      FillGridCount(g, rows - 1, rule, rng, k0);
      FillRowCount(g, rows - 1, g.Length1, rule, rng, RowBase(k0, g.Length1, rows - 1));
      assert (rows - 1) * g.Length1 + g.Length1 == rows * g.Length1;
    }
  }
}
