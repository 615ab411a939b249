/**
 * The layout the background canvas is rebuilt to on mount, on resize and on
 * a theme change: a grid of 30-pixel cells over the whole document, the
 * card band of the projects section marked occupied, sixty circuit walkers
 * over the section's zone, and then the row-major fill pass that turns every
 * cell into a glyph dot, a pad, a plain dot or nothing.
 */
module ParticleWave {
  import opened Wrappers
  import opened Oracle
  import opened Canvas
  import opened GridLayout
  import opened Occupancy
  import opened Symbols
  import opened Walker
  import opened Fill

  /** numWalkers */
  const NumWalkers: nat := 60

  /** circuitBaseColor: the colour of every wire and symbol stroke. */
  function WireColor(theme: string): Color {
    if IsDark(theme) then WireWhite else WireBlack
  }

  /** What the layout reads from the browser, in pixels. */
  datatype Viewport = Viewport(innerWidth: nat, innerHeight: nat, bodyScrollHeight: nat, docScrollHeight: nat)

  function Rows(v: Viewport): nat {
    CellCount(CanvasHeight(v.innerHeight, v.bodyScrollHeight, v.docScrollHeight))
  }

  function Cols(v: Viewport): nat {
    CellCount(v.innerWidth)
  }

  /** (startRow, startCol) of the glyph. */
  function GlyphAnchor(v: Viewport): Anchor {
    Anchor(GlyphStartRow(v.innerHeight), GlyphStartCol(Cols(v), IsDesktop(v.innerWidth)))
  }

  /** The circuit zone: all rows -1 when the page has no projects section. */
  function ZoneOf(v: Viewport, section: Option<Section>): (z: Zone)
    ensures section.None? ==> z == NoZone
    ensures section.Some? ==> 0 <= z.startRow <= z.endRow < Rows(v)
    ensures section.Some? ==> z == ZoneFor(section.value, Rows(v), IsDesktop(v.innerWidth))
  {
    if section.None? then NoZone else ZoneFor(section.value, Rows(v), IsDesktop(v.innerWidth))
  }

  /** The card band of a zone on a grid of `cols` columns. */
  predicate InBand(z: Zone, cols: nat, i: int, j: int) {
    InRect(i, j, z.exclStartRow, z.exclEndRow, ExcludeStartCol(cols), ExcludeEndCol(cols))
  }

  /** Every stroke of a walk, the optional ground cap included, has the walk's colour. */
  lemma WalkTracesColored(placed: seq<Placement>, cap: Option<Placement>, color: Color)
    requires forall p :: p in placed ==> ValidPlacement(p)
    ensures forall t :: t in Emitted(placed, color) + CapTraces(cap, color) ==> t.color == color
  {
    forall t | t in Emitted(placed, color) + CapTraces(cap, color) ensures t.color == color {
      if t in Emitted(placed, color) {
        EmittedInFootprints(placed, color, t);
      }
    }
  }

  /**
   * The generation loop: sixty walkers, each spawning in rows [z.startRow,
   * z.endRow) and walking from there when it found a clear cell. Walkers
   * only ever add marks; with a zone of no height nothing is drawn, marked
   * or consumed.
   */
  method RunWalkers(g: array2<bool>, rng: Rng, k0: nat, z: Zone, color: Color)
    returns (traces: seq<Trace>, k: nat)
    requires g.Length1 > 0
    modifies g
    ensures k >= k0
    ensures forall i, j :: InGrid(g, i, j) && old(g[i, j]) ==> g[i, j]
    ensures forall t :: t in traces ==> t.color == color
    ensures z.endRow - z.startRow <= 0 ==>
      traces == [] && k == k0 && forall i, j :: InGrid(g, i, j) ==> g[i, j] == old(g[i, j])
  {
    var zoneHeight := z.endRow - z.startRow;
    traces, k := [], k0;
    var w := 0;
    while w < NumWalkers
      invariant 0 <= w <= NumWalkers
      invariant k >= k0
      invariant forall i, j :: InGrid(g, i, j) && old(g[i, j]) ==> g[i, j]
      invariant forall t :: t in traces ==> t.color == color
      invariant zoneHeight <= 0 ==>
        traces == [] && k == k0 && forall i, j :: InGrid(g, i, j) ==> g[i, j] == old(g[i, j])
    {
      var spawned, r, c;
      spawned, r, c, k := Spawn(g, rng, k, z.startRow, zoneHeight);
      if spawned {
        var walkTraces, k';
        ghost var claimed, path, placed, capAt;
        var cap;
        walkTraces, k', claimed, path, placed, cap, capAt := Walk(g, rng, k, r, c, color);
        WalkTracesColored(placed, cap, color);
        traces := traces + walkTraces;
        k := k';
      }
      w := w + 1;
    }
  }

  /**
   * initParticles: sizes the grid from the viewport, marks the card band and
   * runs the walkers when a projects section exists, then fills the grid.
   * Math.random is the oracle `rng`, read from draw 0 on; kFill is the first
   * draw of the fill pass.
   */
  method InitParticles(v: Viewport, section: Option<Section>, theme: string, rng: Rng)
    returns (particles: seq<Particle>, traces: seq<Trace>, mask: array2<bool>, ghost kFill: nat)
    ensures fresh(mask) && mask.Length0 == Rows(v) && mask.Length1 == Cols(v)
    ensures particles == FillGrid(mask, mask.Length0, LayoutRule(theme, GlyphAnchor(v), ZoneOf(v, section)), rng, kFill)
    ensures forall t :: t in traces ==> t.color == WireColor(theme)
    ensures section.None? ==>
      traces == [] && kFill == 0 && forall i, j :: InGrid(mask, i, j) ==> !mask[i, j]
    ensures section.Some? ==>
      forall i, j :: InGrid(mask, i, j) && InBand(ZoneOf(v, section), Cols(v), i, j) ==> mask[i, j]
    ensures section.Some? && ZoneOf(v, section).endRow == ZoneOf(v, section).startRow ==>
      traces == [] && kFill == 0 &&
      forall i, j :: InGrid(mask, i, j) ==> (mask[i, j] <==> InBand(ZoneOf(v, section), Cols(v), i, j))
  {
    var rows, cols := Rows(v), Cols(v);
    mask := new bool[rows, cols]((i, j) => false);
    var z := ZoneOf(v, section);
    traces, kFill := [], 0;
    var k := 0;
    if section.Some? {
      MarkRect(mask, z.exclStartRow, z.exclEndRow, ExcludeStartCol(cols), ExcludeEndCol(cols));
      traces, k := RunWalkers(mask, rng, 0, z, WireColor(theme));
      kFill := k;
    }
    particles, k := FillParticles(mask, LayoutRule(theme, GlyphAnchor(v), z), rng, k);
  }

  // ---------------------------------------------------------------------
  // What the fill pass draws, cell by cell
  // ---------------------------------------------------------------------

  /** The particles come out in strictly increasing row-major order, one cell each at most. */
  lemma LayoutOrdered(g: array2<bool>, theme: string, m: Anchor, z: Zone, rng: Rng, k0: nat)
    ensures RowMajor(FillGrid(g, g.Length0, LayoutRule(theme, m, z), rng, k0))
    ensures |FillGrid(g, g.Length0, LayoutRule(theme, m, z), rng, k0)| <= g.Length0 * g.Length1
  {
    LayoutRuleCentred(theme, m, z);
    FillGridOrdered(g, g.Length0, LayoutRule(theme, m, z), rng, k0);
    FillGridCount(g, g.Length0, LayoutRule(theme, m, z), rng, k0);
  }

  /** The kind of particle cell (i, j) holds under the layout rule. */
  predicate LayoutParticleOf(p: Particle, i: int, j: int, theme: string, m: Anchor, z: Zone, occupied: bool) {
    p == RestingAt(Center(i, j), p.color, p.size) &&
    if InVoidZone(i - m.row, j - m.col) then
      IsMPixel(i - m.row, j - m.col) && p.color == GlyphColor(theme) && p.size == DotSize
    else if InZoneRows(z, i) then
      occupied && p.color == PadColor(theme) && p.size == PadSize
    else
      p.color in ActiveColors(theme) && p.size == DotSize
  }

  /**
   * Every particle is the one of a grid cell: a glyph dot on a 1 of the
   * stencil inside the padded glyph box, a pad on an occupied cell of the
   * zone rows, or a dot in a palette colour anywhere else.
   */
  lemma LayoutParticleCases(g: array2<bool>, theme: string, m: Anchor, z: Zone, rng: Rng, k0: nat)
    ensures forall p :: p in FillGrid(g, g.Length0, LayoutRule(theme, m, z), rng, k0) ==>
      exists i, j :: InGrid(g, i, j) && LayoutParticleOf(p, i, j, theme, m, z, g[i, j])
  {
    var rule := LayoutRule(theme, m, z);
    forall p | p in FillGrid(g, g.Length0, rule, rng, k0)
      ensures exists i, j :: InGrid(g, i, j) && LayoutParticleOf(p, i, j, theme, m, z, g[i, j])
    {
      FillGridSound(g, g.Length0, rule, rng, k0, p);
      var i, j :| 0 <= i < g.Length0 && 0 <= j < g.Length1 && CellDecision(g, rule, rng, k0, i, j) == Some(p);
      var d := rng(RowBase(k0, g.Length1, i) + j);
      assert CellParticle(i, j, theme, m, z, g[i, j], d) == Some(p);
      CellCases(i, j, theme, m, z, g[i, j], d);
      assert LayoutParticleOf(p, i, j, theme, m, z, g[i, j]);
    }
  }

  /** Every 1 of the stencil that falls on the grid is drawn, in the glyph colour. */
  lemma GlyphDrawn(g: array2<bool>, theme: string, m: Anchor, z: Zone, rng: Rng, k0: nat, i: int, j: int)
    requires InGrid(g, i, j) && IsMPixel(i - m.row, j - m.col)
    ensures RestingAt(Center(i, j), GlyphColor(theme), DotSize) in FillGrid(g, g.Length0, LayoutRule(theme, m, z), rng, k0)
  {
    var rule := LayoutRule(theme, m, z);
    var d := rng(RowBase(k0, g.Length1, i) + j);
    MPixelInVoidZone(i - m.row, j - m.col);
    CellCases(i, j, theme, m, z, g[i, j], d);
    var o := CellDecision(g, rule, rng, k0, i, j);
    assert o == CellParticle(i, j, theme, m, z, g[i, j], d);
    FillGridComplete(g, g.Length0, rule, rng, k0, i, j);
  }

  /**
   * Outside the glyph box, every occupied cell of the zone rows shows a pad,
   * and every cell outside the zone rows shows a dot of the palette.
   */
  lemma BackgroundDrawn(g: array2<bool>, theme: string, m: Anchor, z: Zone, rng: Rng, k0: nat, i: int, j: int)
    requires InGrid(g, i, j) && !InVoidZone(i - m.row, j - m.col)
    ensures InZoneRows(z, i) && g[i, j] ==>
      RestingAt(Center(i, j), PadColor(theme), PadSize) in FillGrid(g, g.Length0, LayoutRule(theme, m, z), rng, k0)
    ensures !InZoneRows(z, i) ==>
      exists p :: p in FillGrid(g, g.Length0, LayoutRule(theme, m, z), rng, k0) &&
        p == RestingAt(Center(i, j), p.color, DotSize) && p.color in ActiveColors(theme)
  {
    var rule := LayoutRule(theme, m, z);
    var d := rng(RowBase(k0, g.Length1, i) + j);
    CellCases(i, j, theme, m, z, g[i, j], d);
    var o := CellDecision(g, rule, rng, k0, i, j);
    assert o == CellParticle(i, j, theme, m, z, g[i, j], d);
    if o.Some? {
      FillGridComplete(g, g.Length0, rule, rng, k0, i, j);
    }
  }
}
