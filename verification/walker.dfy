/**
 * The circuit walkers: each one spawns on a clear cell of the zone and takes
 * a self-avoiding walk over the occupancy mask, marking the cells it enters
 * and drawing a wire or a component symbol for every step.
 */
module Walker {
  import opened Wrappers
  import opened Oracle
  import opened Canvas
  import opened GridLayout
  import opened Occupancy
  import opened Symbols

  type Cell = (int, int)

  /** Walker starts attempted before giving up. */
  const SpawnAttempts: nat := 10

  /** Least and greatest number of steps a walker is given. */
  const MinSteps: nat := 30
  const StepSpread: nat := 50

  /** One symbol drawn from cell (r, c) towards (r + dr, c + dc). */
  datatype Placement = Placement(r: int, c: int, dr: int, dc: int, sym: Symbol)

  predicate ValidPlacement(p: Placement) {
    IsDir(p.dr, p.dc)
  }

  /** The traces pushed for a sequence of placements, in order. */
  function Emitted(ps: seq<Placement>, color: Color): (ts: seq<Trace>)
    requires forall i :: 0 <= i < |ps| ==> ValidPlacement(ps[i])
  {
    if ps == [] then []
    else
      var p := ps[|ps| - 1];
      assert ValidPlacement(p);
      Emitted(ps[..|ps| - 1], color) + SymbolTraces(p.sym, p.r, p.c, p.dr, p.dc, color)
  }

  lemma EmittedSnoc(ps: seq<Placement>, p: Placement, color: Color)
    requires forall i :: 0 <= i < |ps| ==> ValidPlacement(ps[i])
    requires ValidPlacement(p)
    ensures forall i :: 0 <= i < |ps + [p]| ==> ValidPlacement((ps + [p])[i])
    ensures Emitted(ps + [p], color) == Emitted(ps, color) + SymbolTraces(p.sym, p.r, p.c, p.dr, p.dc, color)
  {
    assert (ps + [p])[..|ps|] == ps;
  }

  /** Total number of traces a sequence of placements emits. */
  function TotalCount(ps: seq<Placement>): nat {
    if ps == [] then 0 else TotalCount(ps[..|ps| - 1]) + TraceCount(ps[|ps| - 1].sym)
  }

  /** The emitted list has exactly the traces its symbols promise, at most eight per placement. */
  lemma {:induction false} EmittedCount(ps: seq<Placement>, color: Color)
    requires forall i :: 0 <= i < |ps| ==> ValidPlacement(ps[i])
    ensures |Emitted(ps, color)| == TotalCount(ps) <= 8 * |ps|
  {
    if ps != [] {
      EmittedCount(ps[..|ps| - 1], color);
    }
  }

  /** Every emitted trace is one of the traces of the placement that drew it, and lies in that step's footprint. */
  lemma {:induction false} EmittedInFootprints(ps: seq<Placement>, color: Color, t: Trace)
    requires forall i :: 0 <= i < |ps| ==> ValidPlacement(ps[i])
    requires t in Emitted(ps, color)
    ensures t.color == color
    ensures exists i ::
      0 <= i < |ps| &&
      t in SymbolTraces(ps[i].sym, ps[i].r, ps[i].c, ps[i].dr, ps[i].dc, color) &&
      TraceInBox(t, StepBox(ps[i].r, ps[i].c, ps[i].dr, ps[i].dc))
  {
    var p := ps[|ps| - 1];
    var front := ps[..|ps| - 1];
    if t in Emitted(front, color) {
      EmittedInFootprints(front, color, t);
      var i :| 0 <= i < |front| && t in SymbolTraces(front[i].sym, front[i].r, front[i].c, front[i].dr, front[i].dc, color) &&
        TraceInBox(t, StepBox(front[i].r, front[i].c, front[i].dr, front[i].dc));
      assert ps[i] == front[i];
    } else {
      assert t in SymbolTraces(p.sym, p.r, p.c, p.dr, p.dc, color);
      SymbolInFootprint(p.sym, p.r, p.c, p.dr, p.dc, color);
      assert ps[|ps| - 1] == p;
    }
  }

  // ---------------------------------------------------------------------
  // Direction and component choice
  // ---------------------------------------------------------------------

  /** dirs.filter(d => isClear(r + d[0], c + d[1])) over a list of directions. */
  function ClearDirs(g: array2<bool>, r: int, c: int, ds: seq<(int, int)>): (valid: seq<(int, int)>)
    reads g
    ensures |valid| <= |ds|
    ensures forall d :: d in valid <==> d in ds && IsClear(g, r + d.0, c + d.1)
  {
    if ds == [] then []
    else
      (if IsClear(g, r + ds[0].0, c + ds[0].1) then [ds[0]] else []) + ClearDirs(g, r, c, ds[1..])
  }

  /** Filtering a concatenation filters each part in place: the clear directions keep their order. */
  lemma {:induction false} ClearDirsAppend(g: array2<bool>, r: int, c: int, a: seq<(int, int)>, b: seq<(int, int)>)
    ensures ClearDirs(g, r, c, a + b) == ClearDirs(g, r, c, a) + ClearDirs(g, r, c, b)
  {
    if a == [] {
      assert a + b == b;
    } else {
      assert (a + b)[0] == a[0];
      assert (a + b)[1..] == a[1..] + b;
      ClearDirsAppend(g, r, c, a[1..], b);
    }
  }

  /** When every listed direction is clear the filter keeps the whole list, in order. */
  lemma {:induction false} ClearDirsAllClear(g: array2<bool>, r: int, c: int, ds: seq<(int, int)>)
    requires forall i :: 0 <= i < |ds| ==> IsClear(g, r + ds[i].0, c + ds[i].1)
    ensures ClearDirs(g, r, c, ds) == ds
  {
    if ds != [] {
      ClearDirsAllClear(g, r, c, ds[1..]);
    }
  }

  /** The walker's valid moves from (r, c). */
  function ValidDirs(g: array2<bool>, r: int, c: int): (valid: seq<(int, int)>)
    reads g
    ensures |valid| <= 4
    ensures forall d :: d in valid ==> IsDir(d.0, d.1) && IsClear(g, r + d.0, c + d.1)
    ensures valid == [] <==> Stuck(g, r, c)
  {
    DirsAreUnitSteps();
    var valid := ClearDirs(g, r, c, Dirs);
    assert valid == [] ==> Stuck(g, r, c) by {
      if valid == [] {
        forall d | d in Dirs ensures !IsClear(g, r + d.0, c + d.1) {
          assert d !in valid;
        }
      }
    }
    assert valid != [] ==> !Stuck(g, r, c) by {
      if valid != [] {
        assert valid[0] in valid;
      }
    }
    valid
  }

  /** No 4-neighbour of (r, c) is clear. */
  predicate Stuck(g: array2<bool>, r: int, c: int)
    reads g
  {
    !IsClear(g, r, c + 1) && !IsClear(g, r, c - 1) && !IsClear(g, r + 1, c) && !IsClear(g, r - 1, c)
  }

  /** The four cells beside the current cell and beside the next cell, perpendicular to the step. */
  function Laterals(r: int, c: int, dr: int, dc: int): seq<Cell> {
    var perpR, perpC := dc, dr;
    [(r + perpR, c + perpC), (r - perpR, c - perpC),
     (r + dr + perpR, c + dc + perpC), (r + dr - perpR, c + dc - perpC)]
  }

  /** Marks every listed cell that lies inside the grid. */
  method MarkCells(g: array2<bool>, cells: seq<Cell>)
    modifies g
    ensures forall i, j :: InGrid(g, i, j) ==> g[i, j] == (old(g[i, j]) || (i, j) in cells)
  {
    var n := 0;
    while n < |cells|
      invariant 0 <= n <= |cells|
      invariant forall i, j :: InGrid(g, i, j) ==> g[i, j] == (old(g[i, j]) || (i, j) in cells[..n])
    {
      MarkOccupied(g, cells[n].0, cells[n].1);
      assert cells[..n + 1] == cells[..n] + [cells[n]];
      n := n + 1;
    }
    assert cells[..n] == cells;
  }

  /** Room for a component: all four lateral cells are clear. */
  predicate HasCompSpace(g: array2<bool>, r: int, c: int, dr: int, dc: int)
    reads g
  {
    var perpR, perpC := dc, dr;
    var nextR, nextC := r + dr, c + dc;
    var leftClear := IsClear(g, r + perpR, c + perpC) && IsClear(g, nextR + perpR, nextC + perpC);
    var rightClear := IsClear(g, r - perpR, c - perpC) && IsClear(g, nextR - perpR, nextC - perpC);
    leftClear && rightClear
  }

  lemma CompSpaceMeansLateralsClear(g: array2<bool>, r: int, c: int, dr: int, dc: int)
    ensures HasCompSpace(g, r, c, dr, dc) <==>
      forall q :: q in Laterals(r, c, dr, dc) ==> IsClear(g, q.0, q.1)
  {
  }

  /** The symbol drawn for a step, from the room available and one draw. */
  function ChooseComponent(hasCompSpace: bool, rand: Draw): (s: Symbol)
    ensures s != Ground
    ensures s != Wire <==> hasCompSpace && Below(rand, 1, 2)
  {
    if !hasCompSpace then Wire
    else if Below(rand, 1, 10) then Resistor
    else if Below(rand, 2, 10) then Capacitor
    else if Below(rand, 3, 10) then Inductor
    else if Below(rand, 4, 10) then OpAmp
    else if Below(rand, 5, 10) then Diode
    else Wire
  }

  /** Position of a component among the cumulative thresholds 0.1, 0.2, 0.3, 0.4, 0.5. */
  function Band(s: Symbol): nat {
    match s
    case Resistor => 0
    case Capacitor => 1
    case Inductor => 2
    case OpAmp => 3
    case Diode => 4
    case _ => 5
  }

  /** With room available, each component owns exactly its tenth of the draws. */
  lemma ComponentBand(s: Symbol, rand: Draw)
    requires s != Wire && s != Ground
    ensures ChooseComponent(true, rand) == s <==>
      Band(s) * Unit <= 10 * rand < (Band(s) + 1) * Unit
  {
  }

  // ---------------------------------------------------------------------
  // Spawning
  // ---------------------------------------------------------------------

  /** The cell tried by attempt a when the attempts start at draw k0. */
  function AttemptCell(rng: Rng, k0: nat, a: nat, zoneStart: int, zoneHeight: nat, cols: nat): Cell
    requires zoneHeight > 0 && cols > 0
  {
    (zoneStart + Pick(rng(k0 + 2 * a), zoneHeight), Pick(rng(k0 + 2 * a + 1), cols))
  }

  /**
   * Up to ten attempts at a random cell of rows [zoneStart, zoneStart +
   * zoneHeight) and of every column; the first clear one is the start.
   * When the zone has no height nothing is drawn and nothing spawns.
   */
  method Spawn(g: array2<bool>, rng: Rng, k0: nat, zoneStart: int, zoneHeight: int)
    returns (spawned: bool, r: int, c: int, k: nat)
    requires g.Length1 > 0
    ensures zoneHeight <= 0 ==> !spawned && k == k0
    ensures spawned ==> zoneStart <= r < zoneStart + zoneHeight && 0 <= c < g.Length1
    ensures spawned ==> IsClear(g, r, c)
    ensures zoneHeight > 0 ==> k0 + 2 <= k <= k0 + 2 * SpawnAttempts && (k - k0) % 2 == 0
    ensures zoneHeight > 0 && spawned ==> (r, c) == AttemptCell(rng, k0, (k - k0) / 2 - 1, zoneStart, zoneHeight, g.Length1)
    ensures zoneHeight > 0 && !spawned ==> k == k0 + 2 * SpawnAttempts
    ensures zoneHeight > 0 ==> forall a :: 0 <= a < (k - k0) / 2 - 1 ==>
      var q := AttemptCell(rng, k0, a, zoneStart, zoneHeight, g.Length1); !IsClear(g, q.0, q.1)
    ensures zoneHeight > 0 && !spawned ==> forall a :: 0 <= a < SpawnAttempts ==>
      var q := AttemptCell(rng, k0, a, zoneStart, zoneHeight, g.Length1); !IsClear(g, q.0, q.1)
  {
    var cols := g.Length1;
    spawned, r, c, k := false, 0, 0, k0;
    var attempt := 0;
    while attempt < SpawnAttempts
      invariant 0 <= attempt <= SpawnAttempts
      invariant zoneHeight <= 0 ==> k == k0
      invariant zoneHeight > 0 ==> k == k0 + 2 * attempt
      invariant zoneHeight > 0 ==> forall a :: 0 <= a < attempt ==>
        var q := AttemptCell(rng, k0, a, zoneStart, zoneHeight, cols); !IsClear(g, q.0, q.1)
    {
      if zoneHeight > 0 {
        r := zoneStart + Pick(rng(k), zoneHeight);
        c := Pick(rng(k + 1), cols);
        k := k + 2;
        if IsClear(g, r, c) {
          spawned := true;
          break;
        }
      }
      attempt := attempt + 1;
    }
  }

  // ---------------------------------------------------------------------
  // The walk
  // ---------------------------------------------------------------------

  /** q is p or one of its 4-neighbours. */
  predicate Near(q: Cell, p: Cell) {
    (q.0 == p.0 && -1 <= q.1 - p.1 <= 1) || (q.1 == p.1 && -1 <= q.0 - p.0 <= 1)
  }

  ghost predicate NearPath(q: Cell, path: seq<Cell>) {
    exists t :: 0 <= t < |path| && Near(q, path[t])
  }

  /** The cells of path are pairwise distinct. */
  predicate SelfAvoiding(path: seq<Cell>) {
    forall i, j :: 0 <= i < j < |path| ==> path[i] != path[j]
  }

  /** Placement t draws the step from path[t] to path[t + 1]. */
  predicate StepsFollowPath(path: seq<Cell>, placed: seq<Placement>) {
    |path| - 1 <= |placed| &&
    forall t {:trigger placed[t]} :: 0 <= t < |path| - 1 ==>
      placed[t].r == path[t].0 && placed[t].c == path[t].1 && placed[t].sym != Ground &&
      path[t + 1] == (path[t].0 + placed[t].dr, path[t].1 + placed[t].dc)
  }

  predicate IsComponent(s: Symbol) {
    s != Wire && s != Ground
  }

  /** The last element of a non-empty sequence. */
  function Last<T>(xs: seq<T>): T
    requires |xs| > 0
  {
    xs[|xs| - 1]
  }

  /** The cells a step occupies: the next cell, and the four lateral cells when a component is drawn. */
  function StepCells(r: int, c: int, dr: int, dc: int, sym: Symbol): set<Cell> {
    {(r + dr, c + dc)} + if sym != Wire then set q | q in Laterals(r, c, dr, dc) else {}
  }

  /**
   * The grid's occupied cells are exactly those of `orig` (occupied before
   * the walk) and of `claimed` (occupied by the walk), which are disjoint
   * and inside the grid.
   */
  ghost predicate Marks(g: array2<bool>, orig: set<Cell>, claimed: set<Cell>)
    reads g
  {
    (forall q :: q in orig ==> InGrid(g, q.0, q.1)) &&
    (forall q :: q in claimed ==> InGrid(g, q.0, q.1)) &&
    orig !! claimed &&
    forall i, j :: InGrid(g, i, j) ==> (g[i, j] <==> (i, j) in orig || (i, j) in claimed)
  }

  /**
   * The shape of a walk so far: a self-avoiding path whose cells it has
   * claimed, one placement per step, the lateral cells of every component
   * claimed as well, and nothing claimed away from the path.
   */
  ghost predicate Claims(claimed: set<Cell>, path: seq<Cell>, placed: seq<Placement>) {
    |path| >= 1 && |placed| == |path| - 1 &&
    SelfAvoiding(path) &&
    (forall t :: 0 <= t < |path| ==> path[t] in claimed) &&
    (forall p :: p in placed ==> ValidPlacement(p)) &&
    StepsFollowPath(path, placed) &&
    (forall t :: 0 <= t < |placed| && IsComponent(placed[t].sym) ==>
      forall q :: q in Laterals(placed[t].r, placed[t].c, placed[t].dr, placed[t].dc) ==> q in claimed) &&
    (forall q {:trigger NearPath(q, path)} :: q in claimed ==> NearPath(q, path))
  }

  lemma StepsFollowSnoc(path: seq<Cell>, placed: seq<Placement>, r: int, c: int, dr: int, dc: int, sym: Symbol)
    requires |path| >= 1 && |placed| == |path| - 1 && StepsFollowPath(path, placed)
    requires Last(path) == (r, c) && sym != Ground
    ensures StepsFollowPath(path + [(r + dr, c + dc)], placed + [Placement(r, c, dr, dc, sym)])
  {
  }

  /**
   * The cells the steps of a walk claim: each step's next cell, and its four
   * lateral cells too when it placed a component.
   */
  ghost function ClaimedBy(placed: seq<Placement>): set<Cell>
    decreases |placed|
  {
    if |placed| == 0 then {}
    else
      var p := Last(placed);
      ClaimedBy(placed[..|placed| - 1]) + StepCells(p.r, p.c, p.dr, p.dc, p.sym)
  }

  lemma ClaimedBySnoc(placed: seq<Placement>, p: Placement)
    ensures ClaimedBy(placed + [p]) == ClaimedBy(placed) + StepCells(p.r, p.c, p.dr, p.dc, p.sym)
  {
    assert (placed + [p])[..|placed|] == placed;
  }

  /** A cell is claimed by the steps exactly when it is one of the cells of some step t. */
  lemma {:induction false} ClaimedByMembers(placed: seq<Placement>)
    ensures forall q :: q in ClaimedBy(placed) <==>
      exists t :: 0 <= t < |placed| && q in StepCells(placed[t].r, placed[t].c, placed[t].dr, placed[t].dc, placed[t].sym)
    decreases |placed|
  {
    if |placed| > 0 {
      var init := placed[..|placed| - 1];
      ClaimedByMembers(init);
      assert forall t :: 0 <= t < |init| ==> placed[t] == init[t];
      forall q | q in ClaimedBy(placed)
        ensures exists t :: 0 <= t < |placed| && q in StepCells(placed[t].r, placed[t].c, placed[t].dr, placed[t].dc, placed[t].sym)
      {
        if q !in ClaimedBy(init) {
          assert placed[|placed| - 1] == Last(placed);
        }
      }
      forall q | exists t :: 0 <= t < |placed| && q in StepCells(placed[t].r, placed[t].c, placed[t].dr, placed[t].dc, placed[t].sym)
        ensures q in ClaimedBy(placed)
      {
        var t :| 0 <= t < |placed| && q in StepCells(placed[t].r, placed[t].c, placed[t].dr, placed[t].dc, placed[t].sym);
        if t < |init| {
          assert init[t] == placed[t];
        }
      }
    }
  }

  /** A walk starts by claiming its start cell. */
  lemma ClaimsStart(r0: int, c0: int)
    ensures Claims({(r0, c0)}, [(r0, c0)], [])
  {
    assert Near((r0, c0), [(r0, c0)][0]);
  }

  /** A step from the end of the path onto an unclaimed cell extends the walk. */
  lemma {:induction false} ClaimsStep(claimed: set<Cell>, path: seq<Cell>, placed: seq<Placement>,
                                      r: int, c: int, dr: int, dc: int, sym: Symbol)
    requires Claims(claimed, path, placed) && Last(path) == (r, c)
    requires IsDir(dr, dc) && sym != Ground
    requires (r + dr, c + dc) !in claimed
    ensures Claims(claimed + StepCells(r, c, dr, dc, sym), path + [(r + dr, c + dc)],
                   placed + [Placement(r, c, dr, dc, sym)])
  {
    var next := (r + dr, c + dc);
    var claimed', path', placed' := claimed + StepCells(r, c, dr, dc, sym), path + [next], placed + [Placement(r, c, dr, dc, sym)];
    forall i, j | 0 <= i < j < |path'| ensures path'[i] != path'[j] {
      if j == |path| {
        assert path'[i] == path[i] && path[i] in claimed;
      }
    }
    forall t | 0 <= t < |path'| ensures path'[t] in claimed' {
      if t < |path| {
        assert path'[t] == path[t];
      }
    }
    forall t | 0 <= t < |placed'| && IsComponent(placed'[t].sym)
      ensures forall q :: q in Laterals(placed'[t].r, placed'[t].c, placed'[t].dr, placed'[t].dc) ==> q in claimed'
    {
      if t < |placed| {
        assert placed'[t] == placed[t];
      }
    }
    forall q | q in claimed' ensures NearPath(q, path') {
      if q in claimed {
        assert NearPath(q, path);
        var t :| 0 <= t < |path| && Near(q, path[t]);
        assert path'[t] == path[t];
      } else if q == next {
        assert Near(q, path'[|path|]);
      } else {
        assert q in Laterals(r, c, dr, dc);
        if !Near(q, path'[|path| - 1]) {
          assert Near(q, path'[|path|]);
        }
      }
    }
    StepsFollowSnoc(path, placed, r, c, dr, dc, sym);
  }

  /** The occupied cells of the grid, as a set. */
  ghost method OccupiedCells(g: array2<bool>) returns (cells: set<Cell>)
    ensures Marks(g, cells, {})
  {
    cells := set i, j | 0 <= i < g.Length0 && 0 <= j < g.Length1 && g[i, j] :: (i, j);
  }

  /**
   * Marks the cells of a step: the next cell, and the lateral cells too when
   * the symbol is a component. They were all clear, so the walk's claimed
   * cells grow by exactly StepCells.
   */
  method MarkStep(g: array2<bool>, r: int, c: int, dr: int, dc: int, sym: Symbol,
                  ghost orig: set<Cell>, ghost claimed: set<Cell>)
    requires forall q :: q in StepCells(r, c, dr, dc, sym) ==> IsClear(g, q.0, q.1)
    requires Marks(g, orig, claimed)
    modifies g
    ensures forall i, j :: InGrid(g, i, j) ==> g[i, j] == (old(g[i, j]) || (i, j) in StepCells(r, c, dr, dc, sym))
    ensures StepCells(r, c, dr, dc, sym) !! claimed
    ensures Marks(g, orig, claimed + StepCells(r, c, dr, dc, sym))
  {
    MarkOccupied(g, r + dr, c + dc);
    if sym != Wire {
      MarkCells(g, Laterals(r, c, dr, dc));
    }
  }

  /**
   * Draws the symbol of a step from (r, c) onto the clear cell (r + dr,
   * c + dc): a component when all four lateral cells are clear and the draw
   * falls below 0.5, a wire otherwise. Marks the step's cells and returns
   * the traces to push.
   */
  method PlaceSymbol(g: array2<bool>, r: int, c: int, dr: int, dc: int, rand: Draw, color: Color,
                     ghost orig: set<Cell>, ghost claimed: set<Cell>)
    returns (sym: Symbol, piece: seq<Trace>)
    requires IsDir(dr, dc) && IsClear(g, r + dr, c + dc)
    requires Marks(g, orig, claimed)
    modifies g
    ensures sym == ChooseComponent(old(HasCompSpace(g, r, c, dr, dc)), rand)
    ensures piece == SymbolTraces(sym, r, c, dr, dc, color)
    ensures forall i, j :: InGrid(g, i, j) ==> g[i, j] == (old(g[i, j]) || (i, j) in StepCells(r, c, dr, dc, sym))
    ensures StepCells(r, c, dr, dc, sym) !! claimed
    ensures Marks(g, orig, claimed + StepCells(r, c, dr, dc, sym))
  {
    var hasCompSpace := HasCompSpace(g, r, c, dr, dc);
    sym := ChooseComponent(hasCompSpace, rand);
    CompSpaceMeansLateralsClear(g, r, c, dr, dc);
    MarkStep(g, r, c, dr, dc, sym, orig, claimed);
    piece := DrawSymbol(sym, r, c, dr, dc, color);
  }

  /**
   * One step of a walk from (r, c) in the direction valid[i], one of the
   * directions ValidDirs offers: draws the symbol, marks its cells, pushes
   * its traces and extends the path, the placements and the claimed cells
   * by the step, keeping the walk's state well formed.
   */
  method Advance(g: array2<bool>, r: int, c: int, valid: seq<(int, int)>, i: nat, rand: Draw, color: Color,
                 traces: seq<Trace>, ghost orig: set<Cell>, ghost claimed: set<Cell>,
                 ghost path: seq<Cell>, ghost placed: seq<Placement>)
    returns (next: Cell, sym: Symbol, traces': seq<Trace>, ghost claimed': set<Cell>,
             ghost path': seq<Cell>, ghost placed': seq<Placement>)
    requires valid == ValidDirs(g, r, c) && i < |valid|
    requires Marks(g, orig, claimed) && Claims(claimed, path, placed) && Last(path) == (r, c)
    requires claimed == {path[0]} + ClaimedBy(placed) && traces == Emitted(placed, color)
    modifies g
    ensures sym == ChooseComponent(old(HasCompSpace(g, r, c, valid[i].0, valid[i].1)), rand)
    ensures next == (r + valid[i].0, c + valid[i].1) && path' == path + [next]
    ensures placed' == placed + [Placement(r, c, valid[i].0, valid[i].1, sym)]
    ensures claimed' == claimed + StepCells(r, c, valid[i].0, valid[i].1, sym)
    ensures traces' == traces + SymbolTraces(sym, r, c, valid[i].0, valid[i].1, color)
    ensures forall a, b :: InGrid(g, a, b) ==> g[a, b] == (old(g[a, b]) || (a, b) in StepCells(r, c, valid[i].0, valid[i].1, sym))
    ensures Marks(g, orig, claimed')
    ensures Claims(claimed', path', placed') && claimed' == {path'[0]} + ClaimedBy(placed')
    ensures traces' == Emitted(placed', color)
  {
    var dr, dc := valid[i].0, valid[i].1;
    assert valid[i] in valid;
    var piece;
    sym, piece := PlaceSymbol(g, r, c, dr, dc, rand, color, orig, claimed);
    claimed' := claimed + StepCells(r, c, dr, dc, sym);
    next := (r + dr, c + dc);
    path' := path + [next];
    placed' := placed + [Placement(r, c, dr, dc, sym)];
    traces' := traces + piece;
    StepKeeps(claimed, path, placed, traces, r, c, dr, dc, sym, color, claimed', next, path', placed', traces');
  }

  /**
   * One iteration of the walk's loop, seen from the loop: Advance, stated
   * by the shape of the walk it leaves behind rather than by the exact
   * extension.
   */
  method Stride(g: array2<bool>, r: int, c: int, valid: seq<(int, int)>, i: nat, rand: Draw, color: Color,
                traces: seq<Trace>, ghost orig: set<Cell>, ghost claimed: set<Cell>,
                ghost path: seq<Cell>, ghost placed: seq<Placement>)
    returns (next: Cell, traces': seq<Trace>, ghost claimed': set<Cell>,
             ghost path': seq<Cell>, ghost placed': seq<Placement>)
    requires valid == ValidDirs(g, r, c) && i < |valid|
    requires Marks(g, orig, claimed) && Claims(claimed, path, placed) && Last(path) == (r, c)
    requires claimed == {path[0]} + ClaimedBy(placed) && traces == Emitted(placed, color)
    modifies g
    ensures next == (r + valid[i].0, c + valid[i].1)
    ensures |path'| == |path| + 1 && path'[0] == path[0] && |placed'| == |placed| + 1
    ensures Marks(g, orig, claimed') && Claims(claimed', path', placed')
    ensures claimed' == {path'[0]} + ClaimedBy(placed') && traces' == Emitted(placed', color)
    ensures Last(path') == next
  {
    var sym;
    next, sym, traces', claimed', path', placed' := Advance(g, r, c, valid, i, rand, color, traces, orig, claimed, path, placed);
  }

  /**
   * A step from the end of the walk onto an unclaimed cell keeps the walk's
   * shape, keeps its claimed cells equal to the start cell and the steps'
   * cells, and keeps its traces equal to what its placements emit.
   */
  lemma StepKeeps(claimed: set<Cell>, path: seq<Cell>, placed: seq<Placement>, traces: seq<Trace>,
                  r: int, c: int, dr: int, dc: int, sym: Symbol, color: Color,
                  claimed': set<Cell>, next: Cell, path': seq<Cell>, placed': seq<Placement>, traces': seq<Trace>)
    requires Claims(claimed, path, placed) && claimed == {path[0]} + ClaimedBy(placed)
    requires traces == Emitted(placed, color) && Last(path) == (r, c)
    requires IsDir(dr, dc) && sym != Ground && (r + dr, c + dc) !in claimed
    requires next == (r + dr, c + dc) && path' == path + [next]
    requires placed' == placed + [Placement(r, c, dr, dc, sym)]
    requires claimed' == claimed + StepCells(r, c, dr, dc, sym)
    requires traces' == traces + SymbolTraces(sym, r, c, dr, dc, color)
    ensures Claims(claimed', path', placed') && claimed' == {path'[0]} + ClaimedBy(placed')
    ensures traces' == Emitted(placed', color)
  {
    ClaimsStep(claimed, path, placed, r, c, dr, dc, sym);
    ClaimedBySnoc(placed, Placement(r, c, dr, dc, sym));
    EmittedSnoc(placed, Placement(r, c, dr, dc, sym), color);
  }

  /** A ground symbol capping a stuck walk at the end of its path. */
  predicate CapsPath(p: Placement, path: seq<Cell>)
    requires |path| > 0
  {
    p.sym == Ground && ValidPlacement(p) && (p.r, p.c) == Last(path)
  }

  /** The traces of the optional ground cap. */
  function CapTraces(cap: Option<Placement>, color: Color): seq<Trace> {
    if cap.Some? && ValidPlacement(cap.value) then
      SymbolTraces(Ground, cap.value.r, cap.value.c, cap.value.dr, cap.value.dc, color)
    else []
  }

  /**
   * The ground cap drawn at index kc: present exactly when draw kc falls
   * below 0.3, pointing in the direction draw kc + 1 picks, and the next
   * free draw index is k.
   */
  ghost predicate CapDrawn(cap: Option<Placement>, rng: Rng, kc: nat, k: nat) {
    && (cap.Some? <==> Below(rng(kc), 3, 10))
    && k == kc + (if cap.Some? then 2 else 1)
    && (cap.Some? ==> (cap.value.dr, cap.value.dc) == Dirs[Pick(rng(kc + 1), |Dirs|)])
  }

  /**
   * The end of a stuck walk: with probability 0.3 a ground symbol in one of
   * the four directions, chosen at random, caps the wire at (r, c).
   */
  method GroundCap(rng: Rng, k: nat, r: int, c: int) returns (cap: Option<Placement>, k': nat)
    ensures cap.Some? <==> Below(rng(k), 3, 10)
    ensures cap.None? ==> k' == k + 1
    ensures cap.Some? ==> k' == k + 2 && cap.value.sym == Ground && ValidPlacement(cap.value)
    ensures cap.Some? ==> (cap.value.r, cap.value.c) == (r, c)
    ensures cap.Some? ==> (cap.value.dr, cap.value.dc) == Dirs[Pick(rng(k + 1), |Dirs|)]
    ensures CapDrawn(cap, rng, k, k')
  {
    cap, k' := None, k + 1;
    if Below(rng(k), 3, 10) {
      var dir := Dirs[Pick(rng(k + 1), |Dirs|)];
      DirsAreUnitSteps();
      cap, k' := Some(Placement(r, c, dir.0, dir.1, Ground)), k + 2;
    }
  }

  /**
   * One walker from a clear start cell (r0, c0): marks it, draws a step
   * budget of 30 + floor(random * 50), and steps until the budget is spent
   * or no neighbour is clear, in which case it may cap the wire with a ground
   * symbol (probability 0.3) in a random direction. `claimed` is the set of
   * cells the walk occupies.
   */
  method Walk(g: array2<bool>, rng: Rng, k0: nat, r0: int, c0: int, color: Color)
    returns (traces: seq<Trace>, k: nat, ghost claimed: set<Cell>, ghost path: seq<Cell>,
             ghost placed: seq<Placement>, cap: Option<Placement>, ghost capAt: nat)
    requires IsClear(g, r0, c0)
    modifies g
    ensures forall i, j :: InGrid(g, i, j) ==> (g[i, j] <==> old(g[i, j]) || (i, j) in claimed)
    ensures claimed == {(r0, c0)} + ClaimedBy(placed)
    ensures forall q :: q in claimed ==> InGrid(g, q.0, q.1) && !old(g[q.0, q.1])
    ensures Claims(claimed, path, placed) && path[0] == (r0, c0)
    ensures |path| - 1 <= MinSteps + Pick(rng(k0), StepSpread) <= MinSteps + StepSpread - 1
    ensures |path| - 1 < MinSteps + Pick(rng(k0), StepSpread) ==> Stuck(g, Last(path).0, Last(path).1)
    ensures cap.Some? ==> Stuck(g, Last(path).0, Last(path).1) && CapsPath(cap.value, path)
    ensures traces == Emitted(placed, color) + CapTraces(cap, color)
    ensures |path| - 1 == MinSteps + Pick(rng(k0), StepSpread) ==> cap.None? && k == k0 + 1 + 2 * (|path| - 1)
    ensures |path| - 1 < MinSteps + Pick(rng(k0), StepSpread) ==> capAt == k0 + 2 * |path| - 1 && CapDrawn(cap, rng, capAt, k)
  {
    ghost var orig := OccupiedCells(g);
    MarkOccupied(g, r0, c0);
    var steps := MinSteps + Pick(rng(k0), StepSpread);
    var stuck, r, c;
    traces, k, claimed, path, placed, stuck, r, c := Wander(g, rng, k0, steps, r0, c0, color, orig);
    cap, capAt := None, k;
    if stuck {
      cap, k := GroundCap(rng, k, r, c);
      traces := traces + CapTraces(cap, color);
    }
  }

  /**
   * The stepping loop of a walk that has marked its start cell (r0, c0) and
   * drawn its budget `steps` from rng(k0): each step draws a direction and a
   * symbol. The loop stops early, `stuck`, at a cell (r, c) with no clear
   * neighbour.
   */
  method Wander(g: array2<bool>, rng: Rng, k0: nat, steps: nat, r0: int, c0: int, color: Color, ghost orig: set<Cell>)
    returns (traces: seq<Trace>, k: nat, ghost claimed: set<Cell>, ghost path: seq<Cell>,
             ghost placed: seq<Placement>, stuck: bool, r: int, c: int)
    requires Marks(g, orig, {(r0, c0)})
    modifies g
    ensures Marks(g, orig, claimed) && Claims(claimed, path, placed) && claimed == {(r0, c0)} + ClaimedBy(placed)
    ensures path[0] == (r0, c0) && Last(path) == (r, c) && k == k0 + 1 + 2 * (|path| - 1)
    ensures stuck ==> |path| - 1 < steps && Stuck(g, r, c)
    ensures !stuck ==> |path| - 1 == steps
    ensures traces == Emitted(placed, color)
  {
    claimed := {(r0, c0)};
    ClaimsStart(r0, c0);
    k := k0 + 1;
    r, c := r0, c0;
    path, placed, traces, stuck := [(r0, c0)], [], [], false;
    var s := 0;
    while s < steps
      invariant 0 <= s <= steps && |path| == s + 1 && |placed| == s
      invariant k == k0 + 1 + 2 * s && !stuck
      invariant Last(path) == (r, c) && path[0] == (r0, c0)
      invariant Marks(g, orig, claimed) && Claims(claimed, path, placed) && claimed == {path[0]} + ClaimedBy(placed)
      invariant traces == Emitted(placed, color)
    {
      var valid := ValidDirs(g, r, c);
      if |valid| == 0 {
        stuck := true;
        break;
      }
      var choice := Pick(rng(k), |valid|);
      var rand := rng(k + 1);
      var next;
      next, traces, claimed, path, placed := Stride(g, r, c, valid, choice, rand, color, traces, orig, claimed, path, placed);
      r, c := next.0, next.1;
      k := k + 2;
      s := s + 1;
    }
  }
}
