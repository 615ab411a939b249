/**
 * The schematic symbols a walker step draws between the centre of its cell
 * and the centre of the neighbouring cell it moves to, each as a fixed list
 * of line segments. Every step is one of the four axis directions, so the
 * Euclidean length of the step is exactly one pitch (30 px) and its unit
 * vector is (dc, dr); coordinates are exact rationals.
 */
module Symbols {
  import opened Wrappers
  import opened Canvas
  import opened GridLayout

  datatype Symbol = Wire | Resistor | Capacitor | Inductor | OpAmp | Diode | Ground

  /** Number of traces each symbol emits. */
  function TraceCount(s: Symbol): nat {
    match s
    case Wire => 1
    case Resistor => 5
    case Capacitor => 4
    case Inductor => 8
    case OpAmp => 5
    case Diode => 6
    case Ground => 4
  }

  /** The walker's direction list, in the order it is filtered: right, left, down, up. */
  const Dirs: seq<(int, int)> := [(0, 1), (0, -1), (1, 0), (-1, 0)]

  /** (dr, dc) is one of the four axis-aligned unit steps. */
  predicate IsDir(dr: int, dc: int) {
    (dr == 0 && (dc == 1 || dc == -1)) || (dc == 0 && (dr == 1 || dr == -1))
  }

  lemma DirsAreUnitSteps()
    ensures forall i :: 0 <= i < |Dirs| ==> IsDir(Dirs[i].0, Dirs[i].1)
    ensures forall dr, dc :: IsDir(dr, dc) ==> (dr, dc) in Dirs
  {
  }

  // ---------------------------------------------------------------------
  // Points and segments
  // ---------------------------------------------------------------------

  /** p + k * v. */
  function Offset(p: Point, k: real, v: Point): Point {
    Point(p.x + k * v.x, p.y + k * v.y)
  }

  /** Unit vector of the step: (dx / len, dy / len) with len = 30. */
  function Along(dr: int, dc: int): Point {
    Point(dc as real, dr as real)
  }

  /** Unit vector perpendicular to the step: (-uy, ux). */
  function Across(dr: int, dc: int): Point {
    Point(-(dr as real), dc as real)
  }

  function Midpoint(p: Point, q: Point): Point {
    Point((p.x + q.x) / 2.0, (p.y + q.y) / 2.0)
  }

  function Seg(a: Point, b: Point, color: Color, width: Option<real>): Trace {
    Trace(a.x, a.y, b.x, b.y, color, width)
  }

  function StartOf(t: Trace): Point { Point(t.x1, t.y1) }
  function EndOf(t: Trace): Point { Point(t.x2, t.y2) }

  /** The traces form one connected stroke from `from` to `to`. */
  predicate Chain(ts: seq<Trace>, from: Point, to: Point) {
    |ts| > 0 && StartOf(ts[0]) == from && EndOf(ts[|ts| - 1]) == to &&
    forall i :: 0 <= i < |ts| - 1 ==> EndOf(ts[i]) == StartOf(ts[i + 1])
  }

  // ---------------------------------------------------------------------
  // Footprint of a step
  // ---------------------------------------------------------------------

  /** Closed axis-aligned pixel rectangle. */
  datatype Box = Box(xlo: real, xhi: real, ylo: real, yhi: real)

  /** The union of the pixel squares of cell (r, c) and of cell (r + dr, c + dc). */
  function StepBox(r: int, c: int, dr: int, dc: int): Box {
    Box((Gap * Min(c, c + dc)) as real, (Gap * Max(c, c + dc) + Gap) as real,
        (Gap * Min(r, r + dr)) as real, (Gap * Max(r, r + dr) + Gap) as real)
  }

  predicate InBox(p: Point, b: Box) {
    b.xlo <= p.x <= b.xhi && b.ylo <= p.y <= b.yhi
  }

  predicate TraceInBox(t: Trace, b: Box) {
    InBox(StartOf(t), b) && InBox(EndOf(t), b)
  }

  /** Every trace of ts lies in the footprint of step (r, c) -> (r + dr, c + dc) and has colour `color`. */
  predicate Drawn(ts: seq<Trace>, r: int, c: int, dr: int, dc: int, color: Color) {
    forall t :: t in ts ==> TraceInBox(t, StepBox(r, c, dr, dc)) && t.color == color
  }

  // ---------------------------------------------------------------------
  // The emitters
  // ---------------------------------------------------------------------

  /** A plain wire from the centre of (r, c) to the centre of the next cell. */
  function WireTraces(r: int, c: int, dr: int, dc: int, color: Color): (ts: seq<Trace>)
    requires IsDir(dr, dc)
    ensures |ts| == 1 && Drawn(ts, r, c, dr, dc, color)
    ensures ts[0].x1 == (c * Gap + Gap / 2) as real && ts[0].y1 == (r * Gap + Gap / 2) as real
    ensures ts[0].x2 == ((c + dc) * Gap + Gap / 2) as real && ts[0].y2 == ((r + dr) * Gap + Gap / 2) as real
  {
    [Seg(Center(r, c), Center(r + dr, c + dc), color, None)]
  }

  /** addResistor: a zigzag with an 8-pixel swing between the two centres. */
  function ResistorTraces(r: int, c: int, dr: int, dc: int, color: Color): (ts: seq<Trace>)
    requires IsDir(dr, dc)
    ensures |ts| == 5 && forall t :: t in ts ==> t.color == color
    ensures Chain(ts, Center(r, c), Center(r + dr, c + dc))
  {
    var p1 := Center(r, c);
    var p2 := Center(r + dr, c + dc);
    var mid := Midpoint(p1, p2);
    var amp := 8.0;
    var perp := Point(if dc != 0 then 0.0 else amp, if dr != 0 then 0.0 else amp);
    var third := Point((p1.x * 2.0 + p2.x) / 3.0, (p1.y * 2.0 + p2.y) / 3.0);
    var twoThirds := Point((p1.x + p2.x * 2.0) / 3.0, (p1.y + p2.y * 2.0) / 3.0);
    var high := Offset(mid, 1.0, perp);
    var low := Offset(mid, -1.0, perp);
    [Seg(p1, third, color, None),
     Seg(third, high, color, None),
     Seg(high, low, color, None),
     Seg(low, twoThirds, color, None),
     Seg(twoThirds, p2, color, None)]
  }

  /** addCapacitor: two leads and two 20-pixel plates 8 pixels apart. */
  function CapacitorTraces(r: int, c: int, dr: int, dc: int, color: Color): (ts: seq<Trace>)
    requires IsDir(dr, dc)
    ensures |ts| == 4 && forall t :: t in ts ==> t.color == color
    ensures StartOf(ts[0]) == Center(r, c) && EndOf(ts[1]) == Center(r + dr, c + dc)
    ensures ts[2].width == ts[3].width == Some(2.0)
  {
    var p1 := Center(r, c);
    var p2 := Center(r + dr, c + dc);
    var mid := Midpoint(p1, p2);
    var u := Along(dr, dc);
    var plate := Across(dr, dc);
    var gapStart := Offset(mid, -4.0, u);
    var gapEnd := Offset(mid, 4.0, u);
    [Seg(p1, gapStart, color, None),
     Seg(gapEnd, p2, color, None),
     Seg(Offset(gapStart, 10.0, plate), Offset(gapStart, -10.0, plate), color, Some(2.0)),
     Seg(Offset(gapEnd, 10.0, plate), Offset(gapEnd, -10.0, plate), color, Some(2.0))]
  }

  /** One bump of the coil, from `from` to `from + 7 u`, peaking 8 pixels to the side. */
  function Bump(from: Point, u: Point, side: Point, color: Color): seq<Trace> {
    var next := Offset(from, 7.0, u);
    var top := Offset(Midpoint(from, next), 8.0, side);
    [Seg(from, top, color, None), Seg(top, next, color, None)]
  }

  /** n consecutive bumps starting at `from`. */
  function Bumps(from: Point, u: Point, side: Point, n: nat, color: Color): (ts: seq<Trace>)
    ensures |ts| == 2 * n && forall t :: t in ts ==> t.color == color
    decreases n
  {
    if n == 0 then [] else Bump(from, u, side, color) + Bumps(Offset(from, 7.0, u), u, side, n - 1, color)
  }

  /** Start of the first bump: 15% of the step past the first centre. */
  function CoilStart(r: int, c: int, dr: int, dc: int): Point {
    Offset(Center(r, c), 4.5, Along(dr, dc))
  }

  /** End of the last bump: 15% of the step before the second centre. */
  function CoilEnd(r: int, c: int, dr: int, dc: int): Point {
    Offset(Center(r + dr, c + dc), -4.5, Along(dr, dc))
  }

  /** addInductor, in closed form: two leads, then three bumps. */
  function InductorTraces(r: int, c: int, dr: int, dc: int, color: Color): (ts: seq<Trace>)
    requires IsDir(dr, dc)
    ensures |ts| == 8 && forall t :: t in ts ==> t.color == color
  {
    [Seg(Center(r, c), CoilStart(r, c, dr, dc), color, None),
     Seg(CoilEnd(r, c, dr, dc), Center(r + dr, c + dc), color, None)]
    + Bumps(CoilStart(r, c, dr, dc), Along(dr, dc), Across(dr, dc), 3, color)
  }

  /**
   * addInductor as the source runs it: the leads, then a loop drawing three
   * bumps of length 30 * (1 - 2 * 0.15) / 3 = 7 pixels from a moving point.
   */
  method AddInductor(r: int, c: int, dr: int, dc: int, color: Color) returns (ts: seq<Trace>)
    requires IsDir(dr, dc)
    ensures ts == InductorTraces(r, c, dr, dc, color)
  {
    var p1 := Center(r, c);
    var p2 := Center(r + dr, c + dc);
    var u := Along(dr, dc);
    var side := Across(dr, dc);
    var leadScale := 0.15;
    var lead1End := Offset(p1, leadScale * 30.0, u);
    var lead2Start := Offset(p2, -leadScale * 30.0, u);
    ts := [Seg(p1, lead1End, color, None), Seg(lead2Start, p2, color, None)];
    var bumpLen := (30.0 * (1.0 - 2.0 * leadScale)) / 3.0;
    assert bumpLen == 7.0;
    assert lead1End == CoilStart(r, c, dr, dc) && lead2Start == CoilEnd(r, c, dr, dc);
    var curr := lead1End;
    var i := 0;
    while i < 3
      invariant 0 <= i <= 3
      invariant ts + Bumps(curr, u, side, 3 - i, color) == InductorTraces(r, c, dr, dc, color)
    {
      var next := Offset(curr, bumpLen, u);
      var mid := Midpoint(curr, next);
      var top := Offset(mid, 8.0, side);
      ts := ts + [Seg(curr, top, color, None), Seg(top, next, color, None)];
      curr := next;
      i := i + 1;
    }
  }

  /** The coil is one connected stroke from the end of the first lead to the start of the second. */
  lemma InductorCoilConnected(r: int, c: int, dr: int, dc: int, color: Color)
    requires IsDir(dr, dc)
    ensures Chain(InductorTraces(r, c, dr, dc, color)[2..], CoilStart(r, c, dr, dc), CoilEnd(r, c, dr, dc))
  {
    var u, side := Along(dr, dc), Across(dr, dc);
    var s0 := CoilStart(r, c, dr, dc);
    var s1 := Offset(s0, 7.0, u);
    var s2 := Offset(s1, 7.0, u);
    var s3 := Offset(s2, 7.0, u);
    assert Bumps(s0, u, side, 3, color) ==
      Bump(s0, u, side, color) + Bump(s1, u, side, color) + Bump(s2, u, side, color);
    assert s3 == CoilEnd(r, c, dr, dc);
  }

  /** addOpAmp: a triangle 22.5 pixels long and 30 wide with its tip on the second centre. */
  function OpAmpTraces(r: int, c: int, dr: int, dc: int, color: Color): (ts: seq<Trace>)
    requires IsDir(dr, dc)
    ensures |ts| == 5 && forall t :: t in ts ==> t.color == color
    ensures StartOf(ts[3]) == Center(r, c) && EndOf(ts[4]) == Center(r + dr, c + dc)
    ensures EndOf(ts[0]) == StartOf(ts[1]) && EndOf(ts[1]) == StartOf(ts[2]) && EndOf(ts[2]) == StartOf(ts[0])
  {
    var p1 := Center(r, c);
    var p2 := Center(r + dr, c + dc);
    var mid := Midpoint(p1, p2);
    var u := Along(dr, dc);
    var side := Across(dr, dc);
    var size := 15.0;
    var tip := Offset(mid, size, u);
    var base := Offset(mid, -(size * 0.5), u);
    var baseTop := Offset(base, size, side);
    var baseBot := Offset(base, -size, side);
    [Seg(baseTop, baseBot, color, Some(2.0)),
     Seg(baseBot, tip, color, Some(2.0)),
     Seg(tip, baseTop, color, Some(2.0)),
     Seg(p1, base, color, None),
     Seg(tip, p2, color, None)]
  }

  /** addDiode: a triangle 20 pixels long with a bar across its tip. */
  function DiodeTraces(r: int, c: int, dr: int, dc: int, color: Color): (ts: seq<Trace>)
    requires IsDir(dr, dc)
    ensures |ts| == 6 && forall t :: t in ts ==> t.color == color
    ensures StartOf(ts[4]) == Center(r, c) && EndOf(ts[5]) == Center(r + dr, c + dc)
    ensures EndOf(ts[0]) == StartOf(ts[1]) && EndOf(ts[1]) == StartOf(ts[2]) && EndOf(ts[2]) == StartOf(ts[0])
    ensures EndOf(ts[1]) == StartOf(ts[5]) && EndOf(ts[4]) == Midpoint(StartOf(ts[0]), EndOf(ts[0]))
    ensures StartOf(ts[3]) == Offset(EndOf(ts[1]), 10.0, Across(dr, dc)) && EndOf(ts[3]) == Offset(EndOf(ts[1]), -10.0, Across(dr, dc))
    ensures Midpoint(StartOf(ts[3]), EndOf(ts[3])) == EndOf(ts[1]) && ts[3].width == Some(2.0)
  {
    var p1 := Center(r, c);
    var p2 := Center(r + dr, c + dc);
    var mid := Midpoint(p1, p2);
    var u := Along(dr, dc);
    var side := Across(dr, dc);
    var size := 10.0;
    var tip := Offset(mid, size, u);
    var base := Offset(mid, -size, u);
    [Seg(Offset(base, size, side), Offset(base, -size, side), color, Some(1.5)),
     Seg(Offset(base, -size, side), tip, color, Some(1.5)),
     Seg(tip, Offset(base, size, side), color, Some(1.5)),
     Seg(Offset(tip, size, side), Offset(tip, -size, side), color, Some(2.0)),
     Seg(p1, base, color, None),
     Seg(tip, p2, color, None)]
  }

  /** addGround: a lead to the midpoint and three bars of width 24, 16.8 and 7.2 pixels. */
  function GroundTraces(r: int, c: int, dr: int, dc: int, color: Color): (ts: seq<Trace>)
    requires IsDir(dr, dc)
    ensures |ts| == 4 && forall t :: t in ts ==> t.color == color
    ensures StartOf(ts[0]) == Center(r, c) && EndOf(ts[0]) == Midpoint(Center(r, c), Center(r + dr, c + dc))
  {
    var p1 := Center(r, c);
    var p2 := Center(r + dr, c + dc);
    var m := Midpoint(p1, p2);
    var size := 12.0;
    var u := Along(dr, dc);
    var side := Across(dr, dc);
    var m2 := Offset(m, 4.0, u);
    var m3 := Offset(m, 8.0, u);
    [Seg(p1, m, color, None),
     Seg(Offset(m, size, side), Offset(m, -size, side), color, Some(2.0)),
     Seg(Offset(m2, size * 0.7, side), Offset(m2, -(size * 0.7), side), color, Some(2.0)),
     Seg(Offset(m3, size * 0.3, side), Offset(m3, -(size * 0.3), side), color, Some(2.0))]
  }

  /** The traces a step pushes for a given symbol. */
  function SymbolTraces(s: Symbol, r: int, c: int, dr: int, dc: int, color: Color): (ts: seq<Trace>)
    requires IsDir(dr, dc)
    ensures |ts| == TraceCount(s)
    ensures forall t :: t in ts ==> t.color == color
  {
    match s
    case Wire => WireTraces(r, c, dr, dc, color)
    case Resistor => ResistorTraces(r, c, dr, dc, color)
    case Capacitor => CapacitorTraces(r, c, dr, dc, color)
    case Inductor => InductorTraces(r, c, dr, dc, color)
    case OpAmp => OpAmpTraces(r, c, dr, dc, color)
    case Diode => DiodeTraces(r, c, dr, dc, color)
    case Ground => GroundTraces(r, c, dr, dc, color)
  }

  /**
   * The dispatch after a step is marked: the inductor is drawn by its bump
   * loop, every other symbol by its closed-form trace list.
   */
  method DrawSymbol(s: Symbol, r: int, c: int, dr: int, dc: int, color: Color) returns (ts: seq<Trace>)
    requires IsDir(dr, dc)
    ensures ts == SymbolTraces(s, r, c, dr, dc, color)
  {
    if s == Inductor {
      ts := AddInductor(r, c, dr, dc, color);
    } else {
      ts := SymbolTraces(s, r, c, dr, dc, color);
    }
  }

  // ---------------------------------------------------------------------
  // Every symbol stays inside the two cells of its step
  // ---------------------------------------------------------------------

  /** The three bumps of the coil, spelled out. */
  lemma CoilUnfolded(r: int, c: int, dr: int, dc: int, color: Color)
    ensures
      var u, side := Along(dr, dc), Across(dr, dc);
      var s0 := CoilStart(r, c, dr, dc);
      Bumps(s0, u, side, 3, color) ==
        Bump(s0, u, side, color) + Bump(Offset(s0, 7.0, u), u, side, color) +
        Bump(Offset(Offset(s0, 7.0, u), 7.0, u), u, side, color)
  {
  }

  /** The point `a` pixels along the step from the first centre and `b` pixels across it. */
  function Local(r: int, c: int, dr: int, dc: int, a: real, b: real): Point {
    Offset(Offset(Center(r, c), a, Along(dr, dc)), b, Across(dr, dc))
  }

  /** A point between the two centres and at most half a pitch to the side stays in the cell pair. */
  lemma LocalInBox(r: int, c: int, dr: int, dc: int, a: real, b: real)
    requires IsDir(dr, dc) && 0.0 <= a <= 30.0 && -15.0 <= b <= 15.0
    ensures InBox(Local(r, c, dr, dc, a, b), StepBox(r, c, dr, dc))
  {
    if dc == 1 {
      LocalInBoxEast(r, c, a, b);
    } else if dc == -1 {
      LocalInBoxWest(r, c, a, b);
    } else if dr == 1 {
      LocalInBoxSouth(r, c, a, b);
    } else {
      LocalInBoxNorth(r, c, a, b);
    }
  }

  lemma LocalInBoxEast(r: int, c: int, a: real, b: real)
    requires 0.0 <= a <= 30.0 && -15.0 <= b <= 15.0
    ensures InBox(Local(r, c, 0, 1, a, b), StepBox(r, c, 0, 1))
  {
    var x0, y0 := (Gap * c) as real, (Gap * r) as real;
    assert Center(r, c) == Point(x0 + 15.0, y0 + 15.0);
    assert StepBox(r, c, 0, 1) == Box(x0, x0 + 60.0, y0, y0 + 30.0);
    assert Local(r, c, 0, 1, a, b) == Point(x0 + 15.0 + a, y0 + 15.0 + b);
  }

  lemma LocalInBoxWest(r: int, c: int, a: real, b: real)
    requires 0.0 <= a <= 30.0 && -15.0 <= b <= 15.0
    ensures InBox(Local(r, c, 0, -1, a, b), StepBox(r, c, 0, -1))
  {
    var x0, y0 := (Gap * c) as real, (Gap * r) as real;
    assert Center(r, c) == Point(x0 + 15.0, y0 + 15.0);
    assert StepBox(r, c, 0, -1) == Box(x0 - 30.0, x0 + 30.0, y0, y0 + 30.0);
    assert Local(r, c, 0, -1, a, b) == Point(x0 + 15.0 - a, y0 + 15.0 - b);
  }

  lemma LocalInBoxSouth(r: int, c: int, a: real, b: real)
    requires 0.0 <= a <= 30.0 && -15.0 <= b <= 15.0
    ensures InBox(Local(r, c, 1, 0, a, b), StepBox(r, c, 1, 0))
  {
    var x0, y0 := (Gap * c) as real, (Gap * r) as real;
    assert Center(r, c) == Point(x0 + 15.0, y0 + 15.0);
    assert StepBox(r, c, 1, 0) == Box(x0, x0 + 30.0, y0, y0 + 60.0);
    assert Local(r, c, 1, 0, a, b) == Point(x0 + 15.0 - b, y0 + 15.0 + a);
  }

  lemma LocalInBoxNorth(r: int, c: int, a: real, b: real)
    requires 0.0 <= a <= 30.0 && -15.0 <= b <= 15.0
    ensures InBox(Local(r, c, -1, 0, a, b), StepBox(r, c, -1, 0))
  {
    var x0, y0 := (Gap * c) as real, (Gap * r) as real;
    assert Center(r, c) == Point(x0 + 15.0, y0 + 15.0);
    assert StepBox(r, c, -1, 0) == Box(x0, x0 + 30.0, y0 - 30.0, y0 + 30.0);
    assert Local(r, c, -1, 0, a, b) == Point(x0 + 15.0 + b, y0 + 15.0 - a);
  }

  /** Trace t runs from local point (a1, b1) to local point (a2, b2), both inside the cell pair. */
  predicate LocalSeg(t: Trace, r: int, c: int, dr: int, dc: int, a1: real, b1: real, a2: real, b2: real) {
    StartOf(t) == Local(r, c, dr, dc, a1, b1) && EndOf(t) == Local(r, c, dr, dc, a2, b2) &&
    0.0 <= a1 <= 30.0 && -15.0 <= b1 <= 15.0 && 0.0 <= a2 <= 30.0 && -15.0 <= b2 <= 15.0
  }

  lemma LocalSegInBox(t: Trace, r: int, c: int, dr: int, dc: int, a1: real, b1: real, a2: real, b2: real)
    requires IsDir(dr, dc) && LocalSeg(t, r, c, dr, dc, a1, b1, a2, b2)
    ensures TraceInBox(t, StepBox(r, c, dr, dc))
  {
    LocalInBox(r, c, dr, dc, a1, b1);
    LocalInBox(r, c, dr, dc, a2, b2);
  }

  lemma ResistorInFootprint(r: int, c: int, dr: int, dc: int, color: Color)
    requires IsDir(dr, dc)
    ensures Drawn(ResistorTraces(r, c, dr, dc, color), r, c, dr, dc, color)
  {
    var ts := ResistorTraces(r, c, dr, dc, color);
    // The swing is +8 pixels across the step when dc - dr == 1 and -8 otherwise.
    var b := if dc - dr == 1 then 8.0 else -8.0;
    LocalSegInBox(ts[0], r, c, dr, dc, 0.0, 0.0, 10.0, 0.0);
    LocalSegInBox(ts[1], r, c, dr, dc, 10.0, 0.0, 15.0, b);
    LocalSegInBox(ts[2], r, c, dr, dc, 15.0, b, 15.0, -b);
    LocalSegInBox(ts[3], r, c, dr, dc, 15.0, -b, 20.0, 0.0);
    LocalSegInBox(ts[4], r, c, dr, dc, 20.0, 0.0, 30.0, 0.0);
  }

  lemma CapacitorInFootprint(r: int, c: int, dr: int, dc: int, color: Color)
    requires IsDir(dr, dc)
    ensures Drawn(CapacitorTraces(r, c, dr, dc, color), r, c, dr, dc, color)
  {
    var ts := CapacitorTraces(r, c, dr, dc, color);
    LocalSegInBox(ts[0], r, c, dr, dc, 0.0, 0.0, 11.0, 0.0);
    LocalSegInBox(ts[1], r, c, dr, dc, 19.0, 0.0, 30.0, 0.0);
    LocalSegInBox(ts[2], r, c, dr, dc, 11.0, 10.0, 11.0, -10.0);
    LocalSegInBox(ts[3], r, c, dr, dc, 19.0, 10.0, 19.0, -10.0);
  }

  /** Moving k pixels along the step from local point (a, b) reaches (a + k, b). */
  lemma LocalAlong(r: int, c: int, dr: int, dc: int, a: real, b: real, k: real)
    ensures Offset(Local(r, c, dr, dc, a, b), k, Along(dr, dc)) == Local(r, c, dr, dc, a + k, b)
  {
    var p, u, v := Center(r, c), Along(dr, dc), Across(dr, dc);
    assert p.x + a * u.x + b * v.x + k * u.x == p.x + (a + k) * u.x + b * v.x;
    assert p.y + a * u.y + b * v.y + k * u.y == p.y + (a + k) * u.y + b * v.y;
  }

  /** Moving k pixels across the step from local point (a, b) reaches (a, b + k). */
  lemma LocalAcross(r: int, c: int, dr: int, dc: int, a: real, b: real, k: real)
    ensures Offset(Local(r, c, dr, dc, a, b), k, Across(dr, dc)) == Local(r, c, dr, dc, a, b + k)
  {
    var p, u, v := Center(r, c), Along(dr, dc), Across(dr, dc);
    assert p.x + a * u.x + b * v.x + k * v.x == p.x + a * u.x + (b + k) * v.x;
    assert p.y + a * u.y + b * v.y + k * v.y == p.y + a * u.y + (b + k) * v.y;
  }

  /** A bump starting on the axis `a` pixels along the step, with room for its 7 pixels, stays inside the step's two cells. */
  lemma BumpInFootprint(r: int, c: int, dr: int, dc: int, a: real, color: Color)
    requires IsDir(dr, dc) && 0.0 <= a <= 23.0
    ensures Drawn(Bump(Local(r, c, dr, dc, a, 0.0), Along(dr, dc), Across(dr, dc), color), r, c, dr, dc, color)
  {
    var u, v := Along(dr, dc), Across(dr, dc);
    var from := Local(r, c, dr, dc, a, 0.0);
    var next := Offset(from, 7.0, u);
    LocalAlong(r, c, dr, dc, a, 0.0, 7.0);
    LocalAlong(r, c, dr, dc, a, 0.0, 3.5);
    var mid := Local(r, c, dr, dc, a + 3.5, 0.0);
    assert Midpoint(from, next) == mid;
    LocalAcross(r, c, dr, dc, a + 3.5, 0.0, 8.0);
    var ts := Bump(from, u, v, color);
    LocalSegInBox(ts[0], r, c, dr, dc, a, 0.0, a + 3.5, 8.0);
    LocalSegInBox(ts[1], r, c, dr, dc, a + 3.5, 8.0, a + 7.0, 0.0);
  }

  lemma DrawnAppend(ts: seq<Trace>, us: seq<Trace>, r: int, c: int, dr: int, dc: int, color: Color)
    requires Drawn(ts, r, c, dr, dc, color) && Drawn(us, r, c, dr, dc, color)
    ensures Drawn(ts + us, r, c, dr, dc, color)
  {
  }

  /** The three bumps of the coil stay inside the step's two cells. */
  lemma CoilInFootprint(r: int, c: int, dr: int, dc: int, color: Color)
    requires IsDir(dr, dc)
    ensures Drawn(Bumps(CoilStart(r, c, dr, dc), Along(dr, dc), Across(dr, dc), 3, color), r, c, dr, dc, color)
  {
    var u, side := Along(dr, dc), Across(dr, dc);
    var s0 := CoilStart(r, c, dr, dc);
    var s1, s2 := Offset(s0, 7.0, u), Offset(Offset(s0, 7.0, u), 7.0, u);
    CoilUnfolded(r, c, dr, dc, color);
    assert s0 == Local(r, c, dr, dc, 4.5, 0.0);
    assert s1 == Local(r, c, dr, dc, 11.5, 0.0);
    assert s2 == Local(r, c, dr, dc, 18.5, 0.0);
    BumpInFootprint(r, c, dr, dc, 4.5, color);
    BumpInFootprint(r, c, dr, dc, 11.5, color);
    BumpInFootprint(r, c, dr, dc, 18.5, color);
    DrawnAppend(Bump(s0, u, side, color), Bump(s1, u, side, color), r, c, dr, dc, color);
    DrawnAppend(Bump(s0, u, side, color) + Bump(s1, u, side, color), Bump(s2, u, side, color), r, c, dr, dc, color);
  }

  lemma InductorInFootprint(r: int, c: int, dr: int, dc: int, color: Color)
    requires IsDir(dr, dc)
    ensures Drawn(InductorTraces(r, c, dr, dc, color), r, c, dr, dc, color)
  {
    var ts := InductorTraces(r, c, dr, dc, color);
    CoilInFootprint(r, c, dr, dc, color);
    LocalSegInBox(ts[0], r, c, dr, dc, 0.0, 0.0, 4.5, 0.0);
    LocalSegInBox(ts[1], r, c, dr, dc, 25.5, 0.0, 30.0, 0.0);
  }

  lemma OpAmpInFootprint(r: int, c: int, dr: int, dc: int, color: Color)
    requires IsDir(dr, dc)
    ensures Drawn(OpAmpTraces(r, c, dr, dc, color), r, c, dr, dc, color)
  {
    var ts := OpAmpTraces(r, c, dr, dc, color);
    LocalSegInBox(ts[0], r, c, dr, dc, 7.5, 15.0, 7.5, -15.0);
    LocalSegInBox(ts[1], r, c, dr, dc, 7.5, -15.0, 30.0, 0.0);
    LocalSegInBox(ts[2], r, c, dr, dc, 30.0, 0.0, 7.5, 15.0);
    LocalSegInBox(ts[3], r, c, dr, dc, 0.0, 0.0, 7.5, 0.0);
    LocalSegInBox(ts[4], r, c, dr, dc, 30.0, 0.0, 30.0, 0.0);
  }

  lemma DiodeInFootprint(r: int, c: int, dr: int, dc: int, color: Color)
    requires IsDir(dr, dc)
    ensures Drawn(DiodeTraces(r, c, dr, dc, color), r, c, dr, dc, color)
  {
    var ts := DiodeTraces(r, c, dr, dc, color);
    LocalSegInBox(ts[0], r, c, dr, dc, 5.0, 10.0, 5.0, -10.0);
    LocalSegInBox(ts[1], r, c, dr, dc, 5.0, -10.0, 25.0, 0.0);
    LocalSegInBox(ts[2], r, c, dr, dc, 25.0, 0.0, 5.0, 10.0);
    LocalSegInBox(ts[3], r, c, dr, dc, 25.0, 10.0, 25.0, -10.0);
    LocalSegInBox(ts[4], r, c, dr, dc, 0.0, 0.0, 5.0, 0.0);
    LocalSegInBox(ts[5], r, c, dr, dc, 25.0, 0.0, 30.0, 0.0);
  }

  lemma GroundInFootprint(r: int, c: int, dr: int, dc: int, color: Color)
    requires IsDir(dr, dc)
    ensures Drawn(GroundTraces(r, c, dr, dc, color), r, c, dr, dc, color)
  {
    var ts := GroundTraces(r, c, dr, dc, color);
    LocalSegInBox(ts[0], r, c, dr, dc, 0.0, 0.0, 15.0, 0.0);
    LocalSegInBox(ts[1], r, c, dr, dc, 15.0, 12.0, 15.0, -12.0);
    LocalSegInBox(ts[2], r, c, dr, dc, 19.0, 8.4, 19.0, -8.4);
    LocalSegInBox(ts[3], r, c, dr, dc, 23.0, 3.6, 23.0, -3.6);
  }

  /**
   * No stroke of any symbol leaves the pixel squares of the two cells of its
   * step; a component's side strokes reach at most the edge it shares with
   * the lateral cells the walker marks for it.
   */
  lemma SymbolInFootprint(s: Symbol, r: int, c: int, dr: int, dc: int, color: Color)
    requires IsDir(dr, dc)
    ensures Drawn(SymbolTraces(s, r, c, dr, dc, color), r, c, dr, dc, color)
  {
    match s
    case Wire =>
    case Resistor => ResistorInFootprint(r, c, dr, dc, color);
    case Capacitor => CapacitorInFootprint(r, c, dr, dc, color);
    case Inductor => InductorInFootprint(r, c, dr, dc, color);
    case OpAmp => OpAmpInFootprint(r, c, dr, dc, color);
    case Diode => DiodeInFootprint(r, c, dr, dc, color);
    case Ground => GroundInFootprint(r, c, dr, dc, color);
  }
}
