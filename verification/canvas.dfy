/**
 * Values shared by the two canvas components: the colours they paint with,
 * the particles and line segments (traces) a layout pass produces, and the
 * theme-dependent particle palettes.
 */
module Canvas {
  import opened Wrappers
  import opened Oracle


  /** The CSS colour strings the layout passes assign. */
  datatype Color =
    | Maize          // rgb(255, 203, 5)
    | ElectricBlue   // rgb(50, 150, 255)
    | MichiganBlue   // rgb(0, 39, 76)
    | LegibleMaize   // rgb(220, 165, 20)
    | WireWhite      // rgba(255, 255, 255, 0.75)
    | WireBlack      // rgba(0, 0, 0, 0.75)
    | PadWhite       // rgb(255, 255, 255)
    | PadBlack       // rgb(0, 0, 0)

  /** A dot on the canvas; at layout time it rests on its origin. */
  datatype Particle = Particle(x: real, y: real, originX: real, originY: real, color: Color, size: real)

  /** One stroke of a wire or of a schematic symbol; `width` None renders at 1.5. */
  datatype Trace = Trace(x1: real, y1: real, x2: real, y2: real, color: Color, width: Option<real>)

  /** A point in canvas pixels. */
  datatype Point = Point(x: real, y: real)

  /** A particle at rest on point p. */
  function RestingAt(p: Point, color: Color, size: real): (q: Particle)
    ensures q.x == q.originX == p.x && q.y == q.originY == p.y
    ensures q.color == color && q.size == size
  {
    Particle(p.x, p.y, p.x, p.y, color, size)
  }

  /** resolvedTheme === "dark"; any other value (light, system, unresolved) is light. */
  predicate IsDark(theme: string) {
    theme == "dark"
  }

  const DarkColors: seq<Color> := [Maize, ElectricBlue]
  const LightColors: seq<Color> := [MichiganBlue, MichiganBlue, LegibleMaize]

  /** The palette background particles draw from. */
  function ActiveColors(theme: string): (p: seq<Color>)
    ensures |p| > 0
    ensures IsDark(theme) ==> p == DarkColors
    ensures !IsDark(theme) ==> p == LightColors
  {
    if IsDark(theme) then DarkColors else LightColors
  }

  /** activeColors[Math.floor(Math.random() * activeColors.length)]. */
  function DrawColor(theme: string, d: Draw): (c: Color)
    ensures c in ActiveColors(theme)
    ensures IsDark(theme) ==> c == Maize || c == ElectricBlue
    ensures !IsDark(theme) ==> c == MichiganBlue || c == LegibleMaize
  {
    var palette := ActiveColors(theme);
    palette[Pick(d, |palette|)]
  }

  /** In the light theme Michigan blue takes the first two thirds of the draws. */
  lemma {:induction false} LightPaletteWeights(theme: string, d: Draw)
    requires !IsDark(theme)
    ensures DrawColor(theme, d) == MichiganBlue <==> 3 * d < 2 * Unit
  {
    var i := Pick(d, 3);
    assert i * Unit <= d * 3 < (i + 1) * Unit;
    if i < 2 {
      assert d * 3 < 2 * Unit;
    } else {
      assert d * 3 >= 2 * Unit;
    }
  }
}
