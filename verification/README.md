# Portfolio site canvas layouts, modelled in Dafny

The portfolio site draws two canvases and has two small interactive widgets.
This project models their layout logic and proves properties of it.

- **Background canvas.** `components/particle-wave.tsx`, `initParticles`.
  - The canvas is cut into a grid of 30-pixel cells.
  - A boolean occupancy mask (`circuitGrid`) is created.
  - When the page has a projects section:
    - the card band of the section is marked occupied;
    - sixty random walkers lay out a circuit over the section's zone rows;
    - each walker step draws a wire or a schematic symbol (resistor, capacitor, inductor, op-amp, diode, and a ground cap at a dead end).
  - A final row-major pass turns every cell into one of four things:
    - a dot of the letter-M glyph;
    - a circuit pad;
    - a plain dot in a palette colour;
    - nothing.
  - Modules: `Oracle`, `Canvas`, `GridLayout`, `Occupancy`, `Symbols`, `Walker`, `Fill`, `ParticleWave`.
- **Hero "M" canvas.** `components/dot-block-m.tsx`, `initParticles`.
  - An 11×13 bitmap becomes one resting particle per 1-cell.
  - The canvas is sized to the bitmap plus a 40-pixel margin.
  - Module `DotBlockM`.
- **Photo album card.** `components/PhotoAlbumCard.tsx`.
  - The display mode: slideshow, preview grid or placeholder.
  - The cyclic slide index that the arrow buttons update.
  - The preview slice and the slide counter.
  - Module `PhotoAlbumCard`; the card is the class `AlbumCard`.
- **Media section.** `components/media.tsx`.
  - The category filters of the video and album lists.
  - The select's option values and labels.
  - The empty-state message.
  - Module `Media`.

`Math.random()` is modelled as an explicit stream of draws, `rng: nat -> Draw`. A draw `d` is an integer in [0, 2^53) and stands for d / 2^53. Every pass takes the stream and the index of its first draw as parameters. Every property therefore holds for every possible stream. `Math.floor(Math.random() * n)` is `Oracle.Pick`, and `Math.random() < a / b` is `Oracle.Below`; both are exact integer arithmetic. Trace coordinates are exact rationals (`real`). Every walker step is one axis-aligned cell, so the `Math.sqrt` length in the symbol emitters is exactly 30 and the unit vector is (dc, dr).

## Behaviour worth noting

- **The card band gets pads.** The code marks every card-band cell occupied (particle-wave.tsx:300-304). The fill pass then draws a pad on every occupied cell of the zone rows (414-417). So the card band is covered with pads wherever it lies inside the zone rows. `ParticleWave.InitParticles` (band cells are marked) and `ParticleWave.BackgroundDrawn` (occupied zone cells get a pad) state this together.
- **A zero-height zone keeps its zone row.** When the section exists but its zone has zero height (`projectsEndRow == projectsStartRow`), no walker spawns. That one zone row is still a zone row for the fill: it shows pads on the card band and nothing elsewhere. Only a page without a projects section falls back to plain dots everywhere outside the glyph box.
- **The background canvas is the window's size.** Its width is the window's inner width, and its height is the largest of the window's inner height and the two document scroll heights. Only the hero "M" canvas is sized from its bitmap, as columns × pitch + padding (`DotBlockM.BlockCanvasSize`).

## Model

| member | source | states |
|---|---|---|
| Oracle.Pick | components/particle-wave.tsx:312-313 | `Math.floor(Math.random() * n)` is an index in [0, n) |
| Oracle.PickBounds | components/particle-wave.tsx:312-313 | the index is the floor of d/2^53 · n: Pick·2^53 ≤ d·n < (Pick+1)·2^53 |
| Oracle.PickCovers | components/particle-wave.tsx:345 | every one of the n alternatives is chosen by some draw, so uniform choice reaches every valid direction |
| Canvas.RestingAt | components/particle-wave.tsx:409 | a pushed particle's origin equals its position, with the given colour and size |
| Canvas.ActiveColors | components/particle-wave.tsx:47 | the palette is the dark list on theme "dark" and the light list for any other theme; never empty |
| Canvas.DrawColor | components/particle-wave.tsx:400 | the drawn colour belongs to the theme's palette: maize or electric blue on dark, Michigan blue or legible maize otherwise |
| Canvas.LightPaletteWeights | components/particle-wave.tsx:25 | with Michigan blue listed twice, the light palette picks it exactly for the draws below 2/3 |
| GridLayout.CanvasHeight | components/particle-wave.tsx:45 | the canvas height is the largest of the viewport height and both scroll heights |
| GridLayout.CellCount | components/particle-wave.tsx:52-53 | `max(1, ceil(size / 30))`: at least 1, the cells cover the extent, and one cell fewer would not |
| GridLayout.Center | components/particle-wave.tsx:135 | `getCoords(r, c)` lies strictly inside the pixel square of cell (r, c) |
| GridLayout.CenterInjective | components/particle-wave.tsx:135 | distinct cells have distinct centres |
| GridLayout.MShapeDimensions | components/particle-wave.tsx:57-71 | the glyph stencil has 11 rows of 15 columns |
| GridLayout.MPixelInVoidZone | components/particle-wave.tsx:404-406 | every 1 of the stencil lies inside the padded glyph box |
| GridLayout.ClampRow | components/particle-wave.tsx:112-113 | a pixel row becomes a grid row clamped into [0, rows-1]: its own row when inside the canvas, 0 above it, the last row below it |
| GridLayout.ZoneFor | components/particle-wave.tsx:97-128 | startRow is the clamped row of max(0, top+headerOffset-50) and endRow that of top+height+50, with 0 ≤ startRow ≤ endRow ≤ rows-1; the card rows are floor((top+180+headerOffset)/30) and floor((top+height-100)/30) |
| GridLayout.ZoneRowsMatchSection | components/particle-wave.tsx:101-113 | rows above the zone lie wholly above the section span and rows below it wholly below; a zone row reaches the span unless clamped onto the first or last row |
| GridLayout.ClampRowMonotone | components/particle-wave.tsx:109-113 | the clamped start row never exceeds the clamped end row |
| GridLayout.ExcludeStartCol | components/particle-wave.tsx:131 | `Math.floor(cols * 0.15)`, as exact integer floor bounds |
| GridLayout.ExcludeEndCol | components/particle-wave.tsx:132 | `Math.floor(cols * 0.85)`, as exact integer floor bounds |
| GridLayout.CardBandInGrid | components/particle-wave.tsx:131-132 | the card band's columns are a non-empty range inside the grid |
| Occupancy.IsClear | components/particle-wave.tsx:136-139 | a cell is clear only if it is inside the grid; inside, clear iff not occupied |
| Occupancy.MarkOccupied | components/particle-wave.tsx:140-142 | sets exactly cell (r, c) when it is inside the grid and changes nothing else |
| Occupancy.MarkRect | components/particle-wave.tsx:300-304 | afterwards a cell is occupied iff it was before or lies in the rectangle; nothing outside the grid is written |
| Symbols.DirsAreUnitSteps | components/particle-wave.tsx:333 | the direction list holds exactly the four axis-aligned unit steps |
| Symbols.WireTraces | components/particle-wave.tsx:381-387 | one trace from (30c+15, 30r+15) to the centre of the adjacent next cell, inside the step's two cells |
| Symbols.ResistorTraces | components/particle-wave.tsx:145-160 | 5 traces forming one connected stroke from the first centre to the second |
| Symbols.CapacitorTraces | components/particle-wave.tsx:161-183 | 4 traces: leads that start and end at the two centres, and two plates of width 2 |
| Symbols.Bumps | components/particle-wave.tsx:198-212 | n bumps emit 2n traces in the step's colour |
| Symbols.InductorTraces | components/particle-wave.tsx:184-213 | 8 traces (2 leads + 2·3 bump segments) in the step's colour |
| Symbols.AddInductor | components/particle-wave.tsx:184-213 | the bump loop pushes exactly the closed-form inductor traces |
| Symbols.InductorCoilConnected | components/particle-wave.tsx:198-212 | the three bumps form one connected stroke from the end of the first lead to the start of the second |
| Symbols.OpAmpTraces | components/particle-wave.tsx:214-240 | 5 traces: a closed triangle and two leads from and to the two centres |
| Symbols.DiodeTraces | components/particle-wave.tsx:241-272 | 6 traces: a closed triangle; a width-2 bar centred on its tip, 10 px to each side across the step; and leads joining the centres to the triangle's base and tip |
| Symbols.GroundTraces | components/particle-wave.tsx:273-293 | 4 traces: a lead from the cell centre to the step midpoint, then three bars |
| Symbols.SymbolTraces | components/particle-wave.tsx:375-388 | each symbol emits its fixed count (wire 1, resistor 5, capacitor 4, inductor 8, op-amp 5, diode 6, ground 4), all in the circuit colour |
| Symbols.DrawSymbol | components/particle-wave.tsx:375-388 | dispatching on the component type pushes that symbol's traces |
| Symbols.ResistorInFootprint | components/particle-wave.tsx:145-160 | every resistor stroke stays inside the pixel squares of the step's two cells |
| Symbols.CapacitorInFootprint | components/particle-wave.tsx:161-183 | every capacitor stroke stays inside the step's two cells |
| Symbols.BumpInFootprint | components/particle-wave.tsx:203-210 | one 7-pixel bump starting on the axis between the centres stays inside the step's two cells |
| Symbols.CoilInFootprint | components/particle-wave.tsx:198-212 | the three bumps of the coil stay inside the step's two cells |
| Symbols.InductorInFootprint | components/particle-wave.tsx:184-213 | every inductor stroke stays inside the step's two cells |
| Symbols.OpAmpInFootprint | components/particle-wave.tsx:214-240 | every op-amp stroke stays inside the step's two cells |
| Symbols.DiodeInFootprint | components/particle-wave.tsx:241-272 | every diode stroke stays inside the step's two cells |
| Symbols.GroundInFootprint | components/particle-wave.tsx:273-293 | every ground stroke stays inside the step's two cells |
| Symbols.SymbolInFootprint | components/particle-wave.tsx:375-388 | no symbol draws outside the two cells of its step |
| Walker.EmittedCount | components/particle-wave.tsx:375-388 | the traces of a walk are exactly the sum of its symbols' counts, at most 8 per step |
| Walker.EmittedInFootprints | components/particle-wave.tsx:375-388 | every trace of a walk has the circuit colour and lies in the footprint of the step that drew it |
| Walker.ClearDirs | components/particle-wave.tsx:335 | `dirs.filter(isClear)`: keeps exactly the directions whose target is clear |
| Walker.ClearDirsAppend | components/particle-wave.tsx:335 | the filter distributes over concatenation, so the clear directions keep the order of `dirs` that the index draw reads |
| Walker.ClearDirsAllClear | components/particle-wave.tsx:335 | with every target clear the filter returns the list unchanged |
| Walker.ValidDirs | components/particle-wave.tsx:333-337 | valid moves are unit steps onto clear cells; there are none iff no 4-neighbour is clear |
| Walker.MarkCells | components/particle-wave.tsx:369-372 | afterwards a cell is occupied iff it was before or is one of the listed in-grid cells |
| Walker.CompSpaceMeansLateralsClear | components/particle-wave.tsx:350-354 | `hasCompSpace` holds iff all four lateral cells are clear |
| Walker.ChooseComponent | components/particle-wave.tsx:356-365 | never a ground; a component is chosen iff there is room and the draw is below 0.5 |
| Walker.ComponentBand | components/particle-wave.tsx:359-365 | with room, each component owns exactly its tenth of the draws: resistor [0,0.1), capacitor [0.1,0.2), … diode [0.4,0.5) |
| Walker.Spawn | components/particle-wave.tsx:310-326 | no draw and no spawn when zoneHeight ≤ 0; otherwise up to 10 attempts of two draws each, the start is the first clear attempted cell, in rows [startRow, startRow+zoneHeight) and any column, and every earlier attempt hit an occupied cell |
| Walker.ClaimsStart | components/particle-wave.tsx:329 | a walk begins as the one-cell path on its start cell |
| Walker.ClaimsStep | components/particle-wave.tsx:345-391 | a step onto an unclaimed cell keeps the path self-avoiding and claims the next cell, plus the lateral cells of a component |
| Walker.MarkStep | components/particle-wave.tsx:367-373 | marks the next cell, and the four lateral cells for a component, all of them previously clear |
| Walker.PlaceSymbol | components/particle-wave.tsx:349-388 | the symbol follows the room and the draw; its cells are marked and its traces returned |
| Walker.Advance | components/particle-wave.tsx:345-391 | one step in direction `validDirs[i]`: the next cell is (r + dr, c + dc); the symbol is `ChooseComponent` of the room before the step and the draw; the path gains exactly the next cell, the placements exactly this step, the claimed cells exactly its `StepCells`, the traces exactly its `SymbolTraces`; a grid cell is occupied afterwards iff it was before or is one of the step's cells; the walk's state stays well formed |
| Walker.Stride | components/particle-wave.tsx:332-391 | the loop's view of one step: the path grows by one cell ending at the next cell, and marks, shape, claimed cells and traces stay consistent |
| Walker.StepKeeps | components/particle-wave.tsx:345-391 | a step from the end of the path onto an unclaimed cell keeps the path self-avoiding, keeps the claimed cells equal to the start cell and the steps' cells, and keeps the traces equal to what the placements emit |
| Walker.ClaimedBySnoc | components/particle-wave.tsx:367-373 | the cells claimed by the steps grow by exactly the new step's cells |
| Walker.ClaimedByMembers | components/particle-wave.tsx:367-373 | a cell is claimed by the steps iff it is one of the cells of some step |
| Walker.GroundCap | components/particle-wave.tsx:337-343 | a stuck walker is capped with a ground symbol iff the draw is below 0.3, in the direction of the next draw; it uses two draws with a cap and one without (`CapDrawn`) |
| Walker.Wander | components/particle-wave.tsx:331-392 | the step loop: the budget is spent, or the loop stops early exactly at a cell with no clear neighbour; each step uses two draws; the claimed cells are the start cell and the steps' cells, all marked; the traces are exactly what the placements emit |
| Walker.Walk | components/particle-wave.tsx:329-392 | marks exactly the start cell and the steps' cells, all of them clear and in the grid before; the path is self-avoiding from the start cell; at most 30 + floor(r·50) ≤ 79 steps, fewer only when stuck; when the budget is spent there is no cap and exactly 1 + 2·steps draws are used; when stuck, the cap is drawn from the draw after the last step (`CapDrawn`); traces are exactly the steps' symbols then the cap |
| Fill.CellParticle | components/particle-wave.tsx:396-421 | any particle of a cell rests at that cell's centre |
| Fill.CellCases | components/particle-wave.tsx:404-421 | in the padded glyph box a dot iff the stencil has a 1; else in the zone rows a size-2 pad iff occupied; else always a size-2.5 dot in a palette colour |
| Fill.GlyphBoxIgnoresMask | components/particle-wave.tsx:404-412 | what the glyph box shows depends neither on the mask nor on the draw |
| Fill.LayoutRuleCentred | components/particle-wave.tsx:398-399 | every particle of the layout sits at the centre of its own cell |
| Fill.FillParticles | components/particle-wave.tsx:396-423 | the nested loops push, row by row, each cell's particle, using one colour draw per cell: rows·cols draws in all |
| Fill.FillRowParticles | components/particle-wave.tsx:397-422 | the inner loop pushes the row's particles, left to right, and makes one draw per cell |
| Fill.FillRowSound | components/particle-wave.tsx:397-422 | every particle of a row is the decision of one of its cells |
| Fill.FillRowComplete | components/particle-wave.tsx:397-422 | every particle a cell of the row decides is pushed in that row |
| Fill.FillGridSound | components/particle-wave.tsx:396-423 | every pushed particle is the decision of some grid cell |
| Fill.FillGridComplete | components/particle-wave.tsx:396-423 | every particle a grid cell decides is pushed |
| Fill.FillRowOrdered | components/particle-wave.tsx:397-399 | a row's particles lie on that row, left to right, strictly ordered |
| Fill.FillGridOrdered | components/particle-wave.tsx:396-399 | all particles are in strictly increasing row-major order, above the grid's bottom edge |
| Fill.FillRowCount | components/particle-wave.tsx:397-422 | a row pushes at most one particle per cell |
| Fill.FillGridCount | components/particle-wave.tsx:396-423 | the pass pushes at most rows·cols particles |
| ParticleWave.ZoneOf | components/particle-wave.tsx:82-113 | all zone rows are -1 without a projects section; otherwise the zone is that of the section's position on the grid, with 0 ≤ startRow ≤ endRow < rows |
| ParticleWave.WalkTracesColored | components/particle-wave.tsx:89-91 | every stroke of a walk, ground cap included, has `circuitBaseColor` |
| ParticleWave.RunWalkers | components/particle-wave.tsx:306-393 | sixty walkers only ever add marks and draw in the circuit colour; with zoneHeight ≤ 0 they draw nothing, mark nothing and consume no draw |
| ParticleWave.InitParticles | components/particle-wave.tsx:44-423 | the mask is rows×cols; the particles are the fill pass over it; without a section there are no traces and no marks; with one the whole card band is marked, and with zoneHeight 0 exactly the band is marked |
| ParticleWave.LayoutOrdered | components/particle-wave.tsx:396-423 | the layout's particles are in strictly increasing row-major order, at most one per cell |
| ParticleWave.LayoutParticleCases | components/particle-wave.tsx:404-421 | every particle is a glyph dot on a stencil 1, a pad on an occupied zone-row cell, or a palette dot elsewhere, at rest at its cell's centre |
| ParticleWave.GlyphDrawn | components/particle-wave.tsx:404-410 | every stencil 1 that falls on the grid is drawn, in the glyph colour and size 2.5 |
| ParticleWave.BackgroundDrawn | components/particle-wave.tsx:414-421 | outside the glyph box every occupied zone-row cell shows a pad, and every cell outside the zone rows shows a palette dot |
| DotBlockM.BlockShapeDimensions | components/dot-block-m.tsx:23-35 | the bitmap is rectangular, 11 rows by 13 columns |
| DotBlockM.BlockCanvasSize | components/dot-block-m.tsx:65-68 | the canvas is cols·30 + 2·40 = 470 by rows·30 + 2·40 = 410 pixels |
| DotBlockM.DotCenter | components/dot-block-m.tsx:81-82 | (40 + 30c + 15, 40 + 30r + 15) lies strictly inside the bitmap cell's square on the canvas |
| DotBlockM.Placed | components/dot-block-m.tsx:83-90 | one particle per listed cell |
| DotBlockM.PlacedAt | components/dot-block-m.tsx:81-90 | the i-th particle sits at the i-th cell's centre, in the colour of the i-th draw |
| DotBlockM.PlacedAppend | components/dot-block-m.tsx:78-93 | placing two runs of cells one after the other equals placing the second from the draw where the first stopped |
| DotBlockM.ScanRow | components/dot-block-m.tsx:79-92 | the inner forEach pushes the particles of the row's 1-cells, left to right, one draw per particle |
| DotBlockM.ScanRowAppends | components/dot-block-m.tsx:78-93 | the particles of the rows above, followed by row r's, are the particles of rows 0 .. r |
| DotBlockM.ScanShape | components/dot-block-m.tsx:78-93 | the nested forEach pushes the particles of the 1-cells in row-major order and makes one draw per particle |
| DotBlockM.InitParticles | components/dot-block-m.tsx:63-95 | the canvas is sized cols·30+80 by rows·30+80, and the particles are those of the 1-cells with theme colours |
| DotBlockM.RowOnesExact | components/dot-block-m.tsx:79-80 | the scan of a row lists exactly its 1-cells, left to right |
| DotBlockM.ShapeOnesExact | components/dot-block-m.tsx:78-80 | the scan of the bitmap lists exactly its 1-cells, in strictly row-major order |
| DotBlockM.BlockParticles | components/dot-block-m.tsx:78-93 | a particle iff a 1-cell; each rests at its centre with size 2.5 and a palette colour, strictly inside the canvas, at strictly row-major, hence pairwise distinct, positions |
| PhotoAlbumCard.NextIndex | components/PhotoAlbumCard.tsx:38 | `(s + 1) % n` is a slide index in [0, n) |
| PhotoAlbumCard.PrevIndex | components/PhotoAlbumCard.tsx:44 | `(s - 1 + n) % n` is a slide index in [0, n) |
| PhotoAlbumCard.NextSteps | components/PhotoAlbumCard.tsx:38 | next moves forward by one, from the last slide to the first |
| PhotoAlbumCard.PrevSteps | components/PhotoAlbumCard.tsx:44 | prev moves back by one, from the first slide to the last |
| PhotoAlbumCard.NextPrevInverse | components/PhotoAlbumCard.tsx:38-44 | prev(next(s)) = s and next(prev(s)) = s |
| PhotoAlbumCard.NextTimesIs | components/PhotoAlbumCard.tsx:38 | m presses of next give (s + m) % n |
| PhotoAlbumCard.NextCycle | components/PhotoAlbumCard.tsx:38 | n presses of next return to s, and no positive number of presses below n does |
| PhotoAlbumCard.ModeOf | components/PhotoAlbumCard.tsx:47-53 | slideshow iff no external link and some photos; preview grid iff an external link and some photos; placeholder iff no photos |
| PhotoAlbumCard.Preview | components/PhotoAlbumCard.tsx:103 | `slice(0, 4)`: the first min(4, n) photos, in order |
| PhotoAlbumCard.AlbumCard.constructor | components/PhotoAlbumCard.tsx:33 | a card starts on slide 0 with its props |
| PhotoAlbumCard.AlbumCard.Next | components/PhotoAlbumCard.tsx:35-39 | the right arrow sets the slide to next(old slide) and keeps it a valid index |
| PhotoAlbumCard.AlbumCard.Prev | components/PhotoAlbumCard.tsx:41-45 | the left arrow sets the slide to prev(old slide) and keeps it a valid index |
| PhotoAlbumCard.AlbumCard.CurrentPhoto | components/PhotoAlbumCard.tsx:69 | `localPhotos[currentSlide]` is one of the card's photos |
| PhotoAlbumCard.AlbumCard.Counter | components/PhotoAlbumCard.tsx:96 | the counter shows currentSlide+1, in [1, n], of n, and its first number names the photo on show |
| PhotoAlbumCard.NextThenPrev | components/PhotoAlbumCard.tsx:35-45 | pressing the right arrow and then the left one returns the card to its slide |
| Media.KeepCategory | components/media.tsx:31 | the filter keeps exactly the items whose category equals the selection, never more items than given |
| Media.Filtered | components/media.tsx:29-35 | "all" shows the list unchanged; any other selection shows the category filter |
| Media.KeepAppend | components/media.tsx:31 | filtering preserves the original order: it distributes over concatenation |
| Media.KeepIdempotent | components/media.tsx:31 | filtering twice by a category is filtering once |
| Media.KeepAllMatching | components/media.tsx:31 | when every item has the category the filter returns the list unchanged |
| Media.CategoryOptions | components/media.tsx:26-27 | the options are "all" followed by the categories in their order |
| Media.UpperAscii | components/media.tsx:74 | `toUpperCase` of one character: a-z map to A-Z, anything else is kept |
| Media.Capitalize | components/media.tsx:74 | the label keeps the length; its first character is upper-cased and the rest is unchanged |
| Media.CapitalizeIdempotent | components/media.tsx:74 | capitalising a label again changes nothing |
| Media.CapitalizeFixes | components/media.tsx:74 | a category is its own label iff it is empty or does not start with a lower-case letter |
| Media.OptionLabel | components/media.tsx:72-75 | "All Videos"/"All Albums" for "all", else the capitalised category |
| Media.EmptyMessageCases | components/media.tsx:102-106 | the message for "all" is "No video projects are configured yet." for videos and "No photo albums are configured yet." for albums, and differs from every other selection's; different selections give different messages |
| Media.EmptyStateMeans | components/media.tsx:83 | the empty state shows iff the list is empty (for "all") or no item has the selected category |

## Left out

- Per-frame animation of all three canvases is not modelled: the mouse repulsion, the spring return, friction, `requestAnimationFrame` and canvas drawing. These are floating-point physics. `components/interactive-bubbles.tsx` is not part of this model for the same reason.
- DOM measurement is not modelled. `getBoundingClientRect`, `window.scrollY`, the scroll heights, `ResizeObserver` and the event listeners become inputs: the `Viewport` and the optional `Section`, in integer pixels. The effect hooks' re-runs on resize and theme change are not modelled.
- Math.random is not modelled itself. It is the stream parameter `rng` described above. The pixel and colour arithmetic is exact (integers and rationals), so floating-point rounding is not modelled.
- `lib/media-data` is not part of this model. The category lists and the items are inputs, and an item's category is an `Option<string>`.
- Media.UpperAscii: only ASCII a-z are upper-cased. JavaScript's `toUpperCase` also maps other letters and can change a string's length.
- PhotoAlbumCard.AlbumCard.Next: requires slideshow mode, so at least one photo, because the arrow buttons exist only in that mode. The handler's `% 0` on an empty list is therefore not modelled.
- PhotoAlbumCard.AlbumCard.Prev: requires slideshow mode, for the same reason as Next.
- The following parts of the card and the media section are not modelled:
  - props changing while `currentSlide` keeps its old value;
  - the media section's grid/list toggle;
  - all rendering markup.
- DotBlockM.InitParticles: takes the bitmap as a parameter and requires it to be rectangular and non-empty. The component always passes `BlockShape`, which `DotBlockM.BlockShapeDimensions` shows to qualify.
- ParticleWave.InitParticles: returns the occupancy mask so that its contents can be stated. In the component the mask is local and discarded. The index of the fill pass's first draw, `kFill`, is ghost. It is 0 without a section, and otherwise it is however many draws the walkers used.
- ParticleWave.RunWalkers: across the sixty walkers it states only what they share: marks grow, and traces have the circuit colour. The per-walker promises are the contracts of `Walker.Spawn` and `Walker.Walk`: spawn position, self-avoidance, step bound and cells that were clear. They are not re-collected over the whole loop.
- Walker.Walk: states how many draws the walk uses and which draws decide the cap. It does not tie each step's direction to the draw `Pick(rng(k0 + 1 + 2t), |validDirs|)`, nor each step's symbol to the draw `rng(k0 + 2 + 2t)`. Those ties hold for each step through `Walker.Advance`'s contract; they are not collected over the loop.
- Walker.Wander: states the same draw count as Walk and the same per-step limits on what the steps do. It does not collect the per-step draw ties either.
- Walker.Stride: states the shape of the walk after the step, not the exact extension. The exact extension is the contract of `Walker.Advance`, which Stride calls.
- Fill.FillParticles is generic in the per-cell decision (`CellRule`), and `DotBlockM.ScanShape` is generic in the colour choice (`Palette`). The component's own decision is `Fill.LayoutRule`, and its own palette is `DotBlockM.ThemePalette`.
